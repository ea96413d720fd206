/** interactions/commands/setup.py: the `read_channels` table, guild id to
    channel id to entry (both keys the decimal string of the Discord id), the
    membership test the bot uses before reading a message aloud, and the
    enable, disable and toggle branches of the `/setup` handler. */
module ReadChannels {
  import opened Wrappers
  import opened Text

  /** One channel's entry; `enabled` is `None` when a hand-edited file
      lacks the key. */
  datatype ChannelEntry = ChannelEntry(name: string, enabled: Option<bool>, lastUpdated: string)

  type Table = map<string, map<string, ChannelEntry>>

  /** `is_read_channel`: both keys exist and the entry's `enabled` is true
      (`.get("enabled", False)`). */
  predicate IsRead(t: Table, guildId: int, channelId: int) {
    var g := IntToString(guildId);
    var c := IntToString(channelId);
    g in t && c in t[g] && t[g][c].enabled.GetOr(false)
  }

  /** Whether the channel has an entry at all, enabled or not. */
  predicate Listed(t: Table, guildId: int, channelId: int) {
    IntToString(guildId) in t && IntToString(channelId) in t[IntToString(guildId)]
  }

  datatype Channel = Channel(id: int, name: string)

  datatype Toggle = Enable | Disable

  datatype SetupOutcome = NoPermission | NotInGuild | NoManageChannels | Enabled(channel: Channel) | Disabled(channel: Channel)

  /** The handler on the table. `permitted` is false exactly when the
      `SlashCommands` cog is loaded and refuses `"setup"`; `guildId` is `None`
      in a DM; `channel` defaults to `current`; `now` is the ISO timestamp. */
  function SetupStep(t: Table, permitted: bool, guildId: Option<int>, manageChannels: bool,
                     channel: Option<Channel>, current: Channel, enable: Option<Toggle>, now: string)
    : (Table, SetupOutcome)
  {
    if !permitted then (t, NoPermission)
    else if guildId.None? then (t, NotInGuild)
    else if !manageChannels then (t, NoManageChannels)
    else
      var ch := channel.GetOr(current);
      var choice := if enable.Some? then enable.value
                    else if Listed(t, guildId.value, ch.id) then Disable else Enable;
      var g := IntToString(guildId.value);
      var c := IntToString(ch.id);
      var t1 := if g in t then t else t[g := map[]];
      if choice == Enable then
        (t1[g := t1[g][c := ChannelEntry(ch.name, Some(true), now)]], Enabled(ch))
      else
        (t1[g := t1[g] - {c}], Disabled(ch))
  }

  /** Refusals change nothing; every accepted call leaves a map for the guild,
      even a disable; enabling makes the channel read, disabling makes it not
      read and not listed; an omitted choice flips whether it is listed. */
  lemma SetupEffect(t: Table, permitted: bool, guildId: Option<int>, manageChannels: bool,
                    channel: Option<Channel>, current: Channel, enable: Option<Toggle>, now: string)
    ensures var (t', out) := SetupStep(t, permitted, guildId, manageChannels, channel, current, enable, now);
      && (out == NoPermission <==> !permitted)
      && (out == NotInGuild <==> permitted && guildId.None?)
      && (out == NoManageChannels <==> permitted && guildId.Some? && !manageChannels)
      && (out.Enabled? || out.Disabled? ==>
            && out.channel == channel.GetOr(current)
            && IntToString(guildId.value) in t'
            && (out.Enabled? <==> IsRead(t', guildId.value, out.channel.id))
            && (out.Enabled? <==> Listed(t', guildId.value, out.channel.id))
            && (enable.Some? ==> (out.Enabled? <==> enable == Some(Enable)))
            && (enable.None? ==> (out.Enabled? <==> !Listed(t, guildId.value, out.channel.id))))
      && (!out.Enabled? && !out.Disabled? ==> t' == t)
  {
  }

  /** Every other channel, in this guild or another, keeps its state. */
  lemma SetupIsolated(t: Table, permitted: bool, guildId: Option<int>, manageChannels: bool,
                      channel: Option<Channel>, current: Channel, enable: Option<Toggle>, now: string,
                      g: int, c: int)
    requires guildId.Some? ==> (g, c) != (guildId.value, channel.GetOr(current).id)
    ensures var (t', _) := SetupStep(t, permitted, guildId, manageChannels, channel, current, enable, now);
      && IsRead(t', g, c) == IsRead(t, g, c)
      && Listed(t', g, c) == Listed(t, g, c)
  {
    if guildId.Some? {
      var ch := channel.GetOr(current);
      if IntToString(g) == IntToString(guildId.value) {
        IntToStringInjective(g, guildId.value);
        if IntToString(c) == IntToString(ch.id) {
          IntToStringInjective(c, ch.id);
        }
      }
    }
  }

  class SetupCommand {
    var readChannels: Table

    /** The constructor loads the file with `_load_settings`, which gives
        `{}` for a missing or unreadable file. */
    constructor (file: Stored<Table>)
      ensures readChannels == LoadOr(file, map[])
    {
      readChannels := LoadOr(file, map[]);
    }

    /** `is_read_channel(guild_id, channel_id)`. */
    function IsReadChannel(guildId: int, channelId: int): (r: bool)
      reads this
      ensures r <==> IsRead(readChannels, guildId, channelId)
    {
      var g := IntToString(guildId);
      var c := IntToString(channelId);
      if g !in readChannels then false
      else if c !in readChannels[g] then false
      else match readChannels[g][c].enabled
        case Some(b) => b
        case None => false
    }

    /** The `/setup` handler; the file save after a change is left out. */
    method Setup(permitted: bool, guildId: Option<int>, manageChannels: bool,
                 channel: Option<Channel>, current: Channel, enable: Option<Toggle>, now: string)
      returns (outcome: SetupOutcome)
      modifies this
      ensures (readChannels, outcome)
           == SetupStep(old(readChannels), permitted, guildId, manageChannels, channel, current, enable, now)
    {
      if !permitted {
        return NoPermission;
      }
      if guildId.None? {
        return NotInGuild;
      }
      if !manageChannels {
        return NoManageChannels;
      }
      var ch := if channel.None? then current else channel.value;
      var g := IntToString(guildId.value);
      var c := IntToString(ch.id);
      var choice := Enable;
      if enable.None? {
        if g in readChannels && c in readChannels[g] {
          choice := Disable;
        }
      } else {
        choice := enable.value;
      }
      if g !in readChannels {
        readChannels := readChannels[g := map[]];
      }
      if choice == Enable {
        readChannels := readChannels[g := readChannels[g][c := ChannelEntry(ch.name, Some(true), now)]];
        return Enabled(ch);
      }
      if c in readChannels[g] {
        readChannels := readChannels[g := readChannels[g] - {c}];
      } else {
        assert readChannels[g] - {c} == readChannels[g];
        assert readChannels[g := readChannels[g]] == readChannels;
      }
      return Disabled(ch);
    }
  }
}
