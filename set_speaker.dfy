/** interactions/commands/set_speaker.py: the per-user and per-server default
    speaker tables (keyed by the decimal string of the Discord id), the
    resolution order user, server, configured default, the search that turns a
    speaker id into `"name (style)"`, and the branches of the `/set_speaker`
    handler that write the tables. */
module SpeakerSettings {
  import opened Wrappers
  import opened Text
  import Voicevox

  /** A settings file: `str(id)` to speaker id. */
  type Settings = map<string, int>

  /** Python's `f"{x}"` of a value read with `.get`: `None` for a missing key. */
  function NameOr(n: Option<string>): string {
    match n
    case None => "None"
    case Some(s) => s
  }

  /** The text `_validate_speaker_id` returns for a matching style. It is
      never empty, so the caller's `if not speaker_info` only rejects a
      missing id. */
  function StyleLabel(speaker: Voicevox.Speaker, style: Voicevox.Style): (shown: string)
    ensures |shown| >= 3
    ensures NameOr(speaker.name) <= shown
  {
    NameOr(speaker.name) + " (" + NameOr(style.name) + ")"
  }

  /** Some style of some speaker has `"id"` equal to `id`. */
  predicate HasStyle(speakers: seq<Voicevox.Speaker>, id: int) {
    exists i, j :: 0 <= i < |speakers| && 0 <= j < |speakers[i].styles| && speakers[i].styles[j].id == Some(id)
  }

  /** The first style in `styles` whose id is `id`. */
  function FirstStyle(styles: seq<Voicevox.Style>, id: int): Option<Voicevox.Style> {
    if styles == [] then None
    else if styles[0].id == Some(id) then Some(styles[0])
    else FirstStyle(styles[1..], id)
  }

  /** The label of the first matching style, speakers in order and styles in
      order within each speaker. */
  function FirstLabel(speakers: seq<Voicevox.Speaker>, id: int): Option<string> {
    if speakers == [] then None
    else match FirstStyle(speakers[0].styles, id)
      case Some(style) => Some(StyleLabel(speakers[0], style))
      case None => FirstLabel(speakers[1..], id)
  }

  lemma {:induction false} FirstStyleFinds(styles: seq<Voicevox.Style>, id: int)
    ensures FirstStyle(styles, id).None? <==> forall j :: 0 <= j < |styles| ==> styles[j].id != Some(id)
    ensures FirstStyle(styles, id).Some? ==>
      exists j :: (&& 0 <= j < |styles| && styles[j] == FirstStyle(styles, id).value
                   && styles[j].id == Some(id)
                   && forall k :: 0 <= k < j ==> styles[k].id != Some(id))
  {
    if styles != [] && styles[0].id != Some(id) {
      FirstStyleFinds(styles[1..], id);
      assert forall j :: 0 < j < |styles| ==> styles[j] == styles[1..][j - 1];
      if FirstStyle(styles, id).Some? {
        var j :| (&& 0 <= j < |styles[1..]| && styles[1..][j] == FirstStyle(styles, id).value
                  && styles[1..][j].id == Some(id)
                  && forall k :: 0 <= k < j ==> styles[1..][k].id != Some(id));
        assert styles[j + 1] == styles[1..][j];
        assert forall k :: 0 < k < j + 1 ==> styles[k] == styles[1..][k - 1];
      }
    }
  }

  /** The search finds nothing exactly when no style has the id. */
  lemma {:induction false} FirstLabelNone(speakers: seq<Voicevox.Speaker>, id: int)
    ensures FirstLabel(speakers, id).None? <==> !HasStyle(speakers, id)
  {
    if speakers != [] {
      FirstStyleFinds(speakers[0].styles, id);
      var rest := speakers[1..];
      if FirstStyle(speakers[0].styles, id).None? {
        FirstLabelNone(rest, id);
        if HasStyle(speakers, id) {
          var i, j :| 0 <= i < |speakers| && 0 <= j < |speakers[i].styles| && speakers[i].styles[j].id == Some(id);
          assert rest[i - 1] == speakers[i];
          assert rest[i - 1].styles[j].id == Some(id);
        }
        if HasStyle(rest, id) {
          var i, j :| 0 <= i < |rest| && 0 <= j < |rest[i].styles| && rest[i].styles[j].id == Some(id);
          assert speakers[i + 1] == rest[i];
        }
      } else {
        var j :| 0 <= j < |speakers[0].styles| && speakers[0].styles[j].id == Some(id);
      }
    }
  }

  /** Style `j` of speaker `i` has the id and no earlier style, in speaker
      order then style order, has it. */
  predicate FirstMatch(speakers: seq<Voicevox.Speaker>, id: int, i: int, j: int) {
    && 0 <= i < |speakers| && 0 <= j < |speakers[i].styles|
    && speakers[i].styles[j].id == Some(id)
    && (forall p, q :: 0 <= p < i && 0 <= q < |speakers[p].styles| ==> speakers[p].styles[q].id != Some(id))
    && (forall q :: 0 <= q < j ==> speakers[i].styles[q].id != Some(id))
  }

  /** A successful search answers with the label of the first match in
      speaker order, then style order. */
  lemma {:induction false} FirstLabelFirst(speakers: seq<Voicevox.Speaker>, id: int)
    requires FirstLabel(speakers, id).Some?
    ensures exists i, j :: FirstMatch(speakers, id, i, j)
                           && FirstLabel(speakers, id).value == StyleLabel(speakers[i], speakers[i].styles[j])
  {
    FirstStyleFinds(speakers[0].styles, id);
    if FirstStyle(speakers[0].styles, id).None? {
      var rest := speakers[1..];
      FirstLabelFirst(rest, id);
      var i, j :| FirstMatch(rest, id, i, j) && FirstLabel(rest, id).value == StyleLabel(rest[i], rest[i].styles[j]);
      assert speakers[i + 1] == rest[i];
      forall p, q | 0 <= p < i + 1 && 0 <= q < |speakers[p].styles|
        ensures speakers[p].styles[q].id != Some(id)
      {
        if p > 0 { assert speakers[p] == rest[p - 1]; }
      }
      assert FirstMatch(speakers, id, i + 1, j);
    } else {
      var j :| (&& 0 <= j < |speakers[0].styles| && speakers[0].styles[j] == FirstStyle(speakers[0].styles, id).value
                && speakers[0].styles[j].id == Some(id)
                && forall k :: 0 <= k < j ==> speakers[0].styles[k].id != Some(id));
      assert FirstMatch(speakers, id, 0, j);
      assert FirstLabel(speakers, id).value == StyleLabel(speakers[0], speakers[0].styles[j]);
    }
  }

  /** `_validate_speaker_id`: the nested scan over the speakers `get_speakers`
      returned (the empty list after a failed request). */
  method ValidateSpeakerId(speakers: seq<Voicevox.Speaker>, id: int) returns (found: Option<string>)
    ensures found == FirstLabel(speakers, id)
  {
    var i := 0;
    assert speakers[0..] == speakers;
    while i < |speakers|
      invariant 0 <= i <= |speakers|
      invariant FirstLabel(speakers, id) == FirstLabel(speakers[i..], id)
    {
      var styles := speakers[i].styles;
      assert speakers[i..][0] == speakers[i] && speakers[i..][1..] == speakers[i + 1..];
      var j := 0;
      assert styles[0..] == styles;
      while j < |styles|
        invariant 0 <= j <= |styles|
        invariant FirstStyle(styles, id) == FirstStyle(styles[j..], id)
      {
        assert styles[j..][0] == styles[j] && styles[j..][1..] == styles[j + 1..];
        if styles[j].id == Some(id) {
          return Some(StyleLabel(speakers[i], styles[j]));
        }
        j := j + 1;
      }
      assert styles[j..] == [];
      i := i + 1;
    }
    return None;
  }

  /** Python truthiness of `server_id`: absent, `None` and `0` are false. */
  predicate Truthy(serverId: Option<int>) {
    serverId.Some? && serverId.value != 0
  }

  /** `get_default_speaker`: the user's own setting, else the server's when
      `server_id` is truthy, else the configured `default_speaker_id`, else 1.
      `configured` is what `settings.ini` holds at the time of the call. */
  function Resolve(user: Settings, server: Settings, userId: int, serverId: Option<int>, configured: Option<int>): int {
    var u := IntToString(userId);
    if u in user then user[u]
    else if Truthy(serverId) && IntToString(serverId.value) in server then server[IntToString(serverId.value)]
    else configured.GetOr(1)
  }

  /** The three sources in priority order: a user setting wins over
      everything, a server setting over the configured default, and only
      without both does the default (or 1) apply. */
  lemma ResolvePriority(user: Settings, server: Settings, userId: int, serverId: Option<int>, configured: Option<int>)
    ensures var r := Resolve(user, server, userId, serverId, configured);
      && (r in user.Values || r in server.Values || r == configured.GetOr(1))
      && (IntToString(userId) in user ==> r == user[IntToString(userId)])
      && (IntToString(userId) !in user && !Truthy(serverId) ==> r == configured.GetOr(1))
  {
  }

  /** Outside a server the server table is never consulted. */
  lemma DmIgnoresServer(user: Settings, s1: Settings, s2: Settings, userId: int, serverId: Option<int>, configured: Option<int>)
    requires !Truthy(serverId)
    ensures Resolve(user, s1, userId, serverId, configured) == Resolve(user, s2, userId, serverId, configured)
  {
  }

  /** Writing one user's setting makes it that user's voice everywhere and
      leaves every other user's voice as it was. */
  lemma UserWriteIsolated(user: Settings, server: Settings, u: int, x: int, v: int, serverId: Option<int>, configured: Option<int>)
    ensures Resolve(user[IntToString(u) := x], server, u, serverId, configured) == x
    ensures v != u ==>
      Resolve(user[IntToString(u) := x], server, v, serverId, configured) == Resolve(user, server, v, serverId, configured)
  {
    if v != u && IntToString(v) == IntToString(u) {
      IntToStringInjective(v, u);
    }
  }

  /** Writing one server's setting gives it to every member of that server
      without a setting of their own, and changes nothing in other servers. */
  lemma ServerWriteIsolated(user: Settings, server: Settings, g: int, x: int, v: int, h: int, configured: Option<int>)
    requires g != 0
    ensures IntToString(v) !in user ==> Resolve(user, server[IntToString(g) := x], v, Some(g), configured) == x
    ensures h != g ==>
      Resolve(user, server[IntToString(g) := x], v, Some(h), configured) == Resolve(user, server, v, Some(h), configured)
  {
    if h != g && IntToString(h) == IntToString(g) {
      IntToStringInjective(h, g);
    }
  }

  datatype Scope = UserScope | ServerScope

  /** The reply the handler sends. */
  datatype SetOutcome =
    | NoPermission
    | ServerScopeInDm
    | InvalidId
    | NoManageGuild
    | UserSet(shown: string)
    | ServerSet(shown: string)

  /** The handler on the two tables. `permitted` is false exactly when the
      `SlashCommands` cog is loaded and refuses `"set_speaker"`; `guildId` is
      `None` in a DM. */
  function SetStep(user: Settings, server: Settings, permitted: bool, userId: int, guildId: Option<int>,
                   speakerId: int, scope: Option<Scope>, speakers: seq<Voicevox.Speaker>, manageGuild: bool)
    : (Settings, Settings, SetOutcome)
  {
    if !permitted then (user, server, NoPermission)
    else if scope == Some(ServerScope) && guildId.None? then (user, server, ServerScopeInDm)
    else
      match FirstLabel(speakers, speakerId)
      case None => (user, server, InvalidId)
      case Some(shown) =>
        if scope != Some(ServerScope) then (user[IntToString(userId) := speakerId], server, UserSet(shown))
        else if !manageGuild then (user, server, NoManageGuild)
        else (user, server[IntToString(guildId.value) := speakerId], ServerSet(shown))
  }

  /** When the command writes and what it writes: a write happens exactly for
      a permitted caller, a known id and, in server scope, a server and
      `manage_guild`; scope defaults to the user; a user write touches only
      the user table under `str(user id)`, a server write only the server
      table under `str(guild id)`, and every refusal changes nothing. */
  lemma SetStepEffect(user: Settings, server: Settings, permitted: bool, userId: int, guildId: Option<int>,
                      speakerId: int, scope: Option<Scope>, speakers: seq<Voicevox.Speaker>, manageGuild: bool)
    ensures var (u, s, out) := SetStep(user, server, permitted, userId, guildId, speakerId, scope, speakers, manageGuild);
      && (out.UserSet? <==> permitted && HasStyle(speakers, speakerId) && scope != Some(ServerScope))
      && (out.ServerSet? <==> permitted && HasStyle(speakers, speakerId) && scope == Some(ServerScope)
                              && guildId.Some? && manageGuild)
      && (out.UserSet? ==> u == user[IntToString(userId) := speakerId] && s == server
                           && Some(out.shown) == FirstLabel(speakers, speakerId))
      && (out.ServerSet? ==> u == user && s == server[IntToString(guildId.value) := speakerId]
                             && Some(out.shown) == FirstLabel(speakers, speakerId))
      && (!out.UserSet? && !out.ServerSet? ==> u == user && s == server)
      && (out == InvalidId ==> permitted && !HasStyle(speakers, speakerId))
  {
    FirstLabelNone(speakers, speakerId);
  }

  class SetSpeakerCommand {
    var userSettings: Settings
    var serverSettings: Settings

    /** The constructor loads both files with `_load_settings`, which gives
        `{}` for a missing or unreadable file. */
    constructor (userFile: Stored<Settings>, serverFile: Stored<Settings>)
      ensures userSettings == LoadOr(userFile, map[]) && serverSettings == LoadOr(serverFile, map[])
    {
      userSettings := LoadOr(userFile, map[]);
      serverSettings := LoadOr(serverFile, map[]);
    }

    /** `get_user_speaker`: the setting stored under `str(user_id)`. */
    function GetUserSpeaker(userId: int): (r: Option<int>)
      reads this
      ensures r.Some? <==> IntToString(userId) in userSettings
      ensures r.Some? ==> r.value == userSettings[IntToString(userId)]
    {
      var k := IntToString(userId);
      if k in userSettings then Some(userSettings[k]) else None
    }

    /** `get_server_speaker`: the setting stored under `str(server_id)`. */
    function GetServerSpeaker(serverId: int): (r: Option<int>)
      reads this
      ensures r.Some? <==> IntToString(serverId) in serverSettings
      ensures r.Some? ==> r.value == serverSettings[IntToString(serverId)]
    {
      var k := IntToString(serverId);
      if k in serverSettings then Some(serverSettings[k]) else None
    }

    /** `get_default_speaker`, through the two getters. */
    function GetDefaultSpeaker(userId: int, serverId: Option<int>, configured: Option<int>): (r: int)
      reads this
      ensures r == Resolve(userSettings, serverSettings, userId, serverId, configured)
    {
      match GetUserSpeaker(userId)
      case Some(s) => s
      case None =>
        if Truthy(serverId) && GetServerSpeaker(serverId.value).Some? then GetServerSpeaker(serverId.value).value
        else configured.GetOr(1)
    }

    /** The `/set_speaker` handler; the file save after a write is left out. */
    method SetSpeaker(permitted: bool, userId: int, guildId: Option<int>, speakerId: int, scope: Option<Scope>,
                      speakers: seq<Voicevox.Speaker>, manageGuild: bool)
      returns (outcome: SetOutcome)
      modifies this
      ensures (userSettings, serverSettings, outcome)
           == SetStep(old(userSettings), old(serverSettings), permitted, userId, guildId, speakerId, scope, speakers, manageGuild)
    {
      if !permitted {
        return NoPermission;
      }
      if scope == Some(ServerScope) && guildId.None? {
        return ServerScopeInDm;
      }
      var info := ValidateSpeakerId(speakers, speakerId);
      if info.None? {
        return InvalidId;
      }
      if scope != Some(ServerScope) {
        userSettings := userSettings[IntToString(userId) := speakerId];
        return UserSet(info.value);
      }
      if !manageGuild {
        return NoManageGuild;
      }
      serverSettings := serverSettings[IntToString(guildId.value) := speakerId];
      return ServerSet(info.value);
    }
  }
}
