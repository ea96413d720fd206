/** The per-guild playback state of cogs/audio_control.py: a voice client
    slot, a FIFO queue of `{path, user_id, text}` items and an `is_playing`
    flag per guild, driven by connect, disconnect, enqueue, the `_play_next`
    driver, the end-of-playback callback and queue clearing.

    Each operation is first stated as a function on one guild's `Guild` value
    (the specification); the `AudioControl` class keeps the four dictionaries
    as maps, and each of its methods is proved to move the touched guild's
    value by that function and to leave every other guild alone. */
module Playback {
  import opened Wrappers
  import opened Text
  import CacheStore

  type GuildId = int
  type Path = string

  /** One queued request. */
  datatype Item = Item(path: Path, userId: Option<int>, text: Option<string>)

  /** A stored voice client: `None` after a disconnect, or a client object
      whose `is_connected()` answers `connected` and whose player is `busy`
      from the `play` that starts an item until the end-of-playback callback
      (while it is busy, `play` raises). */
  datatype Session = Gone | Live(connected: bool, busy: bool)

  /** What the four dictionaries hold for one guild; `None` is an absent key.
      `autoTask` is the auto-disconnect task slot (`true` for a live task). */
  datatype Guild = Guild(client: Option<Session>, queue: Option<seq<Item>>,
                         playing: Option<bool>, autoTask: Option<bool>)

  /** The class keeps queue and flag alongside every stored client. */
  predicate WellFormed(s: Guild) {
    s.client.Some? ==> s.queue.Some? && s.playing.Some?
  }

  /** `is_connected`: a stored client that reports a live connection. */
  predicate Connected(s: Guild) {
    s.client.Some? && s.client.value.Live? && s.client.value.connected
  }

  /** `guild_id in self.voice_clients and self.voice_clients[guild_id]`. */
  predicate HasClient(s: Guild) {
    s.client.Some? && s.client.value.Live?
  }

  /** The stored client's player is still playing an item. */
  predicate Busy(s: Guild) {
    HasClient(s) && s.client.value.busy
  }

  /** `disconnect_from_voice`: with a client, it is dropped, the queue is
      emptied, the flag cleared and a live auto-disconnect task cancelled;
      without one nothing changes and the answer is `false`. A connected
      client is first asked to `disconnect()`; `disconnectOk` is whether that
      returned, and when it raises the handler answers `false` with nothing
      changed. */
  function Disconnect(s: Guild, disconnectOk: bool): (Guild, bool) {
    if !HasClient(s) || (s.client.value.connected && !disconnectOk) then (s, false)
    else
      (Guild(Some(Gone), Some([]), Some(false),
             if s.autoTask == Some(true) then Some(false) else s.autoTask), true)
  }

  /** `connect_to_voice`: `guildFound` and `channelIsVoice` are the lookups,
      `disconnectOk` is passed to the teardown of an existing client, and
      `connectOk` is whether `channel.connect()` returned (it raises
      otherwise). The teardown's answer is ignored, so the connect is tried
      even when the teardown failed; a failed connect after a teardown that
      succeeded leaves the guild disconnected. */
  function Connect(s: Guild, guildFound: bool, channelIsVoice: bool, disconnectOk: bool, connectOk: bool): (Guild, bool) {
    if !guildFound || !channelIsVoice then (s, false)
    else
      var t := Disconnect(s, disconnectOk).0;
      if connectOk then (t.(client := Some(Live(true, false)), queue := Some([]), playing := Some(false)), true)
      else (t, false)
  }

  /** Some queued item carries exactly this text. */
  predicate Pending(q: seq<Item>, text: Option<string>) {
    exists i :: 0 <= i < |q| && q[i].text == text
  }

  /** Only a truthy text (present and non-empty) is checked for duplicates. */
  predicate Dedups(item: Item) {
    item.text.Some? && item.text.value != ""
  }

  /** `play_audio`: the new guild value, the answer, and whether a driver
      (`_play_next`) is spawned. A driver is spawned whenever the flag is
      false at this moment, even if one was spawned before and has not run. */
  function Enqueue(s: Guild, item: Item): (Guild, bool, bool)
    requires WellFormed(s)
  {
    if !Connected(s) then (s, false, false)
    else if Dedups(item) && Pending(s.queue.value, item.text) then (s, true, false)
    else (s.(queue := Some(s.queue.value + [item])), true, !s.playing.value)
  }

  /** Whether playback of an item can start: its file exists, the player is
      not `busy` and starting it does not raise (`broken` holds the paths for
      which building the audio source raises). */
  predicate Startable(it: Item, files: set<Path>, broken: set<Path>, busy: bool) {
    !busy && it.path in files && it.path !in broken
  }

  /** The pops of one `_play_next` run and its recursive calls: the first
      startable item and what is left behind it; items before it are dropped. */
  function Drain(q: seq<Item>, files: set<Path>, broken: set<Path>, busy: bool): (Option<Item>, seq<Item>)
  {
    if q == [] then (None, [])
    else if Startable(q[0], files, broken, busy) then (Some(q[0]), q[1..])
    else Drain(q[1..], files, broken, busy)
  }

  /** Reference definition: the startable items of a queue, in order. */
  function Filter(q: seq<Item>, files: set<Path>, broken: set<Path>, busy: bool): seq<Item> {
    if q == [] then []
    else if Startable(q[0], files, broken, busy) then [q[0]] + Filter(q[1..], files, broken, busy)
    else Filter(q[1..], files, broken, busy)
  }

  /** `_play_next` with its recursion unrolled: the new guild value and the
      item handed to the player, if any, which makes the player busy. */
  function Driver(s: Guild, files: set<Path>, broken: set<Path>): (Guild, Option<Item>)
    requires WellFormed(s)
  {
    if !Connected(s) || s.queue.value == [] then (s.(playing := Some(false)), None)
    else
      var (it, rest) := Drain(s.queue.value, files, broken, s.client.value.busy);
      (s.(queue := Some(rest), playing := Some(it.Some?),
          client := if it.Some? then Some(s.client.value.(busy := true)) else s.client), it)
  }

  /** The end of playback: the stored client's player is idle again. */
  function Idle(s: Guild): Guild {
    if HasClient(s) then s.(client := Some(s.client.value.(busy := false))) else s
  }

  /** `clear_queue`: answers whether the guild has a queue. */
  function Clear(s: Guild): (Guild, bool) {
    if s.queue.Some? then (s.(queue := Some([])), true) else (s, false)
  }

  /** Whether `_audio_finished` removes the finished file. */
  predicate ShouldDelete(path: Path, files: set<Path>, cacheDir: string) {
    path != "" && path in files && Contains(path, "temp/") && !(cacheDir <= path)
  }

  /** The files left after `_audio_finished`; a removal that raises
      (`removeOk` false) is logged and leaves the file. */
  function Finish(files: set<Path>, path: Path, cacheDir: string, removeOk: bool): set<Path> {
    if ShouldDelete(path, files, cacheDir) && removeOk then files - {path} else files
  }

  function Get<V>(m: map<GuildId, V>, g: GuildId): Option<V> {
    if g in m then Some(m[g]) else None
  }

  class AudioControl {
    /** The cache manager's `cache_dir`. */
    const cacheDir: string
    var voiceClients: map<GuildId, Session>
    var audioQueues: map<GuildId, seq<Item>>
    var isPlaying: map<GuildId, bool>
    var autoDisconnectTasks: map<GuildId, bool>

    predicate Valid()
      reads this
    {
      voiceClients.Keys <= audioQueues.Keys && voiceClients.Keys <= isPlaying.Keys
    }

    /** One guild's entries in the four dictionaries. */
    function View(g: GuildId): (s: Guild)
      reads this
      ensures Valid() ==> WellFormed(s)
    {
      Guild(Get(voiceClients, g), Get(audioQueues, g), Get(isPlaying, g), Get(autoDisconnectTasks, g))
    }

    constructor (cacheDir: string)
      ensures Valid() && this.cacheDir == cacheDir
      ensures forall g :: View(g) == Guild(None, None, None, None)
    {
      this.cacheDir := cacheDir;
      voiceClients, audioQueues, isPlaying, autoDisconnectTasks := map[], map[], map[], map[];
    }

    method ConnectToVoice(g: GuildId, guildFound: bool, channelIsVoice: bool, disconnectOk: bool, connectOk: bool)
      returns (ok: bool)
      requires Valid()
      modifies this
      ensures Valid()
      ensures (View(g), ok) == Connect(old(View(g)), guildFound, channelIsVoice, disconnectOk, connectOk)
      ensures forall h :: h != g ==> View(h) == old(View(h))
    {
      if !guildFound || !channelIsVoice {
        return false;
      }
      if g in voiceClients && voiceClients[g].Live? {
        var _ := DisconnectFromVoice(g, disconnectOk);
      }
      if !connectOk {
        return false;
      }
      voiceClients := voiceClients[g := Live(true, false)];
      audioQueues := audioQueues[g := []];
      isPlaying := isPlaying[g := false];
      return true;
    }

    method DisconnectFromVoice(g: GuildId, disconnectOk: bool) returns (ok: bool)
      requires Valid()
      modifies this
      ensures Valid()
      ensures (View(g), ok) == Disconnect(old(View(g)), disconnectOk)
      ensures forall h :: h != g ==> View(h) == old(View(h))
    {
      if g in voiceClients && voiceClients[g].Live? {
        if voiceClients[g].connected && !disconnectOk {
          return false;
        }
        if g in autoDisconnectTasks && autoDisconnectTasks[g] {
          autoDisconnectTasks := autoDisconnectTasks[g := false];
        }
        voiceClients := voiceClients[g := Gone];
        audioQueues := audioQueues[g := []];
        isPlaying := isPlaying[g := false];
        return true;
      }
      return false;
    }

    function IsConnected(g: GuildId): (b: bool)
      reads this
      ensures b <==> Connected(View(g))
    {
      g in voiceClients && voiceClients[g].Live? && voiceClients[g].connected
    }

    /** `play_audio`; `spawned` reports the `create_task(_play_next)`. */
    method PlayAudio(g: GuildId, path: Path, userId: Option<int>, text: Option<string>)
      returns (ok: bool, spawned: bool)
      requires Valid()
      modifies this
      ensures Valid()
      ensures (View(g), ok, spawned) == Enqueue(old(View(g)), Item(path, userId, text))
      ensures forall h :: h != g ==> View(h) == old(View(h))
    {
      if !IsConnected(g) {
        return false, false;
      }
      var item := Item(path, userId, text);
      if text.Some? && text.value != "" {
        var q := audioQueues[g];
        var i := 0;
        while i < |q|
          invariant 0 <= i <= |q|
          invariant forall j :: 0 <= j < i ==> q[j].text != text
        {
          if q[i].text == text {
            return true, false;
          }
          i := i + 1;
        }
      }
      audioQueues := audioQueues[g := audioQueues[g] + [item]];
      spawned := !isPlaying[g];
      ok := true;
    }

    /** `_play_next`: the recursive calls after a missing file or a failed
        start become iterations; `started` is the item handed to the player. */
    method PlayNext(g: GuildId, files: set<Path>, broken: set<Path>) returns (started: Option<Item>)
      requires Valid()
      modifies this
      ensures Valid()
      ensures (View(g), started) == Driver(old(View(g)), files, broken)
      ensures forall h :: h != g ==> View(h) == old(View(h))
    {
      if !IsConnected(g) || audioQueues[g] == [] {
        isPlaying := isPlaying[g := false];
        return None;
      }
      isPlaying := isPlaying[g := true];
      var busy := voiceClients[g].busy;
      var q := audioQueues[g];
      started := None;
      while q != [] && started.None?
        invariant started.None? ==> Drain(q, files, broken, busy) == Drain(old(audioQueues[g]), files, broken, busy)
        invariant started.Some? ==> (started, q) == Drain(old(audioQueues[g]), files, broken, busy)
        decreases |q|
      {
        var item := q[0];
        q := q[1..];
        if !busy && item.path in files && item.path !in broken {
          started := Some(item);
        }
      }
      audioQueues := audioQueues[g := q];
      if started.None? {
        isPlaying := isPlaying[g := false];
      } else {
        voiceClients := voiceClients[g := voiceClients[g].(busy := true)];
      }
    }

    /** `_audio_finished` followed by the `_play_next` it schedules: the
        player has stopped, and `after` is the set of files once the finished
        one has (maybe) been removed. */
    method AudioFinished(g: GuildId, path: Path, files: set<Path>, removeOk: bool, broken: set<Path>)
      returns (after: set<Path>, started: Option<Item>)
      requires Valid()
      modifies this
      ensures Valid()
      ensures after == Finish(files, path, cacheDir, removeOk)
      ensures (View(g), started) == Driver(Idle(old(View(g))), after, broken)
      ensures forall h :: h != g ==> View(h) == old(View(h))
    {
      if g in voiceClients && voiceClients[g].Live? {
        voiceClients := voiceClients[g := voiceClients[g].(busy := false)];
      }
      after := files;
      if path != "" && path in files && Contains(path, "temp/") {
        if !(cacheDir <= path) && removeOk {
          after := files - {path};
        }
      }
      started := PlayNext(g, after, broken);
    }

    method ClearQueue(g: GuildId) returns (ok: bool)
      requires Valid()
      modifies this
      ensures Valid()
      ensures (View(g), ok) == Clear(old(View(g)))
      ensures forall h :: h != g ==> View(h) == old(View(h))
    {
      if g in audioQueues {
        audioQueues := audioQueues[g := []];
        return true;
      }
      return false;
    }
  }

  /** The driver is FIFO and skips what it cannot play: it hands over the
      first startable item, drops exactly the unstartable items before it,
      and leaves the rest of the queue in order; with nothing startable it
      empties the queue. */
  lemma {:induction false} DrainFirstStartable(q: seq<Item>, files: set<Path>, broken: set<Path>, busy: bool)
    ensures var (it, rest) := Drain(q, files, broken, busy);
      var f := Filter(q, files, broken, busy);
      && (it.None? <==> f == [])
      && (it.None? ==> rest == [])
      && (it.Some? ==>
            && it.value == f[0] && Filter(rest, files, broken, busy) == f[1..]
            && |rest| < |q| && q[|q| - |rest| - 1] == it.value && rest == q[|q| - |rest|..]
            && forall j :: 0 <= j < |q| - |rest| - 1 ==> !Startable(q[j], files, broken, busy))
  {
    if q != [] && !Startable(q[0], files, broken, busy) {
      DrainFirstStartable(q[1..], files, broken, busy);
      var (it, rest) := Drain(q[1..], files, broken, busy);
      if it.Some? {
        assert q[1..][|q| - 1 - |rest|..] == q[|q| - |rest|..];
        forall j | 0 <= j < |q| - |rest| - 1
          ensures !Startable(q[j], files, broken, busy)
        {
          if j > 0 { assert q[j] == q[1..][j - 1]; }
        }
      }
    }
  }

  /** While the player is busy nothing is startable: a driver run pops and
      drops every queued item and clears the flag, and the item that is
      playing goes on playing. */
  lemma BusyDropsQueue(s: Guild, files: set<Path>, broken: set<Path>)
    requires WellFormed(s) && Connected(s) && Busy(s)
    ensures Driver(s, files, broken) == (s.(queue := Some([]), playing := Some(false)), None)
  {
    DrainFirstStartable(s.queue.value, files, broken, true);
    FilterBusy(s.queue.value, files, broken);
  }

  lemma {:induction false} FilterBusy(q: seq<Item>, files: set<Path>, broken: set<Path>)
    ensures Filter(q, files, broken, true) == []
  {
    if q != [] {
      FilterBusy(q[1..], files, broken);
    }
  }

  /** With the head item playable on an idle player, one driver run pops
      exactly the head, sets the flag and makes the player busy; disconnected
      or with an empty queue, it removes nothing and clears the flag. */
  lemma DriverPopsHead(s: Guild, files: set<Path>, broken: set<Path>)
    requires WellFormed(s)
    ensures var (t, it) := Driver(s, files, broken);
      && (!Connected(s) || s.queue.value == [] ==> t.queue == s.queue && t.playing == Some(false) && it == None)
      && (Connected(s) && s.queue.value != [] && Startable(s.queue.value[0], files, broken, Busy(s)) ==>
            t.queue == Some(s.queue.value[1..]) && t.playing == Some(true) && it == Some(s.queue.value[0]))
      && (it.None? ==> t.client == s.client)
      && (it.Some? ==> Connected(t) && Busy(t) && !Busy(s))
      && t.autoTask == s.autoTask
  {
    if Connected(s) && Busy(s) {
      BusyDropsQueue(s, files, broken);
    }
  }

  /** Enqueueing on a connected guild leaves the queue as it was exactly when
      a pending item carries the same truthy text; otherwise the item is put
      at the tail behind the earlier items, and a text that is `None` or
      empty is never treated as a duplicate. A guild that is not connected
      answers `false` and changes nothing. */
  lemma EnqueueLaw(s: Guild, item: Item)
    requires WellFormed(s)
    ensures var (t, ok, spawned) := Enqueue(s, item);
      && (!Connected(s) ==> t == s && !ok && !spawned)
      && (Connected(s) ==>
            && ok
            && (t.queue == s.queue <==> Dedups(item) && Pending(s.queue.value, item.text))
            && (t.queue != s.queue ==>
                  t.queue.value[..|s.queue.value|] == s.queue.value && t.queue.value[|s.queue.value|] == item
                  && |t.queue.value| == |s.queue.value| + 1
                  && (spawned <==> s.playing == Some(false)))
            && (!Dedups(item) ==> t.queue == Some(s.queue.value + [item])))
      && t.client == s.client && t.playing == s.playing
  {
    if Connected(s) && !(Dedups(item) && Pending(s.queue.value, item.text)) {
      assert |s.queue.value + [item]| != |s.queue.value|;
    }
  }

  /** The flag is only set once a driver runs, so two enqueues on an idle
      guild both spawn a driver. The first driver starts `a` and the player
      is busy; the second driver's `play` then raises, and its recursion pops
      `b`, finds the queue empty and clears the flag, so `b` is never played
      while `a` still is, and the end of `a` finds nothing left to play. */
  lemma {:induction false} IdleDoubleSpawn(s: Guild, a: Item, b: Item, files: set<Path>, broken: set<Path>)
    requires WellFormed(s) && Connected(s) && !Busy(s) && s.playing == Some(false) && s.queue == Some([])
    requires !Dedups(b) || a.text != b.text
    requires Startable(a, files, broken, false) && Startable(b, files, broken, false)
    ensures var (s1, ok1, sp1) := Enqueue(s, a);
      var (s2, ok2, sp2) := Enqueue(s1, b);
      var (s3, p1) := Driver(s2, files, broken);
      var (s4, p2) := Driver(s3, files, broken);
      var (s5, p3) := Driver(Idle(s4), files, broken);
      && ok1 && ok2 && sp1 && sp2
      && p1 == Some(a) && p2 == None && Busy(s4)
      && s4.queue == Some([]) && s4.playing == Some(false)
      && p3 == None && s5.playing == Some(false)
  {
    assert !Pending([], a.text);
    assert s.queue.value + [a] == [a];
    var (s1, ok1, sp1) := Enqueue(s, a);
    assert s1.queue == Some([a]);
    assert [a][0] == a;
    assert [a] + [b] == [a, b];
    var (s2, ok2, sp2) := Enqueue(s1, b);
    assert s2.queue == Some([a, b]);
    assert [a, b][0] == a && [a, b][1..] == [b] && [b][1..] == [];
    var (s3, p1) := Driver(s2, files, broken);
    assert s3.queue == Some([b]) && Busy(s3);
    BusyDropsQueue(s3, files, broken);
  }

  /** The playing item has already left the queue, so the same text can be
      enqueued again while it is being played. */
  lemma ReenqueueWhilePlaying(s: Guild, item: Item, files: set<Path>, broken: set<Path>)
    requires WellFormed(s) && Connected(s) && !Busy(s) && s.queue == Some([item])
    requires Startable(item, files, broken, false)
    ensures var (t, p) := Driver(s, files, broken);
      var (u, ok, _) := Enqueue(t, item);
      p == Some(item) && t.playing == Some(true) && ok && u.queue == Some([item])
  {
    assert [item][1..] == [];
    var (t, p) := Driver(s, files, broken);
    assert t.queue == Some([]);
    assert !Pending([], item.text);
    assert [] + [item] == [item];
  }

  /** A successful connect, from whatever state, leaves a connected guild
      with an idle player, an empty queue and a cleared flag; an unknown
      guild or a non-voice channel changes nothing. When the connect raises,
      the guild is left disconnected with an empty queue if the teardown of
      its old client went through, and exactly as it was if the old client's
      `disconnect()` raised too. */
  lemma ConnectResets(s: Guild, guildFound: bool, channelIsVoice: bool, disconnectOk: bool, connectOk: bool)
    ensures var (t, ok) := Connect(s, guildFound, channelIsVoice, disconnectOk, connectOk);
      && (ok <==> guildFound && channelIsVoice && connectOk)
      && (ok ==> Connected(t) && !Busy(t) && t.queue == Some([]) && t.playing == Some(false))
      && (!guildFound || !channelIsVoice ==> t == s)
      && (guildFound && channelIsVoice && !connectOk ==>
            && (HasClient(s) && (disconnectOk || !Connected(s)) ==> !Connected(t) && t.queue == Some([]))
            && (!HasClient(s) || (Connected(s) && !disconnectOk) ==> t == s))
  {
  }

  /** A disconnect answers `true` exactly when the guild has a client whose
      `disconnect()` (asked only of a connected client) returns; then nothing
      can be enqueued and a second disconnect answers `false`. Otherwise the
      guild is left as it was, still connected if it was. */
  lemma DisconnectThenRejected(s: Guild, disconnectOk: bool, again: bool, item: Item)
    requires HasClient(s)
    ensures var (t, ok) := Disconnect(s, disconnectOk);
      && (ok <==> disconnectOk || !Connected(s))
      && (!ok ==> t == s && Connected(t))
      && (ok ==> WellFormed(t) && t.queue == Some([]) && t.playing == Some(false)
                 && Enqueue(t, item) == (t, false, false) && Disconnect(t, again) == (t, false))
  {
  }

  /** End-of-playback cleanup never removes a file of the audio cache, and
      only ever removes a temporary file. */
  lemma CacheFilesSurvive(cacheDir: string, key: CacheStore.Key, files: set<Path>, path: Path, removeOk: bool)
    ensures Finish(files, CacheStore.CachePathFor(cacheDir, key), cacheDir, removeOk) == files
    ensures Finish(files, path, cacheDir, removeOk) <= files
    ensures files - Finish(files, path, cacheDir, removeOk) <= {path}
    ensures path in files - Finish(files, path, cacheDir, removeOk) ==>
      Contains(path, "temp/") && !(cacheDir <= path)
  {
    assert cacheDir <= CacheStore.CachePathFor(cacheDir, key);
  }
}
