/** bot.py: the message listener and the automatic reading pipeline. The
    bot holds its collaborators (the read-channel table, the playback
    controller, the speaker settings, the statistics and the shared audio
    cache); whether each is loaded (`hasattr`, `get_cog`) is a flag. */
module Bot {
  import opened Wrappers
  import opened Text
  import CacheStore
  import Playback
  import Voicevox
  import Stats
  import ReadChannels
  import SpeakerSettings

  /** The `max_message_length` default of `settings.ini`. */
  const DefaultMaxMessageLength := 100

  /** The configured `max_message_length`, or 100. */
  function MaxMessageLength(configured: Option<int>): (m: int)
    ensures configured.None? ==> m == DefaultMaxMessageLength
  {
    configured.GetOr(DefaultMaxMessageLength)
  }

  /** Python's `s[:n]`, a negative `n` counting from the end. */
  function PrefixSlice(s: string, n: int): (r: string)
    ensures r <= s
    ensures n >= 0 ==> r == Take(s, n)
  {
    if n >= 0 then Take(s, n)
    else if |s| + n > 0 then s[..|s| + n]
    else ""
  }

  /** The text that is read: `text[:max] + "..."` when longer than `max`. A
      text that fits is read as it is; for a non-negative limit the result
      keeps the first `max` characters and is at most three longer. */
  function Truncate(text: string, max: int): (t: string)
    ensures |text| <= max ==> t == text
    ensures |text| > max ==> t == PrefixSlice(text, max) + "..."
    ensures max >= 0 ==> |t| <= max + 3
    ensures max >= 0 && |text| > max ==> |t| == max + 3 && text[..max] <= t
  {
    if |text| > max then PrefixSlice(text, max) + "..." else text
  }

  /** A text message: author, guild (`None` in a DM), channel and content. */
  datatype Message = Message(authorId: int, guildId: Option<int>, channelId: int, content: string)

  /** The engine and the settings `create_audio` runs with. */
  datatype Synthesizer = Synthesizer(api: Voicevox.Api, engine: Voicevox.Engine, ffmpegOk: bool, uuidHex: string)

  /** What the world looks like during one message: the configured default
      speaker, the files on disk, the clock, and whether a cache copy works. */
  datatype World = World(configured: Option<int>, existing: set<CacheStore.Path>, now: int, copyOk: bool)

  /** The cache lookup of an enabled cache; a disabled one finds nothing. */
  function Looked(enabled: bool, files: CacheStore.Index, key: CacheStore.Key, existing: set<CacheStore.Path>, now: int)
    : (Option<CacheStore.Path>, CacheStore.Index)
  {
    if enabled then CacheStore.Lookup(files, key, existing, now) else (None, files)
  }

  /** The synthesis of a miss. */
  function Synthesis(synth: Synthesizer, text: string, speakerId: int): Option<CacheStore.Path> {
    Voicevox.CreateAudioResult(synth.api, synth.engine, text, speakerId, synth.ffmpegOk, synth.uuidHex)
  }

  /** What `add_to_cache` does with a freshly synthesised file `p`: nothing
      when the cache is off or the copy fails, otherwise the entry for
      `key` is written and the index saved. */
  predicate Recorded(cache: CacheStore.AudioCache, files: CacheStore.Index, saved: Stored<CacheStore.Index>,
                     files': CacheStore.Index, saved': Stored<CacheStore.Index>, after: set<CacheStore.Path>,
                     key: CacheStore.Key, p: CacheStore.Path, text: string, speakerId: int, w: World)
  {
    var target := CacheStore.CachePathFor(cache.cacheDir, key);
    var made := w.existing + {p};
    if !cache.enabled || (p != target && !w.copyOk) then
      files' == files && saved' == saved && after == made
    else
      && files' == files[key := CacheStore.NewEntry(cache.cacheDir, key, text, speakerId, w.now)]
      && saved' == Loaded(files')
      && after == (if p != target then made + {target} else made)
  }

  /** A recorded miss is a hit for the next reading of the same text with the
      same voice, at any later time, and the saved index agrees. */
  lemma RecordedThenHit(cache: CacheStore.AudioCache, files: CacheStore.Index, saved: Stored<CacheStore.Index>,
                        files': CacheStore.Index, saved': Stored<CacheStore.Index>, after: set<CacheStore.Path>,
                        key: CacheStore.Key, p: CacheStore.Path, text: string, speakerId: int, w: World, later: int)
    requires Recorded(cache, files, saved, files', saved', after, key, p, text, speakerId, w)
    requires cache.enabled && (p == CacheStore.CachePathFor(cache.cacheDir, key) || w.copyOk)
    ensures Looked(cache.enabled, files', key, after, later).0 == Some(CacheStore.CachePathFor(cache.cacheDir, key))
    ensures saved'.Loaded? && Looked(cache.enabled, LoadOr(saved', map[]), key, after, later).0.Some?
  {
    CacheStore.InsertThenLookup(files, cache.cacheDir, key, text, speakerId, w.now, after, later);
  }

  /** The controller and the cache both take `cache_dir` from the same
      `AudioCache` settings, so the end of playback of a cached file, which
      is what a hit enqueues, never removes it. */
  lemma CachedAudioSurvives(b: Bot, key: CacheStore.Key, files: set<CacheStore.Path>, removeOk: bool)
    requires b.control.cacheDir == b.cache.cacheDir
    ensures Playback.Finish(files, CacheStore.CachePathFor(b.cache.cacheDir, key), b.control.cacheDir, removeOk) == files
  {
    Playback.CacheFilesSurvive(b.cache.cacheDir, key, files, CacheStore.CachePathFor(b.cache.cacheDir, key), removeOk);
  }

  datatype ReadOutcome =
    | Skipped
    | Read(text: string, speaker: int, key: CacheStore.Key, hit: bool,
           audio: Option<CacheStore.Path>, queued: bool, spawned: bool)

  class Bot {
    /** `bot.user`. */
    const selfId: int
    const setup: ReadChannels.SetupCommand
    const hasSetup: bool
    const control: Playback.AudioControl
    const hasControl: bool
    const speakers: SpeakerSettings.SetSpeakerCommand
    const hasSpeakers: bool
    const stats: Stats.SystemStats
    const hasStats: bool
    const cache: CacheStore.AudioCache
    const synth: Synthesizer
    const maxMessageLength: int

    constructor (selfId: int, setup: ReadChannels.SetupCommand, hasSetup: bool,
                 control: Playback.AudioControl, hasControl: bool,
                 speakers: SpeakerSettings.SetSpeakerCommand, hasSpeakers: bool,
                 stats: Stats.SystemStats, hasStats: bool,
                 cache: CacheStore.AudioCache, synth: Synthesizer, configuredMax: Option<int>)
      requires control.cacheDir == cache.cacheDir
      ensures this.selfId == selfId && this.setup == setup && this.hasSetup == hasSetup
      ensures this.control == control && this.hasControl == hasControl
      ensures this.speakers == speakers && this.hasSpeakers == hasSpeakers
      ensures this.stats == stats && this.hasStats == hasStats
      ensures this.cache == cache && this.synth == synth
      ensures maxMessageLength == MaxMessageLength(configuredMax)
      ensures this.control.cacheDir == this.cache.cacheDir
    {
      this.selfId := selfId;
      this.setup := setup;
      this.hasSetup := hasSetup;
      this.control := control;
      this.hasControl := hasControl;
      this.speakers := speakers;
      this.hasSpeakers := hasSpeakers;
      this.stats := stats;
      this.hasStats := hasStats;
      this.cache := cache;
      this.synth := synth;
      maxMessageLength := MaxMessageLength(configuredMax);
    }

    /** The gating of `process_auto_reading`: a guild message in a read
        channel, with the controller loaded and connected there, and text
        that is not blank. */
    predicate Eligible(msg: Message)
      reads this, setup, control
    {
      && msg.guildId.Some?
      && hasSetup && setup.IsReadChannel(msg.guildId.value, msg.channelId)
      && hasControl && control.IsConnected(msg.guildId.value)
      && !IsBlank(msg.content)
    }

    /** The user's, then the server's, then the configured default voice when
        the speaker settings are loaded; 1 otherwise. */
    function SpeakerFor(msg: Message, configured: Option<int>): int
      reads this, speakers
    {
      if hasSpeakers then speakers.GetDefaultSpeaker(msg.authorId, msg.guildId, configured) else 1
    }

    /** `on_message`: the bot's own messages are dropped before anything
        else; every other message goes through `process_auto_reading`, with
        the same outcome. Command processing is not modelled. */
    method OnMessage(msg: Message, w: World) returns (outcome: ReadOutcome, after: set<CacheStore.Path>)
      requires control.Valid()
      modifies control, stats, cache
      ensures control.Valid()
      ensures msg.authorId == selfId ==>
        outcome == Skipped && after == w.existing && unchanged(control) && unchanged(stats) && unchanged(cache)
      ensures msg.authorId != selfId && !old(Eligible(msg)) ==>
        outcome == Skipped && after == w.existing && unchanged(control) && unchanged(stats) && unchanged(cache)
      ensures msg.authorId != selfId && old(Eligible(msg)) ==> outcome.Read?
      ensures msg.authorId != selfId && outcome.Read? ==> outcome.text == Truncate(msg.content, maxMessageLength)
      ensures msg.authorId != selfId && outcome.Read? ==> outcome.speaker == SpeakerFor(msg, w.configured)
      ensures msg.authorId != selfId && outcome.Read? ==> outcome.key == CacheStore.CacheKey(cache.digest, outcome.text, outcome.speaker)
      ensures msg.authorId != selfId && outcome.Read? ==> outcome.hit == Looked(cache.enabled, old(cache.files), outcome.key, w.existing, w.now).0.Some?
      ensures msg.authorId != selfId && outcome.Read? ==> outcome.audio == (if outcome.hit then Looked(cache.enabled, old(cache.files), outcome.key, w.existing, w.now).0 else Synthesis(synth, outcome.text, outcome.speaker))
      ensures msg.authorId != selfId && outcome.Read? ==> hasStats ==> stats.messagesProcessed == old(stats.messagesProcessed) + 1 && stats.wordsRead == old(stats.wordsRead) + Stats.WordCount(outcome.text)
      ensures msg.authorId != selfId && outcome.Read? ==> hasStats ==> stats.cacheHits == old(stats.cacheHits) + (if outcome.hit then 1 else 0) && stats.cacheMisses == old(stats.cacheMisses) + (if outcome.hit then 0 else 1)
      ensures msg.authorId != selfId && outcome.Read? ==> hasStats ==> stats.audioFilesGenerated == old(stats.audioFilesGenerated)
      ensures msg.authorId != selfId && outcome.Read? ==> !hasStats ==> unchanged(stats)
      ensures msg.authorId != selfId && outcome.Read? ==> outcome.hit || outcome.audio.None? ==> cache.files == Looked(cache.enabled, old(cache.files), outcome.key, w.existing, w.now).1 && cache.saved == old(cache.saved) && after == w.existing
      ensures msg.authorId != selfId && outcome.Read? ==> !outcome.hit && outcome.audio.Some? ==> Recorded(cache, Looked(cache.enabled, old(cache.files), outcome.key, w.existing, w.now).1, old(cache.saved), cache.files, cache.saved, after, outcome.key, outcome.audio.value, outcome.text, outcome.speaker, w)
      ensures msg.authorId != selfId && outcome.Read? ==> outcome.audio.None? ==> unchanged(control) && !outcome.queued && !outcome.spawned
      ensures msg.authorId != selfId && outcome.Read? ==> outcome.audio.Some? ==> (control.View(msg.guildId.value), outcome.queued, outcome.spawned) == Playback.Enqueue(old(control.View(msg.guildId.value)), Playback.Item(outcome.audio.value, Some(msg.authorId), Some(outcome.text)))
      ensures msg.authorId != selfId && outcome.Read? ==> outcome.audio.Some? ==> forall h :: h != msg.guildId.value ==> control.View(h) == old(control.View(h))
    {
      if msg.authorId == selfId {
        return Skipped, w.existing;
      }
      outcome, after := ProcessAutoReading(msg, w);
    }

    /** `increment_messages` and `add_words` of the loaded statistics. */
    method CountMessage(text: string)
      modifies stats
      ensures hasStats ==>
        && stats.messagesProcessed == old(stats.messagesProcessed) + 1
        && stats.wordsRead == old(stats.wordsRead) + Stats.WordCount(text)
        && stats.cacheHits == old(stats.cacheHits) && stats.cacheMisses == old(stats.cacheMisses)
        && stats.audioFilesGenerated == old(stats.audioFilesGenerated)
      ensures !hasStats ==> unchanged(stats)
    {
      if hasStats {
        stats.IncrementMessages();
        var words := stats.AddWords(text);
      }
    }

    /** The tail of the pipeline once the cache was consulted: a hit is
        used as it is, a miss is synthesised and, when a file came back,
        recorded in the cache (the synthesised file exists at that point).
        Only the hit and miss counters move. */
    method FetchAudio(key: CacheStore.Key, text: string, speakerId: int, cachePath: Option<CacheStore.Path>, w: World)
      returns (audio: Option<CacheStore.Path>, after: set<CacheStore.Path>)
      modifies stats, cache
      ensures audio == if cachePath.Some? then cachePath else Synthesis(synth, text, speakerId)
      ensures hasStats ==>
        && stats.cacheHits == old(stats.cacheHits) + (if cachePath.Some? then 1 else 0)
        && stats.cacheMisses == old(stats.cacheMisses) + (if cachePath.Some? then 0 else 1)
        && stats.messagesProcessed == old(stats.messagesProcessed) && stats.wordsRead == old(stats.wordsRead)
        && stats.audioFilesGenerated == old(stats.audioFilesGenerated)
      ensures !hasStats ==> unchanged(stats)
      ensures cachePath.Some? || audio.None? ==> unchanged(cache) && after == w.existing
      ensures cachePath.None? && audio.Some? ==>
        Recorded(cache, old(cache.files), old(cache.saved), cache.files, cache.saved, after, key, audio.value, text, speakerId, w)
    {
      after := w.existing;
      if cachePath.Some? {
        audio := cachePath;
        if hasStats {
          stats.RecordCacheHit();
        }
        return;
      }
      audio := Voicevox.CreateAudio(synth.api, synth.engine, text, speakerId, synth.ffmpegOk, synth.uuidHex);
      if hasStats {
        stats.RecordCacheMiss();
      }
      if audio.Some? {
        after := cache.AddToCache(key, audio.value, text, speakerId, w.existing + {audio.value}, w.now, w.copyOk);
      }
    }

    /** From the cache key to an audio file: the lookup, the message and word
        counts, then the hit or the synthesis of a miss. */
    method Acquire(key: CacheStore.Key, text: string, speakerId: int, w: World)
      returns (hit: bool, audio: Option<CacheStore.Path>, after: set<CacheStore.Path>)
      modifies stats, cache
      ensures hit == Looked(cache.enabled, old(cache.files), key, w.existing, w.now).0.Some?
      ensures audio == (if hit then Looked(cache.enabled, old(cache.files), key, w.existing, w.now).0 else Synthesis(synth, text, speakerId))
      ensures hasStats ==> stats.messagesProcessed == old(stats.messagesProcessed) + 1 && stats.wordsRead == old(stats.wordsRead) + Stats.WordCount(text)
      ensures hasStats ==> stats.cacheHits == old(stats.cacheHits) + (if hit then 1 else 0) && stats.cacheMisses == old(stats.cacheMisses) + (if hit then 0 else 1)
      ensures hasStats ==> stats.audioFilesGenerated == old(stats.audioFilesGenerated)
      ensures !hasStats ==> unchanged(stats)
      ensures hit || audio.None? ==> cache.files == Looked(cache.enabled, old(cache.files), key, w.existing, w.now).1 && cache.saved == old(cache.saved) && after == w.existing
      ensures !hit && audio.Some? ==> Recorded(cache, Looked(cache.enabled, old(cache.files), key, w.existing, w.now).1, old(cache.saved), cache.files, cache.saved, after, key, audio.value, text, speakerId, w)
    {
      var cachePath := cache.GetCachePath(key, w.existing, w.now);
      CountMessage(text);
      audio, after := FetchAudio(key, text, speakerId, cachePath, w);
      hit := cachePath.Some?;
    }

    /** `process_auto_reading`. `after` is the set of files on disk. */
    method ProcessAutoReading(msg: Message, w: World) returns (outcome: ReadOutcome, after: set<CacheStore.Path>)
      requires control.Valid()
      modifies control, stats, cache
      ensures control.Valid()
      ensures !old(Eligible(msg)) ==>
        outcome == Skipped && after == w.existing && unchanged(control) && unchanged(stats) && unchanged(cache)
      ensures old(Eligible(msg)) ==> outcome.Read?
      ensures outcome.Read? ==> (outcome.text == Truncate(msg.content, maxMessageLength))
      ensures outcome.Read? ==> (outcome.speaker == SpeakerFor(msg, w.configured))
      ensures outcome.Read? ==> (outcome.key == CacheStore.CacheKey(cache.digest, outcome.text, outcome.speaker))
      ensures outcome.Read? ==> (outcome.hit == Looked(cache.enabled, old(cache.files), outcome.key, w.existing, w.now).0.Some?)
      ensures outcome.Read? ==> (outcome.audio == (if outcome.hit then Looked(cache.enabled, old(cache.files), outcome.key, w.existing, w.now).0 else Synthesis(synth, outcome.text, outcome.speaker)))
      ensures outcome.Read? ==> (hasStats ==> stats.messagesProcessed == old(stats.messagesProcessed) + 1 && stats.wordsRead == old(stats.wordsRead) + Stats.WordCount(outcome.text))
      ensures outcome.Read? ==> (hasStats ==> stats.cacheHits == old(stats.cacheHits) + (if outcome.hit then 1 else 0) && stats.cacheMisses == old(stats.cacheMisses) + (if outcome.hit then 0 else 1))
      ensures outcome.Read? ==> (hasStats ==> stats.audioFilesGenerated == old(stats.audioFilesGenerated))
      ensures outcome.Read? ==> (!hasStats ==> unchanged(stats))
      ensures outcome.Read? ==> (outcome.hit || outcome.audio.None? ==> cache.files == Looked(cache.enabled, old(cache.files), outcome.key, w.existing, w.now).1 && cache.saved == old(cache.saved) && after == w.existing)
      ensures outcome.Read? ==> (!outcome.hit && outcome.audio.Some? ==> Recorded(cache, Looked(cache.enabled, old(cache.files), outcome.key, w.existing, w.now).1, old(cache.saved), cache.files, cache.saved, after, outcome.key, outcome.audio.value, outcome.text, outcome.speaker, w))
      ensures outcome.Read? ==> (outcome.audio.None? ==> unchanged(control) && !outcome.queued && !outcome.spawned)
      ensures outcome.Read? ==> (outcome.audio.Some? ==> (control.View(msg.guildId.value), outcome.queued, outcome.spawned) == Playback.Enqueue(old(control.View(msg.guildId.value)), Playback.Item(outcome.audio.value, Some(msg.authorId), Some(outcome.text))))
      ensures outcome.Read? ==> (outcome.audio.Some? ==> forall h :: h != msg.guildId.value ==> control.View(h) == old(control.View(h)))
    {
      if msg.guildId.None? || !hasSetup || !setup.IsReadChannel(msg.guildId.value, msg.channelId)
         || !hasControl || !control.IsConnected(msg.guildId.value) || IsBlank(msg.content) {
        return Skipped, w.existing;
      }
      outcome, after := ReadAloud(msg, w);
    }

    /** The pipeline past the gating: truncate, pick the voice, consult the
        cache, count, fetch or synthesise, enqueue. */
    method ReadAloud(msg: Message, w: World) returns (outcome: ReadOutcome, after: set<CacheStore.Path>)
      requires control.Valid() && msg.guildId.Some?
      modifies control, stats, cache
      ensures control.Valid()
      ensures outcome.Read?
      ensures outcome.text == Truncate(msg.content, maxMessageLength)
      ensures outcome.speaker == SpeakerFor(msg, w.configured)
      ensures outcome.key == CacheStore.CacheKey(cache.digest, outcome.text, outcome.speaker)
      ensures outcome.hit == Looked(cache.enabled, old(cache.files), outcome.key, w.existing, w.now).0.Some?
      ensures outcome.audio == (if outcome.hit then Looked(cache.enabled, old(cache.files), outcome.key, w.existing, w.now).0 else Synthesis(synth, outcome.text, outcome.speaker))
      ensures hasStats ==> stats.messagesProcessed == old(stats.messagesProcessed) + 1 && stats.wordsRead == old(stats.wordsRead) + Stats.WordCount(outcome.text)
      ensures hasStats ==> stats.cacheHits == old(stats.cacheHits) + (if outcome.hit then 1 else 0) && stats.cacheMisses == old(stats.cacheMisses) + (if outcome.hit then 0 else 1)
      ensures hasStats ==> stats.audioFilesGenerated == old(stats.audioFilesGenerated)
      ensures !hasStats ==> unchanged(stats)
      ensures outcome.hit || outcome.audio.None? ==> cache.files == Looked(cache.enabled, old(cache.files), outcome.key, w.existing, w.now).1 && cache.saved == old(cache.saved) && after == w.existing
      ensures !outcome.hit && outcome.audio.Some? ==> Recorded(cache, Looked(cache.enabled, old(cache.files), outcome.key, w.existing, w.now).1, old(cache.saved), cache.files, cache.saved, after, outcome.key, outcome.audio.value, outcome.text, outcome.speaker, w)
      ensures outcome.audio.None? ==> unchanged(control) && !outcome.queued && !outcome.spawned
      ensures outcome.audio.Some? ==> (control.View(msg.guildId.value), outcome.queued, outcome.spawned) == Playback.Enqueue(old(control.View(msg.guildId.value)), Playback.Item(outcome.audio.value, Some(msg.authorId), Some(outcome.text)))
      ensures outcome.audio.Some? ==> forall h :: h != msg.guildId.value ==> control.View(h) == old(control.View(h))
    {
      var text, speakerId, key := Prepare(msg, w);
      var hit, audioPath;
      hit, audioPath, after := Acquire(key, text, speakerId, w);
      var queued, spawned := Deliver(msg.guildId.value, audioPath, msg.authorId, text);
      outcome := Read(text, speakerId, key, hit, audioPath, queued, spawned);
    }

    /** The text to read (truncated), the voice and the cache key. */
    method Prepare(msg: Message, w: World) returns (text: string, speakerId: int, key: CacheStore.Key)
      requires msg.guildId.Some?
      ensures text == Truncate(msg.content, maxMessageLength)
      ensures speakerId == SpeakerFor(msg, w.configured)
      ensures key == CacheStore.CacheKey(cache.digest, text, speakerId)
    {
      text := msg.content;
      if |text| > maxMessageLength {
        text := PrefixSlice(text, maxMessageLength) + "...";
      }
      speakerId := 1;
      if hasSpeakers {
        speakerId := speakers.GetDefaultSpeaker(msg.authorId, Some(msg.guildId.value), w.configured);
      }
      key := cache.GenerateCacheKey(text, speakerId);
    }

    /** `play_audio` of the audio file, when there is one; without one the
        handler returns and nothing is queued. */
    method Deliver(g: Playback.GuildId, audio: Option<CacheStore.Path>, author: int, text: string)
      returns (queued: bool, spawned: bool)
      requires control.Valid()
      modifies control
      ensures control.Valid()
      ensures audio.None? ==> unchanged(control) && !queued && !spawned
      ensures audio.Some? ==>
        (control.View(g), queued, spawned) == Playback.Enqueue(old(control.View(g)), Playback.Item(audio.value, Some(author), Some(text)))
      ensures audio.Some? ==> forall h :: h != g ==> control.View(h) == old(control.View(h))
    {
      if audio.None? {
        return false, false;
      }
      queued, spawned := control.PlayAudio(g, audio.value, Some(author), Some(text));
    }
  }
}
