/** interactions/commands/say.py: the `/say` handler. It reads a given text
    aloud in the guild's voice channel through the same cache, synthesis and
    playback path as the automatic reading, without truncation: a text longer
    than 200 characters is refused instead. */
module Say {
  import opened Wrappers
  import CacheStore
  import Playback
  import Voicevox
  import Stats
  import SpeakerSettings
  import Bot

  /** `max_length` of the handler. */
  const MaxSayLength := 200

  /** The handler's replies. `Crashed` is a DM: `interaction.guild` is `None`
      and reading its `id` raises before anything changes. */
  datatype SayOutcome =
    | NoPermission
    | NoAudioControl
    | Crashed
    | NotConnected
    | TooLong
    | Spoken(speaker: int, key: CacheStore.Key, hit: bool, audio: Option<CacheStore.Path>,
             queued: bool, spawned: bool)

  class SayCommand {
    const control: Playback.AudioControl
    const hasControl: bool
    const speakers: SpeakerSettings.SetSpeakerCommand
    const hasSpeakers: bool
    const stats: Stats.SystemStats
    const hasStats: bool
    const cache: CacheStore.AudioCache
    const synth: Bot.Synthesizer

    constructor (control: Playback.AudioControl, hasControl: bool,
                 speakers: SpeakerSettings.SetSpeakerCommand, hasSpeakers: bool,
                 stats: Stats.SystemStats, hasStats: bool,
                 cache: CacheStore.AudioCache, synth: Bot.Synthesizer)
      requires control.cacheDir == cache.cacheDir
      ensures this.control == control && this.hasControl == hasControl
      ensures this.speakers == speakers && this.hasSpeakers == hasSpeakers
      ensures this.stats == stats && this.hasStats == hasStats
      ensures this.cache == cache && this.synth == synth
      ensures this.control.cacheDir == this.cache.cacheDir
    {
      this.control := control;
      this.hasControl := hasControl;
      this.speakers := speakers;
      this.hasSpeakers := hasSpeakers;
      this.stats := stats;
      this.hasStats := hasStats;
      this.cache := cache;
      this.synth := synth;
    }

    /** The voice: the `speaker_id` argument when given (0 included, the test
        being `is None`), else the user's or server's setting when the
        speaker settings are loaded, else 1. */
    function SpeakerFor(userId: int, guildId: int, explicit: Option<int>, configured: Option<int>): (s: int)
      reads this, speakers
      ensures explicit.Some? ==> s == explicit.value
      ensures explicit.None? && !hasSpeakers ==> s == 1
      ensures explicit.None? && hasSpeakers ==>
        s == SpeakerSettings.Resolve(speakers.userSettings, speakers.serverSettings, userId, Some(guildId), configured)
    {
      if explicit.Some? then explicit.value
      else if hasSpeakers then speakers.GetDefaultSpeaker(userId, Some(guildId), configured)
      else 1
    }

    /** The hit or the synthesis, with the counters and the cache entry; on
        a miss the file is recorded only when both the path and the key are
        non-empty. */
    method Fetch(key: CacheStore.Key, text: string, speakerId: int, cachePath: Option<CacheStore.Path>, w: Bot.World)
      returns (audio: Option<CacheStore.Path>, after: set<CacheStore.Path>)
      modifies stats, cache
      ensures audio == if cachePath.Some? then cachePath else Bot.Synthesis(synth, text, speakerId)
      ensures hasStats ==>
        && stats.cacheHits == old(stats.cacheHits) + (if cachePath.Some? then 1 else 0)
        && stats.cacheMisses == old(stats.cacheMisses) + (if cachePath.Some? then 0 else 1)
        && stats.messagesProcessed == old(stats.messagesProcessed) && stats.wordsRead == old(stats.wordsRead)
        && stats.audioFilesGenerated == old(stats.audioFilesGenerated)
      ensures !hasStats ==> unchanged(stats)
      ensures cachePath.Some? || audio.None? ==> unchanged(cache) && after == w.existing
      ensures cachePath.None? && audio.Some? && key == "" ==>
        unchanged(cache) && after == w.existing + {audio.value}
      ensures cachePath.None? && audio.Some? && key != "" ==>
        Bot.Recorded(cache, old(cache.files), old(cache.saved), cache.files, cache.saved, after, key, audio.value,
                     text, speakerId, w)
    {
      after := w.existing;
      if cachePath.Some? {
        audio := cachePath;
        if hasStats {
          stats.RecordCacheHit();
        }
        return;
      }
      audio := Voicevox.CreateAudio(synth.api, synth.engine, text, speakerId, synth.ffmpegOk, synth.uuidHex);
      if hasStats {
        stats.RecordCacheMiss();
      }
      if audio.Some? {
        after := w.existing + {audio.value};
        if key != "" {
          after := cache.AddToCache(key, audio.value, text, speakerId, w.existing + {audio.value}, w.now, w.copyOk);
        }
      }
    }

    /** From the cache key to an audio file: the lookup, the word count
        (`/say` does not count a message), then the hit or the synthesis. */
    method Acquire(key: CacheStore.Key, text: string, speakerId: int, w: Bot.World)
      returns (hit: bool, audio: Option<CacheStore.Path>, after: set<CacheStore.Path>)
      modifies stats, cache
      ensures hit == Bot.Looked(cache.enabled, old(cache.files), key, w.existing, w.now).0.Some?
      ensures audio == (if hit then Bot.Looked(cache.enabled, old(cache.files), key, w.existing, w.now).0
                        else Bot.Synthesis(synth, text, speakerId))
      ensures hasStats ==> stats.messagesProcessed == old(stats.messagesProcessed) && stats.wordsRead == old(stats.wordsRead) + Stats.WordCount(text)
      ensures hasStats ==> stats.cacheHits == old(stats.cacheHits) + (if hit then 1 else 0) && stats.cacheMisses == old(stats.cacheMisses) + (if hit then 0 else 1)
      ensures hasStats ==> stats.audioFilesGenerated == old(stats.audioFilesGenerated)
      ensures !hasStats ==> unchanged(stats)
      ensures hit || audio.None? ==>
        cache.files == Bot.Looked(cache.enabled, old(cache.files), key, w.existing, w.now).1
        && cache.saved == old(cache.saved) && after == w.existing
      ensures !hit && audio.Some? && key == "" ==>
        cache.files == Bot.Looked(cache.enabled, old(cache.files), key, w.existing, w.now).1
        && cache.saved == old(cache.saved) && after == w.existing + {audio.value}
      ensures !hit && audio.Some? && key != "" ==>
        Bot.Recorded(cache, Bot.Looked(cache.enabled, old(cache.files), key, w.existing, w.now).1, old(cache.saved),
                     cache.files, cache.saved, after, key, audio.value, text, speakerId, w)
    {
      var cachePath := cache.GetCachePath(key, w.existing, w.now);
      if hasStats {
        var words := stats.AddWords(text);
      }
      audio, after := Fetch(key, text, speakerId, cachePath, w);
      hit := cachePath.Some?;
    }

    /** The handler past its checks: the voice, the key, the audio, and the
        enqueue of the text as given. */
    method Speak(userId: int, g: int, text: string, explicit: Option<int>, w: Bot.World)
      returns (outcome: SayOutcome, after: set<CacheStore.Path>)
      requires control.Valid()
      modifies control, stats, cache
      ensures control.Valid()
      ensures outcome.Spoken?
      ensures outcome.speaker == SpeakerFor(userId, g, explicit, w.configured)
      ensures outcome.key == CacheStore.CacheKey(cache.digest, text, outcome.speaker)
      ensures outcome.hit == Bot.Looked(cache.enabled, old(cache.files), outcome.key, w.existing, w.now).0.Some?
      ensures outcome.audio == (if outcome.hit then Bot.Looked(cache.enabled, old(cache.files), outcome.key, w.existing, w.now).0
                                else Bot.Synthesis(synth, text, outcome.speaker))
      ensures hasStats ==> stats.messagesProcessed == old(stats.messagesProcessed) && stats.wordsRead == old(stats.wordsRead) + Stats.WordCount(text)
      ensures hasStats ==> stats.cacheHits == old(stats.cacheHits) + (if outcome.hit then 1 else 0) && stats.cacheMisses == old(stats.cacheMisses) + (if outcome.hit then 0 else 1)
      ensures !hasStats ==> unchanged(stats)
      ensures outcome.hit || outcome.audio.None? ==>
        cache.files == Bot.Looked(cache.enabled, old(cache.files), outcome.key, w.existing, w.now).1
        && cache.saved == old(cache.saved) && after == w.existing
      ensures !outcome.hit && outcome.audio.Some? && outcome.key == "" ==>
        cache.files == Bot.Looked(cache.enabled, old(cache.files), outcome.key, w.existing, w.now).1
        && cache.saved == old(cache.saved) && after == w.existing + {outcome.audio.value}
      ensures !outcome.hit && outcome.audio.Some? && outcome.key != "" ==>
        Bot.Recorded(cache, Bot.Looked(cache.enabled, old(cache.files), outcome.key, w.existing, w.now).1, old(cache.saved),
                     cache.files, cache.saved, after, outcome.key, outcome.audio.value, text, outcome.speaker, w)
      ensures outcome.audio.None? ==> unchanged(control) && !outcome.queued && !outcome.spawned
      ensures outcome.audio.Some? ==>
        (control.View(g), outcome.queued, outcome.spawned)
          == Playback.Enqueue(old(control.View(g)), Playback.Item(outcome.audio.value, Some(userId), Some(text)))
      ensures outcome.audio.Some? ==> forall h :: h != g ==> control.View(h) == old(control.View(h))
    {
      var speakerId := explicit.GetOr(1);
      if explicit.None? && hasSpeakers {
        speakerId := speakers.GetDefaultSpeaker(userId, Some(g), w.configured);
      }
      var key := cache.GenerateCacheKey(text, speakerId);
      var hit, audioPath;
      hit, audioPath, after := Acquire(key, text, speakerId, w);
      if audioPath.None? {
        return Spoken(speakerId, key, hit, None, false, false), after;
      }
      var ok, spawned := control.PlayAudio(g, audioPath.value, Some(userId), Some(text));
      return Spoken(speakerId, key, hit, audioPath, ok, spawned), after;
    }

    /** The `/say` handler. `permitted` is false exactly when the
        `SlashCommands` cog is loaded and refuses `"say"`; `guildId` is `None`
        in a DM. Every refusal leaves everything as it was. */
    method Say(permitted: bool, userId: int, guildId: Option<int>, text: string, explicit: Option<int>, w: Bot.World)
      returns (outcome: SayOutcome, after: set<CacheStore.Path>)
      requires control.Valid()
      modifies control, stats, cache
      ensures control.Valid()
      ensures !permitted ==> outcome == NoPermission
      ensures permitted && !hasControl ==> outcome == NoAudioControl
      ensures permitted && hasControl && guildId.None? ==> outcome == Crashed
      ensures permitted && hasControl && guildId.Some? && !old(control.IsConnected(guildId.value)) ==>
        outcome == NotConnected
      ensures permitted && hasControl && guildId.Some? && old(control.IsConnected(guildId.value)) && |text| > MaxSayLength ==>
        outcome == TooLong
      ensures !outcome.Spoken? ==> after == w.existing && unchanged(control) && unchanged(stats) && unchanged(cache)
      ensures outcome.Spoken? <==>
        permitted && hasControl && guildId.Some? && old(control.IsConnected(guildId.value)) && |text| <= MaxSayLength
      ensures outcome.Spoken? ==> outcome.speaker == SpeakerFor(userId, guildId.value, explicit, w.configured)
      ensures outcome.Spoken? ==> outcome.key == CacheStore.CacheKey(cache.digest, text, outcome.speaker)
      ensures outcome.Spoken? ==>
        outcome.hit == Bot.Looked(cache.enabled, old(cache.files), outcome.key, w.existing, w.now).0.Some?
      ensures outcome.Spoken? ==>
        outcome.audio == (if outcome.hit then Bot.Looked(cache.enabled, old(cache.files), outcome.key, w.existing, w.now).0
                          else Bot.Synthesis(synth, text, outcome.speaker))
      ensures outcome.Spoken? && hasStats ==>
        stats.messagesProcessed == old(stats.messagesProcessed) && stats.wordsRead == old(stats.wordsRead) + Stats.WordCount(text)
      ensures outcome.Spoken? && hasStats ==>
        stats.cacheHits == old(stats.cacheHits) + (if outcome.hit then 1 else 0)
        && stats.cacheMisses == old(stats.cacheMisses) + (if outcome.hit then 0 else 1)
      ensures outcome.Spoken? && !hasStats ==> unchanged(stats)
      ensures outcome.Spoken? && (outcome.hit || outcome.audio.None?) ==>
        cache.files == Bot.Looked(cache.enabled, old(cache.files), outcome.key, w.existing, w.now).1
        && cache.saved == old(cache.saved) && after == w.existing
      ensures outcome.Spoken? && !outcome.hit && outcome.audio.Some? && outcome.key == "" ==>
        cache.files == Bot.Looked(cache.enabled, old(cache.files), outcome.key, w.existing, w.now).1
        && cache.saved == old(cache.saved) && after == w.existing + {outcome.audio.value}
      ensures outcome.Spoken? && !outcome.hit && outcome.audio.Some? && outcome.key != "" ==>
        Bot.Recorded(cache, Bot.Looked(cache.enabled, old(cache.files), outcome.key, w.existing, w.now).1, old(cache.saved),
                     cache.files, cache.saved, after, outcome.key, outcome.audio.value, text, outcome.speaker, w)
      ensures outcome.Spoken? && outcome.audio.None? ==> unchanged(control) && !outcome.queued && !outcome.spawned
      ensures outcome.Spoken? && outcome.audio.Some? ==>
        (control.View(guildId.value), outcome.queued, outcome.spawned)
          == Playback.Enqueue(old(control.View(guildId.value)),
                              Playback.Item(outcome.audio.value, Some(userId), Some(text)))
      ensures outcome.Spoken? && outcome.audio.Some? ==>
        forall h :: h != guildId.value ==> control.View(h) == old(control.View(h))
    {
      if !permitted {
        return NoPermission, w.existing;
      }
      if !hasControl {
        return NoAudioControl, w.existing;
      }
      if guildId.None? {
        return Crashed, w.existing;
      }
      if !control.IsConnected(guildId.value) {
        return NotConnected, w.existing;
      }
      if |text| > MaxSayLength {
        return TooLong, w.existing;
      }
      outcome, after := Speak(userId, guildId.value, text, explicit, w);
    }
  }
}
