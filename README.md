# discord_voicevox_bot, modelled in Dafny

This project models the bookkeeping of a Discord text-to-speech bot. The bot
reads messages of chosen text channels (and the text of `/say`) aloud in the
guild's voice channel through a VOICEVOX engine. The model covers:

- **Playback**: the per-guild playback controller of `cogs/audio_control.py`. It
  holds a voice client, a FIFO queue of `{path, user_id, text}` items and an
  `is_playing` flag per guild, plus a driver that pops and plays the queue.
- **CacheStore**: the content-addressed audio cache index of
  `utils/audio_cache.py`. A key is the SHA-256 of `f"{text}_{speaker_id}"`.
  Lookups purge lazily, insertion overwrites, and cleanup goes by age.
- **Background**: the size-budget eviction of `utils/tasks.py` and its
  `start`/`stop` running flag.
- **Voicevox**: clause segmentation of long text in `utils/voicevox_api.py`,
  the two-step synthesis status gating, combining files, the speaker lookup and
  the cache file name.
- **Bot** and **Say**: the orchestration in `bot.py` (`on_message`,
  `process_auto_reading`) and in the `/say` handler.
- **Decision rules**:
  - SpeakerSettings: voice resolution and `/set_speaker`;
  - ReadChannels: the read-channel table and `/setup`;
  - Permissions: the permission decision;
  - SpeakerList: speaker grouping, 25-field paging and the pagination view;
  - Stats: the statistics counters and word count;
  - StatsFormat: the uptime and byte formatters;
  - Scheduler: the periodic task scheduler and daily cleanup.

State the source updates in place is a `class`:
- `AudioControl` holds the four per-guild dictionaries as maps.
- `AudioCache` holds the in-memory index and the saved document.
- The other classes are `BackgroundTasks`, `SystemStats`, `TasksModule`,
  `SetupCommand`, `SetSpeakerCommand`, `SpeakerPaginationView`, `Bot` and
  `SayCommand`.

Each method is proved against a pure specification function:
- `Playback.Enqueue`, `Playback.Driver` and `CacheStore.Lookup`;
- `Voicevox.Clauses`, `Background.Evict` and `Scheduler.TickFrom`;
- `SpeakerList.Grouped` and `SpeakerList.Chunks`.

The lemmas beside these functions state what the source promises.

The outside world is passed in as parameters:
- Files on disk are a `set<Path>`, and a method returns the new set.
- The clock is an integer number of seconds.
- SHA-256 is an uninterpreted `string -> string` function, and the uuid is a
  hex string parameter.
- The engine's `/audio_query` and `/synthesis` replies are oracles.
- Whether ffmpeg, a copy or a removal succeeds is a boolean or a set of failing
  names.

The model keeps these behaviours of the code as written:
- `disconnect_from_voice` answers `False` when nothing is connected
  (cogs/audio_control.py:79), and also when the client's `disconnect()` raises,
  in which case nothing is reset (cogs/audio_control.py:61-62 and 75-79).
  `connect_to_voice` ignores that answer and connects anyway
  (cogs/audio_control.py:40-44).
- `play_audio` starts a driver whenever `is_playing` is false, but the flag is
  only set once the driver runs (cogs/audio_control.py:108-109 and 119). Two
  quick messages on an idle guild therefore start two drivers. The second
  driver's `play` raises because the player is still busy with the first item;
  its recursion then pops and drops the second item and clears the flag
  (cogs/audio_control.py:138-147). `Playback.IdleDoubleSpawn` states this.
- `cleanup_old_cache` drops an entry whose timestamp does not parse, but keeps
  its file on disk (utils/audio_cache.py:122 and 131-133).
- The second `create_audio` (utils/voicevox_api.py:133) replaces the first one,
  so only the second is modelled.
- `/say` in a DM fails when it reads `interaction.guild.id`, before any state
  changes (interactions/commands/say.py:50). This is the `Crashed` outcome.

## Model

| member | source | states |
|---|---|---|
| Playback.AudioControl.constructor | cogs/audio_control.py:19-24 | every guild starts with no client, no queue and no flag |
| Playback.AudioControl.ConnectToVoice | cogs/audio_control.py:26-55 | the guild's new state and answer are those of the connect step, whose teardown may raise; other guilds are unchanged |
| Playback.ConnectResets | cogs/audio_control.py:29-47 | success happens exactly when the guild is found, the channel is a voice channel and the connect works; it leaves a connected guild with an idle player, an empty queue and a cleared flag; an unknown guild or a non-voice channel changes nothing; a failed connect leaves the guild disconnected with an empty queue when the old client was torn down, and unchanged when there was none or its `disconnect()` raised |
| Playback.AudioControl.DisconnectFromVoice | cogs/audio_control.py:57-79 | the guild follows the disconnect step (client dropped, queue emptied, flag cleared, a live auto-disconnect task cancelled); the answer is false and nothing changes without a client or when `disconnect()` raises; other guilds are unchanged |
| Playback.DisconnectThenRejected | cogs/audio_control.py:60-79 | with a client, the answer is true exactly when `disconnect()` returns or was not needed; a false answer leaves the guild as it was, still connected; after a true one the queue is empty, nothing can be enqueued and a second disconnect answers false |
| Playback.AudioControl.IsConnected | cogs/audio_control.py:81-85 | true exactly when a stored client reports a live connection |
| Playback.AudioControl.PlayAudio | cogs/audio_control.py:87-111 | the guild's new state, the answer and whether a driver is started follow the enqueue step; other guilds are unchanged |
| Playback.EnqueueLaw | cogs/audio_control.py:89-109 | not connected: false and no change; connected: the queue stays as it was exactly when a pending item has the same non-empty text; otherwise the item is appended behind the earlier items, and a driver starts exactly when the flag was false; a None or empty text is always appended |
| Playback.IdleDoubleSpawn | cogs/audio_control.py:108-147 | two enqueues on an idle guild both start a driver; the first driver plays the first item, the second finds the player busy, drops the second item and clears the flag while the first still plays, and the end of the first item finds nothing left |
| Playback.BusyDropsQueue | cogs/audio_control.py:115-147 | a driver that runs while the player is busy empties the whole queue, starts nothing and clears the flag |
| Playback.AudioControl.PlayNext | cogs/audio_control.py:113-147 | the guild's new state and the item started follow the driver step (the recursion over missing files and failed starts unrolled); other guilds are unchanged |
| Playback.DriverPopsHead | cogs/audio_control.py:115-141 | disconnected or empty: nothing is removed and the flag is cleared; with a playable head on an idle player exactly the head is popped, the flag set and the player busy; a started item always comes from an idle player |
| Playback.DrainFirstStartable | cogs/audio_control.py:122-147 | the driver hands over the first playable item of the queue, drops exactly the unplayable items before it and keeps the rest in order; with nothing playable it empties the queue |
| Playback.ReenqueueWhilePlaying | cogs/audio_control.py:94-98 | the playing item has left the queue, so the same text is accepted and queued again while it plays |
| Playback.AudioControl.AudioFinished | cogs/audio_control.py:149-166 | the files left are those of the deletion rule, then the driver step runs on the guild with its player idle |
| Playback.CacheFilesSurvive | cogs/audio_control.py:157-160 | a cache file is never deleted after playback; at most the finished file goes, and only when its path contains `temp/` and is outside the cache directory |
| Playback.AudioControl.ClearQueue | cogs/audio_control.py:168-174 | the queue is emptied without touching the flag; the answer says whether the guild had a queue |
| CacheStore.AudioCache.constructor | utils/audio_cache.py:19-39 | the index is the loaded document |
| Wrappers.LoadOr | utils/audio_cache.py:41-51 | a readable document gives its contents; a missing or corrupt one gives the fallback (`{}` for the cache index, and for both `_load_settings` of interactions/commands/set_speaker.py:101-109 and interactions/commands/setup.py:115-124) |
| CacheStore.AudioCache.GenerateCacheKey | utils/audio_cache.py:61-63 | the key is the digest of `text + "_" + str(speaker_id)` |
| CacheStore.KeySourceInjective | utils/audio_cache.py:61-63 | the hashed string determines both the text and the speaker |
| CacheStore.CacheKeyDeterministic | utils/audio_cache.py:61-63 | equal text and speaker give the same key; different ones give different hashed strings |
| CacheStore.AudioCache.GetCachePath | utils/audio_cache.py:65-80 | disabled: None and no change; enabled: the result and the new index are those of the lookup; the saved document is untouched |
| CacheStore.LookupEffect | utils/audio_cache.py:70-80 | a path comes back exactly when the key is present and its file exists; only that entry's access time changes; an entry whose file is gone is removed; an absent key leaves the index as it was |
| CacheStore.AudioCache.AddToCache | utils/audio_cache.py:82-110 | disabled or a failed copy: nothing changes; otherwise the entry `cache_dir/<key>.wav` with text, speaker and timestamps overwrites the key, the index is saved, and a copy made adds the cache file |
| CacheStore.InsertThenLookup | utils/audio_cache.py:89-103 | after an insertion, the lookup of that key returns `cache_dir/<key>.wav` as long as the file exists |
| CacheStore.ReloadThenLookup | utils/audio_cache.py:41-51 | the saved document answers the same lookup after a reload |
| CacheStore.CorruptIndexMisses | utils/audio_cache.py:43-51 | with an unreadable index every lookup misses and nothing is indexed |
| CacheStore.AudioCache.CleanupOldCache | utils/audio_cache.py:112-142 | disabled: nothing changes. The call raises exactly when the removal of an existing file of an entry that is too old raises; then the index is neither changed nor saved, no file that fails to go is gone, and at most the files of too-old entries are. Otherwise the index keeps exactly the entries whose timestamp parses and whose whole-day age does not exceed the limit, exactly the files of the too-old entries are deleted (not those of unparseable ones), and the index is saved only when something was dropped |
| CacheStore.KeepFresh | utils/audio_cache.py:120-137 | a key survives exactly when it is present and not expired; surviving entries are unchanged |
| CacheStore.AgeBoundary | utils/audio_cache.py:122-125 | an entry is older than N whole days exactly when at least (N+1)·86400 seconds have passed |
| Background.SortByAtime | utils/tasks.py:122-123 | the sorted list has the same files (a permutation) |
| Background.SortIsSorted | utils/tasks.py:122-123 | files are considered in ascending access-time order |
| Background.CleanCacheOnce | utils/tasks.py:113-136 | the files removed and the final total are those of the eviction pass; the deleted count is the number of removals |
| Background.UnderBudgetKeepsAll | utils/tasks.py:114-120 | at or below 500 MiB nothing is removed |
| Background.EvictAccounts | utils/tasks.py:126-136 | every removed file is from the listing and did not fail to be removed; the final total is the start total minus exactly the removed sizes |
| Background.EvictMinimalPrefix | utils/tasks.py:126-134 | when no removal fails, the removed files are a prefix of the sorted order that stops right after the first removal bringing the total to at most 80% of the budget |
| Background.BackgroundTasks.Start | utils/tasks.py:28-41 | no-op when running; otherwise the flag is set and exactly the three loops are created |
| Background.BackgroundTasks.Stop | utils/tasks.py:43-60 | no-op when not running; otherwise the flag is cleared, the unfinished loops are cancelled and the task list is empty |
| Voicevox.ReSplit | utils/voicevox_api.py:139 | splitting with a capture group always gives an odd number of pieces |
| Voicevox.PairUpReSplit | utils/voicevox_api.py:139-151 | pairing the split pieces gives the clauses of the reference definition |
| Voicevox.SplitIntoClauses | utils/voicevox_api.py:139-151 | the pairing loop returns exactly the clauses |
| Voicevox.ClausesConcat | utils/voicevox_api.py:139-151 | joining the clauses gives back the text |
| Voicevox.ClausesShape | utils/voicevox_api.py:139-151 | each clause but the last ends in exactly one delimiter of `。、．，!！?？` and holds no other; the last holds none |
| Voicevox.GenerateAudioSegment | utils/voicevox_api.py:175-214 | the temp file is written exactly when both HTTP steps answer 200; an escaped exception is told apart from a failure |
| Voicevox.TempPath | utils/voicevox_api.py:178 | every segment file lies under `temp/` |
| Voicevox.CreateAudio | utils/voicevox_api.py:133-173 | the result is that of the clause-by-clause definition: long text is split, blank clauses skipped, failed ones dropped, an exception ends the call, and the survivors are combined |
| Voicevox.CreateAudioCases | utils/voicevox_api.py:137-169 | text of at most 100 characters goes to a single segment call; long text with no surviving segment gives None |
| Voicevox.SurvivorsInOrder | utils/voicevox_api.py:154-163 | when every non-blank clause synthesises, the paths are the temp files of exactly the non-blank clauses, in order |
| Voicevox.SurvivorsExactly | utils/voicevox_api.py:154-163 | with failures allowed, no result exactly when some non-blank clause's call lets an exception escape; otherwise the paths are the temp files of exactly the written clauses, in clause order |
| Voicevox.SurvivorsBound | utils/voicevox_api.py:154-163 | every collected path is the temp file of a non-blank clause, and there are never more paths than non-blank clauses |
| Voicevox.CombineLaw | utils/voicevox_api.py:216-252 | None exactly for no inputs; one input is returned as is; failing ffmpeg returns the first input; any result is an input or a fresh `temp/combined_…` file |
| Voicevox.GetSpeakerInfo | utils/voicevox_api.py:117-131 | None exactly when no speaker has the id; otherwise the first speaker with that id |
| Voicevox.GenerateCacheFilename | utils/voicevox_api.py:53-57 | the file name lies in the cache directory, ends in `.` and the audio format, and its stem is the first 16 characters of the cache key |
| Voicevox.CacheFilenameCollision | utils/voicevox_api.py:53-57 | two requests get the same file name exactly when their cache keys agree on the first 16 characters |
| Bot.MaxMessageLength | bot.py:70 | the limit is 100 when not configured |
| Bot.PrefixSlice | bot.py:163-164 | Python's `s[:n]` is a prefix of `s`, the first n characters for non-negative n |
| Bot.Truncate | bot.py:163-164 | text within the limit is unchanged; longer text becomes its first `max` characters plus `...`, so at most max+3 long |
| Bot.Bot.OnMessage | bot.py:116-126 | the bot's own messages change nothing; every other message has the outcome and effects stated for `process_auto_reading` |
| Bot.Bot.ProcessAutoReading | bot.py:128-220 | a DM, a channel that is not read, a missing or disconnected controller or a blank text changes nothing; otherwise it states the truncated text, the speaker, the key of the truncated text, hit or miss, the counter changes, the cache update, and the enqueue of the truncated text or no change when no audio came back |
| Bot.Bot.ReadAloud | bot.py:162-215 | the pipeline after gating, with the same results as above |
| Bot.Bot.Prepare | bot.py:162-182 | the text is truncated, the speaker comes from the settings or is 1, and the key is computed from the truncated text |
| Bot.Bot.CountMessage | bot.py:185-188 | with statistics loaded, messages +1 and words + the word count; nothing else |
| Bot.Bot.Acquire | bot.py:181-208 | the hit is the cache lookup; a hit uses the cached path and adds one hit; a miss synthesises, adds one miss, and records the file only when a path came back |
| Bot.Bot.FetchAudio | bot.py:192-208 | a hit uses the cached path and leaves the cache alone; a miss synthesises and records only a returned path |
| Bot.Bot.Deliver | bot.py:210-215 | no audio: nothing is enqueued; otherwise the enqueue step on the message's guild |
| Bot.CachedAudioSurvives | cogs/audio_control.py:155-160 | with the controller and the cache sharing `cache_dir` (utils/audio_cache.py:27), the end of playback never removes a cached file |
| Bot.RecordedThenHit | bot.py:201-208 | a recorded miss is a cache hit for the same text and voice at any later time, also after a reload |
| Say.SayCommand.Say | interactions/commands/say.py:32-110 | the refusals in order (permission, no controller, DM, not connected, over 200 characters) change nothing; speech happens exactly when none applies, with untruncated text, and then has the voice, key, hit, counter changes (only words and the hit or miss move), cache record, enqueue and other-guild frame stated for `Speak` |
| Say.SayCommand.SpeakerFor | interactions/commands/say.py:64-71 | an explicit speaker wins; then the settings' resolution; then 1 |
| Say.SayCommand.Acquire | interactions/commands/say.py:74-97 | only the word count moves (no message count); hit or miss as for automatic reading |
| Say.SayCommand.Fetch | interactions/commands/say.py:81-97 | a miss is recorded in the cache only when the path and the key are both non-empty |
| Say.SayCommand.Speak | interactions/commands/say.py:60-104 | key from the given text, the hit or synthesis, and the enqueue of the given text when a path came back |
| SpeakerSettings.SetSpeakerCommand.GetUserSpeaker | interactions/commands/set_speaker.py:132-134 | the user's setting under `str(user_id)`, when present |
| SpeakerSettings.SetSpeakerCommand.GetServerSpeaker | interactions/commands/set_speaker.py:136-138 | the server's setting under `str(server_id)`, when present |
| SpeakerSettings.SetSpeakerCommand.GetDefaultSpeaker | interactions/commands/set_speaker.py:140-158 | the result is the user-over-server-over-default resolution |
| SpeakerSettings.ResolvePriority | interactions/commands/set_speaker.py:145-158 | a user setting always wins; without a user setting and a server, the configured default or 1 applies; the result always comes from one of the three sources |
| SpeakerSettings.DmIgnoresServer | interactions/commands/set_speaker.py:149-152 | with a falsy server id the server table is never consulted |
| SpeakerSettings.UserWriteIsolated | interactions/commands/set_speaker.py:75-77 | writing a user's setting makes it their voice and changes no other user's |
| SpeakerSettings.ServerWriteIsolated | interactions/commands/set_speaker.py:88-89 | writing a server's setting gives it to its members without their own setting and changes no other server |
| SpeakerSettings.ValidateSpeakerId | interactions/commands/set_speaker.py:122-130 | the nested scan returns the label of the first matching style |
| SpeakerSettings.FirstLabelNone | interactions/commands/set_speaker.py:122-130 | no label exactly when no style of any speaker has the id |
| SpeakerSettings.FirstLabelFirst | interactions/commands/set_speaker.py:122-130 | a found label is `"name (style)"` of the first match in speaker order, then style order |
| SpeakerSettings.StyleLabel | interactions/commands/set_speaker.py:128 | the label is never empty and starts with the speaker's name |
| SpeakerSettings.SetSpeakerCommand.SetSpeaker | interactions/commands/set_speaker.py:44-99 | the tables and the reply follow the handler's step |
| SpeakerSettings.SetStepEffect | interactions/commands/set_speaker.py:50-91 | a user write happens exactly when permitted, the id exists and the scope is user (the default); a server write exactly when, in addition, there is a server and `manage_guild`; each write touches its own table only; every refusal changes nothing |
| ReadChannels.SetupCommand.IsReadChannel | interactions/commands/setup.py:137-144 | true exactly when both string keys exist and `enabled` is true |
| ReadChannels.SetupCommand.Setup | interactions/commands/setup.py:40-110 | the table and the reply follow the handler's step |
| ReadChannels.SetupEffect | interactions/commands/setup.py:46-101 | refusals change nothing; an accepted call leaves a map for the guild even on disable; enabling makes the channel read, disabling makes it unlisted; an omitted choice flips whether it is listed |
| ReadChannels.SetupIsolated | interactions/commands/setup.py:83-101 | every other channel keeps its state |
| Permissions.LoadPermissions | interactions/slash_commands.py:24-31 | a failed load becomes `{"commands": {}}` |
| Permissions.CheckPermission | interactions/slash_commands.py:63-93 | the search with its early returns gives the reference decision |
| Permissions.AllowedRules | interactions/slash_commands.py:63-93 | admins always pass; no entry or no role list follows `default` (true when absent); a non-empty role list admits exactly holders of a listed role; a user without roles gets `default` |
| Permissions.FallbackAllowsAll | interactions/slash_commands.py:26-31 | with the fallback configuration every command is allowed |
| SpeakerList.IndexOf | interactions/commands/list_speakers.py:121-122 | the dict lookup finds the first group of that name, or -1 exactly when there is none |
| SpeakerList.Dedup | interactions/commands/list_speakers.py:116-128 | the names without repeats, with the same members |
| SpeakerList.GroupSpeakers | interactions/commands/list_speakers.py:116-128 | the grouping loop gives the fold of the grouping step |
| SpeakerList.GroupedNames | interactions/commands/list_speakers.py:116-128 | each distinct name appears once, in first-occurrence order |
| SpeakerList.GroupedStyles | interactions/commands/list_speakers.py:116-128 | each group holds the rows of every speaker of that name, in input order |
| SpeakerList.GroupedNonEmpty | interactions/commands/list_speakers.py:111-128 | a non-empty answer gives at least one group |
| SpeakerList.Rows | interactions/commands/list_speakers.py:126-127 | one row per style |
| SpeakerList.ChunkFields | interactions/commands/list_speakers.py:131-165 | the chunking loop gives the 25-field chunks |
| SpeakerList.ChunksBounded | interactions/commands/list_speakers.py:143-165 | no embed is empty or holds more than 25 fields |
| SpeakerList.ChunksFlatten | interactions/commands/list_speakers.py:141-165 | reading the embeds in order gives every field in order; there are ⌈n/25⌉ embeds, none for no fields |
| SpeakerList.ListSpeakers | interactions/commands/list_speakers.py:97-184 | refused without permission; an empty answer is reported; otherwise the pages are the chunks of the grouping |
| SpeakerList.PageShown | interactions/commands/list_speakers.py:48-51 | which embed a Python index reaches, negative indices included |
| SpeakerList.SpeakerPaginationView.UpdateButtonState | interactions/commands/list_speakers.py:30-38 | prev disabled exactly on page 0, next exactly on the last page, and the label `page+1/total` |
| SpeakerList.SpeakerPaginationView.PrevButton | interactions/commands/list_speakers.py:41-51 | anyone but the author leaves the page unchanged; the author moves one page back; clicks through an enabled button keep the page in range |
| SpeakerList.SpeakerPaginationView.NextButton | interactions/commands/list_speakers.py:59-69 | the mirror image, one page forward |
| Stats.SystemStats.IncrementMessages | utils/system_stats.py:68-70 | messages +1, nothing else |
| Stats.SystemStats.AddWords | utils/system_stats.py:72-85 | returns the word count and adds exactly it to the words read, nothing else |
| Stats.WordCountBounds | utils/system_stats.py:72-82 | zero words exactly for empty text, and never more words than characters |
| Stats.RunsZeroIffBlank | utils/system_stats.py:76-77 | no whitespace-separated run exactly when the text is blank |
| Stats.RunsBound | utils/system_stats.py:76-77 | runs are separated by whitespace, so there are at most (len+1)/2 |
| Stats.SystemStats.RecordCacheHit | utils/system_stats.py:87-89 | hits +1, nothing else |
| Stats.SystemStats.RecordCacheMiss | utils/system_stats.py:91-93 | misses +1, nothing else |
| Stats.SystemStats.CacheHitRatio | utils/system_stats.py:95-100 | 0 with no lookups; a percentage between 0 and 100, 0 exactly without hits and 100 exactly without misses |
| StatsFormat.TimeParts | interactions/commands/stats.py:123-124 | 3600·h + 60·m + s equals the seconds, with m and s below 60 |
| StatsFormat.TimePartsUnique | interactions/commands/stats.py:123-124 | the three numbers are the only ones with that property |
| StatsFormat.FormatTimedeltaUnits | interactions/commands/stats.py:120-131 | with days the output shows days, hours and minutes but no seconds; with hours it shows hours, minutes and seconds; otherwise minutes and seconds only |
| StatsFormat.UnitScale | interactions/commands/stats.py:109-118 | the unit is chosen by the thresholds 1024, 1024² and 1024³; from 1024 bytes on, the printed figure is at least 1; below GB it is below 1024 (GB has no upper bound); a larger count never gets a smaller unit |
| StatsFormat.FormatSmallBytes | interactions/commands/stats.py:111-112 | below 1024 the exact integer is printed followed by ` B` |
| Scheduler.TasksModule.RegisterScheduledTasks | interactions/tasks/task.py:51-66 | `hourly_stats` (3600 s) and `daily_cleanup` (86400 s) are registered with last run 0, appended to the key order when new |
| Scheduler.TasksModule.Put | interactions/tasks/task.py:54-66 | a dict assignment: the value is replaced, and a new key goes at the end of the key order |
| Scheduler.TasksModule.Setup | interactions/tasks/task.py:36-49 | the background tasks are started, both tasks registered and appended to the key order when new, and the loop started |
| Scheduler.DueNamesExactly | interactions/tasks/task.py:78-81 | exactly the tasks with at least one interval since their last run are due, with one time for the whole tick |
| Scheduler.Advance | interactions/tasks/task.py:85-90 | the interval never changes |
| Scheduler.AdvanceSchedule | interactions/tasks/task.py:85-90 | after a successful run a task is not due again for a whole interval; a run that raises keeps it due |
| Scheduler.RunDueTasks | interactions/tasks/task.py:78-90 | the loop gives the running tick over the key order |
| Scheduler.TickFromExact | interactions/tasks/task.py:78-90 | every task gets its advanced entry, other keys are untouched, and the tasks run are exactly the due ones in key order |
| Scheduler.DueNamesFrame | interactions/tasks/task.py:78-88 | updating another task does not change which tasks are due |
| Scheduler.TasksModule.Tick | interactions/tasks/task.py:74-93 | every task gets its advanced entry; the tasks run are exactly the due ones |
| Scheduler.TasksModule.Shutdown | interactions/tasks/task.py:100-115 | the scheduler loop is cancelled (if started) before the background tasks are stopped; the table is unchanged |
| Scheduler.StatCut | interactions/tasks/task.py:162-165 | the position of the first regular file whose `getmtime` raises, or the end of the listing |
| Scheduler.ExpiredExactly | interactions/tasks/task.py:159-193 | a name is removed exactly when a regular file of that name is strictly older than the limit and its removal does not fail |
| Scheduler.PassStopsAtStatFailure | interactions/tasks/task.py:155-174 | a pass is cut short exactly when some regular file's `getmtime` raises; otherwise it removes the expired files of the whole listing; a removed name always lies before the failing entry |
| Scheduler.CleanDirectory | interactions/tasks/task.py:155-174 | the files removed and whether an exception ended the pass follow the pass step: none and no abort for a missing directory, none and an abort for an unreadable one, the expired files before the first failing `getmtime` otherwise; the count is their number |
| Scheduler.DailyCleanup | interactions/tasks/task.py:151-199 | logs go after 7 days and hourly statistics after 30, each pass with its own clock reading and removal failures; an exception in the logs pass ends the call before the statistics pass |

## Left out

- File and JSON I/O (reading and writing `cache_info.json`, `settings.ini`, the settings files and the statistics files) is not modelled. Files are a set of paths, and a loaded document is `Stored`, which is either loaded or missing.
- Discord itself: embeds and their texts, interaction replies, command registration, intents, logging, and `process_commands` in `on_message`.
- The HTTP calls to the VOICEVOX engine and the ffmpeg subprocess are oracles. `get_speakers` is the list it returned, which is empty after a failure.
- SHA-256, `uuid` and the clock are parameters.
- Concurrency: `asyncio` tasks, `create_task`, `run_coroutine_threadsafe`, cancellation, the sleeps of the loops and the statistics thread. Each loop is modelled as one sequential step. A spawned driver is reported as a flag and run by a separate `PlayNext` call.
- Background.CleanCacheOnce models one pass over a given listing. The `while` loop, the sleep, the directory listing and the `os.stat` calls are not modelled.
- Floating point: network speed, CPU and memory percentages, and the float formatting of `_format_bytes` above 1 KiB beyond the choice of unit. The hit ratio is an exact real.
- The first `create_audio` (utils/voicevox_api.py:59-115) is replaced at class creation by the second. It is dead code.
- interactions/commands/help.py, join.py, leave.py, pause.py and resume.py only forward to the controller or show static text. `pause_audio` and `resume_audio` do not exist in the controller.
- Dynamic module discovery in interactions/slash_commands.py:33-55 is directory scanning.
- `collect_hourly_stats`, the status loop, the system monitor loop, psutil, network speed, and the saving of statistics are not modelled.
- The catch-all `except` blocks that only log are not modelled. Where an exception ends an operation early, the model has an outcome for it: `Aborted` for a segment, a failed copy in `add_to_cache`, a failed removal, a raising `disconnect()`, a raising `os.remove` in `cleanup_old_cache`, a raising `listdir` or `getmtime` in `_daily_cleanup`, or `Crashed` for `/say` in a DM. The exceptions listed below are the ones left out.
- CacheStore.AudioCache.CleanupOldCache: a `last_accessed` that is not a string raises `TypeError`, which the handler does not catch; the model only knows a missing or malformed timestamp, which it does catch. When a removal raises, the model says which files may be gone but not which ones are, since that depends on the dict's iteration order.
- A JSON `null` where a name or id is expected is treated like a missing key.
- Permissions.CheckPermission: a present `null` is modelled only for `"roles"`. In the source, `"default": null` makes the decision `None`, which the callers' `not` refuses, while the model takes the default to be allowed. `"admin_users": null` raises `TypeError` and `"commands": null` raises `AttributeError` (interactions/slash_commands.py:69 and 73), which the model does not represent.
- Background.SortByAtime: Python's sort is stable. The model sorts by insertion, which is also stable, but only sortedness and permutation are proved, not stability.
- Stats.SystemStats.CacheHitRatio: the float division and the rounding of the displayed percentage are not modelled.
- Say.SayCommand.Say: the outer `try` that reports unexpected errors is not modelled beyond the DM case.
