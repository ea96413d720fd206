/** The content-addressed audio cache index of utils/audio_cache.py: a map
    from cache key to entry, looked up with a lazy purge of entries whose file
    has gone, overwritten on insertion, and thinned by access age. */
module CacheStore {
  import opened Wrappers
  import opened Text

  type Key = string
  type Path = string

  /** One record of `cache_info["files"]`; `lastAccessed` is `None` when the
      stored value is missing or is not an ISO timestamp. Times are seconds. */
  datatype Entry = Entry(text: string, speakerId: int, path: Path, created: int, lastAccessed: Option<int>)

  type Index = map<Key, Entry>

  const SecondsPerDay := 86400
  const DefaultMaxAgeDays := 30

  /** The string that is hashed: `f"{text}_{speaker_id}"`. */
  function KeySource(text: string, speakerId: int): string {
    text + "_" + IntToString(speakerId)
  }

  /** The hashed string determines text and speaker, because the decimal
      rendering of the speaker never contains the separator `_`. */
  lemma KeySourceInjective(t1: string, s1: int, t2: string, s2: int)
    requires KeySource(t1, s1) == KeySource(t2, s2)
    ensures t1 == t2 && s1 == s2
  {
    var d1, d2 := IntToString(s1), IntToString(s2);
    var s := KeySource(t1, s1);
    IntToStringNoUnderscore(s1);
    IntToStringNoUnderscore(s2);
    LastUnderscoreOf(t1, d1);
    LastUnderscoreOf(t2, d2);
    assert t1 == s[..|t1|] == t2;
    assert d1 == s[|t1| + 1..] == d2;
    IntToStringInjective(s1, s2);
  }

  /** `generate_cache_key`: the hex SHA-256 of the key source. */
  function CacheKey(digest: string -> string, text: string, speakerId: int): Key {
    digest(KeySource(text, speakerId))
  }

  /** Two requests share a key when they agree on text and speaker; they can
      only share one otherwise through a collision of the digest itself. */
  lemma CacheKeyDeterministic(digest: string -> string, t1: string, s1: int, t2: string, s2: int)
    ensures t1 == t2 && s1 == s2 ==> CacheKey(digest, t1, s1) == CacheKey(digest, t2, s2)
    ensures CacheKey(digest, t1, s1) != CacheKey(digest, t2, s2) ==> t1 != t2 || s1 != s2
    ensures (t1 != t2 || s1 != s2) ==> KeySource(t1, s1) != KeySource(t2, s2)
  {
    if KeySource(t1, s1) == KeySource(t2, s2) {
      KeySourceInjective(t1, s1, t2, s2);
    }
  }

  /** Where `add_to_cache` stores the audio of `key`. */
  function CachePathFor(cacheDir: string, key: Key): Path {
    PathJoin(cacheDir, key + ".wav")
  }

  /** The value-level meaning of `get_cache_path` on an enabled cache: the
      path found (if any) and the index afterwards. */
  function Lookup(index: Index, key: Key, existing: set<Path>, now: int): (Option<Path>, Index) {
    if key !in index then (None, index)
    else if index[key].path in existing then
      (Some(index[key].path), index[key := index[key].(lastAccessed := Some(now))])
    else (None, index - {key})
  }

  /** A present key whose file exists returns its path and refreshes only its
      own access time; one whose file is gone is dropped; others are untouched. */
  lemma LookupEffect(index: Index, key: Key, existing: set<Path>, now: int)
    ensures var (p, after) := Lookup(index, key, existing, now);
      && (p.Some? <==> key in index && index[key].path in existing)
      && (p.Some? ==>
            p.value == index[key].path && after.Keys == index.Keys
            && after[key] == index[key].(lastAccessed := Some(now)))
      && (key in index && index[key].path !in existing ==> after.Keys == index.Keys - {key})
      && (key !in index ==> after == index)
      && (forall k :: k in after && k != key ==> k in index && after[k] == index[k])
      && (forall k :: k in index && k != key ==> k in after)
  {
  }

  /** The entry `add_to_cache` records. */
  function NewEntry(cacheDir: string, key: Key, text: string, speakerId: int, now: int): Entry {
    Entry(text, speakerId, CachePathFor(cacheDir, key), now, Some(now))
  }

  /** Whole days since the last access, as `timedelta.days` (division rounds
      down; the divisor is positive, so Dafny's `/` agrees with Python's). */
  function AgeDays(lastAccessed: int, now: int): int {
    (now - lastAccessed) / SecondsPerDay
  }

  /** Whether `cleanup_old_cache` finds an entry too old: its timestamp
      parses and the whole-day age exceeds the limit. Only then is its file
      removed. */
  predicate Aged(e: Entry, now: int, maxAgeDays: int) {
    e.lastAccessed.Some? && AgeDays(e.lastAccessed.value, now) > maxAgeDays
  }

  /** Whether `cleanup_old_cache` drops an entry from the index: it is too
      old, or its timestamp raises the `ValueError`/`KeyError` the handler
      catches, which skips the file removal. */
  predicate Expired(e: Entry, now: int, maxAgeDays: int) {
    e.lastAccessed.None? || Aged(e, now, maxAgeDays)
  }

  /** The files of the entries that are too old. */
  function AgedPaths(index: Index, now: int, maxAgeDays: int): set<Path> {
    set k | k in index && Aged(index[k], now, maxAgeDays) :: index[k].path
  }

  /** Some too-old entry names an existing file whose `os.remove` raises;
      that `OSError` is not caught by the handler. */
  predicate RemovalRaises(index: Index, now: int, maxAgeDays: int, existing: set<Path>, removeFails: set<Path>) {
    exists k :: k in index && Aged(index[k], now, maxAgeDays)
      && index[k].path in existing && index[k].path in removeFails
  }

  /** The index that `cleanup_old_cache` leaves. */
  function KeepFresh(index: Index, now: int, maxAgeDays: int): (after: Index)
    ensures forall k :: k in after <==> k in index && !Expired(index[k], now, maxAgeDays)
    ensures forall k :: k in after ==> after[k] == index[k]
  {
    map k | k in index && !Expired(index[k], now, maxAgeDays) :: index[k]
  }

  lemma {:induction false} AgeBoundary(last: int, now: int, maxAgeDays: int)
    ensures AgeDays(last, now) > maxAgeDays <==> now - last >= (maxAgeDays + 1) * SecondsPerDay
  {
    var d := now - last;
    var q := d / SecondsPerDay;
    assert d == q * SecondsPerDay + d % SecondsPerDay;
    if q > maxAgeDays {
      assert q >= maxAgeDays + 1;
      assert q * SecondsPerDay >= (maxAgeDays + 1) * SecondsPerDay;
    } else {
      assert q * SecondsPerDay <= maxAgeDays * SecondsPerDay;
    }
  }

  class AudioCache {
    /** `cache_enabled` */
    const enabled: bool
    /** `cache_directory` */
    const cacheDir: string
    /** SHA-256 in hex, as an uninterpreted deterministic function. */
    const digest: string -> string
    /** `cache_info["files"]` in memory. */
    var files: Index
    /** What `cache_info.json` holds on disk. */
    var saved: Stored<Index>

    /** `__init__` loads the index through `_load_cache_info` and keeps its
        `"files"`; a missing or corrupt document gives the empty index. */
    constructor (enabled: bool, cacheDir: string, digest: string -> string, stored: Stored<Index>)
      ensures this.enabled == enabled && this.cacheDir == cacheDir && this.digest == digest
      ensures files == LoadOr(stored, map[]) && saved == stored
    {
      this.enabled := enabled;
      this.cacheDir := cacheDir;
      this.digest := digest;
      files := LoadOr(stored, map[]);
      saved := stored;
    }

    function GenerateCacheKey(text: string, speakerId: int): (key: Key)
      ensures key == digest(KeySource(text, speakerId))
    {
      CacheKey(digest, text, speakerId)
    }

    /** `get_cache_path`: `existing` is the set of files on disk. */
    method GetCachePath(key: Key, existing: set<Path>, now: int) returns (path: Option<Path>)
      modifies this
      ensures !enabled ==> path == None && files == old(files)
      ensures enabled ==> (path, files) == Lookup(old(files), key, existing, now)
      ensures saved == old(saved)
    {
      if !enabled {
        return None;
      }
      path := None;
      if key in files {
        var filePath := files[key].path;
        if filePath in existing {
          files := files[key := files[key].(lastAccessed := Some(now))];
          return Some(filePath);
        } else {
          files := files - {key};
        }
      }
    }

    /** `add_to_cache`: copies `filePath` into the cache directory unless it
        is already there or does not exist, then records the entry and saves
        the index. A failed copy (`copyOk` false) is logged and records
        nothing. Returns the files on disk afterwards. */
    method AddToCache(key: Key, filePath: Path, text: string, speakerId: int,
                      existing: set<Path>, now: int, copyOk: bool)
      returns (after: set<Path>)
      modifies this
      ensures var target := CachePathFor(cacheDir, key);
        var copies := filePath != target && filePath in existing;
        if !enabled || (copies && !copyOk) then
          files == old(files) && saved == old(saved) && after == existing
        else
          && files == old(files)[key := NewEntry(cacheDir, key, text, speakerId, now)]
          && saved == Loaded(files)
          && after == (if copies then existing + {target} else existing)
    {
      after := existing;
      if !enabled {
        return;
      }
      var cachePath := CachePathFor(cacheDir, key);
      if filePath != cachePath && filePath in existing {
        if !copyOk {
          return;
        }
        after := existing + {cachePath};
      }
      files := files[key := Entry(text, speakerId, cachePath, now, Some(now))];
      saved := Loaded(files);
    }

    /** `cleanup_old_cache`: drops the entries whose whole-day age exceeds
        `maxAgeDays` and those whose timestamp does not parse, deletes the
        files of the former only, and saves the index only when something was
        dropped. `removeFails` holds the files whose removal raises; the first
        such removal ends the call (`raised`) with the index neither changed
        nor saved, and with whichever files were removed before it gone. */
    method CleanupOldCache(maxAgeDays: int, now: int, existing: set<Path>, removeFails: set<Path>)
      returns (after: set<Path>, raised: bool)
      modifies this
      ensures raised <==> enabled && RemovalRaises(old(files), now, maxAgeDays, existing, removeFails)
      ensures !enabled || raised ==> files == old(files) && saved == old(saved)
      ensures !enabled ==> after == existing
      ensures raised ==> existing - AgedPaths(old(files), now, maxAgeDays) <= after <= existing
      ensures raised ==> existing * removeFails <= after
      ensures enabled && !raised ==> files == KeepFresh(old(files), now, maxAgeDays)
      ensures enabled && !raised ==> after == existing - AgedPaths(old(files), now, maxAgeDays)
      ensures enabled && !raised ==> saved == if files == old(files) then old(saved) else Loaded(files)
    {
      after, raised := existing, false;
      if !enabled {
        return;
      }
      var keysToRemove: set<Key> := {};
      var pending := files.Keys;
      while pending != {}
        invariant files == old(files) && saved == old(saved)
        invariant pending <= files.Keys
        invariant keysToRemove == set k | k in files.Keys - pending && Expired(files[k], now, maxAgeDays)
        invariant after == existing - set k | k in files.Keys - pending && Aged(files[k], now, maxAgeDays) :: files[k].path
        invariant existing * removeFails <= after <= existing
        invariant forall k :: k in files.Keys - pending && Aged(files[k], now, maxAgeDays) ==>
          !(files[k].path in existing && files[k].path in removeFails)
        decreases pending
      {
        var key :| key in pending;
        var info := files[key];
        if Aged(info, now, maxAgeDays) {
          if info.path in after {
            if info.path in removeFails {
              raised := true;
              return;
            }
            after := after - {info.path};
          }
          keysToRemove := keysToRemove + {key};
        } else if info.lastAccessed.None? {
          keysToRemove := keysToRemove + {key};
        }
        pending := pending - {key};
      }
      assert files.Keys - pending == files.Keys;
      var removed := keysToRemove;
      ghost var before := files;
      while removed != {}
        invariant removed <= keysToRemove && saved == old(saved)
        invariant files == map k | k in before && k !in keysToRemove - removed :: before[k]
        decreases removed
      {
        var key :| key in removed;
        files := files - {key};
        removed := removed - {key};
      }
      assert files == KeepFresh(before, now, maxAgeDays);
      if keysToRemove != {} {
        var k :| k in keysToRemove;
        assert k in before && k !in files;
        saved := Loaded(files);
      } else {
        assert files == before;
      }
    }
  }

  /** Round trip: once `add_to_cache` has recorded `key`, looking it up returns
      the cache path as long as that file exists, whatever else is indexed. */
  lemma {:induction false} InsertThenLookup(index: Index, cacheDir: string, key: Key, text: string,
                                            speakerId: int, created: int, existing: set<Path>, now: int)
    requires CachePathFor(cacheDir, key) in existing
    ensures Lookup(index[key := NewEntry(cacheDir, key, text, speakerId, created)], key, existing, now).0
            == Some(CachePathFor(cacheDir, key))
  {
  }

  /** The stored document still answers the round trip after a restart. */
  lemma ReloadThenLookup(index: Index, cacheDir: string, key: Key, text: string,
                         speakerId: int, created: int, existing: set<Path>, now: int)
    requires CachePathFor(cacheDir, key) in existing
    ensures var stored := Loaded(index[key := NewEntry(cacheDir, key, text, speakerId, created)]);
      Lookup(LoadOr(stored, map[]), key, existing, now).0 == Some(CachePathFor(cacheDir, key))
  {
  }

  /** An unreadable or missing index makes every lookup a miss, so the cache
      degrades to synthesis instead of failing. */
  lemma CorruptIndexMisses(stored: Stored<Index>, key: Key, existing: set<Path>, now: int)
    requires !stored.Loaded?
    ensures Lookup(LoadOr(stored, map[]), key, existing, now) == (None, map[])
  {
  }
}
