/** The synthesis side of utils/voicevox_api.py: splitting long text into
    clauses at Japanese and ASCII punctuation, synthesising each clause through
    the engine's two HTTP steps, combining the resulting files, looking a
    speaker up, and the cache file name. The engine is a pair of reply
    oracles; SHA-256 and the uuid are parameters. */
module Voicevox {
  import opened Wrappers
  import opened Text
  import CacheStore

  type Path = string

  /** A style of a speaker as `/speakers` returns it; a missing key is `None`. */
  datatype Style = Style(id: Option<int>, name: Option<string>)

  /** One entry of `/speakers`. */
  datatype Speaker = Speaker(name: Option<string>, speakerId: Option<int>, styles: seq<Style>)

  /** How one HTTP step ends: a status code, an `aiohttp.ClientError`, or an
      exception of another kind (a malformed JSON body, a failed file write)
      that escapes to the catch-all of `create_audio`. */
  datatype Reply = Status(code: int) | ClientError | Crash

  /** The engine's `/audio_query` and `/synthesis` answers for a text and speaker. */
  datatype Engine = Engine(audioQuery: (string, int) -> Reply, synthesis: (string, int) -> Reply)

  /** The settings the client reads (`cache_directory`, `audio_format`) and
      SHA-256 in hex as an uninterpreted function. */
  datatype Api = Api(cacheDir: string, audioFormat: string, digest: string -> string)

  /** Texts longer than this are split into clauses. */
  const SplitThreshold := 100

  /** The characters of the class `[。、．，!！?？]`. */
  predicate IsDelim(c: char) {
    c == '\U{3002}' || c == '\U{3001}' || c == '\U{FF0E}' || c == '\U{FF0C}'
    || c == '!' || c == '\U{FF01}' || c == '?' || c == '\U{FF1F}'
  }

  predicate NoDelim(s: string) {
    forall i :: 0 <= i < |s| ==> !IsDelim(s[i])
  }

  /** `re.split('([。、．，!！?？])', text)`: the runs between delimiters at
      even positions and each delimiter, kept by the capture group, at the odd
      positions in between. */
  function ReSplit(text: string): (parts: seq<string>)
    ensures |parts| % 2 == 1
  {
    if text == [] then [""]
    else if IsDelim(text[0]) then ["", [text[0]]] + ReSplit(text[1..])
    else
      var rest := ReSplit(text[1..]);
      [[text[0]] + rest[0]] + rest[1..]
  }

  /** The pairing loop of `create_audio`: each piece joined with the one
      after it, and an unpaired last piece kept as it is. */
  function PairUp(parts: seq<string>): seq<string>
    decreases |parts|
  {
    if |parts| == 0 then []
    else if |parts| == 1 then [parts[0]]
    else [parts[0] + parts[1]] + PairUp(parts[2..])
  }

  /** Reference definition of the clauses: each delimiter closes the clause
      it ends, and whatever follows the last delimiter is the final clause. */
  function Clauses(text: string): (cs: seq<string>)
    ensures |cs| >= 1
  {
    if text == [] then [""]
    else
      var rest := Clauses(text[1..]);
      if IsDelim(text[0]) then [[text[0]]] + rest
      else [[text[0]] + rest[0]] + rest[1..]
  }

  lemma {:induction false} PairUpReSplit(text: string)
    ensures PairUp(ReSplit(text)) == Clauses(text)
  {
    if text != [] {
      PairUpReSplit(text[1..]);
      var r := ReSplit(text[1..]);
      if IsDelim(text[0]) {
        var parts := ["", [text[0]]] + r;
        assert parts[2..] == r;
        assert "" + [text[0]] == [text[0]];
      } else {
        var parts := [[text[0]] + r[0]] + r[1..];
        if |r| == 1 {
          assert parts == [[text[0]] + r[0]];
        } else {
          assert parts[2..] == r[2..];
          assert PairUp(r) == [r[0] + r[1]] + PairUp(r[2..]);
          assert ([text[0]] + r[0]) + r[1] == [text[0]] + (r[0] + r[1]);
        }
      }
    }
  }

  /** Round trip: joining the clauses gives back the text. */
  lemma {:induction false} ClausesConcat(text: string)
    ensures Concat(Clauses(text)) == text
  {
    if text != [] {
      ClausesConcat(text[1..]);
      var rest := Clauses(text[1..]);
      if IsDelim(text[0]) {
        assert ([[text[0]]] + rest)[1..] == rest;
      } else {
        var cs := [[text[0]] + rest[0]] + rest[1..];
        assert cs[1..] == rest[1..];
        assert Concat(rest) == rest[0] + Concat(rest[1..]);
        assert [text[0]] + text[1..] == text;
      }
    }
  }

  /** A clause closed by its delimiter: one delimiter, at the end. */
  predicate Closed(c: string) {
    |c| >= 1 && IsDelim(c[|c| - 1]) && NoDelim(c[..|c| - 1])
  }

  /** Prefixing an ordinary character keeps a clause open or closed. */
  lemma ConsKeepsShape(ch: char, c: string)
    requires !IsDelim(ch)
    ensures NoDelim(c) ==> NoDelim([ch] + c)
    ensures Closed(c) ==> Closed([ch] + c)
  {
    if NoDelim(c) {
      forall k | 0 <= k < |[ch] + c| ensures !IsDelim(([ch] + c)[k]) {
        if k > 0 { assert ([ch] + c)[k] == c[k - 1]; }
      }
    }
    if Closed(c) {
      assert ([ch] + c)[..|c|] == [ch] + c[..|c| - 1];
      forall k | 0 <= k < |c| ensures !IsDelim(([ch] + c)[k]) {
        if k > 0 { assert ([ch] + c)[k] == c[..|c| - 1][k - 1]; }
      }
    }
  }

  /** Every clause but the last ends in exactly one delimiter and holds no
      other; the last holds none. */
  lemma {:induction false} ClausesShape(text: string)
    ensures NoDelim(Clauses(text)[|Clauses(text)| - 1])
    ensures forall i :: 0 <= i < |Clauses(text)| - 1 ==> Closed(Clauses(text)[i])
  {
    if text != [] {
      ClausesShape(text[1..]);
      var rest := Clauses(text[1..]);
      var cs := Clauses(text);
      if IsDelim(text[0]) {
        assert cs == [[text[0]]] + rest;
        assert Closed(cs[0]);
        forall i | 1 <= i < |cs| - 1 ensures Closed(cs[i]) {
          assert cs[i] == rest[i - 1];
        }
        assert cs[|cs| - 1] == rest[|rest| - 1];
      } else {
        var c0 := [text[0]] + rest[0];
        assert cs == [c0] + rest[1..];
        ConsKeepsShape(text[0], rest[0]);
        forall i | 1 <= i < |cs| - 1 ensures Closed(cs[i]) {
          assert cs[i] == rest[i];
        }
        assert cs[|cs| - 1] == (if |rest| == 1 then c0 else rest[|rest| - 1]);
      }
    }
  }

  /** The split-and-pair step of `create_audio`. */
  method SplitIntoClauses(text: string) returns (combined: seq<string>)
    ensures combined == Clauses(text)
  {
    var segments := ReSplit(text);
    combined := [];
    var i := 0;
    // `i + 1 < len(segments)` always holds inside this loop, so the source's
    // else branch never runs.
    while i < |segments| - 1
      invariant 0 <= i <= |segments| - 1 && i % 2 == 0
      invariant combined + PairUp(segments[i..]) == PairUp(segments)
    {
      assert segments[i..][2..] == segments[i + 2..];
      combined := combined + [segments[i] + segments[i + 1]];
      i := i + 2;
    }
    if |segments| % 2 == 1 {
      combined := combined + [segments[|segments| - 1]];
    }
    PairUpReSplit(text);
  }

  /** `_generate_audio_segment`'s temporary file:
      `temp/<first 8 hex of sha256(text)>_<speaker>.<format>`. */
  function TempPath(api: Api, text: string, speakerId: int): (p: Path)
    ensures "temp/" <= p
  {
    "temp/" + Take(api.digest(text), 8) + "_" + IntToString(speakerId) + "." + api.audioFormat
  }

  /** How `_generate_audio_segment` ends: the file written, `None` after a
      status other than 200 or a client error, or an escaped exception. */
  datatype Segment = Written(path: Path) | Failed | Aborted

  function GenerateAudioSegment(api: Api, engine: Engine, text: string, speakerId: int): (r: Segment)
    ensures r.Written? <==> engine.audioQuery(text, speakerId) == Status(200)
                            && engine.synthesis(text, speakerId) == Status(200)
    ensures r.Written? ==> r.path == TempPath(api, text, speakerId)
    ensures r.Aborted? <==> engine.audioQuery(text, speakerId).Crash?
                            || (engine.audioQuery(text, speakerId) == Status(200)
                                && engine.synthesis(text, speakerId).Crash?)
  {
    var q := engine.audioQuery(text, speakerId);
    if q.Crash? then Aborted
    else if q != Status(200) then Failed
    else
      var y := engine.synthesis(text, speakerId);
      if y.Crash? then Aborted
      else if y != Status(200) then Failed
      else Written(TempPath(api, text, speakerId))
  }

  /** `ps` in front of the outcome of the remaining clauses. */
  function Chain(ps: seq<Path>, o: Option<seq<Path>>): Option<seq<Path>> {
    if o.Some? then Some(ps + o.value) else None
  }

  /** The paths `create_audio` collects from the clauses, in order: blank
      clauses are skipped, failed ones dropped, and an escaped exception
      ends the whole call. */
  function Survivors(api: Api, engine: Engine, cs: seq<string>, speakerId: int): Option<seq<Path>>
  {
    if cs == [] then Some([])
    else if IsBlank(cs[0]) then Survivors(api, engine, cs[1..], speakerId)
    else
      match GenerateAudioSegment(api, engine, cs[0], speakerId)
      case Aborted => None
      case Failed => Survivors(api, engine, cs[1..], speakerId)
      case Written(p) => Chain([p], Survivors(api, engine, cs[1..], speakerId))
  }

  /** `_combine_audio_files`: `ffmpegOk` is whether writing the list file,
      running ffmpeg and removing the list file all succeed; `uuidHex` is the
      uuid's hex form. */
  function CombineAudioFiles(api: Api, paths: seq<Path>, ffmpegOk: bool, uuidHex: string): Option<Path> {
    if paths == [] then None
    else if |paths| == 1 then Some(paths[0])
    else if ffmpegOk then Some("temp/combined_" + Take(uuidHex, 8) + "." + api.audioFormat)
    else Some(paths[0])
  }

  /** The outcome of the second `create_audio`, the one in effect. */
  function CreateAudioResult(api: Api, engine: Engine, text: string, speakerId: int,
                             ffmpegOk: bool, uuidHex: string): Option<Path>
  {
    if |text| > SplitThreshold then
      match Survivors(api, engine, Clauses(text), speakerId)
      case None => None
      case Some(ps) => CombineAudioFiles(api, ps, ffmpegOk, uuidHex)
    else
      match GenerateAudioSegment(api, engine, text, speakerId)
      case Written(p) => Some(p)
      case _ => None
  }

  method CreateAudio(api: Api, engine: Engine, text: string, speakerId: int, ffmpegOk: bool, uuidHex: string)
    returns (r: Option<Path>)
    ensures r == CreateAudioResult(api, engine, text, speakerId, ffmpegOk, uuidHex)
  {
    if |text| > SplitThreshold {
      var clauses := SplitIntoClauses(text);
      var paths: seq<Path> := [];
      var i := 0;
      assert clauses[0..] == clauses;
      assert Survivors(api, engine, clauses, speakerId).Some? ==>
        [] + Survivors(api, engine, clauses, speakerId).value == Survivors(api, engine, clauses, speakerId).value;
      while i < |clauses|
        invariant 0 <= i <= |clauses|
        invariant Survivors(api, engine, clauses, speakerId)
                  == Chain(paths, Survivors(api, engine, clauses[i..], speakerId))
      {
        assert clauses[i..][1..] == clauses[i + 1..];
        var segment := clauses[i];
        if !IsBlank(segment) {
          var outcome := GenerateAudioSegment(api, engine, segment, speakerId);
          if outcome.Aborted? {
            return None;
          }
          if outcome.Written? {
            assert paths + ([outcome.path] + Survivors(api, engine, clauses[i + 1..], speakerId).GetOr([]))
                == (paths + [outcome.path]) + Survivors(api, engine, clauses[i + 1..], speakerId).GetOr([]);
            paths := paths + [outcome.path];
          }
        }
        i := i + 1;
      }
      assert clauses[i..] == [];
      assert paths + [] == paths;
      if paths == [] {
        return None;
      }
      r := CombineAudioFiles(api, paths, ffmpegOk, uuidHex);
    } else {
      var outcome := GenerateAudioSegment(api, engine, text, speakerId);
      r := if outcome.Written? then Some(outcome.path) else None;
    }
  }

  /** The non-blank clauses, in order. */
  function NonBlank(cs: seq<string>): seq<string> {
    if cs == [] then []
    else if IsBlank(cs[0]) then NonBlank(cs[1..])
    else [cs[0]] + NonBlank(cs[1..])
  }

  function TempPaths(api: Api, cs: seq<string>, speakerId: int): (ps: seq<Path>)
    ensures |ps| == |cs|
    ensures forall i :: 0 <= i < |cs| ==> ps[i] == TempPath(api, cs[i], speakerId)
  {
    if cs == [] then [] else [TempPath(api, cs[0], speakerId)] + TempPaths(api, cs[1..], speakerId)
  }

  /** When every non-blank clause synthesises, the collected paths are the
      temporary files of exactly the non-blank clauses, in clause order. */
  lemma {:induction false} SurvivorsInOrder(api: Api, engine: Engine, cs: seq<string>, speakerId: int)
    requires forall i :: 0 <= i < |cs| && !IsBlank(cs[i]) ==>
      GenerateAudioSegment(api, engine, cs[i], speakerId).Written?
    ensures Survivors(api, engine, cs, speakerId) == Some(TempPaths(api, NonBlank(cs), speakerId))
  {
    if cs != [] {
      assert forall i :: 0 <= i < |cs[1..]| ==> cs[1..][i] == cs[i + 1];
      SurvivorsInOrder(api, engine, cs[1..], speakerId);
      if !IsBlank(cs[0]) {
        assert GenerateAudioSegment(api, engine, cs[0], speakerId).Written?;
        assert ([cs[0]] + NonBlank(cs[1..]))[1..] == NonBlank(cs[1..]);
      }
    }
  }

  /** Each collected path is the temporary file of a non-blank clause, and
      there are never more paths than non-blank clauses. */
  lemma {:induction false} SurvivorsBound(api: Api, engine: Engine, cs: seq<string>, speakerId: int)
    ensures var o := Survivors(api, engine, cs, speakerId);
      o.Some? ==>
        (&& |o.value| <= |NonBlank(cs)|
         && forall j :: 0 <= j < |o.value| ==>
              exists i :: 0 <= i < |cs| && !IsBlank(cs[i]) && o.value[j] == TempPath(api, cs[i], speakerId))
  {
    if cs != [] {
      SurvivorsBound(api, engine, cs[1..], speakerId);
      var o := Survivors(api, engine, cs, speakerId);
      var r := Survivors(api, engine, cs[1..], speakerId);
      if o.Some? {
        forall j | 0 <= j < |o.value|
          ensures exists i :: 0 <= i < |cs| && !IsBlank(cs[i]) && o.value[j] == TempPath(api, cs[i], speakerId)
        {
          if !IsBlank(cs[0]) && GenerateAudioSegment(api, engine, cs[0], speakerId).Written? && j == 0 {
            assert o.value[0] == TempPath(api, cs[0], speakerId);
          } else {
            var j' := if !IsBlank(cs[0]) && GenerateAudioSegment(api, engine, cs[0], speakerId).Written? then j - 1 else j;
            assert o.value[j] == r.value[j'];
            var i' :| 0 <= i' < |cs[1..]| && !IsBlank(cs[1..][i']) && r.value[j'] == TempPath(api, cs[1..][i'], speakerId);
            assert cs[1..][i'] == cs[i' + 1];
          }
        }
      }
    }
  }

  /** The non-blank clauses whose segment was written, in order. */
  function WrittenClauses(api: Api, engine: Engine, cs: seq<string>, speakerId: int): seq<string> {
    if cs == [] then []
    else
      var rest := WrittenClauses(api, engine, cs[1..], speakerId);
      if !IsBlank(cs[0]) && GenerateAudioSegment(api, engine, cs[0], speakerId).Written? then [cs[0]] + rest else rest
  }

  /** Some non-blank clause's segment call lets an exception escape. */
  predicate SomeAborts(api: Api, engine: Engine, cs: seq<string>, speakerId: int) {
    exists i :: 0 <= i < |cs| && !IsBlank(cs[i]) && GenerateAudioSegment(api, engine, cs[i], speakerId).Aborted?
  }

  /** With failures allowed: the collection ends without a result exactly
      when some non-blank clause aborts; otherwise it holds the temporary
      files of exactly the written clauses, in clause order. */
  lemma {:induction false} SurvivorsExactly(api: Api, engine: Engine, cs: seq<string>, speakerId: int)
    ensures Survivors(api, engine, cs, speakerId).None? <==> SomeAborts(api, engine, cs, speakerId)
    ensures Survivors(api, engine, cs, speakerId).Some? ==>
      Survivors(api, engine, cs, speakerId).value == TempPaths(api, WrittenClauses(api, engine, cs, speakerId), speakerId)
  {
    if cs != [] {
      SurvivorsExactly(api, engine, cs[1..], speakerId);
      var tail := cs[1..];
      assert forall i :: 0 <= i < |tail| ==> tail[i] == cs[i + 1];
      if SomeAborts(api, engine, cs, speakerId) {
        var i :| 0 <= i < |cs| && !IsBlank(cs[i]) && GenerateAudioSegment(api, engine, cs[i], speakerId).Aborted?;
        if i > 0 {
          assert SomeAborts(api, engine, tail, speakerId);
        }
      }
      if SomeAborts(api, engine, tail, speakerId) {
        var i :| 0 <= i < |tail| && !IsBlank(tail[i]) && GenerateAudioSegment(api, engine, tail[i], speakerId).Aborted?;
        assert cs[i + 1] == tail[i];
      }
      var w := WrittenClauses(api, engine, tail, speakerId);
      if !IsBlank(cs[0]) && GenerateAudioSegment(api, engine, cs[0], speakerId).Written? {
        assert ([cs[0]] + w)[1..] == w;
      }
    }
  }

  /** Short text goes to one segment call without splitting; long text whose
      clauses all fail gives `None`. */
  lemma CreateAudioCases(api: Api, engine: Engine, text: string, speakerId: int, ffmpegOk: bool, uuidHex: string)
    ensures |text| <= SplitThreshold ==>
      CreateAudioResult(api, engine, text, speakerId, ffmpegOk, uuidHex)
        == (if GenerateAudioSegment(api, engine, text, speakerId).Written?
            then Some(TempPath(api, text, speakerId)) else None)
    ensures |text| > SplitThreshold && Survivors(api, engine, Clauses(text), speakerId) == Some([]) ==>
      CreateAudioResult(api, engine, text, speakerId, ffmpegOk, uuidHex) == None
    ensures |text| > SplitThreshold && Survivors(api, engine, Clauses(text), speakerId) == None ==>
      CreateAudioResult(api, engine, text, speakerId, ffmpegOk, uuidHex) == None
  {
  }

  /** The combined file is absent exactly for no inputs, is the input itself
      for one, and otherwise is the fresh `temp/combined_…` file or, when
      ffmpeg fails, the first input. */
  lemma CombineLaw(api: Api, paths: seq<Path>, ffmpegOk: bool, uuidHex: string)
    ensures var r := CombineAudioFiles(api, paths, ffmpegOk, uuidHex);
      && (r.None? <==> paths == [])
      && (|paths| == 1 ==> r == Some(paths[0]))
      && (|paths| > 1 && !ffmpegOk ==> r == Some(paths[0]))
      && (r.Some? ==> r.value in paths || "temp/combined_" <= r.value)
  {
  }

  /** `get_speaker_info`: the first speaker whose `"speaker_id"` equals `id`.
      `speakers` is what `get_speakers` returned (the empty list after a
      failed request). */
  method GetSpeakerInfo(speakers: seq<Speaker>, id: int) returns (r: Option<Speaker>)
    ensures r.None? <==> forall i :: 0 <= i < |speakers| ==> speakers[i].speakerId != Some(id)
    ensures r.Some? ==>
      exists i :: (&& 0 <= i < |speakers| && speakers[i] == r.value
                   && r.value.speakerId == Some(id)
                   && forall j :: 0 <= j < i ==> speakers[j].speakerId != Some(id))
  {
    var i := 0;
    while i < |speakers|
      invariant 0 <= i <= |speakers|
      invariant forall j :: 0 <= j < i ==> speakers[j].speakerId != Some(id)
    {
      if speakers[i].speakerId == Some(id) {
        return Some(speakers[i]);
      }
      i := i + 1;
    }
    return None;
  }

  /** `_generate_cache_filename`: `<cache_dir>/<first 16 hex>.<format>`,
      hashing the same `f"{text}_{speaker_id}"` as the cache key. */
  function GenerateCacheFilename(api: Api, text: string, speakerId: int): (p: Path)
    ensures api.cacheDir + "/" <= p
    ensures |api.cacheDir| + 1 <= |p| - |api.audioFormat| - 1
    ensures p[|p| - |api.audioFormat| - 1..] == "." + api.audioFormat
    ensures var stem := p[|api.cacheDir| + 1..|p| - |api.audioFormat| - 1];
      stem <= CacheStore.CacheKey(api.digest, text, speakerId) && |stem| <= 16
      && (|CacheStore.CacheKey(api.digest, text, speakerId)| >= 16 ==> |stem| == 16)
  {
    var stem := Take(CacheStore.CacheKey(api.digest, text, speakerId), 16);
    var p := api.cacheDir + "/" + stem + "." + api.audioFormat;
    assert p[|api.cacheDir| + 1..|p| - |api.audioFormat| - 1] == stem;
    assert p[|p| - |api.audioFormat| - 1..] == "." + api.audioFormat;
    p
  }

  /** Two requests share a cache file name exactly when their cache keys
      agree on the first 16 characters. */
  lemma CacheFilenameCollision(api: Api, t1: string, s1: int, t2: string, s2: int)
    ensures GenerateCacheFilename(api, t1, s1) == GenerateCacheFilename(api, t2, s2) <==>
      Take(CacheStore.CacheKey(api.digest, t1, s1), 16) == Take(CacheStore.CacheKey(api.digest, t2, s2), 16)
  {
    var p1, p2 := GenerateCacheFilename(api, t1, s1), GenerateCacheFilename(api, t2, s2);
    var k1, k2 := CacheStore.CacheKey(api.digest, t1, s1), CacheStore.CacheKey(api.digest, t2, s2);
    assert p1[|api.cacheDir| + 1..|p1| - |api.audioFormat| - 1] == Take(k1, 16);
    assert p2[|api.cacheDir| + 1..|p2| - |api.audioFormat| - 1] == Take(k2, 16);
  }
}
