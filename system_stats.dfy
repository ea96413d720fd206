/** The counters of utils/system_stats.py and its word-count rule. */
module Stats {
  import opened Text

  predicate IsAsciiAlnum(c: char) {
    ('a' <= c <= 'z') || ('A' <= c <= 'Z') || ('0' <= c <= '9')
  }

  /** `re.search(r'[a-zA-Z0-9]', text)` finds something. */
  predicate HasAsciiAlnum(s: string) {
    exists i :: 0 <= i < |s| && IsAsciiAlnum(s[i])
  }

  /** The number of maximal runs of non-whitespace in `s`, where `afterSpace`
      tells whether the position before `s` is whitespace or the start. */
  function RunsFrom(s: string, afterSpace: bool): nat {
    if s == [] then 0
    else (if afterSpace && !IsSpace(s[0]) then 1 else 0) + RunsFrom(s[1..], IsSpace(s[0]))
  }

  /** `len(re.findall(r'\S+', text))`. */
  function Runs(s: string): nat {
    RunsFrom(s, true)
  }

  /** `add_words`' estimate: whitespace-separated words when the text has an
      ASCII letter or digit, otherwise half the length, at least 1 for
      non-empty text. */
  function WordCount(text: string): nat {
    if HasAsciiAlnum(text) then Runs(text)
    else if |text| / 2 == 0 && |text| > 0 then 1
    else |text| / 2
  }

  lemma {:induction false} BlankHasNoRuns(s: string, afterSpace: bool)
    requires IsBlank(s)
    ensures RunsFrom(s, afterSpace) == 0
  {
    if s != [] {
      assert forall i :: 0 <= i < |s[1..]| ==> s[1..][i] == s[i + 1];
      BlankHasNoRuns(s[1..], IsSpace(s[0]));
    }
  }

  lemma {:induction false} NonBlankHasRun(s: string)
    requires !IsBlank(s)
    ensures RunsFrom(s, true) > 0
  {
    if IsSpace(s[0]) {
      var i :| 0 <= i < |s| && !IsSpace(s[i]);
      assert i > 0 && s[1..][i - 1] == s[i];
      NonBlankHasRun(s[1..]);
    }
  }

  /** No run at all exactly when the text is blank. */
  lemma RunsZeroIffBlank(s: string)
    ensures Runs(s) == 0 <==> IsBlank(s)
  {
    if IsBlank(s) { BlankHasNoRuns(s, true); } else { NonBlankHasRun(s); }
  }

  /** Runs are separated by whitespace, so there are at most `(len + 1) / 2`. */
  lemma {:induction false} RunsBound(s: string, afterSpace: bool)
    ensures 2 * RunsFrom(s, afterSpace) <= |s| + (if afterSpace then 1 else 0)
  {
    if s != [] {
      RunsBound(s[1..], IsSpace(s[0]));
    }
  }

  /** Every non-empty text counts at least one word and no text counts more
      words than characters. */
  lemma WordCountBounds(text: string)
    ensures WordCount(text) == 0 <==> text == ""
    ensures WordCount(text) <= |text|
  {
    RunsBound(text, true);
    if HasAsciiAlnum(text) {
      var i :| 0 <= i < |text| && IsAsciiAlnum(text[i]);
      assert !IsSpace(text[i]);
      RunsZeroIffBlank(text);
    }
  }

  class SystemStats {
    var messagesProcessed: nat
    var wordsRead: nat
    var audioFilesGenerated: nat
    var cacheHits: nat
    var cacheMisses: nat

    constructor ()
      ensures messagesProcessed == 0 && wordsRead == 0 && audioFilesGenerated == 0
      ensures cacheHits == 0 && cacheMisses == 0
    {
      messagesProcessed, wordsRead, audioFilesGenerated, cacheHits, cacheMisses := 0, 0, 0, 0, 0;
    }

    method IncrementMessages()
      modifies this
      ensures messagesProcessed == old(messagesProcessed) + 1
      ensures wordsRead == old(wordsRead) && audioFilesGenerated == old(audioFilesGenerated)
      ensures cacheHits == old(cacheHits) && cacheMisses == old(cacheMisses)
    {
      messagesProcessed := messagesProcessed + 1;
    }

    /** `add_words`: adds the estimate and returns it. */
    method AddWords(text: string) returns (words: nat)
      modifies this
      ensures words == WordCount(text)
      ensures wordsRead == old(wordsRead) + words
      ensures messagesProcessed == old(messagesProcessed) && audioFilesGenerated == old(audioFilesGenerated)
      ensures cacheHits == old(cacheHits) && cacheMisses == old(cacheMisses)
    {
      words := WordCount(text);
      wordsRead := wordsRead + words;
    }

    method RecordCacheHit()
      modifies this
      ensures cacheHits == old(cacheHits) + 1
      ensures messagesProcessed == old(messagesProcessed) && wordsRead == old(wordsRead)
      ensures audioFilesGenerated == old(audioFilesGenerated) && cacheMisses == old(cacheMisses)
    {
      cacheHits := cacheHits + 1;
    }

    method RecordCacheMiss()
      modifies this
      ensures cacheMisses == old(cacheMisses) + 1
      ensures messagesProcessed == old(messagesProcessed) && wordsRead == old(wordsRead)
      ensures audioFilesGenerated == old(audioFilesGenerated) && cacheHits == old(cacheHits)
    {
      cacheMisses := cacheMisses + 1;
    }

    /** `get_cache_hit_ratio` as a percentage, on exact reals. */
    function CacheHitRatio(): (r: real)
      reads this
      ensures cacheHits + cacheMisses == 0 ==> r == 0.0
      ensures 0.0 <= r <= 100.0
      ensures r == 0.0 <==> cacheHits == 0
      ensures r == 100.0 <==> cacheHits > 0 && cacheMisses == 0
    {
      var total := cacheHits + cacheMisses;
      if total == 0 then 0.0 else (cacheHits as real / total as real) * 100.0
    }
  }
}
