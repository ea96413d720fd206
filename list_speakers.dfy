/** interactions/commands/list_speakers.py: grouping the `/speakers` answer
    by speaker name, cutting the groups into embeds of at most 25 fields,
    and the page state of `SpeakerPaginationView`. An embed is the list of
    its fields; a field is a speaker name with its `(id, style name)` rows,
    whose text rendering is presentation and not modelled. */
module SpeakerList {
  import opened Wrappers
  import opened Text
  import Voicevox

  /** `"不明"`, the stand-in for a missing name. */
  const Unknown := "\U{4E0D}\U{660E}"

  /** Discord's limit on fields per embed, as the command counts it. */
  const MaxFields := 25

  datatype StyleRow = StyleRow(id: int, name: string)

  /** One entry of `speaker_dict`: a name and its rows, in insertion order. */
  datatype Group = Group(name: string, styles: seq<StyleRow>)

  /** `speaker.get("name", "不明")`. */
  function NameOf(speaker: Voicevox.Speaker): string {
    speaker.name.GetOr(Unknown)
  }

  /** `(style.get("id", -1), style.get("name", "不明"))`. */
  function RowOf(style: Voicevox.Style): StyleRow {
    StyleRow(style.id.GetOr(-1), style.name.GetOr(Unknown))
  }

  function Rows(styles: seq<Voicevox.Style>): (rs: seq<StyleRow>)
    ensures |rs| == |styles|
  {
    seq(|styles|, i requires 0 <= i < |styles| => RowOf(styles[i]))
  }

  function Names(gs: seq<Group>): (ns: seq<string>)
    ensures |ns| == |gs|
  {
    seq(|gs|, i requires 0 <= i < |gs| => gs[i].name)
  }

  function SpeakerNames(speakers: seq<Voicevox.Speaker>): (ns: seq<string>)
    ensures |ns| == |speakers|
  {
    seq(|speakers|, i requires 0 <= i < |speakers| => NameOf(speakers[i]))
  }

  /** The position of the group called `n`, or -1: the dict lookup. */
  function IndexOf(gs: seq<Group>, n: string): (k: int)
    ensures -1 <= k < |gs|
    ensures k >= 0 ==> gs[k].name == n
    ensures k >= 0 ==> forall j :: 0 <= j < k ==> gs[j].name != n
    ensures k == -1 <==> n !in Names(gs)
  {
    if gs == [] then -1
    else if gs[0].name == n then
      assert Names(gs)[0] == n;
      0
    else
      var r := IndexOf(gs[1..], n);
      assert Names(gs) == [gs[0].name] + Names(gs[1..]);
      if r < 0 then -1 else r + 1
  }

  /** One turn of the grouping loop: a new name opens a group at the end,
      a known one gets the rows appended. */
  function AddSpeaker(gs: seq<Group>, speaker: Voicevox.Speaker): (r: seq<Group>)
    ensures |r| >= 1
  {
    var n := NameOf(speaker);
    var k := IndexOf(gs, n);
    if k < 0 then gs + [Group(n, Rows(speaker.styles))]
    else gs[k := Group(n, gs[k].styles + Rows(speaker.styles))]
  }

  /** `speaker_dict` after the loop, as a left fold over the speakers. */
  function Grouped(speakers: seq<Voicevox.Speaker>): seq<Group> {
    if speakers == [] then []
    else AddSpeaker(Grouped(speakers[..|speakers| - 1]), speakers[|speakers| - 1])
  }

  /** The names in order of first occurrence. */
  function Dedup(xs: seq<string>): (r: seq<string>)
    ensures forall i, j :: 0 <= i < j < |r| ==> r[i] != r[j]
    ensures forall x :: x in r <==> x in xs
  {
    if xs == [] then []
    else
      var d := Dedup(xs[..|xs| - 1]);
      assert xs == xs[..|xs| - 1] + [xs[|xs| - 1]];
      if xs[|xs| - 1] in d then d else d + [xs[|xs| - 1]]
  }

  /** The rows of every speaker called `n`, in input order. */
  function RowsNamed(speakers: seq<Voicevox.Speaker>, n: string): seq<StyleRow> {
    if speakers == [] then []
    else
      var last := speakers[|speakers| - 1];
      RowsNamed(speakers[..|speakers| - 1], n) + (if NameOf(last) == n then Rows(last.styles) else [])
  }

  lemma SpeakerNamesPrefix(speakers: seq<Voicevox.Speaker>)
    requires speakers != []
    ensures SpeakerNames(speakers)
         == SpeakerNames(speakers[..|speakers| - 1]) + [NameOf(speakers[|speakers| - 1])]
  {
  }

  /** Each distinct name appears once, in order of first occurrence. */
  lemma {:induction false} GroupedNames(speakers: seq<Voicevox.Speaker>)
    ensures Names(Grouped(speakers)) == Dedup(SpeakerNames(speakers))
  {
    if speakers != [] {
      var init := speakers[..|speakers| - 1];
      var last := speakers[|speakers| - 1];
      GroupedNames(init);
      SpeakerNamesPrefix(speakers);
      var gs := Grouped(init);
      var xs := SpeakerNames(speakers);
      assert xs[..|xs| - 1] == SpeakerNames(init);
      var k := IndexOf(gs, NameOf(last));
      if k >= 0 {
        assert Names(AddSpeaker(gs, last)) == Names(gs);
      } else {
        assert Names(AddSpeaker(gs, last)) == Names(gs) + [NameOf(last)];
      }
    }
  }

  lemma {:induction false} RowsNamedAbsent(speakers: seq<Voicevox.Speaker>, n: string)
    requires n !in SpeakerNames(speakers)
    ensures RowsNamed(speakers, n) == []
  {
    if speakers != [] {
      SpeakerNamesPrefix(speakers);
      RowsNamedAbsent(speakers[..|speakers| - 1], n);
    }
  }

  /** Every group holds exactly the rows of all speakers of that name, in
      input order: repeated names are merged. */
  lemma {:induction false} GroupedStyles(speakers: seq<Voicevox.Speaker>)
    ensures forall k :: 0 <= k < |Grouped(speakers)| ==>
      Grouped(speakers)[k].styles == RowsNamed(speakers, Grouped(speakers)[k].name)
  {
    if speakers != [] {
      var init := speakers[..|speakers| - 1];
      var last := speakers[|speakers| - 1];
      GroupedStyles(init);
      var gs := Grouped(init);
      var n := NameOf(last);
      var k := IndexOf(gs, n);
      var r := AddSpeaker(gs, last);
      GroupedNames(init);
      assert speakers[..|speakers| - 1] == init;
      forall m | 0 <= m < |r|
        ensures r[m].styles == RowsNamed(speakers, r[m].name)
      {
        if m < |gs| {
          assert Names(gs)[m] == gs[m].name;
          if m != k {
            assert r[m] == gs[m];
            if k >= 0 {
              assert Names(gs)[k] == n;
            }
            assert gs[m].name != n;
          }
        } else {
          assert n !in SpeakerNames(init);
          RowsNamedAbsent(init, n);
          assert [] + Rows(last.styles) == Rows(last.styles);
        }
      }
    }
  }

  /** A non-empty answer gives at least one group. */
  lemma GroupedNonEmpty(speakers: seq<Voicevox.Speaker>)
    ensures speakers != [] <==> Grouped(speakers) != []
  {
  }

  /** The grouping loop of `list_speakers`: the dict lookup, then one append
      per style. */
  method GroupSpeakers(speakers: seq<Voicevox.Speaker>) returns (groups: seq<Group>)
    ensures groups == Grouped(speakers)
  {
    groups := [];
    var i := 0;
    while i < |speakers|
      invariant 0 <= i <= |speakers|
      invariant groups == Grouped(speakers[..i])
    {
      assert speakers[..i + 1][..i] == speakers[..i];
      var speaker := speakers[i];
      var n := NameOf(speaker);
      var styles := speaker.styles;
      var start := groups;
      var k := IndexOf(groups, n);
      if k < 0 {
        groups := groups + [Group(n, [])];
        k := |groups| - 1;
      }
      var base := groups;
      var j := 0;
      assert base[k].name == n;
      assert Rows(styles[..0]) == [];
      assert base[k].styles + [] == base[k].styles;
      assert base[k := Group(n, base[k].styles)] == base;
      while j < |styles|
        invariant 0 <= j <= |styles|
        invariant |groups| == |base|
        invariant groups == base[k := Group(n, base[k].styles + Rows(styles[..j]))]
      {
        assert Rows(styles[..j + 1]) == Rows(styles[..j]) + [RowOf(styles[j])];
        assert (base[k].styles + Rows(styles[..j])) + [RowOf(styles[j])] == base[k].styles + Rows(styles[..j + 1]);
        groups := groups[k := Group(n, groups[k].styles + [RowOf(styles[j])])];
        j := j + 1;
      }
      assert styles[..j] == styles;
      if IndexOf(start, n) < 0 {
        assert base[k].styles == [];
        assert [] + Rows(styles) == Rows(styles);
        assert groups == start + [Group(n, Rows(styles))];
      } else {
        assert base == start;
      }
      assert groups == AddSpeaker(Grouped(speakers[..i]), speaker);
      i := i + 1;
    }
    assert speakers[..i] == speakers;
  }

  /** Embeds of 25 fields and a last one with the rest. */
  function Chunks<T>(fields: seq<T>): seq<seq<T>>
    decreases |fields|
  {
    if fields == [] then []
    else if |fields| <= MaxFields then [fields]
    else [fields[..MaxFields]] + Chunks(fields[MaxFields..])
  }

  function Flatten<T>(cs: seq<seq<T>>): seq<T> {
    if cs == [] then [] else cs[0] + Flatten(cs[1..])
  }

  /** No embed holds more than 25 fields, and none is empty. */
  lemma {:induction false} ChunksBounded<T>(fields: seq<T>)
    ensures forall c :: c in Chunks(fields) ==> 1 <= |c| <= MaxFields
    decreases |fields|
  {
    if |fields| > MaxFields {
      ChunksBounded(fields[MaxFields..]);
    }
  }

  /** Reading the embeds in order gives back every field in order, there
      are `ceil(n / 25)` of them, and none is empty. */
  lemma {:induction false} ChunksFlatten<T>(fields: seq<T>)
    ensures Flatten(Chunks(fields)) == fields
    ensures |Chunks(fields)| == (|fields| + MaxFields - 1) / MaxFields
    ensures Chunks(fields) == [] <==> fields == []
    decreases |fields|
  {
    if fields != [] {
      if |fields| <= MaxFields {
        assert Flatten([fields]) == fields + Flatten<T>([]);
        assert fields + [] == fields;
      } else {
        ChunksFlatten(fields[MaxFields..]);
        var cs := [fields[..MaxFields]] + Chunks(fields[MaxFields..]);
        assert cs[1..] == Chunks(fields[MaxFields..]);
        assert fields[..MaxFields] + fields[MaxFields..] == fields;
      }
    }
  }

  /** A full first embed splits off untouched. */
  lemma FullChunk<T>(current: seq<T>, rest: seq<T>)
    requires |current| == MaxFields
    ensures Chunks(current + rest) == [current] + Chunks(rest)
  {
    var all := current + rest;
    assert all[..MaxFields] == current;
    assert all[MaxFields..] == rest;
    if rest == [] {
      assert all == current;
    }
  }

  lemma ChunksUnfold<T>(fields: seq<T>)
    ensures |fields| > MaxFields ==> Chunks(fields) == [fields[..MaxFields]] + Chunks(fields[MaxFields..])
    ensures 0 < |fields| <= MaxFields ==> Chunks(fields) == [fields]
    ensures fields == [] ==> Chunks(fields) == []
  {
  }

  /** The chunking loop of `list_speakers`, with `field_count` and the flush
      of the last embed only when it has a field. */
  method ChunkFields(groups: seq<Group>) returns (embeds: seq<seq<Group>>)
    ensures embeds == Chunks(groups)
  {
    embeds := [];
    var current: seq<Group> := [];
    var fieldCount := 0;
    var start := 0;
    var i := 0;
    assert groups[0..] == groups;
    while i < |groups|
      invariant 0 <= start <= i <= |groups|
      invariant current == groups[start..i] && fieldCount == |current| <= MaxFields
      invariant Chunks(groups) == embeds + Chunks(groups[start..])
    {
      if fieldCount >= MaxFields {
        ghost var tail := groups[start..];
        assert tail[..MaxFields] == current;
        assert tail[MaxFields..] == groups[i..];
        ChunksUnfold(tail);
        embeds := embeds + [current];
        current := [];
        fieldCount := 0;
        start := i;
      }
      assert groups[start..i + 1] == groups[start..i] + [groups[i]];
      current := current + [groups[i]];
      fieldCount := fieldCount + 1;
      i := i + 1;
    }
    assert current == groups[start..];
    ChunksUnfold(current);
    if fieldCount > 0 {
      embeds := embeds + [current];
    } else {
      assert embeds + [] == embeds;
    }
  }

  datatype ListOutcome = NoPermission | Unavailable | NotFound | Paged(embeds: seq<seq<Group>>)

  /** The handler: refused without permission, the "could not fetch" reply
      when the engine gave no speakers, otherwise the pages. The "no speaker
      found" reply is unreachable: a non-empty answer always has a field. */
  method ListSpeakers(permitted: bool, speakers: seq<Voicevox.Speaker>) returns (outcome: ListOutcome)
    ensures !permitted ==> outcome == NoPermission
    ensures permitted && speakers == [] ==> outcome == Unavailable
    ensures permitted && speakers != [] ==> outcome == Paged(Chunks(Grouped(speakers)))
    ensures outcome != NotFound
  {
    if !permitted {
      return NoPermission;
    }
    if speakers == [] {
      return Unavailable;
    }
    var groups := GroupSpeakers(speakers);
    var embeds := ChunkFields(groups);
    GroupedNonEmpty(speakers);
    ChunksFlatten(groups);
    if embeds == [] {
      return NotFound;
    }
    return Paged(embeds);
  }

  /** What `embeds[current_page]` reaches after a click: a Python index,
      where -1 is the last page, or `None` for the `IndexError`. */
  function PageShown(page: int, total: nat): (r: Option<nat>)
    ensures r.Some? <==> -(total as int) <= page < total
    ensures r.Some? ==> r.value < total && (r.value == page || r.value == page + total)
  {
    if 0 <= page < total then Some(page)
    else if -(total as int) <= page < 0 then Some(page + total)
    else None
  }

  datatype Click = Rejected | Shown(page: Option<nat>)

  class SpeakerPaginationView {
    const embeds: seq<seq<Group>>
    const authorId: int
    const totalPages: nat
    var currentPage: int
    var prevDisabled: bool
    var nextDisabled: bool
    var pageLabel: string

    /** What `update_button_state` establishes. */
    predicate ButtonsMatch()
      reads this
    {
      && prevDisabled == (currentPage == 0)
      && nextDisabled == (currentPage == totalPages - 1)
      && pageLabel == IntToString(currentPage + 1) + "/" + IntToString(totalPages)
    }

    /** The page is one of the embeds and the buttons say so. */
    predicate Valid()
      reads this
    {
      0 <= currentPage < totalPages && ButtonsMatch()
    }

    constructor (pages: seq<seq<Group>>, author: int)
      ensures embeds == pages && authorId == author && totalPages == |pages|
      ensures currentPage == 0 && ButtonsMatch()
      ensures pages != [] ==> Valid()
    {
      embeds := pages;
      authorId := author;
      totalPages := |pages|;
      currentPage := 0;
      new;
      UpdateButtonState();
    }

    method UpdateButtonState()
      modifies this
      ensures currentPage == old(currentPage) && ButtonsMatch()
    {
      prevDisabled := currentPage == 0;
      nextDisabled := currentPage == totalPages - 1;
      pageLabel := IntToString(currentPage + 1) + "/" + IntToString(totalPages);
    }

    /** `prev_button`: anyone but the author is turned away with the page
        unchanged; the author moves back one page. Pressed while enabled on
        a valid view, it keeps the view valid. */
    method PrevButton(userId: int) returns (click: Click)
      modifies this
      ensures userId != authorId ==>
        (&& click == Rejected && currentPage == old(currentPage) && prevDisabled == old(prevDisabled)
         && nextDisabled == old(nextDisabled) && pageLabel == old(pageLabel))
      ensures userId == authorId ==>
        currentPage == old(currentPage) - 1 && ButtonsMatch() && click == Shown(PageShown(currentPage, totalPages))
      ensures old(Valid()) && !old(prevDisabled) ==> Valid()
    {
      if userId != authorId {
        return Rejected;
      }
      currentPage := currentPage - 1;
      UpdateButtonState();
      return Shown(PageShown(currentPage, totalPages));
    }

    /** `next_button`, the mirror image. */
    method NextButton(userId: int) returns (click: Click)
      modifies this
      ensures userId != authorId ==>
        (&& click == Rejected && currentPage == old(currentPage) && prevDisabled == old(prevDisabled)
         && nextDisabled == old(nextDisabled) && pageLabel == old(pageLabel))
      ensures userId == authorId ==>
        currentPage == old(currentPage) + 1 && ButtonsMatch() && click == Shown(PageShown(currentPage, totalPages))
      ensures old(Valid()) && !old(nextDisabled) ==> Valid()
    {
      if userId != authorId {
        return Rejected;
      }
      currentPage := currentPage + 1;
      UpdateButtonState();
      return Shown(PageShown(currentPage, totalPages));
    }
  }
}
