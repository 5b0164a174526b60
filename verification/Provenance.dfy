/**
 * The provenance of a whole prompt (`_prompt_provenance`, edd/prompt_census.py): the
 * constructor's prompts are found in the initial text, then each middleware transition
 * appends to the spans or replaces them.
 */
module Provenance {
  import opened Common
  import opened Search
  import opened Spans
  import opened Content
  import R = Replacement

  datatype Prompt = Prompt(text: Text, owner: Owner, source: Source)

  function PromptTag(p: Prompt): Tag { Tag([p.source], Some(p.owner)) }

  function ComposerTag(): Tag { Tag([GraphModule], Some(Composer)) }

  function BaseTag(): Tag { Tag([BasePromptSource], Some(BasePrompt)) }

  // ------------------------------------------------------------------
  // Finding the constructor's prompts
  // ------------------------------------------------------------------

  predicate Overlaps(s: Segment, start: nat, end: nat) { start < s.end && end > s.start }

  /** `s` is the first occurrence of the prompt's text. */
  ghost predicate FirstOf(s: Segment, p: Prompt, text: Text) {
    Find(text, p.text, 0) == Some(s.start) && s.end == s.start + |p.text| && s.tag == PromptTag(p)
  }

  ghost predicate Apart(spans: seq<Segment>) {
    forall i, j :: 0 <= i < j < |spans| ==> !Overlaps(spans[i], spans[j].start, spans[j].end)
  }

  ghost predicate Inside(spans: seq<Segment>, n: nat) {
    forall i :: 0 <= i < |spans| ==> spans[i].start < spans[i].end <= n && spans[i].tag.owner.Some?
  }

  /** Each span is the first occurrence of one of the first `k` prompts. */
  ghost predicate FromPrompts(spans: seq<Segment>, prompts: seq<Prompt>, k: nat, text: Text)
    requires k <= |prompts|
  {
    forall i :: 0 <= i < |spans| ==> exists j :: 0 <= j < k && FirstOf(spans[i], prompts[j], text)
  }

  /** A prompt that occurs is covered, at its first occurrence, by a span of its own
      owner and source. */
  ghost predicate Found(spans: seq<Segment>, p: Prompt, text: Text) {
    var at := Find(text, p.text, 0);
    at.Some? ==>
      exists i :: 0 <= i < |spans| && spans[i].tag == PromptTag(p) && Overlaps(spans[i], at.value, at.value + |p.text|)
  }

  /** Where a prompt would stand: its first occurrence. */
  function Occurrence(text: Text, p: Prompt): (r: Option<Segment>) {
    var at := Find(text, p.text, 0);
    if at.None? then None else Some(Segment(at.value, at.value + |p.text|, PromptTag(p)))
  }

  /** The `i`-th prompt is placed: it occurs, and no prompt placed before it is in the way. */
  ghost predicate Placed(text: Text, prompts: seq<Prompt>, i: nat)
    requires i < |prompts|
  {
    Occurrence(text, prompts[i]).Some? && forall j :: 0 <= j < i && Placed(text, prompts, j) ==>
      !InTheWay(text, prompts[j], prompts[i])
  }

  /** Do their first occurrences overlap? */
  predicate InTheWay(text: Text, p: Prompt, q: Prompt) {
    && Occurrence(text, p).Some? && Occurrence(text, q).Some?
    && Overlaps(Occurrence(text, p).value, Occurrence(text, q).value.start, Occurrence(text, q).value.end)
  }

  /** A prompt runs into one placed before it that has another owner or source. */
  ghost predicate Clashes(text: Text, prompts: seq<Prompt>) {
    exists i, j :: 0 <= j < i < |prompts| && ClashAt(text, prompts, j, i)
  }

  ghost predicate ClashAt(text: Text, prompts: seq<Prompt>, j: nat, i: nat)
    requires j < |prompts| && i < |prompts|
  {
    Placed(text, prompts, j) && InTheWay(text, prompts[j], prompts[i]) && PromptTag(prompts[j]) != PromptTag(prompts[i])
  }

  /** The places of the first `k` prompts that are placed. */
  ghost function PlacedSpans(text: Text, prompts: seq<Prompt>, k: nat): seq<Segment>
    requires k <= |prompts|
  {
    if k == 0 then []
    else
      PlacedSpans(text, prompts, k - 1)
      + (if Placed(text, prompts, k - 1) then [Occurrence(text, prompts[k - 1]).value] else [])
  }

  /** The place of a placed prompt stands among them. */
  lemma {:induction false} StandsPlaced(text: Text, prompts: seq<Prompt>, k: nat, j: nat)
    requires j < k <= |prompts| && Placed(text, prompts, j)
    ensures Occurrence(text, prompts[j]).value in PlacedSpans(text, prompts, k)
  {
    if j < k - 1 { StandsPlaced(text, prompts, k - 1, j); }
  }

  /** And nothing else does. */
  lemma {:induction false} PlacedFrom(text: Text, prompts: seq<Prompt>, k: nat, i: nat) returns (j: nat)
    requires k <= |prompts| && i < |PlacedSpans(text, prompts, k)|
    ensures j < k && Placed(text, prompts, j)
    ensures PlacedSpans(text, prompts, k)[i] == Occurrence(text, prompts[j]).value
  {
    if i < |PlacedSpans(text, prompts, k - 1)| {
      j := PlacedFrom(text, prompts, k - 1, i);
    } else {
      j := k - 1;
    }
  }

  /** There is room for the `k`-th prompt exactly when no span so far overlaps it. */
  lemma RoomExactlyWhen(text: Text, prompts: seq<Prompt>, k: nat, s: Segment)
    requires k < |prompts| && Occurrence(text, prompts[k]) == Some(s)
    ensures var spans := PlacedSpans(text, prompts, k);
            Placed(text, prompts, k) <==> forall i :: 0 <= i < |spans| ==> !Overlaps(spans[i], s.start, s.end)
  {
    var spans := PlacedSpans(text, prompts, k);
    if Placed(text, prompts, k) {
      forall i | 0 <= i < |spans| ensures !Overlaps(spans[i], s.start, s.end) {
        var j := PlacedFrom(text, prompts, k, i);
        assert !InTheWay(text, prompts[j], prompts[k]);
      }
    } else {
      var j :| 0 <= j < k && Placed(text, prompts, j) && InTheWay(text, prompts[j], prompts[k]);
      StandsPlaced(text, prompts, k, j);
      var i :| 0 <= i < |spans| && spans[i] == Occurrence(text, prompts[j]).value;
      assert Overlaps(spans[i], s.start, s.end);
    }
  }

  /** It runs into another's exactly when such a span has another tag. */
  lemma ClashExactlyWhen(text: Text, prompts: seq<Prompt>, k: nat, s: Segment)
    requires k < |prompts| && Occurrence(text, prompts[k]) == Some(s)
    ensures var spans := PlacedSpans(text, prompts, k);
            (exists j :: 0 <= j < k && ClashAt(text, prompts, j, k)) <==>
              exists i :: 0 <= i < |spans| && Overlaps(spans[i], s.start, s.end) && spans[i].tag != s.tag
  {
    var spans := PlacedSpans(text, prompts, k);
    if j :| 0 <= j < k && ClashAt(text, prompts, j, k) {
      StandsPlaced(text, prompts, k, j);
      var i :| 0 <= i < |spans| && spans[i] == Occurrence(text, prompts[j]).value;
      assert Overlaps(spans[i], s.start, s.end);
    }
    if i :| 0 <= i < |spans| && Overlaps(spans[i], s.start, s.end) && spans[i].tag != s.tag {
      var j := PlacedFrom(text, prompts, k, i);
      assert ClashAt(text, prompts, j, k);
    }
  }

  /** What the spans already there say of an interval. */
  method Compare(spans: seq<Segment>, start: nat, end: nat, tag: Tag) returns (overlapping: bool, clash: Option<nat>)
    ensures overlapping <==> exists i :: 0 <= i < |spans| && Overlaps(spans[i], start, end)
    ensures clash.Some? ==>
              clash.value < |spans| && Overlaps(spans[clash.value], start, end) && spans[clash.value].tag != tag
    ensures clash.None? ==> forall i :: 0 <= i < |spans| && Overlaps(spans[i], start, end) ==> spans[i].tag == tag
  {
    overlapping, clash := false, None;
    for i := 0 to |spans|
      invariant overlapping <==> exists j :: 0 <= j < i && Overlaps(spans[j], start, end)
      invariant clash.Some? ==>
                  clash.value < i && Overlaps(spans[clash.value], start, end) && spans[clash.value].tag != tag
      invariant clash.None? ==> forall j :: 0 <= j < i && Overlaps(spans[j], start, end) ==> spans[j].tag == tag
    {
      if Overlaps(spans[i], start, end) {
        overlapping := true;
        if spans[i].tag != tag {
          clash := Some(i);
        }
      }
    }
  }

  /** What the first `k` prompts have left. */
  ghost predicate Placement(spans: seq<Segment>, prompts: seq<Prompt>, k: nat, text: Text)
    requires k <= |prompts|
  {
    && Apart(spans) && Inside(spans, |text|) && FromPrompts(spans, prompts, k, text)
    && forall j :: 0 <= j < k ==> Found(spans, prompts[j], text)
  }

  lemma FoundStays(spans: seq<Segment>, more: Segment, p: Prompt, text: Text)
    requires Found(spans, p, text)
    ensures Found(spans + [more], p, text)
  {
    var at := Find(text, p.text, 0);
    if at.Some? {
      var i :| 0 <= i < |spans| && spans[i].tag == PromptTag(p) && Overlaps(spans[i], at.value, at.value + |p.text|);
      assert (spans + [more])[i] == spans[i];
    }
  }

  lemma PlacementKeeps(spans: seq<Segment>, prompts: seq<Prompt>, k: nat, text: Text)
    requires k < |prompts| && Placement(spans, prompts, k, text) && Found(spans, prompts[k], text)
    ensures Placement(spans, prompts, k + 1, text)
  {
    forall i | 0 <= i < |spans| ensures exists j :: 0 <= j < k + 1 && FirstOf(spans[i], prompts[j], text) {
      var j :| 0 <= j < k && FirstOf(spans[i], prompts[j], text);
    }
  }

  lemma FromPromptsGrows(spans: seq<Segment>, prompts: seq<Prompt>, k: nat, text: Text, s: Segment)
    requires k < |prompts| && FromPrompts(spans, prompts, k, text) && FirstOf(s, prompts[k], text)
    ensures FromPrompts(spans + [s], prompts, k + 1, text)
  {
    var r := spans + [s];
    forall i | 0 <= i < |r| ensures exists j :: 0 <= j < k + 1 && FirstOf(r[i], prompts[j], text) {
      if i < |spans| {
        assert r[i] == spans[i];
        assert exists j :: 0 <= j < k && FirstOf(spans[i], prompts[j], text);
      }
    }
  }

  lemma ApartGrows(spans: seq<Segment>, s: Segment)
    requires Apart(spans) && forall i :: 0 <= i < |spans| ==> !Overlaps(spans[i], s.start, s.end)
    ensures Apart(spans + [s])
  {
  }

  lemma FoundGrows(spans: seq<Segment>, prompts: seq<Prompt>, k: nat, text: Text, s: Segment)
    requires k < |prompts| && FirstOf(s, prompts[k], text) && prompts[k].text != []
    requires forall j :: 0 <= j < k ==> Found(spans, prompts[j], text)
    ensures forall j :: 0 <= j < k + 1 ==> Found(spans + [s], prompts[j], text)
  {
    forall j | 0 <= j < k + 1 ensures Found(spans + [s], prompts[j], text) {
      if j < k {
        FoundStays(spans, s, prompts[j], text);
      } else {
        assert (spans + [s])[|spans|] == s;
      }
    }
  }

  lemma PlacementGrows(spans: seq<Segment>, prompts: seq<Prompt>, k: nat, text: Text, s: Segment)
    requires k < |prompts| && Placement(spans, prompts, k, text) && prompts[k].text != []
    requires FirstOf(s, prompts[k], text)
    requires forall i :: 0 <= i < |spans| ==> !Overlaps(spans[i], s.start, s.end)
    ensures Placement(spans + [s], prompts, k + 1, text)
  {
    FromPromptsGrows(spans, prompts, k, text, s);
    ApartGrows(spans, s);
    FoundGrows(spans, prompts, k, text, s);
  }

  ghost predicate NoClashSoFar(text: Text, prompts: seq<Prompt>, k: nat)
    requires k <= |prompts|
  {
    forall i, j :: 0 <= j < i < k ==> !ClashAt(text, prompts, j, i)
  }

  /** A prompt that has no room without a clash is covered by a span of its own tag. */
  lemma CoveredWithoutRoom(text: Text, prompts: seq<Prompt>, k: nat, s: Segment)
    requires k < |prompts| && Occurrence(text, prompts[k]) == Some(s) && !Placed(text, prompts, k)
    requires !exists j :: 0 <= j < k && ClashAt(text, prompts, j, k)
    ensures Found(PlacedSpans(text, prompts, k), prompts[k], text)
  {
    var spans := PlacedSpans(text, prompts, k);
    RoomExactlyWhen(text, prompts, k, s);
    ClashExactlyWhen(text, prompts, k, s);
    var i :| 0 <= i < |spans| && Overlaps(spans[i], s.start, s.end);
    assert spans[i].tag == PromptTag(prompts[k]);
  }

  /** The spans after one more prompt. */
  lemma NextSpans(text: Text, prompts: seq<Prompt>, k: nat)
    requires k < |prompts|
    ensures PlacedSpans(text, prompts, k + 1)
            == if Placed(text, prompts, k) then PlacedSpans(text, prompts, k) + [Occurrence(text, prompts[k]).value]
               else PlacedSpans(text, prompts, k)
  {
  }

  lemma NextIsPlacement(text: Text, prompts: seq<Prompt>, k: nat, spans: seq<Segment>, next: seq<Segment>)
    requires k < |prompts| && prompts[k].text != []
    requires spans == PlacedSpans(text, prompts, k) && next == PlacedSpans(text, prompts, k + 1)
    requires Placement(spans, prompts, k, text) && !exists j :: 0 <= j < k && ClashAt(text, prompts, j, k)
    ensures Placement(next, prompts, k + 1, text)
  {
    NextSpans(text, prompts, k);
    if Placed(text, prompts, k) {
      var s := Occurrence(text, prompts[k]).value;
      RoomExactlyWhen(text, prompts, k, s);
      PlacementGrows(spans, prompts, k, text, s);
    } else {
      FoundSomehow(text, prompts, k);
      PlacementKeeps(spans, prompts, k, text);
    }
  }

  lemma FoundSomehow(text: Text, prompts: seq<Prompt>, k: nat)
    requires k < |prompts| && !Placed(text, prompts, k) && !exists j :: 0 <= j < k && ClashAt(text, prompts, j, k)
    ensures Found(PlacedSpans(text, prompts, k), prompts[k], text)
  {
    var found := Occurrence(text, prompts[k]);
    if found.Some? { CoveredWithoutRoom(text, prompts, k, found.value); }
  }

  /** Without a clash what is placed is as it should be. */
  lemma {:induction false} PlacedIsPlacement(text: Text, prompts: seq<Prompt>, k: nat)
    requires k <= |prompts| && NoClashSoFar(text, prompts, k)
    requires forall i :: 0 <= i < |prompts| ==> prompts[i].text != []
    ensures Placement(PlacedSpans(text, prompts, k), prompts, k, text)
  {
    if k > 0 {
      PlacedIsPlacement(text, prompts, k - 1);
      NextIsPlacement(text, prompts, k - 1, PlacedSpans(text, prompts, k - 1), PlacedSpans(text, prompts, k));
    }
  }

  /** One turn of the search: an error, or the spans with one more if there is room. */
  method PlaceOne(text: Text, prompts: seq<Prompt>, k: nat, spans: seq<Segment>) returns (r: Option<seq<Segment>>)
    requires k < |prompts| && spans == PlacedSpans(text, prompts, k)
    ensures r.None? <==> exists j :: 0 <= j < k && ClashAt(text, prompts, j, k)
    ensures r.Some? ==> r.value == PlacedSpans(text, prompts, k + 1)
  {
    var p := prompts[k];
    var found := Find(text, p.text, 0);
    if found.None? {
      return Some(spans);
    }
    var s := Segment(found.value, found.value + |p.text|, PromptTag(p));
    RoomExactlyWhen(text, prompts, k, s);
    ClashExactlyWhen(text, prompts, k, s);
    var overlapping, clash := Compare(spans, s.start, s.end, s.tag);
    if clash.Some? {
      return None;
    }
    r := Some(if overlapping then spans else spans + [s]);
  }

  /** The search for the constructor's prompts, longest first as they come: it fails exactly
      when one runs into another's, and else leaves the places of those that are placed. */
  method PlacePrompts(text: Text, prompts: seq<Prompt>) returns (r: Option<seq<Segment>>)
    requires forall i :: 0 <= i < |prompts| ==> prompts[i].text != []
    ensures r.None? <==> Clashes(text, prompts)
    ensures r.Some? ==> r.value == PlacedSpans(text, prompts, |prompts|)
    ensures r.Some? ==> Placement(r.value, prompts, |prompts|, text)
  {
    var spans: seq<Segment> := [];
    for k := 0 to |prompts|
      invariant spans == PlacedSpans(text, prompts, k)
      invariant NoClashSoFar(text, prompts, k)
    {
      var next := PlaceOne(text, prompts, k, spans);
      if next.None? {
        return None;
      }
      spans := next.value;
    }
    PlacedIsPlacement(text, prompts, |prompts|);
    r := Some(spans);
  }

  /** The base prompt occurs, and none of these spans is in its way. */
  ghost predicate BaseStands(text: Text, spans: seq<Segment>, base: Text) {
    Find(text, base, 0).Some? &&
    forall i :: 0 <= i < |spans| ==> !Overlaps(spans[i], Find(text, base, 0).value, Find(text, base, 0).value + |base|)
  }

  function BaseSegment(text: Text, base: Text): Segment
    requires Find(text, base, 0).Some?
  {
    Segment(Find(text, base, 0).value, Find(text, base, 0).value + |base|, BaseTag())
  }

  /** The base prompt of the agent library is added exactly where it stands free. */
  method PlaceBase(text: Text, spans: seq<Segment>, base: Text) returns (r: seq<Segment>)
    requires base != [] && Apart(spans) && Inside(spans, |text|)
    ensures Apart(r) && Inside(r, |text|)
    ensures r == if BaseStands(text, spans, base) then spans + [BaseSegment(text, base)] else spans
  {
    r := spans;
    var found := Find(text, base, 0);
    if found.Some? {
      var overlapping, _ := Compare(spans, found.value, found.value + |base|, BaseTag());
      if !overlapping {
        r := spans + [Segment(found.value, found.value + |base|, BaseTag())];
      }
    }
  }

  // ------------------------------------------------------------------
  // Sorting and filling the gaps
  // ------------------------------------------------------------------

  /** Ordered and disjoint, up to `to`. */
  predicate Chain(spans: seq<Segment>, to: nat) {
    spans == [] || (Last(spans).start < Last(spans).end <= to && Chain(Front(spans), Last(spans).start))
  }

  function InsertByStart(sorted: seq<Segment>, s: Segment): (r: seq<Segment>)
    ensures multiset(r) == multiset(sorted) + multiset{s}
  {
    if sorted == [] || Last(sorted).start <= s.start then sorted + [s]
    else
      assert sorted == Front(sorted) + [Last(sorted)];
      InsertByStart(Front(sorted), s) + [Last(sorted)]
  }

  function SortByStart(spans: seq<Segment>): (r: seq<Segment>)
    ensures multiset(r) == multiset(spans)
  {
    if spans == [] then []
    else
      assert spans == Front(spans) + [Last(spans)];
      InsertByStart(SortByStart(Front(spans)), Last(spans))
  }

  lemma {:induction false} InsertKeepsChain(sorted: seq<Segment>, s: Segment, to: nat)
    requires Chain(sorted, to) && s.start < s.end <= to
    requires forall i :: 0 <= i < |sorted| ==> !Overlaps(sorted[i], s.start, s.end)
    ensures Chain(InsertByStart(sorted, s), to)
  {
    if sorted == [] || Last(sorted).start <= s.start {
      assert Front(sorted + [s]) == sorted;
    } else {
      InsertKeepsChain(Front(sorted), s, Last(sorted).start);
      var r := InsertByStart(Front(sorted), s);
      assert Front(r + [Last(sorted)]) == r;
    }
  }

  lemma {:induction false} SortMakesChain(spans: seq<Segment>, n: nat)
    requires Apart(spans) && Inside(spans, n)
    ensures Chain(SortByStart(spans), n)
  {
    if spans != [] {
      SortMakesChain(Front(spans), n);
      var sorted := SortByStart(Front(spans));
      forall i | 0 <= i < |sorted| ensures !Overlaps(sorted[i], Last(spans).start, Last(spans).end) {
        assert sorted[i] in multiset(sorted);
        assert sorted[i] in Front(spans);
        var j :| 0 <= j < |Front(spans)| && Front(spans)[j] == sorted[i];
        assert !Overlaps(spans[j], spans[|spans| - 1].start, spans[|spans| - 1].end);
      }
      InsertKeepsChain(sorted, Last(spans), n);
    }
  }

  lemma {:induction false} ChainOrder(spans: seq<Segment>, to: nat)
    requires Chain(spans, to)
    ensures forall i :: 0 <= i < |spans| ==> spans[i].start < spans[i].end <= to
    ensures forall i, j :: 0 <= i < j < |spans| ==> spans[i].end <= spans[j].start
  {
    if spans != [] {
      ChainOrder(Front(spans), Last(spans).start);
    }
  }

  ghost predicate Within(spans: seq<Segment>, i: nat) {
    exists k :: 0 <= k < |spans| && spans[k].start <= i < spans[k].end
  }

  /** A placed span, or the composer's own blank text. */
  ghost predicate SpanOrBlank(c: Segment, spans: seq<Segment>, text: Text, space: Code -> bool) {
    || c in spans
    || (c.tag == ComposerTag() && c.start <= c.end <= |text| && Blank(text[c.start..c.end], space))
  }

  ghost predicate FromSpansOrBlank(covered: seq<Segment>, spans: seq<Segment>, text: Text, space: Code -> bool) {
    forall c :: c in covered ==> SpanOrBlank(c, spans, text, space)
  }

  /** One gap before `to`, if it is blank. */
  method CloseGap(covered: seq<Segment>, cursor: nat, to: nat, text: Text, ghost spans: seq<Segment>,
                  space: Code -> bool)
    returns (r: Option<seq<Segment>>)
    requires Tiles(covered, 0, cursor) && cursor <= to <= |text|
    requires FromSpansOrBlank(covered, spans, text, space)
    ensures r.Some? <==> Blank(text[cursor..to], space)
    ensures r.Some? ==>
              && Tiles(r.value, 0, to) && covered <= r.value
              && FromSpansOrBlank(r.value, spans, text, space)
  {
    if cursor < to {
      if !Blank(text[cursor..to], space) {
        return None;
      }
      AddTiles(covered, 0, cursor, to, ComposerTag());
      assert SpanOrBlank(Segment(cursor, to, ComposerTag()), spans, text, space);
      r := Some(Add(covered, cursor, to, ComposerTag()));
    } else {
      r := Some(covered);
    }
  }

  lemma GapIsUncovered(spans: seq<Segment>, n: nat, k: nat, cursor: nat, to: nat, i: nat)
    requires Chain(spans, n) && k <= |spans|
    requires forall j :: 0 <= j < k ==> spans[j].end <= cursor
    requires to == if k < |spans| then spans[k].start else n
    requires cursor <= i < to
    ensures !Within(spans, i)
  {
    ChainOrder(spans, n);
  }

  ghost predicate Accounted(text: Text, spans: seq<Segment>, upTo: nat, space: Code -> bool) {
    forall i :: 0 <= i < upTo && i < |text| && !space(text[i]) ==> Within(spans, i)
  }

  lemma GapAccounted(text: Text, spans: seq<Segment>, cursor: nat, to: nat, space: Code -> bool)
    requires cursor <= to <= |text| && Accounted(text, spans, cursor, space) && Blank(text[cursor..to], space)
    ensures Accounted(text, spans, to, space)
  {
    forall i | cursor <= i < to ensures space(text[i]) {
      assert text[cursor..to][i - cursor] == text[i];
    }
  }

  lemma GapUnaccounted(text: Text, spans: seq<Segment>, k: nat, cursor: nat, to: nat, space: Code -> bool)
    requires Chain(spans, |text|) && k <= |spans|
    requires forall j :: 0 <= j < k ==> spans[j].end <= cursor
    requires to == if k < |spans| then spans[k].start else |text|
    requires cursor <= to <= |text| && !Blank(text[cursor..to], space)
    ensures !Accounted(text, spans, |text|, space)
  {
    var i :| 0 <= i < to - cursor && !space(text[cursor..to][i]);
    GapIsUncovered(spans, |text|, k, cursor, to, cursor + i);
    assert text[cursor + i] == text[cursor..to][i];
  }

  /** The state of the gap loop before span `k`. */
  ghost predicate Filled(covered: seq<Segment>, spans: seq<Segment>, k: nat, cursor: nat, text: Text,
                         space: Code -> bool)
    requires k <= |spans|
  {
    && cursor == (if k == 0 then 0 else spans[k - 1].end) <= |text|
    && Tiles(covered, 0, cursor) && FromSpansOrBlank(covered, spans, text, space)
    && (forall j :: 0 <= j < k ==> spans[j] in covered && spans[j].end <= cursor)
    && Accounted(text, spans, cursor, space)
  }

  lemma SpanFilled(closed: seq<Segment>, spans: seq<Segment>, k: nat, text: Text, space: Code -> bool)
    requires Chain(spans, |text|) && k < |spans|
    requires Tiles(closed, 0, spans[k].start) && FromSpansOrBlank(closed, spans, text, space)
    requires forall j :: 0 <= j < k ==> spans[j] in closed
    requires Accounted(text, spans, spans[k].start, space)
    ensures Filled(Add(closed, spans[k].start, spans[k].end, spans[k].tag), spans, k + 1, spans[k].end, text, space)
  {
    ChainOrder(spans, |text|);
    AddTiles(closed, 0, spans[k].start, spans[k].end, spans[k].tag);
    var r := Add(closed, spans[k].start, spans[k].end, spans[k].tag);
    assert r == closed + [spans[k]];
    assert SpanOrBlank(spans[k], spans, text, space);
    forall j | 0 <= j < k ensures spans[j] in r && spans[j].end <= spans[k].end {
      assert spans[j] in closed;
      assert spans[j].end <= spans[k].start;
    }
  }

  /** The gap loop: succeeds exactly when every character that is not blank lies in a
      span, and then covers the whole text. */
  method FillGaps(text: Text, spans: seq<Segment>, space: Code -> bool) returns (r: Option<seq<Segment>>)
    requires Chain(spans, |text|)
    ensures r.Some? <==> Accounted(text, spans, |text|, space)
    ensures r.Some? ==>
              && Tiles(r.value, 0, |text|)
              && FromSpansOrBlank(r.value, spans, text, space)
              && forall k :: 0 <= k < |spans| ==> spans[k] in r.value
  {
    var covered: seq<Segment> := [];
    var cursor: nat := 0;
    for k := 0 to |spans|
      invariant Filled(covered, spans, k, cursor, text, space)
    {
      BeforeSpan(covered, spans, k, cursor, text, space);
      var closed := CloseGap(covered, cursor, spans[k].start, text, spans, space);
      if closed.None? {
        GapUnaccounted(text, spans, k, cursor, spans[k].start, space);
        return None;
      }
      GapAccounted(text, spans, cursor, spans[k].start, space);
      SpanFilled(closed.value, spans, k, text, space);
      covered := Add(closed.value, spans[k].start, spans[k].end, spans[k].tag);
      cursor := spans[k].end;
    }
    r := CloseGap(covered, cursor, |text|, text, spans, space);
    if r.None? {
      GapUnaccounted(text, spans, |spans|, cursor, |text|, space);
    } else {
      GapAccounted(text, spans, cursor, |text|, space);
    }
  }

  lemma BeforeSpan(covered: seq<Segment>, spans: seq<Segment>, k: nat, cursor: nat, text: Text, space: Code -> bool)
    requires Chain(spans, |text|) && k < |spans| && Filled(covered, spans, k, cursor, text, space)
    ensures cursor <= spans[k].start <= |text|
  {
    ChainOrder(spans, |text|);
  }

  // ------------------------------------------------------------------
  // The initial spans
  // ------------------------------------------------------------------

  function InsertByLength(sorted: seq<Prompt>, p: Prompt): (r: seq<Prompt>)
    ensures multiset(r) == multiset(sorted) + multiset{p}
  {
    var k := |sorted| - 1;
    if sorted == [] || |sorted[k].text| >= |p.text| then sorted + [p]
    else
      assert sorted == sorted[..k] + [sorted[k]];
      InsertByLength(sorted[..k], p) + [sorted[k]]
  }

  /** Longest first; equals keep their order. */
  function SortByLength(prompts: seq<Prompt>): (r: seq<Prompt>)
    ensures multiset(r) == multiset(prompts)
  {
    if prompts == [] then []
    else
      var k := |prompts| - 1;
      assert prompts == prompts[..k] + [prompts[k]];
      InsertByLength(SortByLength(prompts[..k]), prompts[k])
  }

  ghost predicate Descending(prompts: seq<Prompt>) {
    forall i, j :: 0 <= i < j < |prompts| ==> |prompts[i].text| >= |prompts[j].text|
  }

  /** Those whose text has this length, in order. */
  function OfLength(prompts: seq<Prompt>, n: nat): seq<Prompt> {
    if prompts == [] then []
    else
      var k := |prompts| - 1;
      OfLength(prompts[..k], n) + (if |prompts[k].text| == n then [prompts[k]] else [])
  }

  lemma OfLengthSnoc(prompts: seq<Prompt>, p: Prompt, n: nat)
    ensures OfLength(prompts + [p], n) == OfLength(prompts, n) + (if |p.text| == n then [p] else [])
  {
    assert (prompts + [p])[..|prompts|] == prompts;
  }

  lemma InsertMembers(sorted: seq<Prompt>, p: Prompt, i: nat)
    requires i < |InsertByLength(sorted, p)|
    ensures InsertByLength(sorted, p)[i] == p || InsertByLength(sorted, p)[i] in sorted
  {
    assert InsertByLength(sorted, p)[i] in multiset(InsertByLength(sorted, p));
  }

  lemma {:induction false} InsertDescends(sorted: seq<Prompt>, p: Prompt)
    requires Descending(sorted)
    ensures Descending(InsertByLength(sorted, p))
  {
    var k := |sorted| - 1;
    if sorted != [] && |sorted[k].text| < |p.text| {
      assert sorted == sorted[..k] + [sorted[k]];
      InsertDescends(sorted[..k], p);
      LastIsShortest(sorted[..k], p, sorted[k]);
    }
  }

  /** A shorter prompt behind a longer one: they are of different lengths. */
  lemma SwapLengths(before: seq<Prompt>, p: Prompt, last: Prompt, n: nat)
    requires |last.text| < |p.text|
    ensures (before + (if |p.text| == n then [p] else [])) + (if |last.text| == n then [last] else [])
            == (before + (if |last.text| == n then [last] else [])) + (if |p.text| == n then [p] else [])
  {
  }

  lemma {:induction false} InsertKeepsOrder(sorted: seq<Prompt>, p: Prompt, n: nat)
    ensures OfLength(InsertByLength(sorted, p), n) == OfLength(sorted, n) + (if |p.text| == n then [p] else [])
  {
    var k := |sorted| - 1;
    if sorted == [] || |sorted[k].text| >= |p.text| {
      OfLengthSnoc(sorted, p, n);
    } else {
      var front := sorted[..k];
      assert sorted == front + [sorted[k]];
      InsertKeepsOrder(front, p, n);
      OfLengthSnoc(InsertByLength(front, p), sorted[k], n);
      OfLengthSnoc(front, sorted[k], n);
      SwapLengths(OfLength(front, n), p, sorted[k], n);
    }
  }

  lemma LastIsShortest(front: seq<Prompt>, p: Prompt, last: Prompt)
    requires Descending(front + [last]) && Descending(InsertByLength(front, p)) && |last.text| < |p.text|
    ensures Descending(InsertByLength(front, p) + [last])
  {
    var r := InsertByLength(front, p);
    forall i | 0 <= i < |r| ensures |r[i].text| >= |last.text| {
      InsertMembers(front, p, i);
      if r[i] != p {
        var j :| 0 <= j < |front| && front[j] == r[i];
        assert (front + [last])[j] == front[j] && (front + [last])[|front|] == last;
      }
    }
  }

  /** Longest first, and those of one length in the order in which they came. */
  lemma {:induction false} LongestFirst(prompts: seq<Prompt>, n: nat)
    ensures Descending(SortByLength(prompts))
    ensures OfLength(SortByLength(prompts), n) == OfLength(prompts, n)
  {
    if prompts != [] {
      var k := |prompts| - 1;
      LongestFirst(prompts[..k], n);
      InsertDescends(SortByLength(prompts[..k]), prompts[k]);
      InsertKeepsOrder(SortByLength(prompts[..k]), prompts[k], n);
    }
  }

  lemma SortedMembers(prompts: seq<Prompt>)
    ensures forall i :: 0 <= i < |SortByLength(prompts)| ==> SortByLength(prompts)[i] in prompts
  {
    forall i | 0 <= i < |SortByLength(prompts)| ensures SortByLength(prompts)[i] in prompts {
      assert SortByLength(prompts)[i] in multiset(SortByLength(prompts));
    }
  }

  /** What a covering span may be: the first occurrence of a constructor's prompt or of
      the base prompt, or the composer's blank text. */
  ghost predicate Attributed(c: Segment, text: Text, prompts: seq<Prompt>, base: Text, space: Code -> bool) {
    || (exists p :: p in prompts && FirstOf(c, p, text))
    || (Find(text, base, 0) == Some(c.start) && c.end == c.start + |base| && c.tag == BaseTag())
    || (c.tag == ComposerTag() && c.start <= c.end <= |text| && Blank(text[c.start..c.end], space))
  }

  /** The places of the prompts that are placed and of the base prompt if it stands free. */
  ghost function AllPlaced(text: Text, sorted: seq<Prompt>, base: Text): seq<Segment> {
    var spans := PlacedSpans(text, sorted, |sorted|);
    if BaseStands(text, spans, base) then spans + [BaseSegment(text, base)] else spans
  }

  /** Can the initial text be attributed? No prompt runs into another's, and every character
      that is not blank stands in a placed prompt or the base prompt. */
  ghost predicate InitialAttributable(text: Text, prompts: seq<Prompt>, base: Text, space: Code -> bool) {
    var sorted := SortByLength(prompts);
    !Clashes(text, sorted) && Accounted(text, AllPlaced(text, sorted, base), |text|, space)
  }

  lemma CoveredAttributed(covered: seq<Segment>, prompts: seq<Prompt>, sorted: seq<Segment>,
                          text: Text, base: Text, space: Code -> bool)
    requires multiset(sorted) == multiset(AllPlaced(text, SortByLength(prompts), base))
    requires FromSpansOrBlank(covered, sorted, text, space)
    ensures forall c :: c in covered ==> Attributed(c, text, prompts, base, space)
  {
    forall c | c in covered ensures Attributed(c, text, prompts, base, space) {
      assert SpanOrBlank(c, sorted, text, space);
      if c in sorted {
        assert c in multiset(sorted);
        PlacedAttributed(c, text, prompts, base, space);
      }
    }
  }

  lemma PlacedAttributed(c: Segment, text: Text, prompts: seq<Prompt>, base: Text, space: Code -> bool)
    requires c in AllPlaced(text, SortByLength(prompts), base)
    ensures Attributed(c, text, prompts, base, space) && c.tag.owner.Some?
  {
    var longest := SortByLength(prompts);
    var spans := PlacedSpans(text, longest, |longest|);
    if c in spans {
      var i :| 0 <= i < |spans| && spans[i] == c;
      var j := PlacedFrom(text, longest, |longest|, i);
      SortedMembers(prompts);
      assert longest[j] in prompts && FirstOf(c, longest[j], text);
    }
  }

  /** The same characters are accounted for whatever the order of the spans. */
  lemma AccountedSorted(text: Text, all: seq<Segment>, sorted: seq<Segment>, space: Code -> bool)
    requires multiset(sorted) == multiset(all)
    ensures Accounted(text, sorted, |text|, space) <==> Accounted(text, all, |text|, space)
  {
    forall i: nat ensures Within(sorted, i) <==> Within(all, i) {
      if Within(sorted, i) { WithinSorted(sorted, all, i); }
      if Within(all, i) { WithinSorted(all, sorted, i); }
    }
  }

  lemma WithinSorted(a: seq<Segment>, b: seq<Segment>, i: nat)
    requires multiset(a) == multiset(b) && Within(a, i)
    ensures Within(b, i)
  {
    var k :| 0 <= k < |a| && a[k].start <= i < a[k].end;
    assert a[k] in multiset(a);
    assert a[k] in b;
  }

  /** The tag of the span that contains a character, the composer's if there is none. */
  ghost function HolderTag(all: seq<Segment>, i: nat): Tag {
    if all == [] then ComposerTag()
    else if Last(all).start <= i < Last(all).end then Last(all).tag
    else HolderTag(Front(all), i)
  }

  lemma {:induction false} HolderTagIs(all: seq<Segment>, i: nat)
    ensures if Within(all, i)
            then exists k :: 0 <= k < |all| && all[k].start <= i < all[k].end && HolderTag(all, i) == all[k].tag
            else HolderTag(all, i) == ComposerTag()
  {
    if all != [] && !(Last(all).start <= i < Last(all).end) {
      HolderTagIs(Front(all), i);
      if Within(all, i) {
        var k :| 0 <= k < |all| && all[k].start <= i < all[k].end;
        assert Front(all)[k] == all[k];
      }
    }
  }

  /** Who wrote each character of the initial text. */
  ghost function InitialLabels(text: Text, prompts: seq<Prompt>, base: Text): seq<Tag> {
    var all := AllPlaced(text, SortByLength(prompts), base);
    seq(|text|, i requires 0 <= i < |text| => HolderTag(all, i))
  }

  lemma LabelledByHolder(covered: seq<Segment>, all: seq<Segment>, sorted: seq<Segment>, text: Text,
                         space: Code -> bool, i: nat)
    requires Tiles(covered, 0, |text|) && i < |text| && FromSpansOrBlank(covered, sorted, text, space)
    requires forall s :: s in all ==> s in covered
    requires multiset(sorted) == multiset(all)
    ensures |Tags(covered)| == |text| && Tags(covered)[i] == HolderTag(all, i)
  {
    HolderTagIs(all, i);
    if Within(all, i) {
      var k :| 0 <= k < |all| && all[k].start <= i < all[k].end && HolderTag(all, i) == all[k].tag;
      assert all[k] in covered;
      var c :| 0 <= c < |covered| && covered[c] == all[k];
      TagAt(covered, 0, |text|, c, i);
    } else {
      var c := Holder(covered, |text|, i);
      TagAt(covered, 0, |text|, c, i);
      assert SpanOrBlank(covered[c], sorted, text, space);
      if covered[c] in sorted { StandsIn(covered[c], all, sorted, i); }
    }
  }

  lemma StandsIn(c: Segment, all: seq<Segment>, sorted: seq<Segment>, i: nat)
    requires c in sorted && multiset(sorted) == multiset(all) && c.start <= i < c.end
    ensures Within(all, i)
  {
    assert c in multiset(sorted);
    assert c in all;
    var k :| 0 <= k < |all| && all[k] == c;
  }

  lemma LabelledAsPlaced(covered: seq<Segment>, prompts: seq<Prompt>, sorted: seq<Segment>, text: Text, base: Text,
                         space: Code -> bool)
    requires Tiles(covered, 0, |text|) && FromSpansOrBlank(covered, sorted, text, space)
    requires forall s :: s in AllPlaced(text, SortByLength(prompts), base) ==> s in covered
    requires multiset(sorted) == multiset(AllPlaced(text, SortByLength(prompts), base))
    ensures Tags(covered) == InitialLabels(text, prompts, base)
  {
    TilesLength(covered, 0, |text|);
    forall i | 0 <= i < |text|
      ensures Tags(covered)[i] == InitialLabels(text, prompts, base)[i]
    {
      LabelledByHolder(covered, AllPlaced(text, SortByLength(prompts), base), sorted, text, space, i);
    }
  }

  /** Every span of the fill has an owner. */
  lemma FillOwned(covered: seq<Segment>, text: Text, prompts: seq<Prompt>, base: Text, space: Code -> bool)
    requires forall c :: c in covered ==> Attributed(c, text, prompts, base, space)
    ensures R.AllOwned(covered)
  {
    forall i | 0 <= i < |covered| ensures covered[i].tag.owner.Some? {
      assert Attributed(covered[i], text, prompts, base, space);
    }
  }

  /** The spans of the initial text. They exist exactly when it can be attributed; they tile
      it, the place of every placed prompt is one of them and so is that of the base prompt
      where it stands free, and the rest is the composer's blank text. */
  method InitialSpans(text: Text, prompts: seq<Prompt>, base: Text, space: Code -> bool)
    returns (r: Option<seq<Segment>>)
    requires base != [] && forall i :: 0 <= i < |prompts| ==> prompts[i].text != []
    ensures r.Some? <==> InitialAttributable(text, prompts, base, space)
    ensures r.Some? ==> Tiles(r.value, 0, |text|) && R.AllOwned(r.value)
    ensures r.Some? ==> forall s :: s in AllPlaced(text, SortByLength(prompts), base) ==> s in r.value
    ensures r.Some? ==> Tags(r.value) == InitialLabels(text, prompts, base)
    ensures r.Some? ==> forall c :: c in r.value ==> Attributed(c, text, prompts, base, space)
  {
    SortedMembers(prompts);
    var longest := SortByLength(prompts);
    var placed := PlacePrompts(text, longest);
    if placed.None? {
      return None;
    }
    var all := PlaceBase(text, placed.value, base);
    SortMakesChain(all, |text|);
    var sorted := SortByStart(all);
    AccountedSorted(text, all, sorted, space);
    r := FillGaps(text, sorted, space);
    if r.Some? {
      CoveredAttributed(r.value, prompts, sorted, text, base, space);
      FillOwned(r.value, text, prompts, base, space);
      MembersSorted(all, sorted);
      LabelledAsPlaced(r.value, prompts, sorted, text, base, space);
    }
  }

  lemma MembersSorted(all: seq<Segment>, sorted: seq<Segment>)
    requires multiset(sorted) == multiset(all)
    ensures forall s :: s in all ==> s in sorted
  {
    forall s | s in all ensures s in sorted {
      assert s in multiset(all);
    }
  }

  // ------------------------------------------------------------------
  // The same in direct form
  // ------------------------------------------------------------------

  /** Character `i` lies in the first occurrence. */
  predicate LiesIn(text: Text, what: Text, i: nat) {
    var at := Find(text, what, 0);
    at.Some? && at.value <= i < at.value + |what|
  }

  /** The base prompt occurs, and every placed prompt ends before it or starts behind it. */
  ghost predicate BaseIsFree(text: Text, sorted: seq<Prompt>, base: Text) {
    var at := Find(text, base, 0);
    && at.Some?
    && forall j :: 0 <= j < |sorted| && Placed(text, sorted, j) ==> Beside(text, sorted[j].text, at.value, |base|)
  }

  predicate Beside(text: Text, what: Text, at: nat, n: nat) {
    var other := Find(text, what, 0);
    other.Some? && (other.value + |what| <= at || at + n <= other.value)
  }

  ghost predicate LiesInPlaced(text: Text, sorted: seq<Prompt>, j: nat, i: nat)
    requires j < |sorted|
  {
    Placed(text, sorted, j) && LiesIn(text, sorted[j].text, i)
  }

  lemma BaseIsFreeWhenItStands(text: Text, sorted: seq<Prompt>, base: Text)
    ensures BaseIsFree(text, sorted, base) <==> BaseStands(text, PlacedSpans(text, sorted, |sorted|), base)
  {
    var spans := PlacedSpans(text, sorted, |sorted|);
    var at := Find(text, base, 0);
    if at.Some? {
      if BaseStands(text, spans, base) {
        forall j | 0 <= j < |sorted| && Placed(text, sorted, j)
          ensures Beside(text, sorted[j].text, at.value, |base|)
        {
          StandsPlaced(text, sorted, |sorted|, j);
          var i :| 0 <= i < |spans| && spans[i] == Occurrence(text, sorted[j]).value;
          assert !Overlaps(spans[i], at.value, at.value + |base|);
        }
      }
      if BaseIsFree(text, sorted, base) {
        forall i | 0 <= i < |spans| ensures !Overlaps(spans[i], at.value, at.value + |base|) {
          var j := PlacedFrom(text, sorted, |sorted|, i);
          assert Beside(text, sorted[j].text, at.value, |base|);
        }
      }
    }
  }

  /** The span of a placed prompt that holds a character. */
  lemma PlacedHolds(text: Text, sorted: seq<Prompt>, base: Text, j: nat, i: nat) returns (k: nat)
    requires j < |sorted| && LiesInPlaced(text, sorted, j, i)
    ensures k < |AllPlaced(text, sorted, base)|
    ensures AllPlaced(text, sorted, base)[k] == Occurrence(text, sorted[j]).value
  {
    var spans := PlacedSpans(text, sorted, |sorted|);
    StandsPlaced(text, sorted, |sorted|, j);
    k :| 0 <= k < |spans| && spans[k] == Occurrence(text, sorted[j]).value;
  }

  /** What holds a character is a placed prompt or the free base prompt. */
  lemma HeldBy(text: Text, sorted: seq<Prompt>, base: Text, k: nat, i: nat) returns (j: nat)
    requires k < |AllPlaced(text, sorted, base)|
    requires AllPlaced(text, sorted, base)[k].start <= i < AllPlaced(text, sorted, base)[k].end
    ensures var s := AllPlaced(text, sorted, base)[k];
            if j < |sorted| then LiesInPlaced(text, sorted, j, i) && s.tag == PromptTag(sorted[j])
            else BaseIsFree(text, sorted, base) && LiesIn(text, base, i) && s.tag == BaseTag()
  {
    BaseIsFreeWhenItStands(text, sorted, base);
    var spans := PlacedSpans(text, sorted, |sorted|);
    if k < |spans| {
      j := PlacedFrom(text, sorted, |sorted|, k);
    } else {
      j := |sorted|;
    }
  }

  ghost predicate Stands(text: Text, sorted: seq<Prompt>, base: Text, i: nat) {
    || (exists j :: 0 <= j < |sorted| && LiesInPlaced(text, sorted, j, i))
    || (BaseIsFree(text, sorted, base) && LiesIn(text, base, i))
  }

  lemma StandsWithin(text: Text, sorted: seq<Prompt>, base: Text, i: nat)
    ensures Stands(text, sorted, base, i) <==> Within(AllPlaced(text, sorted, base), i)
  {
    var all := AllPlaced(text, sorted, base);
    BaseIsFreeWhenItStands(text, sorted, base);
    if Within(all, i) {
      var k :| 0 <= k < |all| && all[k].start <= i < all[k].end;
      var j := HeldBy(text, sorted, base, k, i);
    }
    if j :| 0 <= j < |sorted| && LiesInPlaced(text, sorted, j, i) {
      var k := PlacedHolds(text, sorted, base, j, i);
      assert all[k].start <= i < all[k].end;
    } else if BaseIsFree(text, sorted, base) && LiesIn(text, base, i) {
      assert all[|all| - 1] == BaseSegment(text, base);
    }
  }

  /** The initial text is attributable exactly when no two prompts clash and every character
      that is not blank lies in the first occurrence of a placed prompt, or in that of the
      base prompt where no placed prompt is in its way. */
  lemma InitialAttributableMeans(text: Text, prompts: seq<Prompt>, base: Text, space: Code -> bool)
    ensures InitialAttributable(text, prompts, base, space) <==>
              && !Clashes(text, SortByLength(prompts))
              && forall i :: 0 <= i < |text| && !space(text[i]) ==> Stands(text, SortByLength(prompts), base, i)
  {
    forall i: nat
      ensures Stands(text, SortByLength(prompts), base, i)
              <==> Within(AllPlaced(text, SortByLength(prompts), base), i)
    {
      StandsWithin(text, SortByLength(prompts), base, i);
    }
  }

  lemma OneHolder(text: Text, sorted: seq<Prompt>, j: nat, k: nat, i: nat)
    requires j < |sorted| && k < |sorted| && LiesInPlaced(text, sorted, j, i) && LiesInPlaced(text, sorted, k, i)
    ensures j == k
  {
    if j < k {
      PlacedElsewhere(text, sorted, j, k, i);
    } else if k < j {
      PlacedElsewhere(text, sorted, k, j, i);
    }
  }

  lemma PlacedElsewhere(text: Text, sorted: seq<Prompt>, j: nat, k: nat, i: nat)
    requires j < k < |sorted| && Placed(text, sorted, j) && Placed(text, sorted, k)
    ensures !(LiesIn(text, sorted[j].text, i) && LiesIn(text, sorted[k].text, i))
  {
    assert !InTheWay(text, sorted[j], sorted[k]);
  }

  /** Each character of it has the owner and source of the placed prompt that it lies in, or
      of the free base prompt, or else the composer's. */
  lemma InitialLabelMeans(text: Text, prompts: seq<Prompt>, base: Text, i: nat)
    requires i < |text|
    ensures var sorted := SortByLength(prompts);
            var tag := InitialLabels(text, prompts, base)[i];
            && (forall j :: 0 <= j < |sorted| && LiesInPlaced(text, sorted, j, i) ==>
                  tag == Tag([sorted[j].source], Some(sorted[j].owner)))
            && (BaseIsFree(text, sorted, base) && LiesIn(text, base, i) ==>
                  tag == Tag([BasePromptSource], Some(BasePrompt)))
            && (!Stands(text, sorted, base, i) ==> tag == Tag([GraphModule], Some(Composer)))
  {
    var sorted := SortByLength(prompts);
    var all := AllPlaced(text, sorted, base);
    HolderTagIs(all, i);
    StandsWithin(text, sorted, base, i);
    if Within(all, i) {
      var k :| 0 <= k < |all| && all[k].start <= i < all[k].end && HolderTag(all, i) == all[k].tag;
      var h := HeldBy(text, sorted, base, k, i);
      forall j | 0 <= j < |sorted| && LiesInPlaced(text, sorted, j, i)
        ensures h == j
      {
        if h < |sorted| { OneHolder(text, sorted, j, h, i); } else { BaseIsBeside(text, sorted, base, j, i); }
      }
      if h < |sorted| && BaseIsFree(text, sorted, base) && LiesIn(text, base, i) {
        BaseIsBeside(text, sorted, base, h, i);
      }
    }
  }

  lemma BaseIsBeside(text: Text, sorted: seq<Prompt>, base: Text, j: nat, i: nat)
    requires BaseIsFree(text, sorted, base) && LiesIn(text, base, i)
    ensures !(j < |sorted| && LiesInPlaced(text, sorted, j, i))
  {
    if j < |sorted| && Placed(text, sorted, j) {
      assert Beside(text, sorted[j].text, Find(text, base, 0).value, |base|);
    }
  }
}
