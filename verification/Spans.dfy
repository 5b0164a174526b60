/**
 * Owned spans of a text (edd/prompt_census.py): half-open intervals labelled with the
 * sources that wrote them, how they are appended, and what it means to tile a text.
 */
module Spans {
  import opened Common

  /** A Python character: any code point. */
  type Code = c: int | 0 <= c < 0x110000

  type Text = seq<Code>

  /** A source id: those that the census writes out itself, and all others. */
  datatype Source =
    | RiderModule         // python:assist.middleware.context_rider_middleware
    | SkillsFormatter     // ...SmallModelSkillsMiddleware._format_skills_list
    | SkillsTemplate      // ...SMALL_MODEL_SKILLS_PROMPT
    | SkillsModule        // python:assist.middleware.skills_middleware
    | MemoryFormatter     // ...SmallModelMemoryMiddleware._format_agent_memory
    | MemoryTemplate      // ...SMALL_MODEL_MEMORY_PROMPT
    | ThreadTemplate      // ...THREAD_MEMORY_PROMPT
    | AgentModule         // python:assist.agent.create_agent
    | GraphModule         // python:deepagents.graph
    | BasePromptSource    // python:deepagents.graph.BASE_AGENT_PROMPT
    | Named(id: string)

  /** An owner: a middleware, or one of the two that the census names itself. */
  datatype Owner =
    | SkillsOwner         // deepagents.SkillsMiddleware
    | MemoryOwner         // deepagents.MemoryMiddleware
    | RiderOwner          // assist.ContextRiderMiddleware
    | Composer            // framework prompt composer
    | BasePrompt          // deepagents.graph.BASE_AGENT_PROMPT
    | Other(name: string)

  /** Who wrote a character: source ids, and an owner where one is recorded. */
  datatype Tag = Tag(ids: seq<Source>, owner: Option<Owner>)

  datatype Segment = Segment(start: nat, end: nat, tag: Tag)

  function Repeat(tag: Tag, n: nat): (r: seq<Tag>)
    ensures |r| == n && forall i :: 0 <= i < n ==> r[i] == tag
  {
    seq(n, _ => tag)
  }

  lemma RepeatSum(tag: Tag, m: nat, n: nat)
    ensures Repeat(tag, m + n) == Repeat(tag, m) + Repeat(tag, n)
  {
  }

  function Last(segs: seq<Segment>): Segment requires segs != [] { segs[|segs| - 1] }

  function Front(segs: seq<Segment>): seq<Segment> requires segs != [] { segs[..|segs| - 1] }

  /** No gap, no overlap and no empty interval, from `from` to `to`. */
  predicate Tiles(segs: seq<Segment>, from: nat, to: nat) {
    if segs == [] then from == to
    else Last(segs).start < Last(segs).end == to && Tiles(Front(segs), from, Last(segs).start)
  }

  /** The tag of every character, in order. */
  function Tags(segs: seq<Segment>): seq<Tag> {
    if segs == [] then []
    else
      var last := Last(segs);
      Tags(Front(segs)) + Repeat(last.tag, if last.start <= last.end then last.end - last.start else 0)
  }

  lemma {:induction false} TilesLength(segs: seq<Segment>, from: nat, to: nat)
    requires Tiles(segs, from, to)
    ensures from <= to && |Tags(segs)| == to - from
  {
    if segs != [] { TilesLength(Front(segs), from, Last(segs).start); }
  }

  /** Character `i` has the tag of the segment that contains it. */
  lemma {:induction false} TagAt(segs: seq<Segment>, from: nat, to: nat, k: nat, i: nat)
    requires Tiles(segs, from, to) && k < |segs| && segs[k].start <= i < segs[k].end
    ensures from <= i < to && |Tags(segs)| == to - from && Tags(segs)[i - from] == segs[k].tag
  {
    TilesLength(segs, from, to);
    TilesLength(Front(segs), from, Last(segs).start);
    if k < |segs| - 1 { TagAt(Front(segs), from, Last(segs).start, k, i); }
  }

  /** The span that contains a character. */
  lemma {:induction false} Holder(spans: seq<Segment>, n: nat, i: nat) returns (k: nat)
    requires Tiles(spans, 0, n) && i < n
    ensures k < |spans| && spans[k].start <= i < spans[k].end
  {
    if i >= Last(spans).start {
      k := |spans| - 1;
    } else {
      k := Holder(Front(spans), Last(spans).start, i);
    }
  }

  /** The run-time check of the census: ends in place, neighbours touching. */
  predicate GapFree(segs: seq<Segment>, n: nat) {
    if segs == [] then n == 0
    else
      && segs[0].start == 0 && Last(segs).end == n
      && forall i :: 0 <= i < |segs| - 1 ==> segs[i].end == segs[i + 1].start
  }

  lemma {:induction false} TilesStart(segs: seq<Segment>, from: nat, to: nat)
    requires Tiles(segs, from, to)
    ensures segs != [] ==> segs[0].start == from
    ensures forall i :: 0 <= i < |segs| ==> from <= segs[i].start < segs[i].end <= to
    ensures forall i :: 0 <= i < |segs| - 1 ==> segs[i].end == segs[i + 1].start
  {
    if segs != [] {
      TilesStart(Front(segs), from, Last(segs).start);
      if |segs| > 1 { assert Last(Front(segs)) == segs[|segs| - 2]; }
    }
  }

  lemma TilesIsGapFree(segs: seq<Segment>, n: nat)
    requires Tiles(segs, 0, n)
    ensures GapFree(segs, n)
  {
    TilesStart(segs, 0, n);
  }

  lemma {:induction false} Concat(a: seq<Segment>, b: seq<Segment>, from: nat, mid: nat, to: nat)
    requires Tiles(a, from, mid) && Tiles(b, mid, to)
    ensures Tiles(a + b, from, to) && Tags(a + b) == Tags(a) + Tags(b)
  {
    if b == [] {
      assert a + b == a;
    } else {
      Concat(a, Front(b), from, mid, Last(b).start);
      assert Front(a + b) == a + Front(b) && Last(a + b) == Last(b);
      assert Tags(a + b) == (Tags(a) + Tags(Front(b))) + Repeat(Last(b).tag, Last(b).end - Last(b).start);
    }
  }

  function EndOf(segs: seq<Segment>): nat { if segs == [] then 0 else Last(segs).end }

  function Add(segs: seq<Segment>, start: nat, end: nat, tag: Tag): seq<Segment> {
    segs + [Segment(start, end, tag)]
  }

  function Stretch(segs: seq<Segment>, end: nat): seq<Segment>
    requires segs != []
  {
    Front(segs) + [Segment(Last(segs).start, end, Last(segs).tag)]
  }

  /** A segment more gives its tag to each of its characters. */
  lemma AddTiles(segs: seq<Segment>, from: nat, mid: nat, to: nat, tag: Tag)
    requires Tiles(segs, from, mid) && mid < to
    ensures Tiles(Add(segs, mid, to, tag), from, to)
    ensures Tags(Add(segs, mid, to, tag)) == Tags(segs) + Repeat(tag, to - mid)
  {
    assert Front(Add(segs, mid, to, tag)) == segs;
  }

  /** So does stretching the last one. */
  lemma StretchTiles(segs: seq<Segment>, from: nat, mid: nat, to: nat)
    requires Tiles(segs, from, mid) && mid < to && segs != []
    ensures Tiles(Stretch(segs, to), from, to)
    ensures Tags(Stretch(segs, to)) == Tags(segs) + Repeat(Last(segs).tag, to - mid)
  {
    var r := Stretch(segs, to);
    assert Front(r) == Front(segs);
    RepeatSum(Last(segs).tag, mid - Last(segs).start, to - mid);
    assert Tags(r)
        == Tags(Front(segs)) + (Repeat(Last(segs).tag, mid - Last(segs).start) + Repeat(Last(segs).tag, to - mid));
  }

  /** `_append_owned`: `n` characters more, written by `ids`. */
  function AppendOwned(segs: seq<Segment>, n: nat, ids: seq<Source>): seq<Segment> {
    if n == 0 then segs
    else if segs != [] && Last(segs).tag.ids == ids then Stretch(segs, Last(segs).end + n)
    else Add(segs, EndOf(segs), EndOf(segs) + n, Tag(ids, None))
  }

  ghost predicate Unowned(segs: seq<Segment>) {
    forall i :: 0 <= i < |segs| ==> segs[i].tag.owner.None?
  }

  lemma AppendOwnedUnowned(segs: seq<Segment>, n: nat, ids: seq<Source>)
    requires Unowned(segs)
    ensures Unowned(AppendOwned(segs, n, ids))
  {
    var r := AppendOwned(segs, n, ids);
    forall i | 0 <= i < |r| ensures r[i].tag.owner.None? {
      assert i < |segs| ==> r[i].tag == segs[i].tag;
    }
  }

  /** Appending owned text to a tiling tiles the longer text, each new character
      tagged with its sources. */
  lemma AppendOwnedTiles(segs: seq<Segment>, to: nat, n: nat, ids: seq<Source>)
    requires Tiles(segs, 0, to) && Unowned(segs)
    ensures Unowned(AppendOwned(segs, n, ids))
    ensures Tiles(AppendOwned(segs, n, ids), 0, to + n)
    ensures Tags(AppendOwned(segs, n, ids)) == Tags(segs) + Repeat(Tag(ids, None), n)
  {
    AppendOwnedUnowned(segs, n, ids);
    if n > 0 {
      if segs != [] && Last(segs).tag.ids == ids {
        assert Last(segs).tag == Tag(ids, None);
        StretchTiles(segs, 0, to, to + n);
      } else {
        AddTiles(segs, 0, to, to + n, Tag(ids, None));
      }
    }
  }

  /** `_append_segment`: the interval from `start` to `end`, merged with the last one if
      that ends there with the same sources and owner. */
  function AppendSegment(segs: seq<Segment>, start: nat, end: nat, tag: Tag): seq<Segment> {
    if start == end then segs
    else if segs != [] && Last(segs).end == start && Last(segs).tag == tag then Stretch(segs, end)
    else Add(segs, start, end, tag)
  }

  lemma AppendSegmentTiles(segs: seq<Segment>, start: nat, end: nat, tag: Tag)
    requires Tiles(segs, 0, start) && start <= end
    ensures Tiles(AppendSegment(segs, start, end, tag), 0, end)
    ensures Tags(AppendSegment(segs, start, end, tag)) == Tags(segs) + Repeat(tag, end - start)
  {
    if start < end {
      if segs != [] && Last(segs).tag == tag {
        StretchTiles(segs, 0, start, end);
      } else {
        AddTiles(segs, 0, start, end, tag);
      }
    }
  }

  /** Neighbours that touch are of different sources or owners. */
  ghost predicate Merged(segs: seq<Segment>) {
    forall i :: 0 <= i < |segs| - 1 && segs[i].end == segs[i + 1].start ==> segs[i].tag != segs[i + 1].tag
  }

  /** Both keep the segments as few as can be. */
  lemma AppendSegmentMerges(segs: seq<Segment>, start: nat, end: nat, tag: Tag)
    requires Merged(segs)
    ensures Merged(AppendSegment(segs, start, end, tag))
  {
  }

  lemma AppendOwnedMerges(segs: seq<Segment>, n: nat, ids: seq<Source>)
    requires Merged(segs)
    ensures Merged(AppendOwned(segs, n, ids))
  {
  }

  // ------------------------------------------------------------------
  // Spans with holes
  // ------------------------------------------------------------------

  /** Tiling but for holes: no overlap, no empty interval, and the last ends at `n`. */
  predicate Rising(segs: seq<Segment>, n: nat) {
    if segs == [] then n == 0
    else EndOf(Front(segs)) <= Last(segs).start < Last(segs).end == n && Rising(Front(segs), EndOf(Front(segs)))
  }

  /** The label of every character: the tag of the first segment that ends behind it, so
      that of the segment behind a hole for the characters in it. */
  function Labels(segs: seq<Segment>): seq<Tag> {
    if segs == [] then []
    else
      var from := EndOf(Front(segs));
      Labels(Front(segs)) + Repeat(Last(segs).tag, if from <= Last(segs).end then Last(segs).end - from else 0)
  }

  lemma {:induction false} RisingLength(segs: seq<Segment>, n: nat)
    requires Rising(segs, n)
    ensures |Labels(segs)| == n && EndOf(segs) == n
  {
    if segs != [] { RisingLength(Front(segs), EndOf(Front(segs))); }
  }

  /** A tiling has no holes, and its labels are its tags. */
  lemma {:induction false} TilesRises(segs: seq<Segment>, n: nat)
    requires Tiles(segs, 0, n)
    ensures Rising(segs, n) && Labels(segs) == Tags(segs) && EndOf(segs) == n
  {
    if segs != [] { TilesRises(Front(segs), Last(segs).start); }
  }

  lemma {:induction false} RisingOrder(segs: seq<Segment>, n: nat, k: nat)
    requires Rising(segs, n) && k < |segs|
    ensures segs[k].start < segs[k].end <= n
    ensures forall j :: 0 <= j < k ==> segs[j].end <= segs[k].start
    decreases |segs|
  {
    if k < |segs| - 1 {
      RisingOrder(Front(segs), EndOf(Front(segs)), k);
    } else if k > 0 {
      forall j | 0 <= j < k
        ensures segs[j].end <= segs[k].start
      {
        RisingOrder(Front(segs), EndOf(Front(segs)), j);
      }
    }
  }

  /** Character `i` has the label of the first segment that ends behind it. */
  lemma {:induction false} LabelAt(segs: seq<Segment>, n: nat, k: nat, i: nat)
    requires Rising(segs, n) && k < |segs| && i < segs[k].end && (k > 0 ==> segs[k - 1].end <= i)
    ensures |Labels(segs)| == n && i < n && Labels(segs)[i] == segs[k].tag
  {
    RisingLength(segs, n);
    RisingLength(Front(segs), EndOf(Front(segs)));
    RisingOrder(segs, n, k);
    if k < |segs| - 1 {
      LabelAt(Front(segs), EndOf(Front(segs)), k, i);
    } else {
      assert k > 0 ==> Last(Front(segs)) == segs[k - 1];
    }
  }

  lemma {:induction false} RisingConcat(a: seq<Segment>, b: seq<Segment>, mid: nat, to: nat)
    requires Rising(a, mid) && Tiles(b, mid, to)
    ensures Rising(a + b, to) && Labels(a + b) == Labels(a) + Tags(b)
  {
    RisingLength(a, mid);
    if b == [] {
      assert a + b == a;
    } else {
      var at := Last(b).start;
      RisingConcat(a, Front(b), mid, at);
      RisingLength(a + Front(b), at);
      assert Front(a + b) == a + Front(b) && Last(a + b) == Last(b);
      assert Labels(a + b) == (Labels(a) + Tags(Front(b))) + Repeat(Last(b).tag, to - at);
    }
  }

  /** An interval behind a hole labels the hole too. */
  lemma AddRises(segs: seq<Segment>, n: nat, start: nat, end: nat, tag: Tag)
    requires Rising(segs, n) && n <= start < end
    ensures Rising(Add(segs, start, end, tag), end)
    ensures Labels(Add(segs, start, end, tag)) == Labels(segs) + Repeat(tag, end - n)
  {
    RisingLength(segs, n);
    assert Front(Add(segs, start, end, tag)) == segs;
  }

  lemma StretchRises(segs: seq<Segment>, n: nat, end: nat)
    requires Rising(segs, n) && n < end && segs != []
    ensures Rising(Stretch(segs, end), end)
    ensures Labels(Stretch(segs, end)) == Labels(segs) + Repeat(Last(segs).tag, end - n)
  {
    var r, from, tag := Stretch(segs, end), EndOf(Front(segs)), Last(segs).tag;
    assert Front(r) == Front(segs);
    RepeatSum(tag, n - from, end - n);
    assert Labels(r) == Labels(Front(segs)) + (Repeat(tag, n - from) + Repeat(tag, end - n));
  }

  /** So `_append_segment` may start behind a hole. */
  lemma AppendSegmentRises(segs: seq<Segment>, n: nat, start: nat, end: nat, tag: Tag)
    requires Rising(segs, n) && n <= start < end
    ensures Rising(AppendSegment(segs, start, end, tag), end)
    ensures Labels(AppendSegment(segs, start, end, tag)) == Labels(segs) + Repeat(tag, end - n)
  {
    RisingLength(segs, n);
    if segs != [] && n == start && Last(segs).tag == tag {
      StretchRises(segs, n, end);
    } else {
      AddRises(segs, n, start, end, tag);
    }
  }
}
