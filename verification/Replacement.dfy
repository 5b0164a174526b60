/**
 * Attributing a re-serialised prompt (edd/prompt_census.py): the context rider replaces
 * the content blocks by their Python representation, and every escape in it keeps the
 * sources of the character it stands for.
 */
module Replacement {
  import opened Common
  import opened PythonRepr
  import opened Search
  import opened Spans

  datatype Fixture = Fixture(value: Text, id: Source)

  function Rider(): Tag { Tag([RiderModule], None) }

  /** How wide each character's escape is. */
  function Widths(value: Text, quote: Code, printable: Code -> bool): (r: seq<nat>)
    ensures |r| == |value|
    ensures forall k :: 0 <= k < |r| ==> r[k] > 0
  {
    seq(|value|, k requires 0 <= k < |value| => |Escape(value[k], quote, printable)|)
  }

  /** Each of the first `k` characters' tags, repeated over its escape. */
  function Painted(widths: seq<nat>, tags: seq<Tag>, k: nat): seq<Tag>
    requires k <= |widths| <= |tags|
  {
    if k == 0 then [] else Painted(widths, tags, k - 1) + Repeat(tags[k - 1], widths[k - 1])
  }

  // ------------------------------------------------------------------
  // The cursor over the prior spans
  // ------------------------------------------------------------------

  ghost predicate AllOwned(prior: seq<Segment>) {
    forall i :: 0 <= i < |prior| ==> prior[i].tag.owner.Some?
  }

  /** Does the cursor stand at or before the span of character `i`? */
  ghost predicate Ready(prior: seq<Segment>, index: nat, i: nat) {
    index <= |prior| && (index > 0 ==> prior[index - 1].end <= i)
  }

  /** The `while` over `span_index`: it stays in bounds, since the last span ends where the
      text before does, and stops at the span that the character's label is from. */
  method Advance(prior: seq<Segment>, index: nat, i: nat, ghost n: nat) returns (next: nat)
    requires Rising(prior, n) && i < n && Ready(prior, index, i)
    ensures index <= next < |prior| && i < prior[next].end && Ready(prior, next, i)
    ensures |Labels(prior)| == n && Labels(prior)[i] == prior[next].tag
  {
    next := index;
    while i >= prior[next].end
      invariant index <= next < |prior| && Ready(prior, next, i)
      decreases |prior| - next
    {
      next := next + 1;
    }
    LabelAt(prior, n, next, i);
  }

  // ------------------------------------------------------------------
  // One block
  // ------------------------------------------------------------------

  /** One turn of the inner loop: the escape from `start` to `end` gets the tag of
      character `i`. */
  method PaintOne(segs: seq<Segment>, start: nat, end: nat, prior: seq<Segment>, index: nat, i: nat, ghost n: nat)
    returns (r: seq<Segment>, next: nat)
    requires Tiles(segs, 0, start) && start < end
    requires Rising(prior, n) && AllOwned(prior) && i < n && Ready(prior, index, i)
    ensures Tiles(r, 0, end) && |Labels(prior)| == n
    ensures Tags(r) == Tags(segs) + Repeat(Labels(prior)[i], end - start)
    ensures Ready(prior, next, i + 1)
    ensures r != [] && Last(r).tag.owner.Some?
  {
    next := Advance(prior, index, i, n);
    AppendSegmentTiles(segs, start, end, prior[next].tag);
    r := AppendSegment(segs, start, end, prior[next].tag);
  }

  /** The running sums of the widths. */
  ghost predicate Sums(stops: seq<nat>, widths: seq<nat>) {
    && |stops| == |widths| + 1 && stops[0] == 0
    && forall k :: 0 <= k < |widths| ==> stops[k + 1] == stops[k] + widths[k] && widths[k] > 0
  }

  lemma OffsetsAreSums(v: Text, quote: Code, printable: Code -> bool)
    ensures Sums(Offsets(v, quote, printable), Widths(v, quote, printable))
  {
    forall k | 0 <= k < |v|
      ensures Offset(v, k + 1, quote, printable) == Offset(v, k, quote, printable) + |Escape(v[k], quote, printable)|
    {
      EscapeSits(v, k, quote, printable);
    }
  }

  /** The first `k` characters of a value have been attributed. */
  ghost predicate PaintedUpTo(segs: seq<Segment>, k: nat, base: seq<Tag>, at: nat, widths: seq<nat>,
                               stops: seq<nat>, tags: seq<Tag>)
    requires k <= |widths| <= |tags| && |stops| == |widths| + 1
  {
    && Tiles(segs, 0, at + 1 + stops[k])
    && Tags(segs) == base + Painted(widths, tags, k)
  }

  lemma PaintedGrows(widths: seq<nat>, tags: seq<Tag>, k: nat, base: seq<Tag>)
    requires k < |widths| <= |tags|
    ensures (base + Painted(widths, tags, k)) + Repeat(tags[k], widths[k]) == base + Painted(widths, tags, k + 1)
  {
  }

  /** The state of the inner loop: the segments and the cursor over the prior spans. */
  datatype Brush = Brush(segs: seq<Segment>, index: nat)

  /** The states that the loop may be in before character `k` of a value. */
  ghost function Brushes(k: nat, start: seq<Segment>, at: nat, widths: seq<nat>, stops: seq<nat>, tags: seq<Tag>,
                         prior: seq<Segment>, offset: nat): iset<Brush>
    requires k <= |widths| <= |tags| && |stops| == |widths| + 1
  {
    iset b: Brush |
      && PaintedUpTo(b.segs, k, Tags(start), at, widths, stops, tags)
      && Ready(prior, b.index, offset + k)
      && if k == 0 then b.segs == start else b.segs != [] && Last(b.segs).tag.owner.Some?
  }

  lemma BrushAt(b: Brush, k: nat, start: seq<Segment>, at: nat, widths: seq<nat>, stops: seq<nat>, tags: seq<Tag>,
                prior: seq<Segment>, offset: nat)
    requires k <= |widths| <= |tags| && |stops| == |widths| + 1
    requires b in Brushes(k, start, at, widths, stops, tags, prior, offset)
    ensures Tiles(b.segs, 0, at + 1 + stops[k]) && Ready(prior, b.index, offset + k)
  {
  }

  lemma BrushMoves(b: Brush, r: Brush, k: nat, start: seq<Segment>, at: nat, widths: seq<nat>, stops: seq<nat>,
                   tags: seq<Tag>, prior: seq<Segment>, offset: nat)
    requires k < |widths| <= |tags| && |stops| == |widths| + 1
    requires b in Brushes(k, start, at, widths, stops, tags, prior, offset)
    requires Tiles(r.segs, 0, at + 1 + stops[k + 1]) && Tags(r.segs) == Tags(b.segs) + Repeat(tags[k], widths[k])
    requires Ready(prior, r.index, offset + k + 1) && r.segs != [] && Last(r.segs).tag.owner.Some?
    ensures r in Brushes(k + 1, start, at, widths, stops, tags, prior, offset)
  {
    PaintedGrows(widths, tags, k, Tags(start));
  }

  method PaintNext(b: Brush, at: nat, range: (nat, nat), prior: seq<Segment>, offset: nat, k: nat,
                   ghost start: seq<Segment>, ghost widths: seq<nat>, ghost stops: seq<nat>,
                   ghost tags: seq<Tag>, ghost n: nat)
    returns (r: Brush)
    requires Sums(stops, widths) && k < |widths| <= |tags| && range == (1 + stops[k], 1 + stops[k + 1])
    requires Rising(prior, n) && AllOwned(prior) && offset + k < n
    requires |Labels(prior)| == n && tags[k] == Labels(prior)[offset + k]
    requires b in Brushes(k, start, at, widths, stops, tags, prior, offset)
    ensures r in Brushes(k + 1, start, at, widths, stops, tags, prior, offset)
  {
    BrushAt(b, k, start, at, widths, stops, tags, prior, offset);
    var segs, next := PaintOne(b.segs, at + range.0, at + range.1, prior, b.index, offset + k, n);
    r := Brush(segs, next);
    BrushMoves(b, r, k, start, at, widths, stops, tags, prior, offset);
  }

  /** The inner loop: the escapes of one value, from its opening quote at `at`. */
  method PaintValue(segs: seq<Segment>, at: nat, ranges: seq<(nat, nat)>, prior: seq<Segment>, offset: nat, index: nat,
                    ghost widths: seq<nat>, ghost stops: seq<nat>, ghost tags: seq<Tag>, ghost n: nat)
    returns (b: Brush)
    requires Tiles(segs, 0, at + 1)
    requires Sums(stops, widths) && ranges == Ranges(stops)
    requires Rising(prior, n) && AllOwned(prior) && |Labels(prior)| == n
    requires offset + |widths| <= n && Ready(prior, index, offset) && tags == Labels(prior)[offset..]
    ensures b in Brushes(|widths|, segs, at, widths, stops, tags, prior, offset)
  {
    b := Brush(segs, index);
    for k := 0 to |ranges|
      invariant b in Brushes(k, segs, at, widths, stops, tags, prior, offset)
    {
      b := PaintNext(b, at, ranges[k], prior, offset, k, segs, widths, stops, tags, n);
    }
  }

  // ------------------------------------------------------------------
  // All blocks
  // ------------------------------------------------------------------

  /** A value's representation and the widths of its escapes. */
  datatype Form = Form(rendered: Text, widths: seq<nat>)

  function FormOf(value: Text, printable: Code -> bool): Form {
    Form(Repr(value, printable), Widths(value, QuoteFor(value), printable))
  }

  function Forms(blocks: seq<Text>, printable: Code -> bool): (r: seq<Form>)
    ensures |r| == |blocks|
  {
    seq(|blocks|, i requires 0 <= i < |blocks| => FormOf(blocks[i], printable))
  }

  /** The first `k` forms are those of the blocks. */
  ghost predicate FormsOf(forms: seq<Form>, blocks: seq<Text>, printable: Code -> bool, k: nat)
    requires k <= |forms| == |blocks|
  {
    k == 0 || (forms[k - 1] == FormOf(blocks[k - 1], printable) && FormsOf(forms, blocks, printable, k - 1))
  }

  lemma {:induction false} FormsAt(forms: seq<Form>, blocks: seq<Text>, printable: Code -> bool, k: nat, i: nat)
    requires i < k <= |forms| == |blocks| && FormsOf(forms, blocks, printable, k)
    ensures forms[i] == FormOf(blocks[i], printable)
  {
    if i < k - 1 { FormsAt(forms, blocks, printable, k - 1, i); }
  }

  lemma {:induction false} FormsAreForms(blocks: seq<Text>, printable: Code -> bool, k: nat)
    requires k <= |blocks|
    ensures FormsOf(Forms(blocks, printable), blocks, printable, k)
  {
    if k > 0 { FormsAreForms(blocks, printable, k - 1); }
  }

  /** How far the blocks have been accounted for: in the representation, in the
      characters of the text before, and in tags. */
  datatype Reprinted = Reprinted(cursor: nat, offset: nat, tags: seq<Tag>)

  /** What the representation of one more block adds: rider text up to and with its
      opening quote, then its characters' escapes. The value is looked for from the
      closing quote of the one before; None is an error. */
  function AfterBlock(done: Reprinted, serialized: Text, form: Form, prior: seq<Tag>): Option<Reprinted> {
    var at := Find(serialized, form.rendered, done.cursor);
    if at.None? || form.rendered == [] || done.offset + |form.widths| > |prior| then None
    else
      Some(Reprinted(at.value + |form.rendered| - 1,
                     done.offset + |form.widths|,
                     done.tags + Repeat(Rider(), at.value + 1 - done.cursor)
                     + Painted(form.widths, prior[done.offset..], |form.widths|)))
  }

  function AfterBlocks(serialized: Text, forms: seq<Form>, k: nat, prior: seq<Tag>): Option<Reprinted>
    requires k <= |forms|
  {
    if k == 0 then Some(Reprinted(0, 0, []))
    else
      var done := AfterBlocks(serialized, forms, k - 1, prior);
      if done.None? then None else AfterBlock(done.value, serialized, forms[k - 1], prior)
  }

  lemma {:induction false} NotFoundLater(serialized: Text, forms: seq<Form>, k: nat, prior: seq<Tag>)
    requires k <= |forms| && AfterBlocks(serialized, forms, k, prior).None?
    ensures AfterBlocks(serialized, forms, |forms|, prior).None?
    decreases |forms| - k
  {
    if k < |forms| { NotFoundLater(serialized, forms, k + 1, prior); }
  }

  ghost predicate At(o: Option<Reprinted>, cursor: nat, offset: nat, tags: seq<Tag>) {
    o.Some? && o.value.cursor == cursor && o.value.offset == offset && o.value.tags == tags
  }

  lemma AfterBlockIs(done: Reprinted, serialized: Text, form: Form, prior: seq<Tag>, at: nat, tags: seq<Tag>)
    requires form.rendered != [] && Find(serialized, form.rendered, done.cursor) == Some(at)
    requires done.offset + |form.widths| <= |prior|
    requires tags == done.tags + Repeat(Rider(), at + 1 - done.cursor)
                     + Painted(form.widths, prior[done.offset..], |form.widths|)
    ensures At(AfterBlock(done, serialized, form, prior), at + |form.rendered| - 1, done.offset + |form.widths|, tags)
  {
  }

  lemma AfterNext(serialized: Text, forms: seq<Form>, k: nat, prior: seq<Tag>, cursor: nat, offset: nat, tags: seq<Tag>)
    requires k < |forms| && At(AfterBlocks(serialized, forms, k, prior), cursor, offset, tags)
    ensures AfterBlocks(serialized, forms, k + 1, prior)
            == AfterBlock(Reprinted(cursor, offset, tags), serialized, forms[k], prior)
  {
  }

  /** The last segment is the rider's own exactly when the last block was empty. */
  ghost predicate EndsLike(segs: seq<Segment>, value: Text) {
    segs != [] && (if value == [] then Last(segs).tag == Rider() else Last(segs).tag.owner.Some?)
  }

  lemma ReprLength(value: Text, printable: Code -> bool)
    ensures |Repr(value, printable)| == 2 + Offset(value, |value|, QuoteFor(value), printable)
  {
    assert value[..|value|] == value;
  }

  /** The rider's text up to and with a block's opening quote. */
  method OpenQuote(segs: seq<Segment>, cursor: nat, at: nat) returns (r: seq<Segment>)
    requires Tiles(segs, 0, cursor) && cursor <= at
    ensures Tiles(r, 0, at + 1) && Tags(r) == Tags(segs) + Repeat(Rider(), at + 1 - cursor)
    ensures r != [] && Last(r).tag == Rider() && Last(r).start < at + 1
  {
    AppendSegmentTiles(segs, cursor, at + 1, Rider());
    r := AppendSegment(segs, cursor, at + 1, Rider());
  }

  lemma LastStartsBefore(segs: seq<Segment>, to: nat)
    requires Tiles(segs, 0, to) && segs != []
    ensures Last(segs).start < to
  {
  }

  /** The escapes of one block, from its opening quote at `at` to its closing one. */
  method PaintBlock(segs: seq<Segment>, at: nat, value: Text, rendered: Text, ranges: seq<(nat, nat)>,
                    ghost printable: Code -> bool, prior: seq<Segment>, offset: nat, index: nat, ghost n: nat)
    returns (r: seq<Segment>, next: nat)
    requires Tiles(segs, 0, at + 1) && segs != [] && Last(segs).tag == Rider()
    requires rendered == Repr(value, printable) && ranges == Ranges(Offsets(value, QuoteFor(value), printable))
    requires Rising(prior, n) && AllOwned(prior) && |Labels(prior)| == n
    requires offset + |value| <= n && Ready(prior, index, offset)
    ensures |rendered| >= 2 && Tiles(r, 0, at + |rendered| - 1)
    ensures |FormOf(value, printable).widths| == |value|
    ensures Tags(r) == Tags(segs) + Painted(FormOf(value, printable).widths, Labels(prior)[offset..], |value|)
    ensures EndsLike(r, value) && Last(r).start < at + |rendered| - 1
    ensures Ready(prior, next, offset + |value|)
  {
    OffsetsAreSums(value, QuoteFor(value), printable);
    ReprLength(value, printable);
    var b := PaintValue(segs, at, ranges, prior, offset, index, Widths(value, QuoteFor(value), printable),
                        Offsets(value, QuoteFor(value), printable), Labels(prior)[offset..], n);
    r, next := b.segs, b.index;
    LastStartsBefore(r, at + |rendered| - 1);
  }

  /** One turn of the outer loop. */
  method ReplaceBlock(segs: seq<Segment>, serialized: Text, cursor: nat, value: Text, printable: Code -> bool,
                      prior: seq<Segment>, offset: nat, index: nat, ghost n: nat)
    returns (found: bool, r: seq<Segment>, nextCursor: nat, nextIndex: nat)
    requires Tiles(segs, 0, cursor) && cursor <= |serialized|
    requires Rising(prior, n) && AllOwned(prior) && |Labels(prior)| == n
    requires offset + |value| <= n && Ready(prior, index, offset)
    ensures var done := AfterBlock(Reprinted(cursor, offset, Tags(segs)), serialized, FormOf(value, printable),
                                   Labels(prior));
            if found then At(done, nextCursor, offset + |value|, Tags(r)) else done.None?
    ensures found ==>
              && Tiles(r, 0, nextCursor) && cursor < nextCursor < |serialized|
              && EndsLike(r, value) && Last(r).start < nextCursor
              && Ready(prior, nextIndex, offset + |value|)
  {
    var rendered, ranges := ReprCharacterRanges(value, printable);
    var at := Find(serialized, rendered, cursor);
    if at.None? {
      return false, [], cursor, index;
    }
    r := OpenQuote(segs, cursor, at.value);
    r, nextIndex := PaintBlock(r, at.value, value, rendered, ranges, printable, prior, offset, index, n);
    nextCursor := at.value + |rendered| - 1;
    AfterBlockIs(Reprinted(cursor, offset, Tags(segs)), serialized, FormOf(value, printable), Labels(prior),
                 at.value, Tags(r));
    found := true;
  }

  ghost predicate EndsAfter(segs: seq<Segment>, blocks: seq<Text>, k: nat, cursor: nat)
    requires k <= |blocks|
  {
    if k == 0 then segs == [] else EndsLike(segs, blocks[k - 1]) && Last(segs).start < cursor
  }

  /** The state of the outer loop. */
  datatype Walk = Walk(segs: seq<Segment>, cursor: nat, offset: nat, index: nat)

  /** The states that the loop may be in before block `i`. */
  ghost function Walks(serialized: Text, blocks: seq<Text>, i: nat, forms: seq<Form>, prior: seq<Segment>): iset<Walk>
    requires i <= |blocks| == |forms|
  {
    iset w: Walk |
      && Tiles(w.segs, 0, w.cursor) && w.cursor <= |serialized| && EndsAfter(w.segs, blocks, i, w.cursor)
      && (i > 0 ==> w.cursor < |serialized|)
      && Ready(prior, w.index, w.offset)
      && At(AfterBlocks(serialized, forms, i, Labels(prior)), w.cursor, w.offset, Tags(w.segs))
  }

  lemma NextWalk(serialized: Text, blocks: seq<Text>, i: nat, forms: seq<Form>, prior: seq<Segment>, w: Walk,
                 next: Walk)
    requires i < |blocks| == |forms| && w in Walks(serialized, blocks, i, forms, prior)
    requires At(AfterBlock(Reprinted(w.cursor, w.offset, Tags(w.segs)), serialized, forms[i], Labels(prior)),
                next.cursor, next.offset, Tags(next.segs))
    requires Tiles(next.segs, 0, next.cursor) && next.cursor < |serialized|
    requires EndsLike(next.segs, blocks[i]) && Last(next.segs).start < next.cursor
    requires Ready(prior, next.index, next.offset)
    ensures next in Walks(serialized, blocks, i + 1, forms, prior)
  {
    AfterNext(serialized, forms, i, Labels(prior), w.cursor, w.offset, Tags(w.segs));
  }

  lemma NoNextWalk(serialized: Text, blocks: seq<Text>, i: nat, forms: seq<Form>, prior: seq<Segment>, w: Walk)
    requires i < |blocks| == |forms| && w in Walks(serialized, blocks, i, forms, prior)
    requires AfterBlock(Reprinted(w.cursor, w.offset, Tags(w.segs)), serialized, forms[i], Labels(prior)).None?
    ensures AfterBlocks(serialized, forms, |forms|, Labels(prior)).None?
  {
    AfterNext(serialized, forms, i, Labels(prior), w.cursor, w.offset, Tags(w.segs));
    NotFoundLater(serialized, forms, i + 1, Labels(prior));
  }

  /** One turn of the outer loop, with the error it may leave by. */
  method ReplaceNext(serialized: Text, blocks: seq<Text>, i: nat, printable: Code -> bool, prior: seq<Segment>,
                     ghost n: nat, w: Walk, ghost forms: seq<Form>)
    returns (found: bool, next: Walk)
    requires Rising(prior, n) && AllOwned(prior) && |Labels(prior)| == n
    requires i < |blocks| && w.offset + |blocks[i]| <= n
    requires |forms| == |blocks| && FormsOf(forms, blocks, printable, |blocks|)
    requires w in Walks(serialized, blocks, i, forms, prior)
    ensures !found ==> AfterBlocks(serialized, forms, |forms|, Labels(prior)).None?
    ensures found ==> next in Walks(serialized, blocks, i + 1, forms, prior) && next.offset == w.offset + |blocks[i]|
  {
    FormsAt(forms, blocks, printable, |blocks|, i);
    var segs, cursor, index;
    found, segs, cursor, index := ReplaceBlock(w.segs, serialized, w.cursor, blocks[i], printable, prior, w.offset,
                                                  w.index, n);
    next := Walk(segs, cursor, w.offset + |blocks[i]|, index);
    if found {
      NextWalk(serialized, blocks, i, forms, prior, w, next);
    } else {
      NoNextWalk(serialized, blocks, i, forms, prior, w);
    }
  }

  lemma NextOffset(blocks: seq<Text>, i: nat)
    requires i < |blocks|
    ensures |JoinTo(blocks, i + 1)| == |JoinTo(blocks, i)| + |blocks[i]| <= |Join(blocks)|
  {
    JoinGrows(blocks, i + 1);
  }

  lemma FirstWalk(serialized: Text, blocks: seq<Text>, forms: seq<Form>, prior: seq<Segment>)
    requires |forms| == |blocks|
    ensures Walk([], 0, 0, 0) in Walks(serialized, blocks, 0, forms, prior)
  {
  }

  /** The outer loop: the span cursor stays in bounds, and what is found is tiled. */
  method ReplaceBlocks(serialized: Text, blocks: seq<Text>, printable: Code -> bool, prior: seq<Segment>, ghost n: nat,
                       ghost forms: seq<Form>)
    returns (found: bool, w: Walk)
    requires Rising(prior, n) && AllOwned(prior) && |Labels(prior)| == n
    requires |Join(blocks)| == n
    requires |forms| == |blocks| && FormsOf(forms, blocks, printable, |blocks|)
    ensures !found ==> AfterBlocks(serialized, forms, |forms|, Labels(prior)).None?
    ensures found ==> w in Walks(serialized, blocks, |blocks|, forms, prior)
  {
    found, w := true, Walk([], 0, 0, 0);
    FirstWalk(serialized, blocks, forms, prior);
    for i := 0 to |blocks|
      invariant w.offset == |JoinTo(blocks, i)| && found
      invariant w in Walks(serialized, blocks, i, forms, prior)
    {
      NextOffset(blocks, i);
      found, w := ReplaceNext(serialized, blocks, i, printable, prior, n, w, forms);
      if !found {
        return;
      }
    }
  }

  // ------------------------------------------------------------------
  // The suffix and the synthetic place in it
  // ------------------------------------------------------------------

  /** A segment that starts behind a hole. */
  ghost predicate Hole(segs: seq<Segment>, j: nat) {
    && j < |segs| && segs[j].start > 0
    && (j > 0 ==> segs[j - 1].end < segs[j].start)
  }

  ghost predicate HasHole(segs: seq<Segment>) { exists j :: Hole(segs, j) }

  lemma GapFreeHasNone(segs: seq<Segment>, n: nat)
    requires GapFree(segs, n)
    ensures !HasHole(segs)
  {
    forall j: nat
      ensures !Hole(segs, j)
    {
      if 0 < j < |segs| {
        var i := j - 1;
        assert segs[i].end == segs[i + 1].start;
      }
    }
  }

  /** A tiling has none, and the closing check of the census finds it. */
  lemma HoleShows(segs: seq<Segment>, n: nat)
    ensures HasHole(segs) ==> !Tiles(segs, 0, n) && !GapFree(segs, n)
  {
    if GapFree(segs, n) { GapFreeHasNone(segs, n); }
    if Tiles(segs, 0, n) { TilesIsGapFree(segs, n); }
  }

  /** The tags around the place: rider, fixture, rider. */
  function AroundTags(suffix: nat, place: nat, f: Fixture, n: nat): seq<Tag>
    requires suffix <= place && place + |f.value| <= n
  {
    Repeat(Rider(), place - suffix) + Repeat(Tag([f.id], None), |f.value|) + Repeat(Rider(), n - place - |f.value|)
  }

  /** `_append_segment` on a tiling, or behind a hole. */
  method Extend(segs: seq<Segment>, ghost n: nat, start: nat, end: nat, tag: Tag, ghost j: nat)
    returns (r: seq<Segment>)
    requires Rising(segs, n) && n <= start <= end && (n < start ==> start < end)
    ensures Rising(r, end) && Labels(r) == Labels(segs) + Repeat(tag, end - n)
    ensures Tiles(segs, 0, start) ==> Tiles(r, 0, end)
    ensures Hole(segs, j) ==> Hole(r, j)
    ensures n < start ==> Hole(r, |segs|)
  {
    RisingLength(segs, n);
    if start < end { AppendSegmentRises(segs, n, start, end, tag); }
    if Tiles(segs, 0, start) { AppendSegmentTiles(segs, start, end, tag); }
    r := AppendSegment(segs, start, end, tag);
  }

  /** The split of the final segment around the fixture's place. `from` is where the
      segments end without that one: before the suffix if it had been merged. */
  method PlaceFixture(segs: seq<Segment>, ghost from: nat, suffix: nat, place: nat, f: Fixture, n: nat,
                      ghost done: seq<Tag>)
    returns (r: seq<Segment>)
    requires segs != [] && Rising(Front(segs), from) && from <= suffix <= place && place + |f.value| <= n
    requires Labels(Front(segs)) + Repeat(Rider(), suffix - from) == done
    requires if from < suffix then suffix < place else Tiles(Front(segs), 0, suffix)
    ensures Rising(r, n) && Labels(r) == done + AroundTags(suffix, place, f, n)
    ensures if from < suffix then HasHole(r) else Tiles(r, 0, n)
  {
    var popped := Front(segs);
    r := Extend(popped, from, suffix, place, Rider(), 0);
    AroundBegins(Labels(popped), from, suffix, place, done);
    r := Extend(r, place, place, place + |f.value|, Tag([f.id], None), |popped|);
    r := Extend(r, place + |f.value|, place + |f.value|, n, Rider(), |popped|);
    Associate(done, Repeat(Rider(), place - suffix), Repeat(Tag([f.id], None), |f.value|),
              Repeat(Rider(), n - place - |f.value|));
  }

  lemma AroundBegins(labels: seq<Tag>, from: nat, suffix: nat, place: nat, done: seq<Tag>)
    requires from <= suffix <= place && labels + Repeat(Rider(), suffix - from) == done
    ensures labels + Repeat(Rider(), place - from) == done + Repeat(Rider(), place - suffix)
  {
    RepeatSum(Rider(), suffix - from, place - suffix);
    assert labels + (Repeat(Rider(), suffix - from) + Repeat(Rider(), place - suffix))
        == (labels + Repeat(Rider(), suffix - from)) + Repeat(Rider(), place - suffix);
  }

  lemma Associate(a: seq<Tag>, b: seq<Tag>, c: seq<Tag>, d: seq<Tag>)
    ensures ((a + b) + c) + d == a + (b + c + d)
  {
  }

  /** Where the segments end once the last is popped: before the suffix exactly when it
      had been merged with the opening text of an empty last block. */
  ghost function PoppedEnd(segs: seq<Segment>, blocks: seq<Text>): nat {
    if EmptyEnd(blocks) then EndOf(Front0(segs)) else EndOf(segs)
  }

  function Front0(segs: seq<Segment>): seq<Segment> { if segs == [] then [] else Front(segs) }

  /** The rider's suffix from the last block's closing quote to the end. */
  method AppendSuffix(segs: seq<Segment>, suffix: nat, n: nat, ghost blocks: seq<Text>) returns (r: seq<Segment>)
    requires Tiles(segs, 0, suffix) && suffix < n && EndsAfter(segs, blocks, |blocks|, suffix)
    ensures Tiles(r, 0, n) && Tags(r) == Tags(segs) + Repeat(Rider(), n - suffix) && r != []
    ensures Front(r) == if EmptyEnd(blocks) then Front0(segs) else segs
    ensures EmptyEnd(blocks) ==> segs != [] && Last(segs).tag == Rider() && EndOf(Front0(segs)) < suffix
  {
    AppendSegmentTiles(segs, suffix, n, Rider());
    r := AppendSegment(segs, suffix, n, Rider());
    TilesRises(segs, suffix);
    if segs != [] && Last(segs).tag == Rider() {
      assert Front(r) == Front(segs);
    } else {
      assert Front(r) == segs;
    }
  }

  // ------------------------------------------------------------------
  // The whole replacement
  // ------------------------------------------------------------------

  /** What the parsed blocks must be: the parse of the serialized part gives a list whose
      texts join to the text before. */
  predicate Parsed(blocks: Option<seq<Text>>, before: Text) {
    blocks.Some? && Join(blocks.value) == before
  }

  predicate EmptyEnd(blocks: seq<Text>) { blocks != [] && blocks[|blocks| - 1] == [] }

  /** Does the replacement get through without an AssertionError? */
  predicate Attributable(text: Text, marker: Text, before: Text, prior: seq<Tag>, blocks: Option<seq<Text>>,
                         fixture: Option<Fixture>, printable: Code -> bool)
  {
    var cut := FindLast(text, marker, |text|);
    && cut.Some? && Parsed(blocks, before)
    && AfterBlocks(text[..cut.value], Forms(blocks.value, printable), |blocks.value|, prior).Some?
    && (fixture.Some? ==> Find(text, fixture.value.value, cut.value).Some?)
  }

  /** The tags behind the blocks: the rider's but for the fixture's place. */
  function SuffixTags(suffix: nat, text: Text, cut: nat, fixture: Option<Fixture>): seq<Tag>
    requires suffix <= cut <= |text| && (fixture.Some? ==> Find(text, fixture.value.value, cut).Some?)
  {
    if fixture.None? then Repeat(Rider(), |text| - suffix)
    else AroundTags(suffix, Find(text, fixture.value.value, cut).value, fixture.value, |text|)
  }

  /** What the pop leaves, with the label of the rest of the suffix's segment. */
  lemma PoppedLabels(segs: seq<Segment>, suffix: nat, blocks: seq<Text>)
    requires Tiles(segs, 0, suffix)
    requires EmptyEnd(blocks) ==> segs != [] && Last(segs).tag == Rider() && EndOf(Front0(segs)) < suffix
    ensures var popped := if EmptyEnd(blocks) then Front0(segs) else segs;
            var from := PoppedEnd(segs, blocks);
            && from <= suffix && Rising(popped, from)
            && Labels(popped) + Repeat(Rider(), suffix - from) == Tags(segs)
  {
    TilesRises(segs, suffix);
    assert Labels(segs) + Repeat(Rider(), 0) == Labels(segs);
  }

  /** The end of the replacement: the suffix, split around the fixture's place. */
  method AttributeSuffix(segs: seq<Segment>, suffix: nat, text: Text, cut: nat, fixture: Option<Fixture>,
                         blocks: seq<Text>)
    returns (r: Option<seq<Segment>>)
    requires Tiles(segs, 0, suffix) && suffix <= cut < |text| && EndsAfter(segs, blocks, |blocks|, suffix)
    requires blocks != [] ==> suffix < cut
    ensures r.Some? <==> (fixture.Some? ==> Find(text, fixture.value.value, cut).Some?)
    ensures r.Some? ==> if fixture.Some? && EmptyEnd(blocks) then HasHole(r.value) else Tiles(r.value, 0, |text|)
    ensures r.Some? ==>
              Rising(r.value, |text|) && Labels(r.value) == Tags(segs) + SuffixTags(suffix, text, cut, fixture)
  {
    var whole := AppendSuffix(segs, suffix, |text|, blocks);
    if fixture.None? {
      TilesRises(whole, |text|);
      return Some(whole);
    }
    var place := Find(text, fixture.value.value, cut);
    if place.None? {
      return None;
    }
    PoppedLabels(segs, suffix, blocks);
    TilesRises(segs, suffix);
    var split := PlaceFixture(whole, PoppedEnd(segs, blocks), suffix, place.value, fixture.value, |text|, Tags(segs));
    r := Some(split);
  }

  /** The labels of the attributed text: each escape its character's, then the suffix. */
  function ReplacedTags(text: Text, marker: Text, before: Text, prior: seq<Tag>, blocks: Option<seq<Text>>,
                        fixture: Option<Fixture>, printable: Code -> bool): seq<Tag>
    requires Attributable(text, marker, before, prior, blocks, fixture, printable)
  {
    var cut := FindLast(text, marker, |text|).value;
    var done := AfterBlocks(text[..cut], Forms(blocks.value, printable), |blocks.value|, prior).value;
    done.tags + (if done.cursor <= cut then SuffixTags(done.cursor, text, cut, fixture) else [])
  }

  /** `_stringified_replacement_segments`; `marker` is the text that starts the message
      context, `blocks` what `ast.literal_eval` makes of the part before it. Whatever holes
      the prior spans have, each escape gets the label of its character. The result tiles
      the text exactly when it is not the case that a fixture is placed behind an empty last
      block: there the popped suffix had been merged with that block's opening text. */
  method ReplacementSegments(text: Text, marker: Text, before: Text, prior: seq<Segment>, blocks: Option<seq<Text>>,
                             fixture: Option<Fixture>, printable: Code -> bool)
    returns (r: Option<seq<Segment>>)
    requires Rising(prior, |before|) && AllOwned(prior)
    ensures r.Some? == Attributable(text, marker, before, Labels(prior), blocks, fixture, printable)
    ensures r.Some? ==> if fixture.Some? && EmptyEnd(blocks.value) then HasHole(r.value) else Tiles(r.value, 0, |text|)
    ensures r.Some? ==>
              && Rising(r.value, |text|)
              && Labels(r.value) == ReplacedTags(text, marker, before, Labels(prior), blocks, fixture, printable)
  {
    var cut := FindLast(text, marker, |text|);
    if cut.None? {
      return None;
    }
    var serialized := text[..cut.value];
    if blocks.None? || Join(blocks.value) != before {
      return None;
    }
    RisingLength(prior, |before|);
    FormsAreForms(blocks.value, printable, |blocks.value|);
    var found, w := ReplaceBlocks(serialized, blocks.value, printable, prior, |before|, Forms(blocks.value, printable));
    if !found {
      return None;
    }
    r := AttributeSuffix(w.segs, w.cursor, text, |serialized|, fixture, blocks.value);
  }

  // ------------------------------------------------------------------
  // Which character has which label
  // ------------------------------------------------------------------

  lemma {:induction false} PaintedLength(widths: seq<nat>, tags: seq<Tag>, stops: seq<nat>, k: nat)
    requires Sums(stops, widths) && k <= |widths| <= |tags|
    ensures |Painted(widths, tags, k)| == stops[k]
  {
    if k > 0 { PaintedLength(widths, tags, stops, k - 1); }
  }

  /** Character `j` paints its whole escape. */
  lemma {:induction false} PaintedAt(widths: seq<nat>, tags: seq<Tag>, stops: seq<nat>, k: nat, j: nat, d: nat)
    requires Sums(stops, widths) && j < k <= |widths| <= |tags| && d < widths[j]
    ensures stops[j] + d < |Painted(widths, tags, k)| && Painted(widths, tags, k)[stops[j] + d] == tags[j]
  {
    PaintedLength(widths, tags, stops, k);
    PaintedLength(widths, tags, stops, k - 1);
    if j < k - 1 { PaintedAt(widths, tags, stops, k - 1, j, d); }
  }

  /** What has been reprinted so far, up to the last closing quote. */
  ghost predicate UpTo(done: Reprinted) { |done.tags| == done.cursor }

  lemma AfterBlockKeeps(done: Reprinted, serialized: Text, value: Text, prior: seq<Tag>, printable: Code -> bool)
    requires UpTo(done) && AfterBlock(done, serialized, FormOf(value, printable), prior).Some?
    ensures var at := Find(serialized, Repr(value, printable), done.cursor);
            var next := AfterBlock(done, serialized, FormOf(value, printable), prior).value;
            && at.Some? && UpTo(next) && done.tags <= next.tags
            && next.cursor == at.value + |Repr(value, printable)| - 1
            && next.offset == done.offset + |value| <= |prior|
            && forall i :: done.cursor <= i <= at.value ==> i < |next.tags| && next.tags[i] == Rider()
  {
    var q := QuoteFor(value);
    OffsetsAreSums(value, q, printable);
    PaintedLength(Widths(value, q, printable), prior[done.offset..], Offsets(value, q, printable), |value|);
    ReprLength(value, printable);
  }

  lemma AfterBlockPaints(done: Reprinted, serialized: Text, value: Text, prior: seq<Tag>, printable: Code -> bool,
                         j: nat, d: nat)
    requires UpTo(done) && AfterBlock(done, serialized, FormOf(value, printable), prior).Some?
    requires j < |value| && d < |Escape(value[j], QuoteFor(value), printable)|
    ensures var at := Find(serialized, Repr(value, printable), done.cursor).value;
            var next := AfterBlock(done, serialized, FormOf(value, printable), prior).value;
            var i := at + 1 + Offset(value, j, QuoteFor(value), printable) + d;
            && done.offset + j < |prior| && i < |next.tags| && next.tags[i] == prior[done.offset + j]
  {
    var q := QuoteFor(value);
    OffsetsAreSums(value, q, printable);
    FormPaints(done, serialized, FormOf(value, printable), prior, Offsets(value, q, printable), j, d);
  }

  lemma FormPaints(done: Reprinted, serialized: Text, form: Form, prior: seq<Tag>, stops: seq<nat>, j: nat, d: nat)
    requires UpTo(done) && AfterBlock(done, serialized, form, prior).Some?
    requires Sums(stops, form.widths) && j < |form.widths| && d < form.widths[j]
    ensures var at := Find(serialized, form.rendered, done.cursor).value;
            var next := AfterBlock(done, serialized, form, prior).value;
            var i := at + 1 + stops[j] + d;
            && done.offset + j < |prior| && i < |next.tags| && next.tags[i] == prior[done.offset + j]
  {
    var at := Find(serialized, form.rendered, done.cursor).value;
    var rest := prior[done.offset..];
    PaintedAt(form.widths, rest, stops, |form.widths|, j, d);
    Behind(done.tags, Repeat(Rider(), at + 1 - done.cursor), Painted(form.widths, rest, |form.widths|), at + 1,
           stops[j] + d);
  }

  lemma Behind(a: seq<Tag>, b: seq<Tag>, c: seq<Tag>, n: nat, i: nat)
    requires n == |a| + |b| && i < |c|
    ensures n + i < |a + b + c| && (a + b + c)[n + i] == c[i]
  {
  }

  // The states before each block. What follows is about them alone.

  ghost function StateAfter(serialized: Text, forms: seq<Form>, k: nat, prior: seq<Tag>): Reprinted
    requires k <= |forms|
  {
    var done := AfterBlocks(serialized, forms, k, prior);
    if done.Some? then done.value else Reprinted(0, 0, [])
  }

  ghost function States(serialized: Text, blocks: seq<Text>, printable: Code -> bool, prior: seq<Tag>)
    : (r: seq<Reprinted>)
    ensures |r| == |blocks| + 1
  {
    seq(|blocks| + 1, k requires 0 <= k <= |blocks| => StateAfter(serialized, Forms(blocks, printable), k, prior))
  }

  /** Where block `b` is looked for from: the closing quote of the one before. */
  function LookedForFrom(serialized: Text, blocks: seq<Text>, printable: Code -> bool, b: nat): nat
    requires b <= |blocks|
    decreases b, 0
  {
    if b == 0 then 0
    else
      match PlaceOf(serialized, blocks, printable, b - 1)
      case None => 0
      case Some(at) => at + |Repr(blocks[b - 1], printable)| - 1
  }

  /** Where it is found: at the first occurrence of its representation from there. */
  function PlaceOf(serialized: Text, blocks: seq<Text>, printable: Code -> bool, b: nat): Option<nat>
    requires b < |blocks|
    decreases b, 1
  {
    Find(serialized, Repr(blocks[b], printable), LookedForFrom(serialized, blocks, printable, b))
  }

  /** The step over block `k`. */
  ghost predicate StepAt(states: seq<Reprinted>, serialized: Text, blocks: seq<Text>, printable: Code -> bool, k: nat)
    requires k < |blocks| == |states| - 1
  {
    UpTo(states[k]) ==>
      var at := Find(serialized, Repr(blocks[k], printable), states[k].cursor);
      && at.Some? && UpTo(states[k + 1]) && states[k].tags <= states[k + 1].tags
      && states[k + 1].cursor == at.value + |Repr(blocks[k], printable)| - 1
      && states[k + 1].offset == states[k].offset + |blocks[k]|
  }

  ghost predicate Course(states: seq<Reprinted>, serialized: Text, blocks: seq<Text>, printable: Code -> bool) {
    && |states| == |blocks| + 1 && states[0] == Reprinted(0, 0, [])
    && forall k :: 0 <= k < |blocks| ==> StepAt(states, serialized, blocks, printable, k)
  }

  lemma StatesTakeSteps(serialized: Text, blocks: seq<Text>, printable: Code -> bool, prior: seq<Tag>, k: nat,
                        next: nat)
    requires next == k + 1 <= |blocks|
    requires AfterBlocks(serialized, Forms(blocks, printable), |blocks|, prior).Some?
    ensures var states := States(serialized, blocks, printable, prior);
            && AfterBlock(states[k], serialized, FormOf(blocks[k], printable), prior) == Some(states[next])
  {
    var forms := Forms(blocks, printable);
    if AfterBlocks(serialized, forms, next, prior).None? { NotFoundLater(serialized, forms, next, prior); }
    FormAt(blocks, printable, k);
  }

  lemma FormAt(blocks: seq<Text>, printable: Code -> bool, k: nat)
    requires k < |blocks|
    ensures Forms(blocks, printable)[k] == FormOf(blocks[k], printable)
  {
  }

  lemma StatesAreACourse(serialized: Text, blocks: seq<Text>, printable: Code -> bool, prior: seq<Tag>)
    requires AfterBlocks(serialized, Forms(blocks, printable), |blocks|, prior).Some?
    ensures Course(States(serialized, blocks, printable, prior), serialized, blocks, printable)
  {
    var states := States(serialized, blocks, printable, prior);
    forall k | 0 <= k < |blocks| ensures StepAt(states, serialized, blocks, printable, k) {
      var next := k + 1;
      StatesTakeSteps(serialized, blocks, printable, prior, k, next);
      if UpTo(states[k]) { AfterBlockKeeps(states[k], serialized, blocks[k], prior, printable); }
    }
  }

  lemma {:induction false} CourseAt(states: seq<Reprinted>, serialized: Text, blocks: seq<Text>,
                                    printable: Code -> bool, k: nat)
    requires Course(states, serialized, blocks, printable) && k <= |blocks|
    ensures UpTo(states[k]) && states[k].offset == |JoinTo(blocks, k)|
    ensures states[k].cursor == LookedForFrom(serialized, blocks, printable, k)
  {
    if k > 0 {
      CourseAt(states, serialized, blocks, printable, k - 1);
      assert StepAt(states, serialized, blocks, printable, k - 1);
    }
  }

  lemma {:induction false} CourseGrows(states: seq<Reprinted>, serialized: Text, blocks: seq<Text>,
                                       printable: Code -> bool, k: nat, m: nat)
    requires Course(states, serialized, blocks, printable) && k <= m <= |blocks|
    ensures states[k].tags <= states[m].tags
    decreases m
  {
    if k < m {
      CourseGrows(states, serialized, blocks, printable, k, m - 1);
      StepGrows(states, serialized, blocks, printable, m - 1, m);
    }
  }

  lemma StepGrows(states: seq<Reprinted>, serialized: Text, blocks: seq<Text>, printable: Code -> bool, k: nat,
                  next: nat)
    requires Course(states, serialized, blocks, printable) && next == k + 1 <= |blocks|
    ensures states[k].tags <= states[next].tags
  {
    CourseAt(states, serialized, blocks, printable, k);
    assert StepAt(states, serialized, blocks, printable, k);
  }

  /** The labels of block `b`: what stands between the closing quote of the one before and
      its first character is the rider's. */
  ghost predicate OpensWithRider(tags: seq<Tag>, serialized: Text, blocks: seq<Text>, printable: Code -> bool, b: nat)
    requires b < |blocks|
  {
    PlaceOf(serialized, blocks, printable, b).Some? &&
    forall i :: LookedForFrom(serialized, blocks, printable, b) <= i <= PlaceOf(serialized, blocks, printable, b).value
      ==> IsRiders(tags, i)
  }

  predicate IsRiders(tags: seq<Tag>, i: nat) { i < |tags| && tags[i] == Rider() }

  /** And code point `d` of character `j`'s escape has the label of that character in the
      text before. */
  ghost predicate HasItsLabel(tags: seq<Tag>, serialized: Text, blocks: seq<Text>, prior: seq<Tag>,
                              printable: Code -> bool, b: nat, j: nat, d: nat)
    requires b < |blocks| && j < |blocks[b]|
  {
    PlaceOf(serialized, blocks, printable, b).Some? &&
    var i := PlaceOf(serialized, blocks, printable, b).value + 1
             + Offset(blocks[b], j, QuoteFor(blocks[b]), printable) + d;
    |JoinTo(blocks, b)| + j < |prior| && i < |tags| && tags[i] == prior[|JoinTo(blocks, b)| + j]
  }

  lemma BlockOpens(done: Reprinted, serialized: Text, blocks: seq<Text>, prior: seq<Tag>, printable: Code -> bool,
                   b: nat)
    requires b < |blocks| && UpTo(done) && done.cursor == LookedForFrom(serialized, blocks, printable, b)
    requires AfterBlock(done, serialized, FormOf(blocks[b], printable), prior).Some?
    ensures OpensWithRider(AfterBlock(done, serialized, FormOf(blocks[b], printable), prior).value.tags, serialized,
                           blocks, printable, b)
  {
    AfterBlockKeeps(done, serialized, blocks[b], prior, printable);
  }

  lemma PlaceIs(done: Reprinted, serialized: Text, blocks: seq<Text>, prior: seq<Tag>, printable: Code -> bool, b: nat)
    requires b < |blocks| && done.cursor == LookedForFrom(serialized, blocks, printable, b)
    requires AfterBlock(done, serialized, FormOf(blocks[b], printable), prior).Some?
    ensures PlaceOf(serialized, blocks, printable, b).Some?
    ensures PlaceOf(serialized, blocks, printable, b) == Find(serialized, Repr(blocks[b], printable), done.cursor)
  {
  }

  lemma BlockPaints(done: Reprinted, serialized: Text, blocks: seq<Text>, prior: seq<Tag>, printable: Code -> bool,
                    b: nat, j: nat, d: nat)
    requires b < |blocks| && UpTo(done) && done.cursor == LookedForFrom(serialized, blocks, printable, b)
    requires done.offset == |JoinTo(blocks, b)|
    requires AfterBlock(done, serialized, FormOf(blocks[b], printable), prior).Some?
    requires j < |blocks[b]| && d < |Escape(blocks[b][j], QuoteFor(blocks[b]), printable)|
    ensures HasItsLabel(AfterBlock(done, serialized, FormOf(blocks[b], printable), prior).value.tags, serialized,
                        blocks, prior, printable, b, j, d)
  {
    PlaceIs(done, serialized, blocks, prior, printable, b);
    AfterBlockPaints(done, serialized, blocks[b], prior, printable, j, d);
  }

  lemma PrefixOpens(tags: seq<Tag>, more: seq<Tag>, serialized: Text, blocks: seq<Text>, printable: Code -> bool,
                    b: nat)
    requires b < |blocks| && tags <= more && OpensWithRider(tags, serialized, blocks, printable, b)
    ensures OpensWithRider(more, serialized, blocks, printable, b)
  {
    var from, at := LookedForFrom(serialized, blocks, printable, b), PlaceOf(serialized, blocks, printable, b).value;
    forall i | from <= i <= at ensures IsRiders(more, i) { assert IsRiders(tags, i); }
  }

  lemma PrefixHasLabel(tags: seq<Tag>, more: seq<Tag>, serialized: Text, blocks: seq<Text>, prior: seq<Tag>,
                       printable: Code -> bool, b: nat, j: nat, d: nat)
    requires b < |blocks| && j < |blocks[b]| && tags <= more
    requires HasItsLabel(tags, serialized, blocks, prior, printable, b, j, d)
    ensures HasItsLabel(more, serialized, blocks, prior, printable, b, j, d)
  {
  }

  /** The label of every code point of the reprinted blocks. */
  lemma EscapeHasItsCharactersLabel(serialized: Text, blocks: seq<Text>, prior: seq<Tag>, printable: Code -> bool,
                                    b: nat, j: nat, d: nat)
    requires AfterBlocks(serialized, Forms(blocks, printable), |blocks|, prior).Some? && b < |blocks|
    ensures var tags := AfterBlocks(serialized, Forms(blocks, printable), |blocks|, prior).value.tags;
            && OpensWithRider(tags, serialized, blocks, printable, b)
            && (j < |blocks[b]| && d < |Escape(blocks[b][j], QuoteFor(blocks[b]), printable)| ==>
                  HasItsLabel(tags, serialized, blocks, prior, printable, b, j, d))
  {
    var states := States(serialized, blocks, printable, prior);
    var next := b + 1;
    StatesAreACourse(serialized, blocks, printable, prior);
    CourseAt(states, serialized, blocks, printable, b);
    CourseGrows(states, serialized, blocks, printable, next, |blocks|);
    StatesTakeSteps(serialized, blocks, printable, prior, b, next);
    var all := states[|blocks|].tags;
    BlockOpens(states[b], serialized, blocks, prior, printable, b);
    PrefixOpens(states[next].tags, all, serialized, blocks, printable, b);
    if j < |blocks[b]| && d < |Escape(blocks[b][j], QuoteFor(blocks[b]), printable)| {
      BlockPaints(states[b], serialized, blocks, prior, printable, b, j, d);
      PrefixHasLabel(states[next].tags, all, serialized, blocks, prior, printable, b, j, d);
    }
  }

  /** The whole text: up to the last closing quote the labels are those above; behind it
      the fixture's place is the fixture's and the rest the rider's. */
  lemma ReplacedLabel(text: Text, marker: Text, before: Text, prior: seq<Tag>, blocks: Option<seq<Text>>,
                      fixture: Option<Fixture>, printable: Code -> bool, i: nat)
    requires Attributable(text, marker, before, prior, blocks, fixture, printable) && i < |text|
    ensures var cut := FindLast(text, marker, |text|).value;
            var tags := ReplacedTags(text, marker, before, prior, blocks, fixture, printable);
            var labels := AfterBlocks(text[..cut], Forms(blocks.value, printable), |blocks.value|, prior).value.tags;
            var end := LookedForFrom(text[..cut], blocks.value, printable, |blocks.value|);
            var inPlace := && fixture.Some?
                           && var place := Find(text, fixture.value.value, cut).value;
                              place <= i < place + |fixture.value.value|;
            && |tags| == |text| && |labels| == end <= cut && labels <= tags
            && (i >= end ==> tags[i] == if inPlace then Tag([fixture.value.id], None) else Rider())
  {
    var serialized := text[..FindLast(text, marker, |text|).value];
    StatesAreACourse(serialized, blocks.value, printable, prior);
    CourseAt(States(serialized, blocks.value, printable, prior), serialized, blocks.value, printable, |blocks.value|);
    CursorWithin(serialized, Forms(blocks.value, printable), |blocks.value|, prior);
  }

  lemma CursorWithin(serialized: Text, forms: seq<Form>, k: nat, prior: seq<Tag>)
    requires k <= |forms| && AfterBlocks(serialized, forms, k, prior).Some?
    ensures AfterBlocks(serialized, forms, k, prior).value.cursor <= |serialized|
  {
  }
}
