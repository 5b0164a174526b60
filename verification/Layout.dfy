/**
 * Block layouts of a prompt, their check, and the ordered-subset test
 * (edd/prompt_census.py).
 */
module Layout {
  import opened Common
  import opened Search
  import opened Spans

  datatype Block = Block(kind: string, text: Text)

  datatype Item = Item(index: nat, kind: string, start: nat, end: nat, sha: string, ids: seq<Source>)

  const TEXT := "text"

  // ------------------------------------------------------------------
  // The sources of an interval
  // ------------------------------------------------------------------

  predicate Touches(s: Segment, start: nat, end: nat) { s.start < end && s.end > start }

  function AddNew(known: seq<Source>, more: seq<Source>): seq<Source> {
    if more == [] then known
    else
      var before := AddNew(known, more[..|more| - 1]);
      if more[|more| - 1] in before then before else before + [more[|more| - 1]]
  }

  /** The sources of the spans that touch an interval, each once, in order. */
  function SourcesOver(spans: seq<Segment>, start: nat, end: nat): seq<Source> {
    if spans == [] then []
    else
      var before := SourcesOver(Front(spans), start, end);
      if Touches(Last(spans), start, end) then AddNew(before, Last(spans).tag.ids) else before
  }

  ghost predicate NoDuplicates(ids: seq<Source>) {
    forall i, j :: 0 <= i < j < |ids| ==> ids[i] != ids[j]
  }

  lemma {:induction false} AddNewMembers(known: seq<Source>, more: seq<Source>)
    requires NoDuplicates(known)
    ensures NoDuplicates(AddNew(known, more))
    ensures forall id :: id in AddNew(known, more) <==> id in known || id in more
  {
    if more != [] {
      AddNewMembers(known, more[..|more| - 1]);
      assert more == more[..|more| - 1] + [more[|more| - 1]];
    }
  }

  lemma {:induction false} SourcesAre(spans: seq<Segment>, start: nat, end: nat)
    ensures NoDuplicates(SourcesOver(spans, start, end))
    ensures forall id :: id in SourcesOver(spans, start, end) <==>
              exists k :: 0 <= k < |spans| && Touches(spans[k], start, end) && id in spans[k].tag.ids
  {
    if spans != [] {
      SourcesAre(Front(spans), start, end);
      AddNewMembers(SourcesOver(Front(spans), start, end), Last(spans).tag.ids);
      forall id
        ensures id in SourcesOver(spans, start, end) <==>
                  exists k :: 0 <= k < |spans| && Touches(spans[k], start, end) && id in spans[k].tag.ids
      {
        if k :| 0 <= k < |Front(spans)| && Touches(Front(spans)[k], start, end) && id in Front(spans)[k].tag.ids {
          assert Touches(spans[k], start, end);
        }
      }
    }
  }

  /** The two directions, span by span and character by character. */
  lemma TouchedSource(spans: seq<Segment>, n: nat, start: nat, end: nat, k: nat, id: Source) returns (i: nat)
    requires Tiles(spans, 0, n) && start < end <= n
    requires k < |spans| && Touches(spans[k], start, end) && id in spans[k].tag.ids
    ensures |Tags(spans)| == n && start <= i < end && id in Tags(spans)[i].ids
  {
    TilesStart(spans, 0, n);
    i := if spans[k].start < start then start else spans[k].start;
    TagAt(spans, 0, n, k, i);
  }

  lemma CharacterSource(spans: seq<Segment>, n: nat, start: nat, end: nat, i: nat, id: Source) returns (k: nat)
    requires Tiles(spans, 0, n) && start <= i < end <= n && |Tags(spans)| == n && id in Tags(spans)[i].ids
    ensures k < |spans| && Touches(spans[k], start, end) && id in spans[k].tag.ids
  {
    k := Holder(spans, n, i);
    TagAt(spans, 0, n, k, i);
  }

  /** Over a tiling, the sources of a non-empty block are those of its characters. */
  lemma SourcesOfCharacters(spans: seq<Segment>, n: nat, start: nat, end: nat, id: Source)
    requires Tiles(spans, 0, n) && start < end <= n
    ensures |Tags(spans)| == n
    ensures id in SourcesOver(spans, start, end) <==> exists i :: start <= i < end && id in Tags(spans)[i].ids
  {
    TilesLength(spans, 0, n);
    SourcesAre(spans, start, end);
    if id in SourcesOver(spans, start, end) {
      var k :| 0 <= k < |spans| && Touches(spans[k], start, end) && id in spans[k].tag.ids;
      var i := TouchedSource(spans, n, start, end, k, id);
      assert id in Tags(spans)[i].ids;
    }
    if i :| start <= i < end && id in Tags(spans)[i].ids {
      var k := CharacterSource(spans, n, start, end, i, id);
      assert Touches(spans[k], start, end);
    }
  }

  // ------------------------------------------------------------------
  // The layout of blocks
  // ------------------------------------------------------------------

  function Texts(blocks: seq<Block>): (r: seq<Text>)
    ensures |r| == |blocks| && forall i :: 0 <= i < |r| ==> r[i] == blocks[i].text
  {
    seq(|blocks|, i requires 0 <= i < |blocks| => blocks[i].text)
  }

  function ItemOf(blocks: seq<Block>, k: nat, spans: seq<Segment>, sha: Text -> string): Item
    requires k < |blocks|
  {
    var start, end := |JoinTo(Texts(blocks), k)|, |JoinTo(Texts(blocks), k + 1)|;
    Item(k, blocks[k].kind, start, end, sha(blocks[k].text), SourcesOver(spans, start, end))
  }

  function LayoutOf(blocks: seq<Block>, spans: seq<Segment>, sha: Text -> string): (r: seq<Item>)
    ensures |r| == |blocks|
  {
    seq(|blocks|, k requires 0 <= k < |blocks| => ItemOf(blocks, k, spans, sha))
  }

  /** An item of the layout names its block's place in the text, the digest of what stands
      there, and its sources once each. */
  lemma ItemMeans(blocks: seq<Block>, k: nat, spans: seq<Segment>, sha: Text -> string, text: Text)
    requires k < |blocks| && Join(Texts(blocks)) == text
    ensures var item := LayoutOf(blocks, spans, sha)[k];
            && item.index == k && item.kind == blocks[k].kind
            && item.start <= item.end <= |text| && text[item.start..item.end] == blocks[k].text
            && item.start == (if k == 0 then 0 else LayoutOf(blocks, spans, sha)[k - 1].end)
            && item.sha == sha(text[item.start..item.end])
            && NoDuplicates(item.ids)
            && forall id :: id in item.ids <==>
                 exists i :: 0 <= i < |spans| && Touches(spans[i], item.start, item.end) && id in spans[i].tag.ids
  {
    JoinSlice(Texts(blocks), k);
    SourcesAre(spans, |JoinTo(Texts(blocks), k)|, |JoinTo(Texts(blocks), k + 1)|);
  }

  /** The inner loops of `_block_layout`. */
  method CollectSources(spans: seq<Segment>, start: nat, end: nat) returns (ids: seq<Source>)
    ensures ids == SourcesOver(spans, start, end)
  {
    ids := [];
    for i := 0 to |spans|
      invariant ids == SourcesOver(spans[..i], start, end)
    {
      assert Front(spans[..i + 1]) == spans[..i];
      if Touches(spans[i], start, end) {
        ghost var known := ids;
        var more := spans[i].tag.ids;
        for j := 0 to |more|
          invariant ids == AddNew(known, more[..j])
        {
          assert more[..j + 1][..j] == more[..j];
          if more[j] !in ids {
            ids := ids + [more[j]];
          }
        }
        assert more[..|more|] == more;
      }
    }
    assert spans[..|spans|] == spans;
  }

  /** `_block_layout`. */
  method BlockLayout(blocks: seq<Block>, spans: seq<Segment>, sha: Text -> string) returns (layout: seq<Item>)
    ensures layout == LayoutOf(blocks, spans, sha)
  {
    layout := [];
    var cursor := 0;
    for index := 0 to |blocks|
      invariant cursor == |JoinTo(Texts(blocks), index)|
      invariant layout == LayoutOf(blocks, spans, sha)[..index]
    {
      var end := cursor + |blocks[index].text|;
      var ids := CollectSources(spans, cursor, end);
      layout := layout + [Item(index, blocks[index].kind, cursor, end, sha(blocks[index].text), ids)];
      cursor := end;
    }
  }

  // ------------------------------------------------------------------
  // Its check
  // ------------------------------------------------------------------

  /** Is this the layout of some text blocks that make up the text? */
  ghost predicate Genuine(layout: seq<Item>, text: Text, spans: seq<Segment>, sha: Text -> string) {
    exists blocks :: IsLayoutOf(layout, blocks, text, spans, sha)
  }

  ghost predicate IsLayoutOf(layout: seq<Item>, blocks: seq<Block>, text: Text, spans: seq<Segment>,
                               sha: Text -> string)
  {
    && (forall i :: 0 <= i < |blocks| ==> blocks[i].kind == TEXT)
    && Join(Texts(blocks)) == text && layout == LayoutOf(blocks, spans, sha)
  }

  lemma {:induction false} JoinSlice(texts: seq<Text>, k: nat)
    requires k < |texts|
    ensures |JoinTo(texts, k)| <= |JoinTo(texts, k + 1)| <= |Join(texts)|
    ensures Join(texts)[|JoinTo(texts, k)|..|JoinTo(texts, k + 1)|] == texts[k]
  {
    JoinGrows(texts, k + 1);
    var upTo := JoinTo(texts, k + 1);
    assert Join(texts)[..|upTo|] == upTo;
    assert Join(texts)[|JoinTo(texts, k)|..|upTo|] == upTo[|JoinTo(texts, k)|..];
  }

  /** A genuine layout has one origin: the slices it names. */
  lemma SliceOfGenuine(layout: seq<Item>, blocks: seq<Block>, text: Text, spans: seq<Segment>, sha: Text -> string,
                       k: nat)
    requires IsLayoutOf(layout, blocks, text, spans, sha) && k < |layout|
    ensures layout[k].index == k && layout[k].kind == TEXT
    ensures layout[k].start <= layout[k].end <= |text|
    ensures layout[k].start == if k == 0 then 0 else layout[k - 1].end
    ensures Block(TEXT, text[layout[k].start..layout[k].end]) == blocks[k]
    ensures k + 1 == |layout| ==> layout[k].end == |text|
  {
    assert layout[k] == ItemOf(blocks, k, spans, sha);
    JoinSlice(Texts(blocks), k);
    if k > 0 { assert layout[k - 1] == ItemOf(blocks, k - 1, spans, sha); }
  }

  lemma PrefixOfGenuine(layout: seq<Item>, blocks: seq<Block>, text: Text, spans: seq<Segment>, sha: Text -> string,
                        read: seq<Block>)
    requires IsLayoutOf(layout, blocks, text, spans, sha) && |read| <= |layout|
    requires forall i :: 0 <= i < |read| ==>
               && layout[i].start <= layout[i].end <= |text|
               && read[i] == Block(TEXT, text[layout[i].start..layout[i].end])
    ensures read == blocks[..|read|]
  {
    forall i | 0 <= i < |read| ensures read[i] == blocks[i] {
      SliceOfGenuine(layout, blocks, text, spans, sha, i);
    }
  }

  lemma GenuineSlices(layout: seq<Item>, text: Text, spans: seq<Segment>, sha: Text -> string, k: nat)
    requires Genuine(layout, text, spans, sha) && k < |layout|
    ensures layout[k].index == k && layout[k].kind == TEXT
    ensures layout[k].start <= layout[k].end <= |text|
    ensures layout[k].start == if k == 0 then 0 else layout[k - 1].end
    ensures k + 1 == |layout| ==> layout[k].end == |text|
  {
    var blocks :| IsLayoutOf(layout, blocks, text, spans, sha);
    SliceOfGenuine(layout, blocks, text, spans, sha, k);
  }

  ghost predicate SlicesTo(read: seq<Block>, layout: seq<Item>, text: Text, cursor: nat) {
    && |read| <= |layout|
    && cursor == (if read == [] then 0 else layout[|read| - 1].end) <= |text|
    && Join(Texts(read)) == text[..cursor]
    && forall i :: 0 <= i < |read| ==>
         && layout[i].start <= layout[i].end <= |text|
         && read[i] == Block(TEXT, text[layout[i].start..layout[i].end])
  }

  lemma SliceRead(read: seq<Block>, layout: seq<Item>, text: Text, cursor: nat)
    requires SlicesTo(read, layout, text, cursor) && |read| < |layout|
    requires layout[|read|].start == cursor <= layout[|read|].end <= |text|
    ensures SlicesTo(read + [Block(TEXT, text[cursor..layout[|read|].end])], layout, text, layout[|read|].end)
  {
    var end := layout[|read|].end;
    var more := read + [Block(TEXT, text[cursor..end])];
    JoinOfPrefix(Texts(read), text[cursor..end]);
    assert Texts(more) == Texts(read) + [text[cursor..end]];
    assert text[..cursor] + text[cursor..end] == text[..end];
  }

  lemma JoinOfPrefix(texts: seq<Text>, last: Text)
    ensures Join(texts + [last]) == Join(texts) + last
  {
    JoinToPrefix(texts, last, |texts|);
  }

  lemma {:induction false} JoinToPrefix(texts: seq<Text>, last: Text, k: nat)
    requires k <= |texts|
    ensures JoinTo(texts + [last], k) == JoinTo(texts, k)
  {
    if k > 0 { JoinToPrefix(texts, last, k - 1); }
  }

  /** `_assert_block_layout`: accepts exactly the layouts of blocks that make up the
      text. */
  method CheckLayout(layout: seq<Item>, text: Text, spans: seq<Segment>, sha: Text -> string) returns (ok: bool)
    ensures ok <==> Genuine(layout, text, spans, sha)
  {
    for i := 0 to |layout|
      invariant forall j :: 0 <= j < i ==> layout[j].index == j
    {
      if layout[i].index != i {
        if Genuine(layout, text, spans, sha) { GenuineSlices(layout, text, spans, sha, i); }
        return false;
      }
    }
    var cursor: nat := 0;
    var read: seq<Block> := [];
    for i := 0 to |layout|
      invariant |read| == i && SlicesTo(read, layout, text, cursor)
    {
      if layout[i].kind != TEXT || layout[i].start != cursor || !(cursor <= layout[i].end <= |text|) {
        if Genuine(layout, text, spans, sha) { GenuineSlices(layout, text, spans, sha, i); }
        return false;
      }
      SliceRead(read, layout, text, cursor);
      read := read + [Block(TEXT, text[cursor..layout[i].end])];
      cursor := layout[i].end;
    }
    var again := BlockLayout(read, spans, sha);
    ok := cursor == |text| && layout == again;
    Decided(layout, text, spans, sha, read, cursor);
  }

  lemma Decided(layout: seq<Item>, text: Text, spans: seq<Segment>, sha: Text -> string, read: seq<Block>, cursor: nat)
    requires |read| == |layout| && SlicesTo(read, layout, text, cursor)
    ensures cursor == |text| && layout == LayoutOf(read, spans, sha) <==> Genuine(layout, text, spans, sha)
  {
    if cursor == |text| && layout == LayoutOf(read, spans, sha) {
      assert text[..cursor] == text;
      assert IsLayoutOf(layout, read, text, spans, sha);
    }
    if Genuine(layout, text, spans, sha) {
      var blocks :| IsLayoutOf(layout, blocks, text, spans, sha);
      PrefixOfGenuine(layout, blocks, text, spans, sha, read);
      assert blocks[..|read|] == blocks;
      if layout != [] {
        GenuineSlices(layout, text, spans, sha, |layout| - 1);
      }
    }
  }

  // ------------------------------------------------------------------
  // The ordered-subset test
  // ------------------------------------------------------------------

  /** Strictly increasing positions below `q` at which the first `k` values stand. */
  ghost predicate Embedding(values: seq<string>, k: nat, candidates: seq<string>, q: nat, at: seq<nat>)
    requires k <= |values| && q <= |candidates|
  {
    && |at| == k
    && (forall i :: 0 <= i < k ==> at[i] < q && candidates[at[i]] == values[i])
    && (forall i, j :: 0 <= i < j < k ==> at[i] < at[j])
  }

  ghost predicate Embeds(values: seq<string>, k: nat, candidates: seq<string>, q: nat)
    requires k <= |values| && q <= |candidates|
  {
    exists at :: Embedding(values, k, candidates, q, at)
  }

  /** A match behind an embedding extends it. */
  lemma EmbedsMore(values: seq<string>, k: nat, candidates: seq<string>, q: nat, m: nat)
    requires k < |values| && q <= m < |candidates| && candidates[m] == values[k]
    requires Embeds(values, k, candidates, q)
    ensures Embeds(values, k + 1, candidates, m + 1)
  {
    var at :| Embedding(values, k, candidates, q, at);
    assert Embedding(values, k + 1, candidates, m + 1, at + [m]);
  }

  /** No shorter prefix will do, if the one for `k` values was the shortest and the next
      match the first. */
  lemma NoShorter(values: seq<string>, k: nat, candidates: seq<string>, pos: nat, q: nat)
    requires k < |values| && pos <= |candidates| && q <= |candidates|
    requires forall p :: 0 <= p < pos ==> !Embeds(values, k, candidates, p)
    requires forall i :: pos <= i < q ==> candidates[i] != values[k]
    ensures !Embeds(values, k + 1, candidates, q)
  {
    if Embeds(values, k + 1, candidates, q) {
      var at :| Embedding(values, k + 1, candidates, q, at);
      assert Embedding(values, k, candidates, at[k], at[..k]);
      assert Embeds(values, k, candidates, at[k]);
    }
  }

  lemma FewerEmbed(values: seq<string>, k: nat, candidates: seq<string>, q: nat)
    requires k <= |values| && q <= |candidates| && Embeds(values, |values|, candidates, q)
    ensures Embeds(values, k, candidates, q)
  {
    var at :| Embedding(values, |values|, candidates, q, at);
    assert Embedding(values, k, candidates, q, at[..k]);
  }

  /** `_is_ordered_subset`: one pass over the candidates decides whether the values
      occur among them in order. */
  method IsOrderedSubset(values: seq<string>, candidates: seq<string>) returns (r: bool)
    ensures r <==> Embeds(values, |values|, candidates, |candidates|)
  {
    var pos: nat := 0;
    assert Embedding(values, 0, candidates, 0, []);
    for k := 0 to |values|
      invariant pos <= |candidates| && Embeds(values, k, candidates, pos)
      invariant forall p :: 0 <= p < pos ==> !Embeds(values, k, candidates, p)
    {
      var start := pos;
      while pos < |candidates| && candidates[pos] != values[k]
        invariant start <= pos <= |candidates|
        invariant forall i :: start <= i < pos ==> candidates[i] != values[k]
      {
        pos := pos + 1;
      }
      ghost var more := k + 1;
      forall p | 0 <= p <= pos ensures !Embeds(values, more, candidates, p) {
        NoShorter(values, k, candidates, start, p);
      }
      if pos == |candidates| {
        if Embeds(values, |values|, candidates, |candidates|) {
          FewerEmbed(values, k + 1, candidates, |candidates|);
        }
        return false;
      }
      EmbedsMore(values, k, candidates, start, pos);
      pos := pos + 1;
    }
    ghost var at :| Embedding(values, |values|, candidates, pos, at);
    assert Embedding(values, |values|, candidates, |candidates|, at);
    r := true;
  }
}
