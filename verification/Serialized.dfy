/**
 * Where the re-serialised blocks of a prompt are found (`_stringified_replacement_segments`,
 * edd/prompt_census.py). Each value is looked for from the closing quote of the one
 * before, so that what stands between them can be taken for it.
 */
module Serialized {
  import opened Common
  import opened PythonRepr
  import opened Search
  import opened Spans
  import opened Replacement

  /** The representation of a list of blocks: each text's representation behind the keys
      and braces that lead up to it, and what closes the list. */
  datatype Blocks = Blocks(leads: seq<Text>, values: seq<Text>, tail: Text, printable: Code -> bool) {
    predicate Even() { |leads| == |values| }

    function Shown(k: nat): Text
      requires k < |values|
    {
      Repr(values[k], printable)
    }

    /** The first `k` blocks. */
    function Laid(k: nat): Text
      requires Even() && k <= |values|
    {
      if k == 0 then [] else Laid(k - 1) + leads[k - 1] + Shown(k - 1)
    }

    function Whole(): Text
      requires Even()
    {
      Laid(|values|) + tail
    }

    /** Where the representation of the `k`-th value starts. */
    function OwnPlace(k: nat): nat
      requires Even() && k < |values|
    {
      |Laid(k)| + |leads[k]|
    }

    /** Where the search for it should start: at the closing quote of the one before. */
    function OwnCursor(k: nat): nat
      requires Even() && k <= |values|
    {
      if k == 0 then 0 else OwnPlace(k - 1) + |Shown(k - 1)| - 1
    }

    /** It does not occur between there and its own place. */
    predicate Clear(k: nat)
      requires Even() && k < |values|
    {
      forall j :: OwnCursor(k) <= j < OwnPlace(k) ==> !OccursAt(Whole(), Shown(k), j)
    }

    /** The search has found the first `k` values at their own places, as far as its cursor
        tells. */
    predicate Own(k: nat, prior: seq<Tag>)
      requires Even() && k <= |values|
    {
      var done := AfterBlocks(Whole(), Forms(values, printable), k, prior);
      done.Some? && done.value.cursor == OwnCursor(k)
    }
  }

  lemma {:induction false} LaidGrows(b: Blocks, k: nat)
    requires b.Even() && k <= |b.values|
    ensures b.Laid(k) <= b.Whole()
    decreases |b.values| - k
  {
    if k < |b.values| {
      LaidGrows(b, k + 1);
      assert b.Laid(k) <= b.Laid(k + 1);
    }
  }

  /** A value does stand at its own place. */
  lemma OccursAtOwnPlace(b: Blocks, k: nat)
    requires b.Even() && k < |b.values|
    ensures OccursAt(b.Whole(), b.Shown(k), b.OwnPlace(k)) && b.OwnCursor(k) <= b.OwnPlace(k)
  {
    LaidGrows(b, k + 1);
    var upTo, from := b.Laid(k + 1), b.OwnPlace(k);
    assert upTo[from..] == b.Shown(k);
    assert b.Whole()[from..from + |b.Shown(k)|] == upTo[from..];
  }

  lemma OneBlock(done: Reprinted, serialized: Text, form: Form, prior: seq<Tag>)
    requires form.rendered != []
    ensures var at := Find(serialized, form.rendered, done.cursor);
            var next := AfterBlock(done, serialized, form, prior);
            && (next.Some? <==> at.Some? && done.offset + |form.widths| <= |prior|)
            && (next.Some? ==> next.value.cursor == at.value + |form.rendered| - 1
                               && next.value.offset == done.offset + |form.widths|)
  {
  }

  lemma {:induction false} OffsetIs(values: seq<Text>, serialized: Text, forms: seq<Form>, k: nat, prior: seq<Tag>)
    requires k <= |values| == |forms|
    requires forall i :: 0 <= i < |forms| ==> |forms[i].widths| == |values[i]| && forms[i].rendered != []
    requires AfterBlocks(serialized, forms, k, prior).Some?
    ensures AfterBlocks(serialized, forms, k, prior).value.offset == |JoinTo(values, k)|
  {
    if k > 0 {
      OffsetIs(values, serialized, forms, k - 1, prior);
      OneBlock(AfterBlocks(serialized, forms, k - 1, prior).value, serialized, forms[k - 1], prior);
    }
  }

  /** The first occurrence is the known one exactly when there is none before it. */
  lemma FirstIsOwn(hay: Text, needle: Text, from: nat, own: nat)
    requires OccursAt(hay, needle, own) && from <= own
    ensures var at := Find(hay, needle, from);
            at.Some? && (at.value == own <==> forall j :: from <= j < own ==> !OccursAt(hay, needle, j))
  {
  }

  lemma FormsFit(b: Blocks)
    ensures var forms := Forms(b.values, b.printable);
            forall i :: 0 <= i < |forms| ==>
              |forms[i].widths| == |b.values[i]| && forms[i].rendered == b.Shown(i) && forms[i].rendered != []
  {
  }

  /** Found so far, the next value is found at its own place exactly when nothing before
      it looks like it. */
  lemma OwnStep(b: Blocks, k: nat, prior: seq<Tag>)
    requires b.Even() && k < |b.values| && |Join(b.values)| <= |prior| && b.Own(k, prior)
    ensures b.Own(k + 1, prior) <==> b.Clear(k)
  {
    var forms := Forms(b.values, b.printable);
    FormsFit(b);
    OccursAtOwnPlace(b, k);
    FirstIsOwn(b.Whole(), b.Shown(k), b.OwnCursor(k), b.OwnPlace(k));
    OffsetIs(b.values, b.Whole(), forms, k, prior);
    NextOffset(b.values, k);
    NextCursor(b.Whole(), forms, k, prior, b.OwnCursor(k), b.OwnPlace(k));
  }

  /** From a known cursor, the next one is where a known occurrence ends exactly when that
      is the one found. */
  lemma NextCursor(serialized: Text, forms: seq<Form>, k: nat, prior: seq<Tag>, cursor: nat, own: nat)
    requires k < |forms| && forms[k].rendered != []
    requires var done := AfterBlocks(serialized, forms, k, prior);
             done.Some? && done.value.cursor == cursor && done.value.offset + |forms[k].widths| <= |prior|
    requires Find(serialized, forms[k].rendered, cursor).Some?
    ensures var next := AfterBlocks(serialized, forms, k + 1, prior);
            next.Some? && (next.value.cursor == own + |forms[k].rendered| - 1
                           <==> Find(serialized, forms[k].rendered, cursor).value == own)
  {
    OneBlock(AfterBlocks(serialized, forms, k, prior).value, serialized, forms[k], prior);
  }

  lemma {:induction false} Chained(own: seq<bool>, clear: seq<bool>, n: nat)
    requires n <= |clear| && |own| == |clear| + 1 && own[0]
    requires forall k :: 0 <= k < |clear| && own[k] ==> own[k + 1] == clear[k]
    ensures (forall k :: 0 <= k <= n ==> own[k]) <==> (forall k :: 0 <= k < n ==> clear[k])
  {
    if n > 0 {
      Chained(own, clear, n - 1);
      var k := n - 1;
      assert own[k] ==> own[k + 1] == clear[k];
    }
  }

  /** Every value is found at its own place, and so every escape gets the label of its own
      character, exactly when no value occurs between the closing quote of the one before
      and its own opening quote. */
  lemma FoundAtOwnPlaces(b: Blocks, prior: seq<Tag>)
    requires b.Even() && |Join(b.values)| <= |prior|
    ensures (forall k :: 0 <= k <= |b.values| ==> b.Own(k, prior)) <==> (forall k :: 0 <= k < |b.values| ==> b.Clear(k))
  {
    var n := |b.values|;
    var own := seq(n + 1, k requires 0 <= k <= n => b.Own(k, prior));
    var clear := seq(n, k requires 0 <= k < n => b.Clear(k));
    forall k | 0 <= k < n && own[k]
      ensures own[k + 1] == clear[k]
    {
      OwnStep(b, k, prior);
    }
    Chained(own, clear, n);
    AsSequences(b, prior, own, clear);
  }

  lemma AsSequences(b: Blocks, prior: seq<Tag>, own: seq<bool>, clear: seq<bool>)
    requires b.Even() && |own| == |b.values| + 1 && |clear| == |b.values|
    requires forall k :: 0 <= k < |own| ==> own[k] == b.Own(k, prior)
    requires forall k :: 0 <= k < |clear| ==> clear[k] == b.Clear(k)
    ensures (forall k :: 0 <= k < |own| ==> own[k]) <==> (forall k :: 0 <= k <= |b.values| ==> b.Own(k, prior))
    ensures (forall k :: 0 <= k < |clear| ==> clear[k]) <==> (forall k :: 0 <= k < |b.values| ==> b.Clear(k))
  {
  }

  // ------------------------------------------------------------------
  // A value that looks like a key
  // ------------------------------------------------------------------

  /** If the lead of the first block contains the representation of its value, the value is
      found there. */
  lemma LeadIsTakenForValue(b: Blocks, at: nat, prior: seq<Tag>)
    requires b.Even() && |b.values| == 1 && |b.values[0]| <= |prior|
    requires at + |b.Shown(0)| <= |b.leads[0]| && b.leads[0][at..at + |b.Shown(0)|] == b.Shown(0)
    ensures !b.Clear(0) && !b.Own(1, prior)
  {
    LaidGrows(b, 1);
    assert b.Laid(1)[at..at + |b.Shown(0)|] == b.Shown(0);
    assert b.Whole()[at..at + |b.Shown(0)|] == b.Laid(1)[at..at + |b.Shown(0)|];
    assert OccursAt(b.Whole(), b.Shown(0), at);
    assert !b.Clear(0);
    assert JoinTo(b.values, 1) == JoinTo(b.values, 0) + b.values[0] == b.values[0];
    OwnStep(b, 0, prior);
  }

  /** A string as code points. */
  function Str(s: string): (r: Text)
    ensures |r| == |s|
  {
    seq(|s|, i requires 0 <= i < |s| => s[i] as int)
  }

  lemma {:induction false} PlainInterior(v: Text, quote: Code, printable: Code -> bool)
    requires forall i :: 0 <= i < |v| ==> 32 <= v[i] < 127 && v[i] != quote && v[i] != BACKSLASH
    ensures Interior(v, quote, printable) == v
  {
    if v != [] { PlainInterior(v[..|v| - 1], quote, printable); }
  }

  lemma TypeIsShown(printable: Code -> bool)
    ensures Repr(Str("type"), printable) == Str("'type'")
  {
    var v := Str("type");
    assert v == [116, 121, 112, 101];
    PlainInterior(v, QUOTE, printable);
    assert Str("'type'") == [QUOTE] + v + [QUOTE];
  }

  function TypeBlocks(printable: Code -> bool): Blocks {
    Blocks([Str("[{") + Str("'type'") + Str(": 'text', 'text': ")], [Str("type")], Str("}]"), printable)
  }

  /** Such a prompt: one block whose text is the word that its first key is. The search
      finds the key, so that the escapes of the text are labelled as the rider's. */
  lemma TextLikeItsKey(printable: Code -> bool, prior: seq<Tag>)
    requires |prior| == 4
    ensures !TypeBlocks(printable).Clear(0) && !TypeBlocks(printable).Own(1, prior)
  {
    var b := TypeBlocks(printable);
    TypeIsShown(printable);
    assert b.leads[0][2..8] == Str("'type'");
    LeadIsTakenForValue(b, 2, prior);
  }
}
