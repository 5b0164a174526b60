/**
 * Python's `str.find`, `str.rpartition` and `str.startswith`, as edd/prompt_census.py
 * uses them.
 */
module Search {
  import opened Common
  import opened Spans

  predicate OccursAt(hay: Text, needle: Text, at: nat) {
    at + |needle| <= |hay| && hay[at..at + |needle|] == needle
  }

  /** The first occurrence from `from` on. */
  function Find(hay: Text, needle: Text, from: nat): (r: Option<nat>)
    ensures r.Some? ==> from <= r.value && OccursAt(hay, needle, r.value)
    ensures r.Some? ==> forall i :: from <= i < r.value ==> !OccursAt(hay, needle, i)
    ensures r.None? ==> forall i :: from <= i ==> !OccursAt(hay, needle, i)
    decreases |hay| - from
  {
    if from + |needle| > |hay| then None
    else if OccursAt(hay, needle, from) then Some(from)
    else Find(hay, needle, from + 1)
  }

  /** The last occurrence that starts before `before`. */
  function FindLast(hay: Text, needle: Text, before: nat): (r: Option<nat>)
    ensures r.Some? ==> r.value < before && OccursAt(hay, needle, r.value)
    ensures r.Some? ==> forall i :: r.value < i < before ==> !OccursAt(hay, needle, i)
    ensures r.None? ==> forall i :: 0 <= i < before ==> !OccursAt(hay, needle, i)
  {
    if before == 0 then None
    else if OccursAt(hay, needle, before - 1) then Some(before - 1)
    else FindLast(hay, needle, before - 1)
  }

  /** The first `k` blocks joined. */
  function JoinTo(blocks: seq<Text>, k: nat): (r: Text)
    requires k <= |blocks|
  {
    if k == 0 then [] else JoinTo(blocks, k - 1) + blocks[k - 1]
  }

  function Join(blocks: seq<Text>): Text { JoinTo(blocks, |blocks|) }

  lemma {:induction false} JoinGrows(blocks: seq<Text>, k: nat)
    requires k <= |blocks|
    ensures JoinTo(blocks, k) <= Join(blocks)
    decreases |blocks| - k
  {
    if k < |blocks| {
      JoinGrows(blocks, k + 1);
      assert JoinTo(blocks, k) <= JoinTo(blocks, k + 1);
    }
  }
}
