/**
 * The chain of prompt transitions (`_prompt_provenance`, edd/prompt_census.py): each
 * middleware appends to the text before or replaces it.
 */
module Transitions {
  import opened Common
  import opened Spans
  import opened Content
  import opened Provenance
  import opened Search
  import R = Replacement
  import Serialized

  /** One observed transition; `blocks` is the parse of a re-serialised prompt. */
  datatype Event = Event(owner: Owner, before: Text, after: Text, scans: Scans, blocks: Option<seq<Text>>)

  predicate Appends(e: Event) { e.before <= e.after }

  function Added(e: Event): Text
    requires Appends(e)
  {
    e.after[|e.before|..]
  }

  /** A replacement in which the fixture's place stands behind an empty last block. */
  predicate LosesGround(e: Event, env: Env) {
    && !Appends(e) && e.owner == RiderOwner && e.after != []
    && env.place.Some? && e.blocks.Some? && R.EmptyEnd(e.blocks.value)
  }

  /** A tag with the event's owner unless it has one. */
  function WithOwner(tag: Tag, owner: Owner): Tag {
    if tag.owner.Some? then tag else Tag(tag.ids, Some(owner))
  }

  function AllWithOwner(tags: seq<Tag>, owner: Owner): (r: seq<Tag>)
    ensures |r| == |tags| && forall i :: 0 <= i < |r| ==> r[i] == WithOwner(tags[i], owner)
  {
    seq(|tags|, i requires 0 <= i < |tags| => WithOwner(tags[i], owner))
  }

  function Attribute(segs: seq<Segment>, offset: nat, owner: Owner): (r: seq<Segment>)
    ensures |r| == |segs|
  {
    seq(|segs|, i requires 0 <= i < |segs| =>
      Segment(offset + segs[i].start, offset + segs[i].end, WithOwner(segs[i].tag, owner)))
  }

  lemma AttributeOwned(segs: seq<Segment>, offset: nat, owner: Owner)
    ensures R.AllOwned(Attribute(segs, offset, owner))
  {
  }

  lemma AttributeSplits(segs: seq<Segment>, offset: nat, owner: Owner)
    requires segs != []
    ensures var r := Attribute(segs, offset, owner);
            && r != [] && Front(r) == Attribute(Front(segs), offset, owner)
            && Last(r) == Segment(offset + Last(segs).start, offset + Last(segs).end, WithOwner(Last(segs).tag, owner))
  {
  }

  lemma OwnerOfMore(tags: seq<Tag>, tag: Tag, n: nat, owner: Owner)
    ensures AllWithOwner(tags + Repeat(tag, n), owner) == AllWithOwner(tags, owner) + Repeat(WithOwner(tag, owner), n)
  {
  }

  lemma {:induction false} AttributeTiles(segs: seq<Segment>, from: nat, to: nat, offset: nat, owner: Owner)
    requires Tiles(segs, from, to)
    ensures Tiles(Attribute(segs, offset, owner), offset + from, offset + to)
    ensures Tags(Attribute(segs, offset, owner)) == AllWithOwner(Tags(segs), owner)
  {
    if segs != [] {
      AttributeTiles(Front(segs), from, Last(segs).start, offset, owner);
      AttributeSplits(segs, offset, owner);
      OwnerOfMore(Tags(Front(segs)), Last(segs).tag, to - Last(segs).start, owner);
    }
  }

  /** Attribution keeps holes as they are, and the labels but for the owner. */
  lemma {:induction false} AttributeRises(segs: seq<Segment>, n: nat, owner: Owner)
    requires Rising(segs, n)
    ensures Rising(Attribute(segs, 0, owner), n)
    ensures Labels(Attribute(segs, 0, owner)) == AllWithOwner(Labels(segs), owner)
  {
    if segs != [] {
      var from := EndOf(Front(segs));
      AttributeRises(Front(segs), from, owner);
      RisingLength(Attribute(Front(segs), 0, owner), from);
      AttributeSplits(segs, 0, owner);
      OwnerOfMore(Labels(Front(segs)), Last(segs).tag, n - from, owner);
    }
  }

  lemma AttributeKeepsHoles(segs: seq<Segment>, owner: Owner)
    requires R.HasHole(segs)
    ensures R.HasHole(Attribute(segs, 0, owner))
  {
    var j :| R.Hole(segs, j);
    assert R.Hole(Attribute(segs, 0, owner), j);
  }

  // ------------------------------------------------------------------
  // One transition
  // ------------------------------------------------------------------

  /** The labels of what an appending event adds. */
  function EventTags(e: Event, env: Env): seq<Tag>
    requires Appends(e)
  {
    AllWithOwner(ExpectedTags(e.owner, Added(e), e.scans, env), e.owner)
  }

  /** Is it the rider that re-serialises what was there? */
  predicate Reprints(e: Event) { e.owner == RiderOwner && e.after != [] }

  predicate Reprintable(e: Event, prior: seq<Tag>, env: Env) {
    R.Attributable(e.after, env.marker, e.before, prior, e.blocks, env.place, env.printable)
  }

  /** Does the census get past this event? What is appended, or put in place, must be what
      the middleware is known to write; what the rider re-serialises, what was there, and
      that must not be empty. */
  ghost predicate EventAttributable(e: Event, prior: seq<Tag>, env: Env) {
    if Appends(e) then Attributable(e.owner, Added(e), e.scans, env)
    else if Reprints(e) then e.before != [] && Reprintable(e, prior, env)
    else Attributable(e.owner, e.after, e.scans, env)
  }

  /** The labels that a replacing event leaves, given those before it. */
  function ReplacedLabels(e: Event, prior: seq<Tag>, env: Env): seq<Tag> {
    AllWithOwner(
      if !Reprints(e) then ExpectedTags(e.owner, e.after, e.scans, env)
      else if !Reprintable(e, prior, env) then []
      else R.ReplacedTags(e.after, env.marker, e.before, prior, e.blocks, env.place, env.printable),
      e.owner)
  }

  lemma UnownedContent(owner: Owner, text: Text, scans: Scans, env: Env)
    requires Attributable(owner, text, scans, env)
    ensures forall i :: 0 <= i < |ExpectedTags(owner, text, scans, env)| ==>
              ExpectedTags(owner, text, scans, env)[i].owner.None?
  {
    AttributableExactlyWhen(owner, text, scans, env);
    ContentTiles(owner, text, scans, env);
    UnownedTags(SegmentsOf(owner, text, scans, env).value);
  }

  lemma {:induction false} UnownedTags(segs: seq<Segment>)
    requires Unowned(segs)
    ensures forall i :: 0 <= i < |Tags(segs)| ==> Tags(segs)[i].owner.None?
  {
    if segs != [] { UnownedTags(Front(segs)); }
  }

  /** What a middleware appends, or puts in place of the text, has the sources that write it
      and the middleware as its owner. */
  lemma NewTextIsItsOwn(e: Event, env: Env, i: nat)
    ensures Appends(e) && i < |EventTags(e, env)| && Attributable(e.owner, Added(e), e.scans, env) ==>
              var expected := ExpectedTags(e.owner, Added(e), e.scans, env);
              |EventTags(e, env)| == |expected| && EventTags(e, env)[i] == Tag(expected[i].ids, Some(e.owner))
    ensures var expected := ExpectedTags(e.owner, e.after, e.scans, env);
            !Reprints(e) && i < |expected| && Attributable(e.owner, e.after, e.scans, env) ==>
              && |ReplacedLabels(e, [], env)| == |expected|
              && ReplacedLabels(e, [], env)[i] == Tag(expected[i].ids, Some(e.owner))
  {
    if Appends(e) && Attributable(e.owner, Added(e), e.scans, env) { UnownedContent(e.owner, Added(e), e.scans, env); }
    if Attributable(e.owner, e.after, e.scans, env) { UnownedContent(e.owner, e.after, e.scans, env); }
  }

  /** What the rider prints again keeps the owner that it had; the rest is the rider's. */
  lemma OldTextKeepsItsOwner(e: Event, prior: seq<Tag>, env: Env, i: nat)
    requires Reprints(e) && Reprintable(e, prior, env)
    ensures var printed := R.ReplacedTags(e.after, env.marker, e.before, prior, e.blocks, env.place, env.printable);
            i < |printed| ==>
              && i < |ReplacedLabels(e, prior, env)|
              && ReplacedLabels(e, prior, env)[i] ==
                   if printed[i].owner.Some? then printed[i] else Tag(printed[i].ids, Some(RiderOwner))
  {
  }

  /** The spans reach to the end of the text, perhaps with holes. */
  ghost predicate Sound(spans: seq<Segment>, text: Text) {
    Rising(spans, |text|) && R.AllOwned(spans)
  }

  /** They have a hole, or tile the text. */
  ghost predicate Stands(spans: seq<Segment>, text: Text, hole: bool) {
    if hole then R.HasHole(spans) else Tiles(spans, 0, |text|)
  }

  lemma HolesStay(spans: seq<Segment>, more: seq<Segment>)
    requires R.HasHole(spans)
    ensures R.HasHole(spans + more)
  {
    var j :| R.Hole(spans, j);
    assert R.Hole(spans + more, j);
  }

  lemma MoreStands(spans: seq<Segment>, more: seq<Segment>, before: Text, after: Text, hole: bool)
    requires Stands(spans, before, hole) && before <= after && Tiles(more, |before|, |after|)
    ensures Stands(spans + more, after, hole)
  {
    if hole { HolesStay(spans, more); } else { Concat(spans, more, 0, |before|, |after|); }
  }

  /** What an appending event adds, with its place and owner. */
  method AppendedSpans(e: Event, env: Env) returns (r: Option<seq<Segment>>)
    requires Appends(e)
    ensures r.Some? <==> EventAttributable(e, [], env)
    ensures r.Some? ==> Tiles(r.value, |e.before|, |e.after|) && R.AllOwned(r.value)
    ensures r.Some? ==> Tags(r.value) == EventTags(e, env)
  {
    var added := e.after[|e.before|..];
    AttributableExactlyWhen(e.owner, added, e.scans, env);
    var content := ContentSegments(e.owner, added, e.scans, env);
    if content.None? {
      return None;
    }
    ContentTiles(e.owner, added, e.scans, env);
    AttributeTiles(content.value, 0, |added|, |e.before|, e.owner);
    AttributeOwned(content.value, |e.before|, e.owner);
    r := Some(Attribute(content.value, |e.before|, e.owner));
  }

  /** An appending transition keeps every label and adds its own; a hole stays. */
  method Append(spans: seq<Segment>, e: Event, env: Env, ghost hole: bool) returns (r: Option<seq<Segment>>)
    requires Sound(spans, e.before) && Appends(e) && Stands(spans, e.before, hole)
    ensures r.Some? <==> EventAttributable(e, Labels(spans), env)
    ensures r.Some? ==> Sound(r.value, e.after) && Stands(r.value, e.after, hole)
    ensures r.Some? ==> Labels(r.value) == Labels(spans) + EventTags(e, env)
  {
    var more := AppendedSpans(e, env);
    if more.None? {
      return None;
    }
    RisingConcat(spans, more.value, |e.before|, |e.after|);
    MoreStands(spans, more.value, e.before, e.after, hole);
    r := Some(spans + more.value);
  }

  /** What a middleware other than the rider puts in place of the whole text, or the rider
      in place of nothing. */
  method ReplaceContent(e: Event, env: Env) returns (r: Option<seq<Segment>>)
    requires !Reprints(e)
    ensures r.Some? <==> Attributable(e.owner, e.after, e.scans, env)
    ensures r.Some? ==> Rising(r.value, |e.after|) && Tiles(r.value, 0, |e.after|)
    ensures r.Some? ==> Labels(r.value) == ExpectedTags(e.owner, e.after, e.scans, env)
  {
    AttributableExactlyWhen(e.owner, e.after, e.scans, env);
    r := ContentSegments(e.owner, e.after, e.scans, env);
    if r.Some? {
      ContentTiles(e.owner, e.after, e.scans, env);
      TilesRises(r.value, |e.after|);
    }
  }

  lemma AttributedStands(segs: seq<Segment>, text: Text, owner: Owner, hole: bool)
    requires Rising(segs, |text|) && Stands(segs, text, hole)
    ensures Sound(Attribute(segs, 0, owner), text) && Stands(Attribute(segs, 0, owner), text, hole)
    ensures Labels(Attribute(segs, 0, owner)) == AllWithOwner(Labels(segs), owner)
  {
    AttributeRises(segs, |text|, owner);
    AttributeOwned(segs, 0, owner);
    if hole { AttributeKeepsHoles(segs, owner); } else { AttributeTiles(segs, 0, |text|, 0, owner); }
  }

  /** A replacing transition attributes the whole new text, and leaves a hole exactly when
      it loses ground. Holes before it do not matter. */
  method Replace(spans: seq<Segment>, e: Event, env: Env) returns (r: Option<seq<Segment>>)
    requires Sound(spans, e.before) && !Appends(e)
    ensures r.Some? <==> EventAttributable(e, Labels(spans), env)
    ensures r.Some? ==> Sound(r.value, e.after) && Stands(r.value, e.after, LosesGround(e, env))
    ensures r.Some? ==> Labels(r.value) == ReplacedLabels(e, Labels(spans), env)
  {
    var content: Option<seq<Segment>>;
    RisingLength(spans, |e.before|);
    if e.owner == RiderOwner && e.after != [] {
      if spans == [] {
        return None;
      }
      content := R.ReplacementSegments(e.after, env.marker, e.before, spans, e.blocks, env.place, env.printable);
    } else {
      content := ReplaceContent(e, env);
    }
    if content.None? {
      return None;
    }
    AttributedStands(content.value, e.after, e.owner, LosesGround(e, env));
    r := Some(Attribute(content.value, 0, e.owner));
  }

  // ------------------------------------------------------------------
  // A prompt that loses ground
  // ------------------------------------------------------------------

  const LETTER: Text := [97]
  const SHOWN: Text := [91, 39, 97, 39, 44, 39, 39, 93]
  const MARKER: Text := [10, 91]
  const PLACE: Text := [80]

  /** A text block and an empty one: `['a','']`. */
  function TwoBlocks(printable: Code -> bool): Serialized.Blocks {
    Serialized.Blocks([[91], [44]], [LETTER, []], [93], printable)
  }

  lemma TwoBlocksShown(printable: Code -> bool)
    ensures var b := TwoBlocks(printable);
            && b.Even() && b.Whole() == SHOWN && b.Shown(0) == [39, 97, 39] && b.Shown(1) == [39, 39]
            && b.Laid(1) == [91, 39, 97, 39]
  {
    var b := TwoBlocks(printable);
    var none: Text := [];
    Serialized.PlainInterior(LETTER, 39, printable);
    Serialized.PlainInterior(none, 39, printable);
    assert b.Shown(0) == [39] + LETTER + [39];
    assert b.Shown(1) == [39] + none + [39];
    assert b.Laid(1) == b.Laid(0) + b.leads[0] + b.Shown(0);
    assert b.Laid(2) == b.Laid(1) + b.leads[1] + b.Shown(1);
  }

  lemma TwoBlocksFound(printable: Code -> bool, prior: seq<Tag>)
    requires |prior| == 1
    ensures R.AfterBlocks(SHOWN, R.Forms([LETTER, []], printable), 2, prior).Some?
  {
    var b := TwoBlocks(printable);
    TwoBlocksShown(printable);
    assert b.OwnCursor(0) == 0 && b.OwnPlace(0) == 1 && b.OwnCursor(1) == 3 && b.OwnPlace(1) == 5;
    assert SHOWN[0..3][0] == 91;
    assert b.Clear(0);
    assert SHOWN[3..5][1] == 44 && SHOWN[4..6][0] == 44;
    assert b.Clear(1);
    assert JoinTo(b.values, 1) == JoinTo(b.values, 0) + LETTER;
    assert JoinTo(b.values, 2) == JoinTo(b.values, 1) + [];
    Serialized.FoundAtOwnPlaces(b, prior);
    assert b.Own(2, prior);
  }

  /** The rider re-serialises a text block and an empty one and puts a recorded place behind
      them. The census gets through, and leaves a hole. */
  lemma LostGroundExample(env: Env, prior: seq<Tag>) returns (e: Event)
    requires |prior| == 1 && env.marker == MARKER && env.place.Some? && env.place.value.value == PLACE
    ensures LosesGround(e, env) && Reprints(e) && Reprintable(e, prior, env)
  {
    var text := SHOWN + MARKER + PLACE;
    var blocks := [LETTER, []];
    e := Event(RiderOwner, LETTER, text, Scans(None, None, false, None), Some(blocks));
    assert text[0] == 91 && LETTER[0] == 97;
    MarkerFound(text);
    TwoBlocksFound(env.printable, prior);
    assert text[..8] == SHOWN;
    assert JoinTo(blocks, 1) == JoinTo(blocks, 0) + LETTER;
    assert JoinTo(blocks, 2) == JoinTo(blocks, 1) + [];
    assert OccursAt(text, PLACE, 10);
  }

  lemma MarkerFound(text: Text)
    requires text == SHOWN + MARKER + PLACE
    ensures FindLast(text, MARKER, |text|) == Some(8)
  {
    assert OccursAt(text, MARKER, 8);
    assert text[9..11][0] == 91 && MARKER[0] == 10;
    assert !OccursAt(text, MARKER, 9);
    assert !OccursAt(text, MARKER, 10);
  }

  // ------------------------------------------------------------------
  // The whole chain
  // ------------------------------------------------------------------

  /** The labels after `k` events, from those of the initial text. */
  function ChainLabels(start: seq<Tag>, events: seq<Event>, k: nat, env: Env): seq<Tag>
    requires k <= |events|
  {
    if k == 0 then start
    else
      var prior := ChainLabels(start, events, k - 1, env);
      var e := events[k - 1];
      if Appends(e) then prior + EventTags(e, env) else ReplacedLabels(e, prior, env)
  }

  /** Did the last of the first `k` events that replaced the text lose ground? */
  predicate EndsBehind(events: seq<Event>, k: nat, env: Env)
    requires k <= |events|
  {
    k > 0 && if Appends(events[k - 1]) then EndsBehind(events, k - 1, env) else LosesGround(events[k - 1], env)
  }

  /** In the direct form: an event loses ground, and all after it append. */
  lemma {:induction false} EndsBehindMeans(events: seq<Event>, k: nat, env: Env)
    requires k <= |events|
    ensures EndsBehind(events, k, env) <==>
              exists j :: 0 <= j < k && LosesGround(events[j], env) && forall i :: j < i < k ==> Appends(events[i])
  {
    if k > 0 {
      EndsBehindMeans(events, k - 1, env);
      var e := events[k - 1];
      if Appends(e) && EndsBehind(events, k - 1, env) {
        var j :| 0 <= j < k - 1 && LosesGround(events[j], env) && forall i :: j < i < k - 1 ==> Appends(events[i]);
        assert forall i :: j < i < k ==> Appends(events[i]);
      }
    }
  }

  /** `complete`: do the closing checks accept the final spans? */
  datatype Attribution = Attribution(covered: seq<Segment>, spans: seq<Segment>, complete: bool)

  /** One turn of the loop over the events. */
  method Follow(spans: seq<Segment>, e: Event, env: Env, ghost hole: bool) returns (r: Option<seq<Segment>>)
    requires Sound(spans, e.before) && Stands(spans, e.before, hole)
    ensures r.Some? <==> EventAttributable(e, Labels(spans), env)
    ensures r.Some? ==>
              Sound(r.value, e.after) && Stands(r.value, e.after, if Appends(e) then hole else LosesGround(e, env))
    ensures r.Some? ==>
              Labels(r.value) == if Appends(e) then Labels(spans) + EventTags(e, env)
                                 else ReplacedLabels(e, Labels(spans), env)
  {
    if e.before <= e.after {
      r := Append(spans, e, env, hole);
    } else {
      r := Replace(spans, e, env);
    }
  }

  /** The text after `k` events. */
  function TextAfter(initial: Text, events: seq<Event>, k: nat): Text
    requires k <= |events|
  {
    if k == 0 then initial else events[k - 1].after
  }

  /** The events that the census gets past: each starts from the text that the one before it
      left, and can be attributed. */
  ghost function Passable(initial: Text, events: seq<Event>, labels: seq<Tag>, env: Env): iset<nat> {
    iset i: nat |
      && i < |events| && events[i].before == TextAfter(initial, events, i)
      && EventAttributable(events[i], ChainLabels(labels, events, i, env), env)
  }

  /** It gets past the first `k`. */
  ghost predicate Follows(passable: iset<nat>, k: nat) {
    k == 0 || (k - 1 in passable && Follows(passable, k - 1))
  }

  lemma {:induction false} FollowsEach(passable: iset<nat>, k: nat, i: nat)
    requires i < k && i !in passable
    ensures !Follows(passable, k)
  {
    if i < k - 1 { FollowsEach(passable, k - 1, i); }
  }

  /** Does it get to its closing checks? */
  ghost predicate GetsThrough(initial: Text, final: Text, prompts: seq<Prompt>, base: Text, events: seq<Event>,
                              env: Env)
  {
    && InitialAttributable(initial, prompts, base, env.space)
    && Follows(Passable(initial, events, InitialLabels(initial, prompts, base), env), |events|)
    && TextAfter(initial, events, |events|) == final
  }

  /** Where the loop over the events stands: the spans, and the text they are of. */
  datatype Stop = Stop(spans: seq<Segment>, text: Text)

  /** Where it may stand after `k` events. */
  ghost function Stops(initial: Text, events: seq<Event>, k: nat, labels: seq<Tag>, env: Env): iset<Stop>
    requires k <= |events|
  {
    iset s: Stop |
      && s.text == TextAfter(initial, events, k)
      && Sound(s.spans, s.text) && Stands(s.spans, s.text, EndsBehind(events, k, env))
      && Labels(s.spans) == ChainLabels(labels, events, k, env)
  }

  /** One turn of the loop over the events, with the error it may leave by. */
  method FollowNext(s: Stop, initial: Text, events: seq<Event>, k: nat, ghost labels: seq<Tag>, env: Env,
                    ghost passable: iset<nat>)
    returns (r: Option<Stop>)
    requires k < |events| && s in Stops(initial, events, k, labels, env)
    requires passable == Passable(initial, events, labels, env)
    ensures r.Some? <==> k in passable
    ensures r.Some? ==> r.value in Stops(initial, events, k + 1, labels, env)
  {
    if events[k].before != s.text {
      return None;
    }
    var spans := Follow(s.spans, events[k], env, EndsBehind(events, k, env));
    r := if spans.None? then None else Some(Stop(spans.value, events[k].after));
  }

  /** The loop over the events. */
  method FollowAll(start: Stop, initial: Text, events: seq<Event>, ghost labels: seq<Tag>, env: Env,
                   ghost passable: iset<nat>)
    returns (r: Option<Stop>)
    requires start in Stops(initial, events, 0, labels, env) && passable == Passable(initial, events, labels, env)
    ensures r.Some? <==> Follows(passable, |events|)
    ensures r.Some? ==> r.value in Stops(initial, events, |events|, labels, env)
  {
    r := Some(start);
    for k := 0 to |events|
      invariant r.Some? && r.value in Stops(initial, events, k, labels, env)
      invariant Follows(passable, k)
    {
      r := FollowNext(r.value, initial, events, k, labels, env, passable);
      if r.None? {
        FollowsEach(passable, |events|, k);
        return;
      }
    }
  }

  /** `_prompt_provenance`, for every chain of events. It gets to its closing checks exactly
      when the initial text can be attributed, the chain is unbroken up to the final text and
      each event can be attributed. Then every character of the final text has the label of
      who wrote it, through appends and replacements; the spans of the initial text are
      attributed and tile it; and the closing checks accept exactly when the last replacement
      did not lose ground, in which case the final spans tile the final text. */
  method PromptProvenance(initial: Text, final: Text, prompts: seq<Prompt>, base: Text, events: seq<Event>, env: Env)
    returns (r: Option<Attribution>)
    requires base != [] && forall i :: 0 <= i < |prompts| ==> prompts[i].text != []
    ensures r.Some? <==> GetsThrough(initial, final, prompts, base, events, env)
    ensures r.Some? ==>
              && Tiles(r.value.covered, 0, |initial|)
              && forall c :: c in r.value.covered ==> Attributed(c, initial, prompts, base, env.space)
    ensures r.Some? ==> (r.value.complete <==> !EndsBehind(events, |events|, env))
    ensures r.Some? && r.value.complete ==> Tiles(r.value.spans, 0, |final|)
    ensures r.Some? ==> |Labels(r.value.spans)| == |final|
    ensures r.Some? ==>
              Labels(r.value.spans) == ChainLabels(InitialLabels(initial, prompts, base), events, |events|, env)
  {
    var covered := InitialSpans(initial, prompts, base, env.space);
    if covered.None? {
      return None;
    }
    ghost var labels := InitialLabels(initial, prompts, base);
    TilesRises(covered.value, |initial|);
    var end := FollowAll(Stop(covered.value, initial), initial, events, labels, env,
                         Passable(initial, events, labels, env));
    if end.None? || end.value.text != final {
      return None;
    }
    var spans := end.value.spans;
    RisingLength(spans, |final|);
    R.HoleShows(spans, |final|);
    if Tiles(spans, 0, |final|) { TilesIsGapFree(spans, |final|); }
    r := Some(Attribution(covered.value, spans, GapFree(spans, |final|)));
  }
}
