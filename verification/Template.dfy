/**
 * Rendering a prompt template with its ownership (edd/prompt_census.py).
 */
module Template {
  import opened Common
  import opened Spans

  /** The fields of the templates that the census renders, and all other names. */
  datatype FieldName =
    | SkillsList | ToolsAvailable | AgentMemory | MemoryPath
    | RepoPrompt | ThreadMemory | RepoMemoryPath | ThreadMemoryPath
    | Unknown(name: string)

  /** One item of `Formatter().parse`: a literal, then a field unless the template ends. */
  datatype Piece = Piece(literal: Text, field: Option<FieldName>, plain: bool)

  /** A field's value, owned as a whole or segment by segment. */
  datatype Field =
    | Owned(value: Text, ids: seq<Source>)
    | Nested(value: Text, segments: seq<Segment>)

  datatype Problem = FormattedField | MissingField | IncompleteOwnership

  datatype Rendering =
    | Rendered(text: Text, segments: seq<Segment>)
    | Failed(problem: Problem)

  /** The segments of a nested field, moved to where its value goes; owners are not
      copied. */
  function Placed(nested: seq<Segment>, offset: nat): (r: seq<Segment>)
    ensures |r| == |nested|
  {
    seq(|nested|, i requires 0 <= i < |nested| =>
      Segment(offset + nested[i].start, offset + nested[i].end, Tag(nested[i].tag.ids, None)))
  }

  predicate Complete(nested: seq<Segment>, n: nat) {
    nested == [] || (nested[0].start == 0 && Last(nested).end == n)
  }

  /** One turn of the rendering loop. */
  function Step(done: Rendering, piece: Piece, id: Source, fields: map<FieldName, Field>): Rendering
    requires done.Rendered?
  {
    var segs := AppendOwned(done.segments, |piece.literal|, [id]);
    var text := done.text + piece.literal;
    if piece.field.None? then Rendered(text, segs)
    else if !piece.plain then Failed(FormattedField)
    else if piece.field.value !in fields then Failed(MissingField)
    else
      match fields[piece.field.value]
      case Owned(value, ids) => Rendered(text + value, AppendOwned(segs, |value|, ids))
      case Nested(value, nested) =>
        if !Complete(nested, |value|) then Failed(IncompleteOwnership)
        else Rendered(text + value, segs + Placed(nested, EndOf(segs)))
  }

  function Render(pieces: seq<Piece>, id: Source, fields: map<FieldName, Field>): Rendering {
    if pieces == [] then Rendered([], [])
    else
      var done := Render(pieces[..|pieces| - 1], id, fields);
      if done.Failed? then done else Step(done, pieces[|pieces| - 1], id, fields)
  }

  lemma {:induction false} RenderFails(pieces: seq<Piece>, k: nat, id: Source, fields: map<FieldName, Field>)
    requires k <= |pieces| && Render(pieces[..k], id, fields).Failed?
    ensures Render(pieces, id, fields) == Render(pieces[..k], id, fields)
  {
    if k < |pieces| {
      assert pieces[..|pieces| - 1][..k] == pieces[..k];
      RenderFails(pieces[..|pieces| - 1], k, id, fields);
    } else {
      assert pieces[..k] == pieces;
    }
  }

  /** One turn of the loop of `_render_owned_template`. */
  method RenderPiece(text: Text, segs: seq<Segment>, piece: Piece, id: Source, fields: map<FieldName, Field>)
    returns (r: Rendering)
    ensures r == Step(Rendered(text, segs), piece, id, fields)
  {
    var owned := AppendOwned(segs, |piece.literal|, [id]);
    var parts := text + piece.literal;
    if piece.field.None? {
      return Rendered(parts, owned);
    }
    if !piece.plain {
      return Failed(FormattedField);
    }
    if piece.field.value !in fields {
      return Failed(MissingField);
    }
    var offset := EndOf(owned);
    match fields[piece.field.value]
    case Owned(value, ids) =>
      r := Rendered(parts + value, AppendOwned(owned, |value|, ids));
    case Nested(value, nested) =>
      if !Complete(nested, |value|) {
        return Failed(IncompleteOwnership);
      }
      r := Rendered(parts + value, owned + Placed(nested, offset));
  }

  /** `_render_owned_template`. */
  method RenderOwnedTemplate(pieces: seq<Piece>, id: Source, fields: map<FieldName, Field>)
    returns (r: Rendering)
    ensures r == Render(pieces, id, fields)
  {
    r := Rendered([], []);
    for i := 0 to |pieces|
      invariant r == Render(pieces[..i], id, fields) && r.Rendered?
    {
      assert pieces[..i + 1][..i] == pieces[..i];
      r := RenderPiece(r.text, r.segments, pieces[i], id, fields);
      if r.Failed? {
        RenderFails(pieces, i + 1, id, fields);
        return;
      }
    }
    assert pieces[..|pieces|] == pieces;
  }

  // ------------------------------------------------------------------
  // Which templates render
  // ------------------------------------------------------------------

  /** What is wrong with a piece: its field has a conversion or a format, has no value, or
      has an ownership that does not begin and end with its value. */
  predicate Wrong(piece: Piece, fields: map<FieldName, Field>, problem: Problem) {
    piece.field.Some? &&
    var known := piece.field.value in fields;
    match problem
    case FormattedField => !piece.plain
    case MissingField => piece.plain && !known
    case IncompleteOwnership =>
      && piece.plain && known && fields[piece.field.value].Nested? && fields[piece.field.value].segments != []
      && (|| fields[piece.field.value].segments[0].start != 0
          || Last(fields[piece.field.value].segments).end != |fields[piece.field.value].value|)
  }

  /** The first piece that is wrong, and how. */
  ghost predicate FirstWrong(pieces: seq<Piece>, i: nat, fields: map<FieldName, Field>, problem: Problem)
    requires i < |pieces|
  {
    Wrong(pieces[i], fields, problem) && forall j, q :: 0 <= j < i ==> !Wrong(pieces[j], fields, q)
  }

  ghost predicate SomeFirstWrong(pieces: seq<Piece>, fields: map<FieldName, Field>, problem: Problem) {
    exists i :: 0 <= i < |pieces| && FirstWrong(pieces, i, fields, problem)
  }

  ghost predicate NothingWrong(pieces: seq<Piece>, fields: map<FieldName, Field>) {
    forall j, q :: 0 <= j < |pieces| ==> !Wrong(pieces[j], fields, q)
  }

  lemma StepFails(done: Rendering, piece: Piece, id: Source, fields: map<FieldName, Field>, problem: Problem)
    requires done.Rendered?
    ensures Step(done, piece, id, fields) == Failed(problem) <==> Wrong(piece, fields, problem)
    ensures Step(done, piece, id, fields).Rendered? <==> forall q :: !Wrong(piece, fields, q)
  {
    assert Step(done, piece, id, fields).Failed? ==> Wrong(piece, fields, Step(done, piece, id, fields).problem);
  }

  /** A template renders exactly when nothing is wrong with any of its pieces, and fails with
      what is wrong with the first such piece. */
  lemma {:induction false} RenderFailsExactlyWhen(pieces: seq<Piece>, id: Source, fields: map<FieldName, Field>,
                                                  problem: Problem)
    ensures Render(pieces, id, fields) == Failed(problem) <==> SomeFirstWrong(pieces, fields, problem)
    ensures Render(pieces, id, fields).Rendered? <==> NothingWrong(pieces, fields)
  {
    if pieces != [] {
      var k := |pieces| - 1;
      var front := pieces[..k];
      RenderFailsExactlyWhen(front, id, fields, problem);
      var done := Render(front, id, fields);
      if done.Rendered? {
        StepFails(done, pieces[k], id, fields, problem);
        LastWrong(pieces, front, fields, problem);
      } else {
        FrontWrong(pieces, front, fields, problem);
      }
    }
  }

  lemma LastWrong(pieces: seq<Piece>, front: seq<Piece>, fields: map<FieldName, Field>, problem: Problem)
    requires pieces != [] && front == pieces[..|pieces| - 1] && NothingWrong(front, fields)
    ensures SomeFirstWrong(pieces, fields, problem) <==> Wrong(pieces[|front|], fields, problem)
    ensures NothingWrong(pieces, fields) <==> forall q :: !Wrong(pieces[|front|], fields, q)
  {
    forall i, q | 0 <= i < |front| ensures !Wrong(pieces[i], fields, q) {
      assert !Wrong(front[i], fields, q);
    }
    assert FirstWrong(pieces, |front|, fields, problem) <==> Wrong(pieces[|front|], fields, problem);
  }

  lemma FrontWrong(pieces: seq<Piece>, front: seq<Piece>, fields: map<FieldName, Field>, problem: Problem)
    requires front <= pieces && !NothingWrong(front, fields)
    ensures !NothingWrong(pieces, fields)
    ensures SomeFirstWrong(front, fields, problem) <==> SomeFirstWrong(pieces, fields, problem)
  {
    var j, q :| 0 <= j < |front| && Wrong(front[j], fields, q);
    assert Wrong(pieces[j], fields, q);
    forall i | 0 <= i < |front|
      ensures FirstWrong(front, i, fields, problem) <==> FirstWrong(pieces, i, fields, problem)
    {
    }
    forall i | |front| <= i < |pieces| ensures !FirstWrong(pieces, i, fields, problem) {
      assert Wrong(pieces[j], fields, q);
    }
  }

  // ------------------------------------------------------------------
  // Every character has the tag of the source that wrote it
  // ------------------------------------------------------------------

  lemma {:induction false} PlacedTiles(nested: seq<Segment>, from: nat, to: nat, offset: nat)
    requires Tiles(nested, from, to)
    ensures Tiles(Placed(nested, offset), from + offset, to + offset)
    ensures Tags(Placed(nested, offset)) == Tags(Placed(nested, 0))
    ensures Unowned(Placed(nested, offset))
  {
    if nested != [] {
      PlacedTiles(Front(nested), from, Last(nested).start, offset);
      assert Front(Placed(nested, offset)) == Placed(Front(nested), offset);
      assert Front(Placed(nested, 0)) == Placed(Front(nested), 0);
    }
  }

  predicate FieldTiles(f: Field) { f.Nested? ==> Tiles(f.segments, 0, |f.value|) }

  function FieldTags(f: Field): seq<Tag> {
    match f
    case Owned(value, ids) => Repeat(Tag(ids, None), |value|)
    case Nested(value, nested) => Tags(Placed(nested, 0))
  }

  /** The text and the tags that a template stands for: its literals are the
      template's, each value is its field's. */
  function PieceTags(piece: Piece, id: Source, fields: map<FieldName, Field>): seq<Tag> {
    Repeat(Tag([id], None), |piece.literal|)
    + (if piece.field.Some? && piece.field.value in fields then FieldTags(fields[piece.field.value]) else [])
  }

  function TemplateTags(pieces: seq<Piece>, id: Source, fields: map<FieldName, Field>): seq<Tag> {
    if pieces == [] then []
    else TemplateTags(pieces[..|pieces| - 1], id, fields) + PieceTags(pieces[|pieces| - 1], id, fields)
  }

  function TemplateText(pieces: seq<Piece>, fields: map<FieldName, Field>): Text {
    if pieces == [] then []
    else
      var p := pieces[|pieces| - 1];
      TemplateText(pieces[..|pieces| - 1], fields) + p.literal
      + (if p.field.Some? && p.field.value in fields then fields[p.field.value].value else [])
  }

  predicate UsedTile(pieces: seq<Piece>, fields: map<FieldName, Field>) {
    forall i :: 0 <= i < |pieces| && pieces[i].field.Some? && pieces[i].field.value in fields ==>
      FieldTiles(fields[pieces[i].field.value])
  }

  /** What a value in a field adds to the segments. */
  function FieldSegments(segs: seq<Segment>, f: Field): seq<Segment> {
    match f
    case Owned(value, ids) => AppendOwned(segs, |value|, ids)
    case Nested(value, nested) => segs + Placed(nested, EndOf(segs))
  }

  lemma FieldExtends(segs: seq<Segment>, to: nat, f: Field)
    requires Tiles(segs, 0, to) && Unowned(segs) && FieldTiles(f)
    ensures var r := FieldSegments(segs, f);
            && Tiles(r, 0, to + |f.value|) && Unowned(r)
            && Tags(r) == Tags(segs) + FieldTags(f)
  {
    match f
    case Owned(value, ids) =>
      AppendOwnedTiles(segs, to, |value|, ids);
    case Nested(value, nested) =>
      PlacedTiles(nested, 0, |value|, to);
      assert EndOf(segs) == to;
      Concat(segs, Placed(nested, to), 0, to, to + |value|);
  }

  /** A literal, then a field. */
  lemma PieceTiles(segs: seq<Segment>, to: nat, n: nat, id: Source, f: Field)
    requires Tiles(segs, 0, to) && Unowned(segs) && FieldTiles(f)
    ensures var r := FieldSegments(AppendOwned(segs, n, [id]), f);
            && Tiles(r, 0, to + n + |f.value|) && Unowned(r)
            && Tags(r) == Tags(segs) + (Repeat(Tag([id], None), n) + FieldTags(f))
  {
    AppendOwnedTiles(segs, to, n, [id]);
    FieldExtends(AppendOwned(segs, n, [id]), to + n, f);
    Associate(Tags(segs), Repeat(Tag([id], None), n), FieldTags(f));
  }

  lemma Associate(a: seq<Tag>, b: seq<Tag>, c: seq<Tag>)
    ensures (a + b) + c == a + (b + c)
  {
  }

  lemma StepTiles(done: Rendering, piece: Piece, id: Source, fields: map<FieldName, Field>)
    requires done.Rendered? && Tiles(done.segments, 0, |done.text|) && Unowned(done.segments)
    requires Step(done, piece, id, fields).Rendered?
    requires piece.field.Some? && piece.field.value in fields ==> FieldTiles(fields[piece.field.value])
    ensures var r := Step(done, piece, id, fields);
            && Tiles(r.segments, 0, |r.text|) && Unowned(r.segments)
            && Tags(r.segments) == Tags(done.segments) + PieceTags(piece, id, fields)
  {
    var n := |piece.literal|;
    if piece.field.Some? {
      var f := fields[piece.field.value];
      PieceTiles(done.segments, |done.text|, n, id, f);
      assert Step(done, piece, id, fields).segments == FieldSegments(AppendOwned(done.segments, n, [id]), f);
    } else {
      AppendOwnedTiles(done.segments, |done.text|, n, [id]);
    }
  }

  /** If every nested field in use tiles its value, the segments tile the rendered text
      and every character has the tag of its source. */
  lemma {:induction false} RenderTiles(pieces: seq<Piece>, id: Source, fields: map<FieldName, Field>)
    requires Render(pieces, id, fields).Rendered? && UsedTile(pieces, fields)
    ensures var r := Render(pieces, id, fields);
            && Tiles(r.segments, 0, |r.text|) && Unowned(r.segments)
            && r.text == TemplateText(pieces, fields)
            && Tags(r.segments) == TemplateTags(pieces, id, fields)
  {
    if pieces != [] {
      var front := pieces[..|pieces| - 1];
      RenderTiles(front, id, fields);
      StepTiles(Render(front, id, fields), pieces[|pieces| - 1], id, fields);
    }
  }

  // ------------------------------------------------------------------
  // And only then
  // ------------------------------------------------------------------

  /** No empty interval, which is what every producer of segments writes. */
  predicate Proper(segs: seq<Segment>) {
    forall i :: 0 <= i < |segs| ==> segs[i].start < segs[i].end
  }

  predicate FieldProper(f: Field) { f.Nested? ==> Proper(f.segments) }

  predicate UsedProper(pieces: seq<Piece>, fields: map<FieldName, Field>) {
    forall i :: 0 <= i < |pieces| && pieces[i].field.Some? && pieces[i].field.value in fields ==>
      FieldProper(fields[pieces[i].field.value])
  }

  /** Two neighbours that do not touch. */
  ghost predicate Broken(segs: seq<Segment>) {
    exists i :: 0 <= i < |segs| - 1 && segs[i].end != segs[i + 1].start
  }

  lemma {:induction false} UnbrokenTiles(segs: seq<Segment>)
    requires Proper(segs) && !Broken(segs) && segs != []
    ensures Tiles(segs, segs[0].start, Last(segs).end)
  {
    if |segs| > 1 {
      var front := Front(segs);
      forall i | 0 <= i < |front| - 1 ensures front[i].end == front[i + 1].start {
        assert segs[i].end == segs[i + 1].start;
      }
      UnbrokenTiles(front);
      assert segs[|segs| - 2].end == segs[|segs| - 1].start;
    }
  }

  /** Lost ground: the segments are broken or end before the text does. */
  ghost predicate Behind(segs: seq<Segment>, n: nat) {
    Broken(segs) || EndOf(segs) < n
  }

  lemma BehindIsNoTiling(segs: seq<Segment>, n: nat)
    requires Behind(segs, n)
    ensures !Tiles(segs, 0, n)
  {
    if Tiles(segs, 0, n) {
      TilesStart(segs, 0, n);
    }
  }

  lemma BrokenStays(segs: seq<Segment>, more: seq<Segment>)
    requires Broken(segs)
    ensures Broken(segs + more)
  {
    var i :| 0 <= i < |segs| - 1 && segs[i].end != segs[i + 1].start;
    assert (segs + more)[i].end != (segs + more)[i + 1].start;
  }

  lemma AppendStaysBehind(segs: seq<Segment>, n: nat, k: nat, ids: seq<Source>)
    ensures EndOf(AppendOwned(segs, k, ids)) == EndOf(segs) + k
    ensures Behind(segs, n) ==> Behind(AppendOwned(segs, k, ids), n + k)
  {
    if k > 0 && Broken(segs) {
      if segs != [] && Last(segs).tag.ids == ids {
        var r := AppendOwned(segs, k, ids);
        var i :| 0 <= i < |segs| - 1 && segs[i].end != segs[i + 1].start;
        assert r[i].end != r[i + 1].start;
      } else {
        BrokenStays(segs, [Segment(EndOf(segs), EndOf(segs) + k, Tag(ids, None))]);
      }
    }
  }

  /** A field that does not tile its value leaves the segments behind the text, and
      nothing that follows makes up for it. */
  lemma NestedFallsBehind(segs: seq<Segment>, n: nat, value: Text, nested: seq<Segment>)
    requires Proper(nested) && Complete(nested, |value|) && EndOf(segs) <= n
    requires !Tiles(nested, 0, |value|) || Behind(segs, n)
    ensures Behind(segs + Placed(nested, EndOf(segs)), n + |value|)
    ensures EndOf(segs + Placed(nested, EndOf(segs))) <= n + |value|
  {
    var more := Placed(nested, EndOf(segs));
    var all := segs + more;
    if nested == [] {
      assert all == segs;
    } else if Broken(segs) {
      BrokenStays(segs, more);
    } else if !Tiles(nested, 0, |value|) {
      if !Broken(nested) { UnbrokenTiles(nested); }
      var i :| 0 <= i < |nested| - 1 && nested[i].end != nested[i + 1].start;
      assert all[|segs| + i].end != all[|segs| + i + 1].start;
    }
  }

  lemma StepFallsBehind(done: Rendering, piece: Piece, id: Source, fields: map<FieldName, Field>)
    requires done.Rendered? && Step(done, piece, id, fields).Rendered?
    requires EndOf(done.segments) <= |done.text|
    requires piece.field.Some? && piece.field.value in fields ==> FieldProper(fields[piece.field.value])
    ensures var r := Step(done, piece, id, fields);
            EndOf(r.segments) <= |r.text|
    ensures var r := Step(done, piece, id, fields);
            Behind(done.segments, |done.text|) ==> Behind(r.segments, |r.text|)
    ensures var r := Step(done, piece, id, fields);
            piece.field.Some? && !FieldTiles(fields[piece.field.value]) ==> Behind(r.segments, |r.text|)
  {
    AppendStaysBehind(done.segments, |done.text|, |piece.literal|, [id]);
    var segs := AppendOwned(done.segments, |piece.literal|, [id]);
    var n := |done.text| + |piece.literal|;
    if piece.field.Some? {
      match fields[piece.field.value]
      case Owned(value, ids) =>
        AppendStaysBehind(segs, n, |value|, ids);
      case Nested(value, nested) =>
        if !Tiles(nested, 0, |value|) || Behind(segs, n) {
          NestedFallsBehind(segs, n, value, nested);
        } else {
          assert EndOf(segs + Placed(nested, EndOf(segs))) <= n + |value| by {
            if nested == [] { assert segs + Placed(nested, EndOf(segs)) == segs; }
          }
        }
    }
  }

  /** The field of the last piece, if it is in use, and those before. */
  lemma UsedSplits(pieces: seq<Piece>, fields: map<FieldName, Field>)
    requires pieces != []
    ensures var front, last := pieces[..|pieces| - 1], pieces[|pieces| - 1];
            var used := last.field.Some? && last.field.value in fields;
            && (UsedTile(pieces, fields) <==>
                  UsedTile(front, fields) && (used ==> FieldTiles(fields[last.field.value])))
            && (UsedProper(pieces, fields) ==>
                  UsedProper(front, fields) && (used ==> FieldProper(fields[last.field.value])))
  {
    assert pieces == pieces[..|pieces| - 1] + [pieces[|pieces| - 1]];
  }

  lemma {:induction false} RenderFallsBehind(pieces: seq<Piece>, id: Source, fields: map<FieldName, Field>)
    requires Render(pieces, id, fields).Rendered? && UsedProper(pieces, fields)
    ensures EndOf(Render(pieces, id, fields).segments) <= |Render(pieces, id, fields).text|
    ensures !UsedTile(pieces, fields) ==> Behind(Render(pieces, id, fields).segments, |Render(pieces, id, fields).text|)
  {
    if pieces != [] {
      var front := pieces[..|pieces| - 1];
      UsedSplits(pieces, fields);
      RenderFallsBehind(front, id, fields);
      StepFallsBehind(Render(front, id, fields), pieces[|pieces| - 1], id, fields);
    }
  }

  /** A rendered template is tiled exactly when every nested field in use tiles its
      value. The code checks less: only the first start and the last end of a
      non-empty list. */
  lemma RenderTilesExactlyWhen(pieces: seq<Piece>, id: Source, fields: map<FieldName, Field>)
    requires Render(pieces, id, fields).Rendered? && UsedProper(pieces, fields)
    ensures var r := Render(pieces, id, fields);
            Tiles(r.segments, 0, |r.text|) <==> UsedTile(pieces, fields)
  {
    if UsedTile(pieces, fields) {
      RenderTiles(pieces, id, fields);
    } else {
      RenderFallsBehind(pieces, id, fields);
      var r := Render(pieces, id, fields);
      BehindIsNoTiling(r.segments, |r.text|);
    }
  }

  /** An empty list of segments for a value that is not empty passes the check and
      loses the value's ownership. */
  lemma EmptyOwnershipIsLost(value: Text, id: Source)
    requires value != []
    ensures var r := Render([Piece([], Some(Unknown("f")), true)], id, map[Unknown("f") := Nested(value, [])]);
            r.Rendered? && r.text == value && r.segments == []
  {
    var pieces := [Piece([], Some(Unknown("f")), true)];
    var fields: map<FieldName, Field> := map[Unknown("f") := Nested(value, [])];
    assert pieces[..0] == [];
    assert Render(pieces[..|pieces| - 1], id, fields) == Rendered([], []);
  }
}
