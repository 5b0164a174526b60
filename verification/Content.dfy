/**
 * Attributing the text that one middleware contributes to the system prompt
 * (`_content_segments`, edd/prompt_census.py).
 */
module Content {
  import opened Common
  import opened Search
  import opened Spans
  import opened Template
  import R = Replacement

  type Fixture = R.Fixture

  datatype Skill = Skill(id: Source, name: Text, description: Text)

  /** What the census knows beside the text: the prompt templates as parsed, the fixed
      words of the formatters, the recorded sources, and Python's character tests. */
  datatype Env = Env(
    skillsTemplate: seq<Piece>, memoryTemplate: seq<Piece>, threadTemplate: seq<Piece>,
    bullet: Text, colon: Text, newline: Text,
    noSkills: Text, noMemory: Text, noThreadMemory: Text,
    skills: seq<Skill>, place: Option<Fixture>, agentMemory: seq<Fixture>, threadMemory: seq<Fixture>,
    sourceOf: map<Owner, Source>,
    space: Code -> bool, printable: Code -> bool, marker: Text)

  /** What the regular expressions find in the contributed text. */
  datatype Scans = Scans(tools: Option<Text>, memoryPath: Option<Text>, hasThread: bool, threadPath: Option<Text>)

  datatype Draft = Draft(text: Text, segs: seq<Segment>)

  ghost predicate Tiled(d: Draft) { Tiles(d.segs, 0, |d.text|) && Unowned(d.segs) }

  function Put(d: Draft, value: Text, source: Source): Draft {
    Draft(d.text + value, AppendOwned(d.segs, |value|, [source]))
  }

  lemma PutTiled(d: Draft, value: Text, source: Source)
    requires Tiled(d)
    ensures Tiled(Put(d, value, source))
    ensures Tags(Put(d, value, source).segs) == Tags(d.segs) + Repeat(Tag([source], None), |value|)
  {
    AppendOwnedTiles(d.segs, |d.text|, |value|, [source]);
  }

  /** Pieces of text, each with its source. */
  function PutAll(d: Draft, pieces: seq<(Text, Source)>): Draft {
    if pieces == [] then d
    else
      var last := pieces[|pieces| - 1];
      Put(PutAll(d, pieces[..|pieces| - 1]), last.0, last.1)
  }

  function PieceTags(pieces: seq<(Text, Source)>): seq<Tag> {
    if pieces == [] then []
    else
      var last := pieces[|pieces| - 1];
      PieceTags(pieces[..|pieces| - 1]) + Repeat(Tag([last.1], None), |last.0|)
  }

  lemma {:induction false} PutAllTiled(d: Draft, pieces: seq<(Text, Source)>)
    requires Tiled(d)
    ensures Tiled(PutAll(d, pieces)) && Tags(PutAll(d, pieces).segs) == Tags(d.segs) + PieceTags(pieces)
  {
    if pieces != [] {
      var front := pieces[..|pieces| - 1];
      var last := pieces[|pieces| - 1];
      PutAllTiled(d, front);
      PutTiled(PutAll(d, front), last.0, last.1);
      assert (Tags(d.segs) + PieceTags(front)) + Repeat(Tag([last.1], None), |last.0|)
          == Tags(d.segs) + (PieceTags(front) + Repeat(Tag([last.1], None), |last.0|));
    }
  }

  // ------------------------------------------------------------------
  // The skill listing
  // ------------------------------------------------------------------

  /** One line of the listing. */
  function SkillPieces(s: Skill, env: Env): seq<(Text, Source)> {
    [(env.bullet, SkillsFormatter), (s.name, s.id), (env.colon, SkillsFormatter), (s.description, s.id)]
  }

  function ListingPieces(n: nat, env: Env): seq<(Text, Source)>
    requires n <= |env.skills|
  {
    if n == 0 then []
    else
      ListingPieces(n - 1, env)
      + (if n > 1 then [(env.newline, SkillsFormatter)] else [])
      + SkillPieces(env.skills[n - 1], env)
  }

  function Listing(env: Env): Draft {
    if env.skills == [] then Put(Draft([], []), env.noSkills, SkillsFormatter)
    else PutAll(Draft([], []), ListingPieces(|env.skills|, env))
  }

  lemma {:induction false} PutAllSum(d: Draft, a: seq<(Text, Source)>, b: seq<(Text, Source)>)
    ensures PutAll(d, a + b) == PutAll(PutAll(d, a), b)
  {
    if b == [] {
      assert a + b == a;
    } else {
      var front := b[..|b| - 1];
      PutAllSum(d, a, front);
      assert (a + b)[..|a + b| - 1] == a + front;
    }
  }

  /** The inner loop of the listing. */
  method AppendPieces(d: Draft, pieces: seq<(Text, Source)>) returns (r: Draft)
    ensures r == PutAll(d, pieces)
  {
    r := d;
    for i := 0 to |pieces|
      invariant r == PutAll(d, pieces[..i])
    {
      assert pieces[..i + 1][..i] == pieces[..i];
      r := Put(r, pieces[i].0, pieces[i].1);
    }
    assert pieces[..|pieces|] == pieces;
  }

  method SkillListing(env: Env) returns (r: Draft)
    ensures r == Listing(env)
  {
    r := Draft([], []);
    for i := 0 to |env.skills|
      invariant r == PutAll(Draft([], []), ListingPieces(i, env))
    {
      ghost var before := ListingPieces(i, env);
      if i > 0 {
        r := Put(r, env.newline, SkillsFormatter);
        PutAllSum(Draft([], []), before, [(env.newline, SkillsFormatter)]);
        AssertOne(PutAll(Draft([], []), before), env.newline, SkillsFormatter);
        before := before + [(env.newline, SkillsFormatter)];
      } else {
        assert before + [] == before;
      }
      PutAllSum(Draft([], []), before, SkillPieces(env.skills[i], env));
      r := AppendPieces(r, SkillPieces(env.skills[i], env));
    }
    if env.skills == [] {
      r := Put(r, env.noSkills, SkillsFormatter);
    }
  }

  lemma AssertOne(d: Draft, value: Text, source: Source)
    ensures PutAll(d, [(value, source)]) == Put(d, value, source)
  {
    assert [(value, source)][..0] == [];
  }

  // ------------------------------------------------------------------
  // Who writes which character
  // ------------------------------------------------------------------

  /** `n` characters written by one source. */
  function By(source: Source, n: nat): seq<Tag> { Repeat(Tag([source], None), n) }

  /** The first `n` lines of the listing: the formatter writes the decoration, each skill
      its own name and description. */
  function ListingTags(n: nat, env: Env): seq<Tag>
    requires n <= |env.skills|
  {
    if n == 0 then []
    else
      var s := env.skills[n - 1];
      ListingTags(n - 1, env)
      + By(SkillsFormatter, if n == 1 then 0 else |env.newline|)
      + By(SkillsFormatter, |env.bullet|) + By(s.id, |s.name|)
      + By(SkillsFormatter, |env.colon|) + By(s.id, |s.description|)
  }

  function AllListingTags(env: Env): seq<Tag> {
    if env.skills == [] then By(SkillsFormatter, |env.noSkills|) else ListingTags(|env.skills|, env)
  }

  /** A recorded memory is its fixture's, the words that stand for none the formatter's. */
  function RecordedTags(matches: seq<Fixture>, none: Text): seq<Tag> {
    if matches == [] then By(MemoryFormatter, |none|) else By(matches[0].id, |matches[0].value|)
  }

  /** A template with its fields filled in: literals are the template's. */
  function FilledTags(pieces: seq<Piece>, id: Source, labels: map<FieldName, seq<Tag>>): seq<Tag> {
    if pieces == [] then []
    else
      var last := pieces[|pieces| - 1];
      FilledTags(pieces[..|pieces| - 1], id, labels) + By(id, |last.literal|)
      + (if last.field.Some? && last.field.value in labels then labels[last.field.value] else [])
  }

  function SkillsTags(tools: Text, env: Env): seq<Tag> {
    FilledTags(env.skillsTemplate, SkillsTemplate,
      map[SkillsList := AllListingTags(env), ToolsAvailable := By(SkillsModule, |tools|)])
  }

  function RepoTags(path: Text, env: Env): seq<Tag> {
    FilledTags(env.memoryTemplate, MemoryTemplate,
      map[AgentMemory := RecordedTags(env.agentMemory, env.noMemory), MemoryPath := By(AgentModule, |path|)])
  }

  function ThreadTags(path: Text, threadPath: Text, env: Env): seq<Tag> {
    FilledTags(env.threadTemplate, ThreadTemplate,
      map[RepoPrompt := RepoTags(path, env),
          ThreadMemory := RecordedTags(env.threadMemory, env.noThreadMemory),
          RepoMemoryPath := By(AgentModule, |path|),
          ThreadMemoryPath := By(AgentModule, |threadPath|)])
  }

  /** A middleware's own source but for the fixture that the rider quotes. */
  function PlainTags(owner: Owner, text: Text, env: Env): seq<Tag>
    requires owner in env.sourceOf
  {
    var source := env.sourceOf[owner];
    var start := if owner == RiderOwner && env.place.Some? then Find(text, env.place.value.value, 0) else None;
    if start.None? then By(source, |text|)
    else
      var f := env.place.value;
      By(source, start.value) + By(f.id, |f.value|) + By(source, |text| - start.value - |f.value|)
  }

  /** What a middleware writes, without a separator before it. */
  function OwnTags(owner: Owner, text: Text, scans: Scans, env: Env): seq<Tag> {
    match owner
    case SkillsOwner => if scans.tools.None? then [] else SkillsTags(scans.tools.value, env)
    case MemoryOwner =>
      if scans.memoryPath.None? then []
      else if !scans.hasThread then RepoTags(scans.memoryPath.value, env)
      else if scans.threadPath.None? then []
      else ThreadTags(scans.memoryPath.value, scans.threadPath.value, env)
    case _ => if owner in env.sourceOf then PlainTags(owner, text, env) else []
  }

  /** Who writes each character of what a middleware contributes: a separator that is
      not its own text's is the middleware's source's. */
  function ExpectedTags(owner: Owner, text: Text, scans: Scans, env: Env): seq<Tag> {
    var own := OwnTags(owner, text, scans, env);
    if text == [] then []
    else if |own| < |text| && owner in env.sourceOf then By(env.sourceOf[owner], |text| - |own|) + own
    else own
  }

  // ------------------------------------------------------------------
  // The listing is tiled
  // ------------------------------------------------------------------

  lemma PieceTagsSum(a: seq<(Text, Source)>, last: (Text, Source))
    ensures PieceTags(a + [last]) == PieceTags(a) + By(last.1, |last.0|)
  {
    assert (a + [last])[..|a|] == a;
  }

  lemma LinePieces(front: seq<(Text, Source)>, s: Skill, env: Env)
    ensures PieceTags(front + SkillPieces(s, env))
            == PieceTags(front) + By(SkillsFormatter, |env.bullet|) + By(s.id, |s.name|)
               + By(SkillsFormatter, |env.colon|) + By(s.id, |s.description|)
  {
    var a := (env.bullet, SkillsFormatter);
    var b, c, d := (s.name, s.id), (env.colon, SkillsFormatter), (s.description, s.id);
    PieceTagsSum(front, a);
    PieceTagsSum(front + [a], b);
    PieceTagsSum(front + [a] + [b], c);
    PieceTagsSum(front + [a] + [b] + [c], d);
    assert front + SkillPieces(s, env) == front + [a] + [b] + [c] + [d];
  }

  lemma {:induction false} ListingPieceTags(n: nat, env: Env)
    requires n <= |env.skills|
    ensures PieceTags(ListingPieces(n, env)) == ListingTags(n, env)
  {
    if n > 0 {
      ListingPieceTags(n - 1, env);
      var front := ListingPieces(n - 1, env);
      if n > 1 {
        PieceTagsSum(front, (env.newline, SkillsFormatter));
        LinePieces(front + [(env.newline, SkillsFormatter)], env.skills[n - 1], env);
      } else {
        assert front + [] == front;
        LinePieces(front, env.skills[n - 1], env);
        assert ListingTags(0, env) + By(SkillsFormatter, 0) == ListingTags(0, env);
      }
    }
  }

  lemma ListingTiled(env: Env)
    ensures Tiled(Listing(env))
    ensures Tags(Listing(env).segs) == AllListingTags(env)
  {
    PutTiled(Draft([], []), env.noSkills, SkillsFormatter);
    PutAllTiled(Draft([], []), ListingPieces(|env.skills|, env));
    ListingPieceTags(|env.skills|, env);
  }

  // ------------------------------------------------------------------
  // The three kinds of plan
  // ------------------------------------------------------------------

  function FromTemplate(r: Rendering): Option<Draft> {
    if r.Rendered? then Some(Draft(r.text, r.segments)) else None
  }

  function SkillsFields(tools: Text, env: Env): map<FieldName, Field> {
    map[SkillsList := Nested(Listing(env).text, Listing(env).segs),
        ToolsAvailable := Owned(tools, [SkillsModule])]
  }

  /** The fixture recorded for a name, or the literal; None if several are recorded. */
  function FixtureOrLiteral(matches: seq<Fixture>, literal: Text, id: Source): Option<Fixture> {
    if matches == [] then Some(R.Fixture(literal, id))
    else if |matches| != 1 then None
    else Some(matches[0])
  }

  function MemoryFields(memory: Fixture, path: Text): map<FieldName, Field> {
    map[AgentMemory := Owned(memory.value, [memory.id]), MemoryPath := Owned(path, [AgentModule])]
  }

  function ThreadFields(repo: Draft, memory: Fixture, path: Text, threadPath: Text): map<FieldName, Field> {
    map[RepoPrompt := Nested(repo.text, repo.segs),
        ThreadMemory := Owned(memory.value, [memory.id]),
        RepoMemoryPath := Owned(path, [AgentModule]),
        ThreadMemoryPath := Owned(threadPath, [AgentModule])]
  }

  function SkillsPlan(scans: Scans, env: Env): Option<Draft> {
    if scans.tools.None? then None
    else FromTemplate(Render(env.skillsTemplate, SkillsTemplate, SkillsFields(scans.tools.value, env)))
  }

  function RepoPlan(scans: Scans, env: Env): Option<Draft> {
    var memory := FixtureOrLiteral(env.agentMemory, env.noMemory, MemoryFormatter);
    if memory.None? || scans.memoryPath.None? then None
    else FromTemplate(Render(env.memoryTemplate, MemoryTemplate, MemoryFields(memory.value, scans.memoryPath.value)))
  }

  function MemoryPlan(scans: Scans, env: Env): Option<Draft> {
    var repo := RepoPlan(scans, env);
    if repo.None? || !scans.hasThread then repo
    else
      var memory := FixtureOrLiteral(env.threadMemory, env.noThreadMemory, MemoryFormatter);
      if memory.None? || scans.threadPath.None? then None
      else FromTemplate(Render(env.threadTemplate, ThreadTemplate,
             ThreadFields(repo.value, memory.value, scans.memoryPath.value, scans.threadPath.value)))
  }

  function WholeText(text: Text, source: Source): Draft { PutAll(Draft([], []), [(text, source)]) }

  function AroundPlace(text: Text, source: Source, f: Fixture, start: nat): Draft
    requires start + |f.value| <= |text|
  {
    var end := start + |f.value|;
    PutAll(Draft([], []), [(text[..start], source), (text[start..end], f.id), (text[end..], source)])
  }

  /** Text of one source, split around the recorded place where the rider has one. */
  function PlainPlan(owner: Owner, text: Text, env: Env): Option<Draft> {
    if owner !in env.sourceOf then None
    else
      var source := env.sourceOf[owner];
      if owner == RiderOwner && env.place.Some? then
        var f := env.place.value;
        var start := Find(text, f.value, 0);
        if start.None? then None else Some(AroundPlace(text, source, f, start.value))
      else Some(WholeText(text, source))
  }

  function Plan(owner: Owner, text: Text, scans: Scans, env: Env): Option<Draft> {
    match owner
    case SkillsOwner => SkillsPlan(scans, env)
    case MemoryOwner => MemoryPlan(scans, env)
    case _ => PlainPlan(owner, text, env)
  }

  // ------------------------------------------------------------------
  // Every plan tiles what it renders
  // ------------------------------------------------------------------

  /** The fields' values are written as these labels say. */
  ghost predicate Labelled(fields: map<FieldName, Field>, labels: map<FieldName, seq<Tag>>) {
    && fields.Keys == labels.Keys
    && forall k :: k in fields ==> FieldTiles(fields[k]) && FieldTags(fields[k]) == labels[k]
  }

  lemma {:induction false} LabelledTags(pieces: seq<Piece>, id: Source, fields: map<FieldName, Field>,
                                         labels: map<FieldName, seq<Tag>>)
    requires Labelled(fields, labels)
    ensures TemplateTags(pieces, id, fields) == FilledTags(pieces, id, labels)
  {
    if pieces != [] {
      LabelledTags(pieces[..|pieces| - 1], id, fields, labels);
      var last := pieces[|pieces| - 1];
      var rest := FilledTags(pieces[..|pieces| - 1], id, labels);
      var value := if last.field.Some? && last.field.value in labels then labels[last.field.value] else [];
      assert rest + (By(id, |last.literal|) + value) == rest + By(id, |last.literal|) + value;
    }
  }

  lemma FieldsTile(pieces: seq<Piece>, id: Source, fields: map<FieldName, Field>, labels: map<FieldName, seq<Tag>>)
    requires Labelled(fields, labels) && Render(pieces, id, fields).Rendered?
    ensures var r := Render(pieces, id, fields);
            Tiled(Draft(r.text, r.segments)) && Tags(r.segments) == FilledTags(pieces, id, labels)
  {
    RenderTiles(pieces, id, fields);
    LabelledTags(pieces, id, fields, labels);
  }

  lemma NestedLabels(d: Draft)
    requires Tiled(d)
    ensures FieldTiles(Nested(d.text, d.segs)) && FieldTags(Nested(d.text, d.segs)) == Tags(d.segs)
  {
    PlacedUnowned(d.segs);
  }

  lemma SkillsPlanTiled(scans: Scans, env: Env)
    requires SkillsPlan(scans, env).Some?
    ensures Tiled(SkillsPlan(scans, env).value)
    ensures Tags(SkillsPlan(scans, env).value.segs) == SkillsTags(scans.tools.value, env)
  {
    ListingTiled(env);
    NestedLabels(Listing(env));
    var labels :=
      map[SkillsList := AllListingTags(env), ToolsAvailable := By(SkillsModule, |scans.tools.value|)];
    FieldsTile(env.skillsTemplate, SkillsTemplate, SkillsFields(scans.tools.value, env), labels);
  }

  lemma RepoPlanTiled(scans: Scans, env: Env)
    requires RepoPlan(scans, env).Some?
    ensures Tiled(RepoPlan(scans, env).value)
    ensures Tags(RepoPlan(scans, env).value.segs) == RepoTags(scans.memoryPath.value, env)
  {
    var memory, path := FixtureOrLiteral(env.agentMemory, env.noMemory, MemoryFormatter).value, scans.memoryPath.value;
    var labels :=
      map[AgentMemory := RecordedTags(env.agentMemory, env.noMemory), MemoryPath := By(AgentModule, |path|)];
    FieldsTile(env.memoryTemplate, MemoryTemplate, MemoryFields(memory, path), labels);
  }

  lemma MemoryPlanTiled(scans: Scans, env: Env)
    requires MemoryPlan(scans, env).Some?
    ensures Tiled(MemoryPlan(scans, env).value)
    ensures Tags(MemoryPlan(scans, env).value.segs)
            == if scans.hasThread then ThreadTags(scans.memoryPath.value, scans.threadPath.value, env)
               else RepoTags(scans.memoryPath.value, env)
  {
    RepoPlanTiled(scans, env);
    if scans.hasThread {
      var repo := RepoPlan(scans, env).value;
      var memory := FixtureOrLiteral(env.threadMemory, env.noThreadMemory, MemoryFormatter).value;
      var path, threadPath := scans.memoryPath.value, scans.threadPath.value;
      NestedLabels(repo);
      var labels :=
        map[RepoPrompt := RepoTags(path, env),
            ThreadMemory := RecordedTags(env.threadMemory, env.noThreadMemory),
            RepoMemoryPath := By(AgentModule, |path|),
            ThreadMemoryPath := By(AgentModule, |threadPath|)];
      FieldsTile(env.threadTemplate, ThreadTemplate, ThreadFields(repo, memory, path, threadPath), labels);
    }
  }

  lemma WholeTextTiled(text: Text, source: Source)
    ensures Tiled(WholeText(text, source)) && Tags(WholeText(text, source).segs) == By(source, |text|)
  {
    var none: seq<(Text, Source)>, a := [], (text, source);
    PutAllTiled(Draft([], []), [a]);
    PieceTagsSum(none, a);
    assert none + [a] == [a];
  }

  lemma ThreePieceTags(a: (Text, Source), b: (Text, Source), c: (Text, Source))
    ensures PieceTags([a, b, c]) == By(a.1, |a.0|) + By(b.1, |b.0|) + By(c.1, |c.0|)
  {
    var none: seq<(Text, Source)> := [];
    PieceTagsSum(none, a);
    PieceTagsSum([a], b);
    PieceTagsSum([a, b], c);
    assert none + [a] == [a] && [a] + [b] == [a, b] && [a, b] + [c] == [a, b, c];
  }

  lemma ThreePiecesTiled(a: (Text, Source), b: (Text, Source), c: (Text, Source))
    ensures var d := PutAll(Draft([], []), [a, b, c]);
            Tiled(d) && Tags(d.segs) == By(a.1, |a.0|) + By(b.1, |b.0|) + By(c.1, |c.0|)
  {
    PutAllTiled(Draft([], []), [a, b, c]);
    ThreePieceTags(a, b, c);
  }

  /** Text around a place in it. */
  lemma AroundPlaceTiled(text: Text, source: Source, f: Fixture, start: nat)
    requires start + |f.value| <= |text|
    ensures Tiled(AroundPlace(text, source, f, start))
    ensures Tags(AroundPlace(text, source, f, start).segs)
            == By(source, start) + By(f.id, |f.value|) + By(source, |text| - start - |f.value|)
  {
    var end := start + |f.value|;
    ThreePiecesTiled((text[..start], source), (text[start..end], f.id), (text[end..], source));
  }

  lemma PlainPlanTiled(owner: Owner, text: Text, env: Env)
    requires PlainPlan(owner, text, env).Some?
    ensures Tiled(PlainPlan(owner, text, env).value)
    ensures Tags(PlainPlan(owner, text, env).value.segs) == PlainTags(owner, text, env)
  {
    var source := env.sourceOf[owner];
    if owner == RiderOwner && env.place.Some? {
      AroundPlaceTiled(text, source, env.place.value, Find(text, env.place.value.value, 0).value);
    } else {
      WholeTextTiled(text, source);
    }
  }

  lemma PlanTiled(owner: Owner, text: Text, scans: Scans, env: Env)
    requires Plan(owner, text, scans, env).Some?
    ensures Tiled(Plan(owner, text, scans, env).value)
    ensures Tags(Plan(owner, text, scans, env).value.segs) == OwnTags(owner, text, scans, env)
  {
    if owner == SkillsOwner {
      SkillsPlanTiled(scans, env);
    } else if owner == MemoryOwner {
      MemoryPlanTiled(scans, env);
    } else {
      PlainPlanTiled(owner, text, env);
    }
  }

  // ------------------------------------------------------------------
  // Fitting the plan to the observed text
  // ------------------------------------------------------------------

  predicate Blank(text: Text, space: Code -> bool) {
    forall i :: 0 <= i < |text| ==> space(text[i])
  }

  /** The plan's segments, moved behind a blank separator if the text starts with one;
      None when the rendering is not the observed text. */
  function Fit(owner: Owner, text: Text, d: Draft, env: Env): Option<seq<Segment>> {
    var k := |text| - |d.text|;
    if d.text == text then Some(d.segs)
    else if k > 0 && text[k..] == d.text && Blank(text[..k], env.space) && owner in env.sourceOf then
      Some([Segment(0, k, Tag([env.sourceOf[owner]], None))] + Placed(d.segs, k))
    else None
  }

  lemma {:induction false} PlacedUnowned(segs: seq<Segment>)
    requires Unowned(segs)
    ensures Placed(segs, 0) == segs
  {
    forall i | 0 <= i < |segs| ensures Placed(segs, 0)[i] == segs[i] {
      assert segs[i].tag.owner == None;
    }
  }

  lemma BehindSeparator(segs: seq<Segment>, k: nat, n: nat, tag: Tag)
    requires Tiles(segs, 0, n) && Unowned(segs) && k > 0 && tag.owner.None?
    ensures var r := [Segment(0, k, tag)] + Placed(segs, k);
            Tiles(r, 0, k + n) && Unowned(r) && Tags(r) == Repeat(tag, k) + Tags(segs)
  {
    AddTiles([], 0, 0, k, tag);
    PlacedTiles(segs, 0, n, k);
    PlacedUnowned(segs);
    assert [Segment(0, k, tag)] == Add([], 0, k, tag);
    Concat([Segment(0, k, tag)], Placed(segs, k), 0, k, k + n);
  }

  /** The two ways to fit. */
  lemma FitIs(owner: Owner, text: Text, d: Draft, env: Env)
    requires Fit(owner, text, d, env).Some?
    ensures if |d.text| == |text| then Fit(owner, text, d, env) == Some(d.segs)
            else |d.text| < |text| && owner in env.sourceOf
                 && var k := |text| - |d.text|;
                    var separator := Segment(0, k, Tag([env.sourceOf[owner]], None));
                    Fit(owner, text, d, env) == Some([separator] + Placed(d.segs, k))
  {
  }

  lemma FitTiles(owner: Owner, text: Text, d: Draft, env: Env)
    requires Tiled(d) && Fit(owner, text, d, env).Some?
    ensures Tiled(Draft(text, Fit(owner, text, d, env).value))
    ensures Tags(Fit(owner, text, d, env).value)
            == if |d.text| == |text| then Tags(d.segs)
               else By(env.sourceOf[owner], |text| - |d.text|) + Tags(d.segs)
  {
    FitIs(owner, text, d, env);
    if |d.text| < |text| {
      BehindSeparator(d.segs, |text| - |d.text|, |d.text|, Tag([env.sourceOf[owner]], None));
    }
  }

  /** `_content_segments`, but for the rider's replacement. */
  function SegmentsOf(owner: Owner, text: Text, scans: Scans, env: Env): Option<seq<Segment>> {
    if text == [] then Some([])
    else
      var plan := Plan(owner, text, scans, env);
      if plan.None? then None else Fit(owner, text, plan.value, env)
  }

  /** The separator is what the plan's own tags leave of the text. */
  lemma SeparatorTags(owner: Owner, text: Text, scans: Scans, env: Env, d: Draft)
    requires Tiled(d) && Tags(d.segs) == OwnTags(owner, text, scans, env)
    requires Fit(owner, text, d, env).Some? && text != []
    ensures ExpectedTags(owner, text, scans, env)
            == if |d.text| == |text| then Tags(d.segs) else By(env.sourceOf[owner], |text| - |d.text|) + Tags(d.segs)
  {
    TilesLength(d.segs, 0, |d.text|);
  }

  /** Whatever a middleware contributes is attributed without gap or overlap, and to
      whoever writes it, or the census stops. */
  lemma ContentTiles(owner: Owner, text: Text, scans: Scans, env: Env)
    requires SegmentsOf(owner, text, scans, env).Some?
    ensures Tiles(SegmentsOf(owner, text, scans, env).value, 0, |text|)
    ensures Unowned(SegmentsOf(owner, text, scans, env).value)
    ensures Tags(SegmentsOf(owner, text, scans, env).value) == ExpectedTags(owner, text, scans, env)
  {
    if text != [] {
      var plan := Plan(owner, text, scans, env);
      PlanTiled(owner, text, scans, env);
      PlanFits(owner, text, scans, env, plan.value);
    }
  }

  lemma PlanFits(owner: Owner, text: Text, scans: Scans, env: Env, d: Draft)
    requires Tiled(d) && Tags(d.segs) == OwnTags(owner, text, scans, env)
    requires Fit(owner, text, d, env).Some? && text != []
    ensures var segs := Fit(owner, text, d, env).value;
            && Tiles(segs, 0, |text|) && Unowned(segs) && Tags(segs) == ExpectedTags(owner, text, scans, env)
  {
    FitTiles(owner, text, d, env);
    SeparatorTags(owner, text, scans, env, d);
  }

  // ------------------------------------------------------------------
  // When the census goes on
  // ------------------------------------------------------------------

  /** The first `n` lines of the listing. */
  function ListingText(n: nat, env: Env): Text
    requires n <= |env.skills|
  {
    if n == 0 then []
    else
      var s := env.skills[n - 1];
      ListingText(n - 1, env) + (if n == 1 then [] else env.newline)
      + env.bullet + s.name + env.colon + s.description
  }

  function AllListingText(env: Env): Text {
    if env.skills == [] then env.noSkills else ListingText(|env.skills|, env)
  }

  /** A template with its fields filled in; only plain fields with a value can be. */
  function FilledText(pieces: seq<Piece>, values: map<FieldName, Text>): Text {
    if pieces == [] then []
    else
      var last := pieces[|pieces| - 1];
      FilledText(pieces[..|pieces| - 1], values) + last.literal
      + (if last.field.Some? && last.field.value in values then values[last.field.value] else [])
  }

  predicate Fillable(pieces: seq<Piece>, names: set<FieldName>) {
    forall i :: 0 <= i < |pieces| && pieces[i].field.Some? ==> pieces[i].plain && pieces[i].field.value in names
  }

  function Filled(pieces: seq<Piece>, values: map<FieldName, Text>): Option<Text> {
    if Fillable(pieces, values.Keys) then Some(FilledText(pieces, values)) else None
  }

  /** The one recorded memory, or the words that stand for none. */
  function RecordedText(matches: seq<Fixture>, none: Text): Option<Text> {
    if |matches| > 1 then None else Some(if matches == [] then none else matches[0].value)
  }

  function RepoText(scans: Scans, env: Env): Option<Text> {
    var memory := RecordedText(env.agentMemory, env.noMemory);
    if memory.None? || scans.memoryPath.None? then None
    else Filled(env.memoryTemplate, map[AgentMemory := memory.value, MemoryPath := scans.memoryPath.value])
  }

  function ThreadText(scans: Scans, env: Env): Option<Text> {
    var repo, memory := RepoText(scans, env), RecordedText(env.threadMemory, env.noThreadMemory);
    if repo.None? || memory.None? || scans.threadPath.None? then None
    else
      Filled(env.threadTemplate,
        map[RepoPrompt := repo.value, ThreadMemory := memory.value,
            RepoMemoryPath := scans.memoryPath.value, ThreadMemoryPath := scans.threadPath.value])
  }

  /** What a middleware writes, if the census can tell. */
  function OwnText(owner: Owner, text: Text, scans: Scans, env: Env): Option<Text> {
    match owner
    case SkillsOwner =>
      if scans.tools.None? then None
      else Filled(env.skillsTemplate,
             map[SkillsList := AllListingText(env), ToolsAvailable := scans.tools.value])
    case MemoryOwner => if scans.hasThread then ThreadText(scans, env) else RepoText(scans, env)
    case _ =>
      if owner !in env.sourceOf then None
      else if owner == RiderOwner && env.place.Some? && Find(text, env.place.value.value, 0).None? then None
      else Some(text)
  }

  /** The observed text is the middleware's own, perhaps behind a blank separator. */
  predicate Observed(owner: Owner, text: Text, own: Text, env: Env) {
    || own == text
    || (|own| < |text| && text[|text| - |own|..] == own && Blank(text[..|text| - |own|], env.space)
        && owner in env.sourceOf)
  }

  predicate Attributable(owner: Owner, text: Text, scans: Scans, env: Env) {
    text == [] || (OwnText(owner, text, scans, env).Some?
                   && Observed(owner, text, OwnText(owner, text, scans, env).value, env))
  }

  /** The fields have these values, and those made of segments pass the census' check. */
  ghost predicate Valued(fields: map<FieldName, Field>, values: map<FieldName, Text>) {
    && fields.Keys == values.Keys
    && forall k :: k in fields ==>
         fields[k].value == values[k] && (fields[k].Nested? ==> Complete(fields[k].segments, |fields[k].value|))
  }

  lemma {:induction false} RendersFilled(pieces: seq<Piece>, id: Source, fields: map<FieldName, Field>,
                                          values: map<FieldName, Text>)
    requires Valued(fields, values)
    ensures Render(pieces, id, fields).Rendered? <==> Fillable(pieces, values.Keys)
    ensures Render(pieces, id, fields).Rendered? ==> Render(pieces, id, fields).text == FilledText(pieces, values)
  {
    if pieces != [] {
      var front, last := pieces[..|pieces| - 1], pieces[|pieces| - 1];
      RendersFilled(front, id, fields, values);
      FillableSnoc(front, last, values.Keys);
      assert pieces == front + [last];
    }
  }

  lemma FillableSnoc(front: seq<Piece>, last: Piece, names: set<FieldName>)
    ensures Fillable(front + [last], names)
            <==> Fillable(front, names) && (last.field.Some? ==> last.plain && last.field.value in names)
  {
    assert (front + [last])[|front|] == last;
    assert forall i :: 0 <= i < |front| ==> (front + [last])[i] == front[i];
  }

  lemma TilesIsComplete(d: Draft)
    requires Tiled(d)
    ensures Complete(d.segs, |d.text|)
  {
    TilesStart(d.segs, 0, |d.text|);
  }

  lemma {:induction false} PutAllText(d: Draft, pieces: seq<(Text, Source)>, last: (Text, Source))
    ensures PutAll(d, pieces + [last]).text == PutAll(d, pieces).text + last.0
  {
    assert (pieces + [last])[..|pieces|] == pieces;
  }

  lemma LineText(d: Draft, front: seq<(Text, Source)>, s: Skill, env: Env)
    ensures PutAll(d, front + SkillPieces(s, env)).text
            == PutAll(d, front).text + env.bullet + s.name + env.colon + s.description
  {
    var a, b := (env.bullet, SkillsFormatter), (s.name, s.id);
    var c, e := (env.colon, SkillsFormatter), (s.description, s.id);
    PutAllText(d, front, a);
    PutAllText(d, front + [a], b);
    PutAllText(d, front + [a] + [b], c);
    PutAllText(d, front + [a] + [b] + [c], e);
    assert front + SkillPieces(s, env) == front + [a] + [b] + [c] + [e];
  }

  lemma {:induction false} ListingTextIs(n: nat, env: Env)
    requires n <= |env.skills|
    ensures PutAll(Draft([], []), ListingPieces(n, env)).text == ListingText(n, env)
  {
    if n > 0 {
      ListingTextIs(n - 1, env);
      var d, front := Draft([], []), ListingPieces(n - 1, env);
      if n > 1 {
        PutAllText(d, front, (env.newline, SkillsFormatter));
        LineText(d, front + [(env.newline, SkillsFormatter)], env.skills[n - 1], env);
      } else {
        assert front + [] == front;
        LineText(d, front, env.skills[n - 1], env);
        assert ListingText(0, env) + [] == ListingText(0, env);
      }
    }
  }

  lemma ListingIs(env: Env)
    ensures Listing(env).text == AllListingText(env) && Complete(Listing(env).segs, |Listing(env).text|)
  {
    ListingTiled(env);
    TilesIsComplete(Listing(env));
    ListingTextIs(|env.skills|, env);
  }

  ghost predicate SameText(plan: Option<Draft>, own: Option<Text>) {
    (plan.Some? <==> own.Some?) && (plan.Some? ==> plan.value.text == own.value)
  }

  lemma SkillsText(scans: Scans, env: Env)
    ensures SameText(SkillsPlan(scans, env), OwnText(SkillsOwner, [], scans, env))
  {
    if scans.tools.Some? {
      ListingIs(env);
      RendersFilled(env.skillsTemplate, SkillsTemplate, SkillsFields(scans.tools.value, env),
                    map[SkillsList := AllListingText(env), ToolsAvailable := scans.tools.value]);
    }
  }

  lemma RepoTextIs(scans: Scans, env: Env)
    ensures SameText(RepoPlan(scans, env), RepoText(scans, env))
  {
    var memory := RecordedText(env.agentMemory, env.noMemory);
    if memory.Some? && scans.memoryPath.Some? {
      var fixture := FixtureOrLiteral(env.agentMemory, env.noMemory, MemoryFormatter).value;
      RendersFilled(env.memoryTemplate, MemoryTemplate, MemoryFields(fixture, scans.memoryPath.value),
                    map[AgentMemory := memory.value, MemoryPath := scans.memoryPath.value]);
    }
  }

  lemma ThreadTextIs(scans: Scans, env: Env)
    requires scans.hasThread
    ensures SameText(MemoryPlan(scans, env), ThreadText(scans, env))
  {
    RepoTextIs(scans, env);
    var repo, memory := RepoPlan(scans, env), RecordedText(env.threadMemory, env.noThreadMemory);
    if repo.Some? && memory.Some? && scans.threadPath.Some? {
      RepoPlanTiled(scans, env);
      TilesIsComplete(repo.value);
      var fixture := FixtureOrLiteral(env.threadMemory, env.noThreadMemory, MemoryFormatter).value;
      RendersFilled(env.threadTemplate, ThreadTemplate,
        ThreadFields(repo.value, fixture, scans.memoryPath.value, scans.threadPath.value),
        map[RepoPrompt := RepoText(scans, env).value, ThreadMemory := memory.value,
            RepoMemoryPath := scans.memoryPath.value, ThreadMemoryPath := scans.threadPath.value]);
    }
  }

  lemma PlainTextIs(owner: Owner, text: Text, scans: Scans, env: Env)
    requires owner != SkillsOwner && owner != MemoryOwner
    ensures SameText(PlainPlan(owner, text, env), OwnText(owner, text, scans, env))
  {
    if owner in env.sourceOf {
      var source := env.sourceOf[owner];
      AssertOne(Draft([], []), text, source);
      if owner == RiderOwner && env.place.Some? && Find(text, env.place.value.value, 0).Some? {
        AroundPlaceText(text, source, env.place.value, Find(text, env.place.value.value, 0).value);
      }
    }
  }

  lemma AroundPlaceText(text: Text, source: Source, f: Fixture, start: nat)
    requires start + |f.value| <= |text|
    ensures AroundPlace(text, source, f, start).text == text
  {
    var end := start + |f.value|;
    ThreePuts((text[..start], source), (text[start..end], f.id), (text[end..], source));
    ThreeParts(text, start, end);
  }

  lemma ThreeParts(text: Text, start: nat, end: nat)
    requires start <= end <= |text|
    ensures [] + text[..start] + text[start..end] + text[end..] == text
  {
  }

  /** The census attributes what a middleware contributes exactly when it can tell what that
      is, the scans and the recorded memories permitting, and observed just that. */
  lemma AttributableExactlyWhen(owner: Owner, text: Text, scans: Scans, env: Env)
    ensures SegmentsOf(owner, text, scans, env).Some? <==> Attributable(owner, text, scans, env)
  {
    match owner
    case SkillsOwner => SkillsText(scans, env);
    case MemoryOwner => if scans.hasThread { ThreadTextIs(scans, env); } else { RepoTextIs(scans, env); }
    case _ => PlainTextIs(owner, text, scans, env);
  }

  method PlanSkills(scans: Scans, env: Env) returns (r: Option<Draft>)
    ensures r == SkillsPlan(scans, env)
  {
    var listing := SkillListing(env);
    if scans.tools.None? {
      return None;
    }
    var fields := map[SkillsList := Nested(listing.text, listing.segs),
                      ToolsAvailable := Owned(scans.tools.value, [SkillsModule])];
    var rendered := RenderOwnedTemplate(env.skillsTemplate, SkillsTemplate, fields);
    r := FromTemplate(rendered);
  }

  method PlanMemory(scans: Scans, env: Env) returns (r: Option<Draft>)
    ensures r == MemoryPlan(scans, env)
  {
    var memory := FixtureOrLiteral(env.agentMemory, env.noMemory, MemoryFormatter);
    if memory.None? || scans.memoryPath.None? {
      return None;
    }
    var path := scans.memoryPath.value;
    var rendered := RenderOwnedTemplate(env.memoryTemplate, MemoryTemplate, MemoryFields(memory.value, path));
    r := FromTemplate(rendered);
    if r.None? || !scans.hasThread {
      return;
    }
    memory := FixtureOrLiteral(env.threadMemory, env.noThreadMemory, MemoryFormatter);
    if memory.None? || scans.threadPath.None? {
      return None;
    }
    rendered := RenderOwnedTemplate(env.threadTemplate, ThreadTemplate,
                                    ThreadFields(r.value, memory.value, path, scans.threadPath.value));
    r := FromTemplate(rendered);
  }

  /** The default branch: the text around at most one range of another source. */
  method PlanPlain(owner: Owner, text: Text, env: Env) returns (r: Option<Draft>)
    ensures r == PlainPlan(owner, text, env)
  {
    if owner !in env.sourceOf {
      return None;
    }
    var source := env.sourceOf[owner];
    var ranges: seq<(nat, nat, Source)> := [];
    if owner == RiderOwner && env.place.Some? {
      var start := Find(text, env.place.value.value, 0);
      if start.None? {
        return None;
      }
      ranges := [(start.value, start.value + |env.place.value.value|, env.place.value.id)];
    }
    var d, cursor := Draft([], []), 0;
    for i := 0 to |ranges|
      invariant i == 0 ==> d == Draft([], []) && cursor == 0
      invariant i == 1 ==> cursor == ranges[0].1 && d == BeforeAndIn(text, source, ranges[0])
    {
      d := Put(d, text[cursor..ranges[i].0], source);
      d := Put(d, text[ranges[i].0..ranges[i].1], ranges[i].2);
      cursor := ranges[i].1;
    }
    d := Put(d, text[cursor..], source);
    if ranges == [] {
      AssertOne(Draft([], []), text, source);
      assert text[0..] == text;
    } else {
      var (start, end, id) := ranges[0];
      ThreePuts((text[..start], source), (text[start..end], id), (text[end..], source));
    }
    r := Some(d);
  }

  function BeforeAndIn(text: Text, source: Source, range: (nat, nat, Source)): Draft
    requires range.0 <= range.1 <= |text|
  {
    Put(Put(Draft([], []), text[..range.0], source), text[range.0..range.1], range.2)
  }

  lemma ThreePuts(a: (Text, Source), b: (Text, Source), c: (Text, Source))
    ensures PutAll(Draft([], []), [a, b, c]) == Put(Put(Put(Draft([], []), a.0, a.1), b.0, b.1), c.0, c.1)
  {
    AssertOne(Draft([], []), a.0, a.1);
    PutAllSum(Draft([], []), [a], [b]);
    AssertOne(Put(Draft([], []), a.0, a.1), b.0, b.1);
    PutAllSum(Draft([], []), [a, b], [c]);
    AssertOne(Put(Put(Draft([], []), a.0, a.1), b.0, b.1), c.0, c.1);
    assert [a] + [b] == [a, b] && [a, b] + [c] == [a, b, c];
  }

  method ContentSegments(owner: Owner, text: Text, scans: Scans, env: Env) returns (r: Option<seq<Segment>>)
    ensures r == SegmentsOf(owner, text, scans, env)
  {
    if text == [] {
      return Some([]);
    }
    var plan: Option<Draft>;
    if owner == SkillsOwner {
      plan := PlanSkills(scans, env);
    } else if owner == MemoryOwner {
      plan := PlanMemory(scans, env);
    } else {
      plan := PlanPlain(owner, text, env);
    }
    r := if plan.None? then None else Fit(owner, text, plan.value, env);
  }
}
