/**
 * Python's `repr` of a string and the scanner of edd/prompt_census.py that maps its
 * escapes back to characters.
 */
module PythonRepr {
  import opened Common
  import opened Spans

  const BACKSLASH: Code := 92
  const QUOTE: Code := 39
  const DOUBLE: Code := 34

  /** Python quotes with ' unless the text has a ' and no ". */
  function QuoteFor(v: Text): Code {
    if QUOTE in v && DOUBLE !in v then DOUBLE else QUOTE
  }

  function HexDigit(d: nat): Code requires d < 16 { if d < 10 then 48 + d else 87 + d }

  function Hex(n: nat, width: nat): (r: Text)
    ensures |r| == width
  {
    if width == 0 then [] else Hex(n / 16, width - 1) + [HexDigit(n % 16)]
  }

  /** The escape of one character; `printable` is `str.isprintable` beyond ASCII. */
  function Escape(c: Code, quote: Code, printable: Code -> bool): (r: Text)
    ensures |r| >= 1
  {
    if c == quote || c == BACKSLASH then [BACKSLASH, c]
    else if c == 9 then [BACKSLASH, 116]
    else if c == 10 then [BACKSLASH, 110]
    else if c == 13 then [BACKSLASH, 114]
    else if c < 32 || c == 127 then [BACKSLASH, 120] + Hex(c, 2)
    else if c < 127 || printable(c) then [c]
    else if c <= 0xff then [BACKSLASH, 120] + Hex(c, 2)
    else if c <= 0xffff then [BACKSLASH, 117] + Hex(c, 4)
    else [BACKSLASH, 85] + Hex(c, 8)
  }

  function Interior(v: Text, quote: Code, printable: Code -> bool): Text {
    if v == [] then []
    else Interior(v[..|v| - 1], quote, printable) + Escape(v[|v| - 1], quote, printable)
  }

  function Repr(v: Text, printable: Code -> bool): Text {
    [QuoteFor(v)] + Interior(v, QuoteFor(v), printable) + [QuoteFor(v)]
  }

  // ------------------------------------------------------------------
  // The scanner, on any text
  // ------------------------------------------------------------------

  predicate Octal(c: Code) { 48 <= c <= 55 }

  /** Where a run of octal digits stops, looking no further than `limit`. */
  function OctalEnd(text: Text, cursor: nat, limit: nat): (r: nat)
    requires cursor <= |text|
    ensures cursor <= r <= |text|
    decreases |text| - cursor
  {
    if cursor < limit && cursor < |text| && Octal(text[cursor]) then OctalEnd(text, cursor + 1, limit) else cursor
  }

  /** How many characters follow the backslash for this marker. */
  function MarkerWidth(marker: Code): nat {
    if marker == 120 then 3 else if marker == 117 then 5 else if marker == 85 then 9 else 1
  }

  /** Where the character or escape at `start` ends; None for the IndexError of a
      backslash with nothing behind it. */
  function ScanOne(text: Text, start: nat): (r: Option<nat>)
    requires start < |text|
    ensures r.Some? ==> r.value > start
  {
    if text[start] != BACKSLASH then Some(start + 1)
    else if start + 1 >= |text| then None
    else
      var marker := text[start + 1];
      var cursor := start + 1 + MarkerWidth(marker);
      if Octal(marker) && cursor <= |text| then Some(OctalEnd(text, cursor, start + 4)) else Some(cursor)
  }

  /** One turn of the scanning loop. */
  method ScanStep(text: Text, start: nat) returns (r: Option<nat>)
    requires start < |text|
    ensures r == ScanOne(text, start)
  {
    var cursor := start;
    if text[cursor] != BACKSLASH {
      return Some(cursor + 1);
    }
    cursor := cursor + 1;
    if cursor >= |text| {
      return None;
    }
    var marker := text[cursor];
    cursor := cursor + MarkerWidth(marker);
    if Octal(marker) && cursor <= |text| {
      var limit := if start + 4 < |text| then start + 4 else |text|;
      while cursor < limit && Octal(text[cursor])
        invariant start + 2 <= cursor <= |text|
        invariant OctalEnd(text, start + 2, start + 4) == OctalEnd(text, cursor, start + 4)
      {
        cursor := cursor + 1;
      }
    }
    r := Some(cursor);
  }

  // ------------------------------------------------------------------
  // The scanner inverts repr
  // ------------------------------------------------------------------

  ghost predicate Sits(e: Text, text: Text, at: nat) {
    at + |e| <= |text| && text[at..at + |e|] == e
  }

  /** At an escape that `repr` wrote, the scanner stops exactly at its end: the octal
      branch is never taken and no hex width is misjudged. */
  lemma ScansEscape(text: Text, at: nat, c: Code, quote: Code, printable: Code -> bool)
    requires quote == QUOTE || quote == DOUBLE
    requires Sits(Escape(c, quote, printable), text, at)
    ensures at < |text| && ScanOne(text, at) == Some(at + |Escape(c, quote, printable)|)
  {
    var e := Escape(c, quote, printable);
    assert text[at] == text[at..at + |e|][0] == e[0];
    if e[0] == BACKSLASH {
      assert text[at + 1] == text[at..at + |e|][1] == e[1];
    }
  }

  /** Where the escape of character k starts in the interior. */
  function Offset(v: Text, k: nat, quote: Code, printable: Code -> bool): nat
    requires k <= |v|
  {
    |Interior(v[..k], quote, printable)|
  }

  lemma {:induction false} InteriorPrefix(v: Text, k: nat, quote: Code, printable: Code -> bool)
    requires k <= |v|
    ensures Interior(v[..k], quote, printable) <= Interior(v, quote, printable)
  {
    var n := |v| - 1;
    if k == |v| {
      assert v[..k] == v;
    } else {
      assert v[..n][..k] == v[..k];
      InteriorPrefix(v[..n], k, quote, printable);
    }
  }

  lemma PrefixSits(all: Text, before: Text, e: Text)
    requires before + e <= all
    ensures Sits(e, all, |before|)
  {
    assert all[..|before + e|] == before + e;
    assert all[|before|..|before + e|] == all[..|before + e|][|before|..];
  }

  /** The escape of character k sits at its offset, and the next one right behind it. */
  lemma EscapeSits(v: Text, k: nat, quote: Code, printable: Code -> bool)
    requires k < |v|
    ensures Sits(Escape(v[k], quote, printable), Interior(v, quote, printable), Offset(v, k, quote, printable))
    ensures Offset(v, k + 1, quote, printable)
            == Offset(v, k, quote, printable) + |Escape(v[k], quote, printable)|
  {
    assert v[..k + 1][..k] == v[..k];
    InteriorPrefix(v, k + 1, quote, printable);
    PrefixSits(Interior(v, quote, printable), Interior(v[..k], quote, printable), Escape(v[k], quote, printable));
  }

  function Offsets(v: Text, quote: Code, printable: Code -> bool): (r: seq<nat>)
    ensures |r| == |v| + 1
  {
    seq(|v| + 1, k requires 0 <= k <= |v| => Offset(v, k, quote, printable))
  }

  /** The stops of the scanner over a text, from its start to its end. */
  ghost predicate Stops(text: Text, stops: seq<nat>) {
    && |stops| > 0 && stops[0] == 0 && stops[|stops| - 1] == |text|
    && forall k :: 0 <= k < |stops| - 1 ==>
         stops[k] < |text| && ScanOne(text, stops[k]) == Some(stops[k + 1])
  }

  lemma StopsBehind(text: Text, at: nat, next: nat, e: Text, c: Code, quote: Code, printable: Code -> bool)
    requires quote == QUOTE || quote == DOUBLE
    requires e == Escape(c, quote, printable) && Sits(e, text, at) && next == at + |e|
    ensures at < |text| && ScanOne(text, at) == Some(next)
  {
    ScansEscape(text, at, c, quote, printable);
  }

  lemma EscapeIsAStop(v: Text, k: nat, quote: Code, printable: Code -> bool)
    requires quote == QUOTE || quote == DOUBLE
    requires k < |v|
    ensures Offset(v, k, quote, printable) < |Interior(v, quote, printable)|
    ensures ScanOne(Interior(v, quote, printable), Offset(v, k, quote, printable))
            == Some(Offset(v, k + 1, quote, printable))
  {
    var text := Interior(v, quote, printable);
    var at, next := Offset(v, k, quote, printable), Offset(v, k + 1, quote, printable);
    EscapeSits(v, k, quote, printable);
    StopsBehind(text, at, next, Escape(v[k], quote, printable), v[k], quote, printable);
  }

  lemma EscapesAreStops(v: Text, quote: Code, printable: Code -> bool)
    requires quote == QUOTE || quote == DOUBLE
    ensures Stops(Interior(v, quote, printable), Offsets(v, quote, printable))
  {
    var text := Interior(v, quote, printable);
    assert v[..|v|] == v;
    forall k | 0 <= k < |v|
      ensures Offset(v, k, quote, printable) < |text|
      ensures ScanOne(text, Offset(v, k, quote, printable)) == Some(Offset(v, k + 1, quote, printable))
    {
      EscapeIsAStop(v, k, quote, printable);
    }
  }

  /** Between neighbouring stops, quotes included in the count. */
  function Ranges(stops: seq<nat>): (r: seq<(nat, nat)>)
    requires |stops| > 0
    ensures |r| == |stops| - 1
  {
    seq(|stops| - 1, k requires 0 <= k < |stops| - 1 => (1 + stops[k], 1 + stops[k + 1]))
  }

  /** The scanning loop. */
  method ScanInterior(interior: Text, ghost stops: seq<nat>) returns (ranges: seq<(nat, nat)>)
    requires Stops(interior, stops)
    ensures ranges == Ranges(stops)
  {
    ranges := [];
    var cursor := 0;
    while cursor < |interior|
      invariant |ranges| < |stops| && cursor == stops[|ranges|]
      invariant ranges == Ranges(stops)[..|ranges|]
      decreases |interior| - cursor
    {
      assert |ranges| < |stops| - 1;
      assert ScanOne(interior, stops[|ranges|]) == Some(stops[|ranges| + 1]);
      var start := cursor;
      var next := ScanStep(interior, start);
      cursor := next.value;
      ranges := ranges + [(start + 1, cursor + 1)];
    }
  }

  lemma Quoted(text: Text, quote: Code, e: Text, at: nat)
    requires Sits(e, text, at)
    ensures ([quote] + text + [quote])[1..|text| + 1] == text
    ensures Sits(e, [quote] + text + [quote], at + 1)
  {
    var all := [quote] + text + [quote];
    assert all[1..|text| + 1] == text;
    assert all[at + 1..at + 1 + |e|] == text[at..at + |e|];
  }

  /** The scan of a string's representation yields exactly one range per character, in
      order and contiguous over the interior; the loop's own length check never fails
      and no backslash is left hanging. */
  method ReprCharacterRanges(v: Text, printable: Code -> bool)
    returns (rendered: Text, ranges: seq<(nat, nat)>)
    ensures rendered == Repr(v, printable)
    ensures |ranges| == |v|
    ensures ranges == Ranges(Offsets(v, QuoteFor(v), printable))
  {
    rendered := Repr(v, printable);
    Quoted(Interior(v, QuoteFor(v), printable), QuoteFor(v), [], 0);
    EscapesAreStops(v, QuoteFor(v), printable);
    ranges := ScanInterior(rendered[1..|rendered| - 1], Offsets(v, QuoteFor(v), printable));
  }

  /** Each range of the scan, read back from the rendered text, is the escape of its
      character; the first starts behind the opening quote, the last ends before the
      closing one, and none is empty. */
  lemma RangesReadBack(v: Text, k: nat, printable: Code -> bool)
    requires k < |v|
    ensures var range := Ranges(Offsets(v, QuoteFor(v), printable))[k];
            && range.1 == range.0 + |Escape(v[k], QuoteFor(v), printable)|
            && Sits(Escape(v[k], QuoteFor(v), printable), Repr(v, printable), range.0)
    ensures Offset(v, 0, QuoteFor(v), printable) == 0
    ensures 2 + Offset(v, |v|, QuoteFor(v), printable) == |Repr(v, printable)|
  {
    var q := QuoteFor(v);
    EscapeSits(v, k, q, printable);
    Quoted(Interior(v, q, printable), q, Escape(v[k], q, printable), Offset(v, k, q, printable));
    assert v[..|v|] == v;
  }
}
