/**
 * The polyline decoder of assist/tools.py and the Encoded Polyline Algorithm Format
 * that it reads. Characters are their code points; coordinates are the integer
 * accumulators, before the division by the precision factor.
 */
module Polyline {
  import opened Common

  type Codes = seq<nat>

  type Point = (int, int)

  // ------------------------------------------------------------------
  // What a string stands for
  // ------------------------------------------------------------------

  /** The low five bits of a character; the characters below '?' count too. */
  function Bits(c: nat): (r: nat) ensures r < 32 { (c - 63) % 32 }

  /** Does a value end with this character? */
  predicate Ends(c: nat) { c - 63 < 32 }

  datatype Chunk = Chunk(value: nat, next: nat)

  /** One value, low bits first, and where it ends; None if the string ends within it. */
  function ReadValue(s: Codes, i: nat): (r: Option<Chunk>)
    ensures r.Some? ==> i < r.value.next <= |s| && Ends(s[r.value.next - 1])
    decreases |s| - i
  {
    if i >= |s| then None
    else if Ends(s[i]) then Some(Chunk(Bits(s[i]), i + 1))
    else
      var rest := ReadValue(s, i + 1);
      if rest.None? then None else Some(Chunk(Bits(s[i]) + 32 * rest.value.value, rest.value.next))
  }

  /** The signed number behind a value: the lowest bit is the sign. */
  function Signed(value: nat): int {
    if value % 2 == 1 then -(value / 2) - 1 else value / 2
  }

  /** The points from position `i` on, given where the last one was. */
  function Points(s: Codes, i: nat, at: Point): Option<seq<Point>>
    decreases |s| - i
  {
    if i >= |s| then Some([])
    else
      var lat := ReadValue(s, i);
      if lat.None? then None
      else
        var lon := ReadValue(s, lat.value.next);
        if lon.None? then None
        else
          var p := (at.0 + Signed(lat.value.value), at.1 + Signed(lon.value.value));
          var rest := Points(s, lon.value.next, p);
          if rest.None? then None else Some([p] + rest.value)
  }

  // ------------------------------------------------------------------
  // The decoder
  // ------------------------------------------------------------------

  function Pow2(k: nat): (r: nat) ensures r > 0 { if k == 0 then 1 else 2 * Pow2(k - 1) }

  /** Python's `|` of two non-negative numbers. */
  function Or(a: nat, b: nat): nat {
    if a == 0 && b == 0 then 0
    else (if a % 2 == 1 || b % 2 == 1 then 1 else 0) + 2 * Or(a / 2, b / 2)
  }

  lemma {:induction false} OrZero(b: nat)
    ensures Or(0, b) == b
  {
    if b > 0 { OrZero(b / 2); }
  }

  /** Setting bits above those in use adds them. */
  lemma {:induction false} OrAdds(a: nat, b: nat, k: nat)
    requires a < Pow2(k)
    ensures Or(a, b * Pow2(k)) == a + b * Pow2(k)
  {
    if k == 0 {
      OrZero(b);
    } else {
      var high := b * Pow2(k - 1);
      assert b * Pow2(k) == 2 * high;
      OrAdds(a / 2, b, k - 1);
    }
  }

  lemma Pow2Five(shift: nat)
    ensures Pow2(shift + 5) == 32 * Pow2(shift)
  {
    assert Pow2(shift + 5) == 2 * Pow2(shift + 4);
    assert Pow2(shift + 4) == 2 * Pow2(shift + 3);
    assert Pow2(shift + 3) == 2 * Pow2(shift + 2);
    assert Pow2(shift + 2) == 2 * Pow2(shift + 1);
  }

  lemma Room(result: nat, bits: nat, w: nat)
    requires result < w && bits < 32
    ensures result + bits * w < 32 * w
  {
    assert bits * w <= 31 * w;
  }

  lemma Distribute(w: nat, bits: nat, high: nat)
    ensures w * (bits + 32 * high) == bits * w + (32 * w) * high
  {
    assert w * (32 * high) == (32 * w) * high;
  }

  /** Five more bits above `shift`. */
  lemma OrShifts(result: nat, bits: nat, high: nat, shift: nat)
    requires result < Pow2(shift) && bits < 32
    ensures Or(result, bits * Pow2(shift)) == result + bits * Pow2(shift) < Pow2(shift + 5)
    ensures result + Pow2(shift) * (bits + 32 * high) == Or(result, bits * Pow2(shift)) + Pow2(shift + 5) * high
  {
    OrAdds(result, bits, shift);
    Pow2Five(shift);
    Room(result, bits, Pow2(shift));
    Distribute(Pow2(shift), bits, high);
  }

  /** A value whose low part has been read: the bits so far and the rest above them. */
  ghost predicate PartRead(s: Codes, start: nat, i: nat, result: nat, shift: nat) {
    var rest := ReadValue(s, i);
    && result < Pow2(shift)
    && ReadValue(s, start)
       == if rest.None? then None else Some(Chunk(result + Pow2(shift) * rest.value.value, rest.value.next))
  }

  lemma PartReads(s: Codes, start: nat, i: nat, result: nat, shift: nat)
    requires PartRead(s, start, i, result, shift) && i < |s|
    ensures var more := Or(result, Bits(s[i]) * Pow2(shift));
            if Ends(s[i]) then ReadValue(s, start) == Some(Chunk(more, i + 1))
            else PartRead(s, start, i + 1, more, shift + 5)
  {
    var rest := ReadValue(s, i + 1);
    if Ends(s[i]) {
      OrShifts(result, Bits(s[i]), 0, shift);
    } else if rest.Some? {
      OrShifts(result, Bits(s[i]), rest.value.value, shift);
    } else {
      OrShifts(result, Bits(s[i]), 0, shift);
    }
  }

  /** The inner `while True`. */
  method DecodeValue(s: Codes, start: nat) returns (r: Option<Chunk>)
    ensures r == ReadValue(s, start)
  {
    var i, result, shift := start, 0, 0;
    while true
      invariant start <= i && PartRead(s, start, i, result, shift)
      decreases |s| - i
    {
      if i >= |s| {
        return None;
      }
      PartReads(s, start, i, result, shift);
      var c := s[i];
      i := i + 1;
      result := Or(result, Bits(c) * Pow2(shift));
      shift := shift + 5;
      if Ends(c) {
        return Some(Chunk(result, i));
      }
    }
  }

  function Moved(at: Point, lat: nat, lon: nat): Point { (at.0 + Signed(lat), at.1 + Signed(lon)) }

  /** The points before `i` have been read: the rest of the string gives the rest. */
  ghost predicate PointsRead(s: Codes, i: nat, at: Point, out: seq<Point>) {
    var rest := Points(s, i, at);
    Points(s, 0, (0, 0)) == if rest.None? then None else Some(out + rest.value)
  }

  lemma NothingRead(s: Codes)
    ensures PointsRead(s, 0, (0, 0), [])
  {
    var rest := Points(s, 0, (0, 0));
    assert rest.Some? ==> [] + rest.value == rest.value;
  }

  lemma PointCutShort(s: Codes, i: nat, at: Point, out: seq<Point>)
    requires PointsRead(s, i, at, out) && i < |s|
    requires ReadValue(s, i).None? || ReadValue(s, ReadValue(s, i).value.next).None?
    ensures Points(s, 0, (0, 0)) == None
  {
  }

  lemma PointReads(s: Codes, i: nat, at: Point, out: seq<Point>, lat: Chunk, lon: Chunk)
    requires PointsRead(s, i, at, out) && i < |s|
    requires ReadValue(s, i) == Some(lat) && ReadValue(s, lat.next) == Some(lon)
    ensures PointsRead(s, lon.next, Moved(at, lat.value, lon.value), out + [Moved(at, lat.value, lon.value)])
  {
    var p := Moved(at, lat.value, lon.value);
    var rest := Points(s, lon.next, p);
    if rest.Some? {
      assert Points(s, i, at) == Some([p] + rest.value);
      assert out + ([p] + rest.value) == (out + [p]) + rest.value;
    }
  }

  /** `_decode_polyline`: the points of the string, or none at all if any is cut short. */
  method DecodePolyline(s: Codes) returns (r: seq<Point>)
    ensures r == match Points(s, 0, (0, 0)) case Some(ps) => ps case None => []
  {
    var out: seq<Point> := [];
    var lat, lon, i := 0, 0, 0;
    NothingRead(s);
    while i < |s|
      invariant PointsRead(s, i, (lat, lon), out)
      decreases |s| - i
    {
      var first := DecodeValue(s, i);
      if first.None? {
        PointCutShort(s, i, (lat, lon), out);
        return [];
      }
      var second := DecodeValue(s, first.value.next);
      if second.None? {
        PointCutShort(s, i, (lat, lon), out);
        return [];
      }
      PointReads(s, i, (lat, lon), out, first.value, second.value);
      lat := lat + Signed(first.value.value);
      lon := lon + Signed(second.value.value);
      i := second.value.next;
      out := out + [(lat, lon)];
    }
    r := out;
  }

  // ------------------------------------------------------------------
  // Which strings decode
  // ------------------------------------------------------------------

  /** How many values end from position `i` on. */
  function Ended(s: Codes, i: nat): nat
    decreases |s| - i
  {
    if i >= |s| then 0 else (if Ends(s[i]) then 1 else 0) + Ended(s, i + 1)
  }

  lemma {:induction false} ReadsOneValue(s: Codes, i: nat)
    requires i < |s|
    ensures ReadValue(s, i).Some? <==> Ended(s, i) > 0
    ensures ReadValue(s, i).Some? ==> Ended(s, ReadValue(s, i).value.next) == Ended(s, i) - 1
    ensures Ends(s[|s| - 1]) ==> ReadValue(s, i).Some?
    decreases |s| - i
  {
    if !Ends(s[i]) && i + 1 < |s| { ReadsOneValue(s, i + 1); }
  }

  /** Decoding gives points exactly for whole latitude and longitude pairs: the last
      character ends a value and an even number of values end. */
  lemma {:induction false} DecodesExactlyWhen(s: Codes, i: nat, at: Point)
    requires i <= |s|
    ensures Points(s, i, at).Some? <==> (i == |s| || Ends(s[|s| - 1])) && Ended(s, i) % 2 == 0
    decreases |s| - i
  {
    if i < |s| {
      ReadsOneValue(s, i);
      var lat := ReadValue(s, i);
      if lat.Some? && lat.value.next < |s| {
        ReadsOneValue(s, lat.value.next);
        var lon := ReadValue(s, lat.value.next);
        if lon.Some? {
          var p := (at.0 + Signed(lat.value.value), at.1 + Signed(lon.value.value));
          DecodesExactlyWhen(s, lon.value.next, p);
        }
      }
    }
  }

  // ------------------------------------------------------------------
  // The published encoding, and its inverse
  // ------------------------------------------------------------------

  /** Zig-zag: the sign goes to the lowest bit. */
  function ZigZag(delta: int): nat { if delta < 0 then 2 * (-delta) - 1 else 2 * delta }

  lemma ZigZagSigned(delta: int, value: nat)
    ensures Signed(ZigZag(delta)) == delta
    ensures ZigZag(Signed(value)) == value
  {
  }

  /** Five bits a character, low bits first, 0x20 on all but the last, all moved by 63. */
  function EncodeValue(value: nat): Codes {
    if value < 32 then [value + 63] else [value % 32 + 32 + 63] + EncodeValue(value / 32)
  }

  function EncodeDelta(delta: int): Codes { EncodeValue(ZigZag(delta)) }

  function Encode(points: seq<Point>, at: Point): Codes {
    if points == [] then []
    else
      EncodeDelta(points[0].0 - at.0) + EncodeDelta(points[0].1 - at.1)
      + Encode(points[1..], points[0])
  }

  predicate Sits(part: Codes, s: Codes, i: nat) { i + |part| <= |s| && s[i..i + |part|] == part }

  lemma {:induction false} ReadsEncodedValue(value: nat, s: Codes, i: nat)
    requires Sits(EncodeValue(value), s, i)
    ensures ReadValue(s, i) == Some(Chunk(value, i + |EncodeValue(value)|))
    decreases value
  {
    var part := EncodeValue(value);
    assert s[i] == s[i..i + |part|][0] == part[0];
    if value >= 32 {
      assert s[i + 1..i + |part|] == s[i..i + |part|][1..] == EncodeValue(value / 32);
      ReadsEncodedValue(value / 32, s, i + 1);
    }
  }

  lemma SliceOfSlice(s: Codes, i: nat, j: nat, x: nat, y: nat)
    requires i <= j <= |s| && x <= y <= j - i
    ensures s[i..j][x..y] == s[i + x..i + y]
  {
    assert |s[i..j][x..y]| == y - x == |s[i + x..i + y]|;
    forall k | 0 <= k < y - x ensures s[i..j][x..y][k] == s[i + x..i + y][k] {
      assert s[i..j][x..y][k] == s[i..j][x + k] == s[i + x + k];
    }
  }

  lemma SitsParts(a: Codes, b: Codes, c: Codes, s: Codes, i: nat)
    requires Sits(a + b + c, s, i)
    ensures Sits(a, s, i) && Sits(b, s, i + |a|) && Sits(c, s, i + |a| + |b|)
  {
    var j := i + |a + b + c|;
    var all := s[i..j];
    assert all[0..|a|] == a && all[|a|..|a| + |b|] == b && all[|a| + |b|..|all|] == c;
    SliceOfSlice(s, i, j, 0, |a|);
    SliceOfSlice(s, i, j, |a|, |a| + |b|);
    SliceOfSlice(s, i, j, |a| + |b|, |all|);
  }

  lemma ReadsPoint(s: Codes, i: nat, at: Point, lat: Chunk, lon: Chunk, rest: seq<Point>)
    requires ReadValue(s, i) == Some(lat) && ReadValue(s, lat.next) == Some(lon)
    requires Points(s, lon.next, Moved(at, lat.value, lon.value)) == Some(rest)
    ensures Points(s, i, at) == Some([Moved(at, lat.value, lon.value)] + rest)
  {
  }

  /** An encoded difference is read as what it was. */
  ghost predicate Reads(s: Codes, i: nat, delta: int, next: nat) {
    var r := ReadValue(s, i);
    r.Some? && Signed(r.value.value) == delta && r.value.next == next
  }

  lemma ReadsEncodedDelta(delta: int, s: Codes, i: nat)
    requires Sits(EncodeDelta(delta), s, i)
    ensures Reads(s, i, delta, i + |EncodeDelta(delta)|)
  {
    ReadsEncodedValue(ZigZag(delta), s, i);
    ZigZagSigned(delta, 0);
  }

  /** Two differences read make the next point. */
  lemma ReadsNext(s: Codes, i: nat, at: Point, p: Point, j: nat, k: nat, rest: seq<Point>)
    requires Reads(s, i, p.0 - at.0, j) && Reads(s, j, p.1 - at.1, k)
    requires Points(s, k, p) == Some(rest)
    ensures Points(s, i, at) == Some([p] + rest)
  {
    ReadsPoint(s, i, at, ReadValue(s, i).value, ReadValue(s, j).value, rest);
  }

  lemma ReadsTwo(s: Codes, i: nat, at: Point, p: Point, tail: Codes) returns (j: nat, k: nat)
    requires i <= |s| && s[i..] == EncodeDelta(p.0 - at.0) + EncodeDelta(p.1 - at.1) + tail
    ensures Reads(s, i, p.0 - at.0, j) && Reads(s, j, p.1 - at.1, k)
    ensures k <= |s| && s[k..] == tail
  {
    var a, b := EncodeDelta(p.0 - at.0), EncodeDelta(p.1 - at.1);
    assert Sits(a + b + tail, s, i) by { assert s[i..i + |s[i..]|] == s[i..]; }
    SitsParts(a, b, tail, s, i);
    ReadsEncodedDelta(p.0 - at.0, s, i);
    ReadsEncodedDelta(p.1 - at.1, s, i + |a|);
    j, k := i + |a|, i + |a| + |b|;
    assert s[k..] == s[k..k + |tail|];
  }

  lemma {:induction false} DecodesEncoded(points: seq<Point>, at: Point, s: Codes, i: nat)
    requires i <= |s| && s[i..] == Encode(points, at)
    ensures Points(s, i, at) == Some(points)
    decreases |points|
  {
    if points != [] {
      var j, k := ReadsTwo(s, i, at, points[0], Encode(points[1..], points[0]));
      DecodesEncoded(points[1..], points[0], s, k);
      ReadsNext(s, i, at, points[0], j, k, points[1..]);
      assert points == [points[0]] + points[1..];
    }
  }

  /** Decoding an encoded list of points gives the list back. */
  lemma RoundTrip(points: seq<Point>)
    ensures Points(Encode(points, (0, 0)), 0, (0, 0)) == Some(points)
  {
    var s := Encode(points, (0, 0));
    assert s[0..] == s;
    DecodesEncoded(points, (0, 0), s, 0);
  }

  /** The shortest spelling: characters of the format only, and no value ends in a
      superfluous zero. */
  predicate Shortest(s: Codes) {
    && (forall i :: 0 <= i < |s| ==> 63 <= s[i] < 127)
    && (forall i :: 0 <= i < |s| - 1 ==> s[i + 1] == 63 ==> Ends(s[i]))
  }

  lemma EncodesMore(c: nat, high: nat)
    requires 63 <= c < 127 && !Ends(c) && high > 0
    ensures EncodeValue(Bits(c) + 32 * high) == [c] + EncodeValue(high)
  {
    var value := Bits(c) + 32 * high;
    assert value % 32 == Bits(c) == c - 95 && value / 32 == high;
  }

  lemma {:induction false} EncodesRead(s: Codes, i: nat)
    requires Shortest(s) && ReadValue(s, i).Some?
    ensures EncodeValue(ReadValue(s, i).value.value) == s[i..ReadValue(s, i).value.next]
    ensures ReadValue(s, i).value.value == 0 ==> s[i] == 63
    decreases |s| - i
  {
    if Ends(s[i]) {
      assert Bits(s[i]) + 63 == s[i];
    } else {
      EncodesRead(s, i + 1);
      var rest := ReadValue(s, i + 1).value;
      assert rest.value > 0;
      EncodesMore(s[i], rest.value);
      assert s[i..rest.next] == [s[i]] + s[i + 1..rest.next];
    }
  }

  lemma EncodesPoint(at: Point, lat: nat, lon: nat, rest: seq<Point>)
    ensures var p := Moved(at, lat, lon);
            Encode([p] + rest, at) == EncodeValue(lat) + EncodeValue(lon) + Encode(rest, p)
  {
    var p := Moved(at, lat, lon);
    ZigZagSigned(0, lat);
    ZigZagSigned(0, lon);
    assert ([p] + rest)[1..] == rest;
  }

  /** The first point of a string that decodes. */
  lemma FirstPoint(s: Codes, i: nat, at: Point) returns (lat: Chunk, lon: Chunk, rest: seq<Point>)
    requires i < |s| && Points(s, i, at).Some?
    ensures ReadValue(s, i) == Some(lat) && ReadValue(s, lat.next) == Some(lon)
    ensures Points(s, lon.next, Moved(at, lat.value, lon.value)) == Some(rest)
    ensures Points(s, i, at).value == [Moved(at, lat.value, lon.value)] + rest
    ensures i < lat.next < lon.next <= |s|
  {
    lat := ReadValue(s, i).value;
    lon := ReadValue(s, lat.next).value;
    rest := Points(s, lon.next, Moved(at, lat.value, lon.value)).value;
  }

  lemma ThreeParts(s: Codes, i: nat, j: nat, k: nat)
    requires i <= j <= k <= |s|
    ensures s[i..] == s[i..j] + s[j..k] + s[k..]
  {
  }

  /** Encoding what a shortest string decodes to gives the string back: the decoder
      loses nothing. */
  lemma {:induction false} EncodesDecoded(s: Codes, i: nat, at: Point)
    requires Shortest(s) && i <= |s| && Points(s, i, at).Some?
    ensures Encode(Points(s, i, at).value, at) == s[i..]
    decreases |s| - i
  {
    if i < |s| {
      var lat, lon, rest := FirstPoint(s, i, at);
      EncodesRead(s, i);
      EncodesRead(s, lat.next);
      EncodesDecoded(s, lon.next, Moved(at, lat.value, lon.value));
      EncodesPoint(at, lat.value, lon.value, rest);
      ThreeParts(s, i, lat.next, lon.next);
    }
  }
}
