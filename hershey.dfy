/** The Hershey glyph decoder: `char2val`, `identity` and `hersheyparse`.
    A glyph record is fixed-column text: the character code in columns 1-5,
    the vertex count plus one in columns 6-8, the left and right bearings as
    letters in columns 9 and 10, and the stroke body from column 11. Strokes
    in the body are separated by " R"; every other letter is an offset from
    'R', and consecutive letters pair up into (x, y) points. */
module Hershey {
  import opened PyInt
  import opened Seqs

  /** `char2val`: a letter's signed offset from 'R'. */
  function CharToVal(c: char): (v: int)
    ensures c == 'R' ==> v == 0
    ensures v + 'R' as int == c as int
  {
    c as int - 'R' as int
  }

  /** Whether `v + ord('R')` is a Unicode scalar value: a code point that
      is not a surrogate, which is what a Dafny `char` holds. */
  predicate IsEncodable(v: int)
  {
    var n := v + 'R' as int;
    (0 <= n < 0xD800) || (0xE000 <= n < 0x11_0000)
  }

  /** `chr(v + ord('R'))`: the letter that encodes offset `v`. */
  function ValToChar(v: int): char
    requires IsEncodable(v)
  {
    (v + 'R' as int) as char
  }

  lemma CharToValRoundTrip(c: char)
    ensures IsEncodable(CharToVal(c)) && ValToChar(CharToVal(c)) == c
  {
  }

  lemma ValToCharRoundTrip(v: int)
    requires IsEncodable(v)
    ensures CharToVal(ValToChar(v)) == v
  {
  }

  lemma CharToValInjective(a: char, b: char)
    requires CharToVal(a) == CharToVal(b)
    ensures a == b
  {
    CharToValRoundTrip(a);
    CharToValRoundTrip(b);
  }

  /** A point in font units; y grows downwards. */
  datatype Point = Point(x: int, y: int)

  /** `identity(a, b)`: the pair the pairing `map` builds from two offsets. */
  function Identity(a: int, b: int): (p: Point)
    ensures p.x == a && p.y == b
  {
    Point(a, b)
  }

  /** The pairing `map(identity, *[iter(map(char2val, s))] * 2)`: both
      arguments draw from one iterator, so letters pair up in order and an
      unpaired last letter is dropped when the iterator runs out. */
  function Pairs(s: string): (r: seq<Point>)
    ensures |r| == |s| / 2
    ensures forall k :: 0 <= k < |r| ==>
              r[k] == Point(CharToVal(s[2 * k]), CharToVal(s[2 * k + 1]))
  {
    if |s| < 2 then []
    else [Identity(CharToVal(s[0]), CharToVal(s[1]))] + Pairs(s[2..])
  }

  /** The stroke separator " R" at position `i` of `s`. */
  predicate SeparatorAt(s: string, i: int)
  {
    0 <= i && i + 1 < |s| && s[i] == ' ' && s[i + 1] == 'R'
  }

  predicate HasSeparator(s: string)
  {
    exists i :: 0 <= i < |s| && SeparatorAt(s, i)
  }

  /** The inverse of splitting: the pieces with " R" between them. */
  function Join(pieces: seq<string>): string
    requires |pieces| > 0
  {
    if |pieces| == 1 then pieces[0] else pieces[0] + " R" + Join(pieces[1..])
  }

  /** `str.split(s, ' R')`: cut at every separator, scanning left to right. */
  function Split(s: string): (r: seq<string>)
    ensures |r| > 0 && Join(r) == s
    ensures forall k :: 0 <= k < |r| ==> !HasSeparator(r[k])
  {
    if |s| < 2 then [s]
    else if SeparatorAt(s, 0) then [""] + Split(s[2..])
    else
      var rest := Split(s[1..]);
      var head := [s[0]] + rest[0];
      SplitStep(s, rest);
      [head] + rest[1..]
  }

  /** The third case of Split: prepending a letter that does not start a
      separator keeps the first piece separator-free. */
  lemma SplitStep(s: string, rest: seq<string>)
    requires |s| >= 2 && !SeparatorAt(s, 0)
    requires |rest| > 0 && Join(rest) == s[1..]
    requires forall k :: 0 <= k < |rest| ==> !HasSeparator(rest[k])
    ensures Join([[s[0]] + rest[0]] + rest[1..]) == s
    ensures !HasSeparator([s[0]] + rest[0])
  {
    JoinCons(s[0], rest);
    assert [s[0]] + s[1..] == s;
    JoinFirst(rest);
    assert |rest[0]| > 0 ==> rest[0][0] == s[1];
    NoSeparatorCons(s[0], rest[0]);
  }

  /** Gluing a letter to the first piece glues it to the joined text. */
  lemma JoinCons(c: char, pieces: seq<string>)
    requires |pieces| > 0
    ensures Join([[c] + pieces[0]] + pieces[1..]) == [c] + Join(pieces)
  {
    var r := [[c] + pieces[0]] + pieces[1..];
    assert r[0] == [c] + pieces[0];
    assert r[1..] == pieces[1..];
    if |pieces| > 1 {
      AppendAssoc([c], pieces[0], " R" + Join(pieces[1..]));
      AppendAssoc([c] + pieces[0], " R", Join(pieces[1..]));
      AppendAssoc(pieces[0], " R", Join(pieces[1..]));
    }
  }

  /** A letter in front of a separator-free text adds no separator unless
      it is a space in front of an 'R'. */
  lemma NoSeparatorCons(c: char, t: string)
    requires !HasSeparator(t)
    requires !(c == ' ' && |t| > 0 && t[0] == 'R')
    ensures !HasSeparator([c] + t)
  {
    var u := [c] + t;
    if HasSeparator(u) {
      var i :| 0 <= i < |u| && SeparatorAt(u, i);
      if i > 0 {
        assert u[i] == t[i - 1] && u[i + 1] == t[i];
        assert SeparatorAt(t, i - 1);
      }
    }
  }

  /** Dropping the first letter of a separator-free text keeps it so. */
  lemma NoSeparatorTail(t: string)
    requires |t| > 0 && !HasSeparator(t)
    ensures !HasSeparator(t[1..])
  {
    var u := t[1..];
    if HasSeparator(u) {
      var i :| 0 <= i < |u| && SeparatorAt(u, i);
      assert t[i + 1] == u[i] && t[i + 2] == u[i + 1];
      assert SeparatorAt(t, i + 1);
    }
  }

  /** The first piece is a prefix of the joined text. */
  lemma JoinFirst(pieces: seq<string>)
    requires |pieces| > 0
    ensures |pieces[0]| <= |Join(pieces)| && Join(pieces)[..|pieces[0]|] == pieces[0]
  {
    if |pieces| > 1 {
      assert Join(pieces) == pieces[0] + (" R" + Join(pieces[1..]));
    }
  }

  /** Split is the only way to cut `s` into separator-free pieces joined by
      " R": the cuts are exactly the occurrences of the separator. */
  lemma {:induction false} SplitUnique(s: string, pieces: seq<string>)
    requires |pieces| > 0 && Join(pieces) == s
    requires forall k :: 0 <= k < |pieces| ==> !HasSeparator(pieces[k])
    ensures pieces == Split(s)
    decreases |s|
  {
    var p := pieces[0];
    JoinFirst(pieces);
    if |pieces| == 1 && |s| < 2 {
    } else if |pieces| == 1 && SeparatorAt(s, 0) {
      assert false;
    } else if p == [] {
      var tail := Join(pieces[1..]);
      assert s == " R" + tail;
      assert SeparatorAt(s, 0);
      assert s[2..] == tail;
      SplitUnique(tail, pieces[1..]);
      assert pieces == [""] + pieces[1..];
    } else {
      var q := [p[1..]] + pieces[1..];
      ShiftFirst(s, pieces);
      SplitUnique(s[1..], q);
    }
  }

  /** Cutting `s` after its first letter: when the first piece is not empty
      and `s` does not start with the separator, the pieces of `s[1..]` are
      the same with the first piece's first letter dropped. */
  lemma ShiftFirst(s: string, pieces: seq<string>)
    requires |pieces| > 0 && Join(pieces) == s && |pieces[0]| > 0
    requires forall k :: 0 <= k < |pieces| ==> !HasSeparator(pieces[k])
    requires |pieces| > 1 || |s| >= 2
    requires |pieces| > 1 || !SeparatorAt(s, 0)
    ensures |s| >= 2 && !SeparatorAt(s, 0)
    ensures var q := [pieces[0][1..]] + pieces[1..];
            Join(q) == s[1..] && (forall k :: 0 <= k < |q| ==> !HasSeparator(q[k])) &&
            pieces == [[s[0]] + q[0]] + q[1..]
  {
    var p := pieces[0];
    var q := [p[1..]] + pieces[1..];
    assert q[1..] == pieces[1..];
    NoSeparatorTail(p);
    assert [p[0]] + p[1..] == p;
    if |pieces| == 1 {
      assert p == s;
    } else {
      var tail := Join(pieces[1..]);
      assert s == p + " R" + tail;
      assert s[1..] == p[1..] + " R" + tail;
      if |p| == 1 {
        assert s[1] == ' ' && s[2] == 'R';
        assert !SeparatorAt(s, 0);
      } else {
        assert !SeparatorAt(s, 0) by {
          if SeparatorAt(s, 0) { assert SeparatorAt(p, 0); }
        }
      }
    }
  }

  /** What `hersheyparse` yields for one line of a Hershey file. */
  datatype Glyph = Glyph(charcode: int, vertices: int, left: int, right: int,
                         lines: seq<seq<Point>>)

  /** The exceptions `hersheyparse` can raise: `int()` of a field that is
      not a number, or `dat[8]`/`dat[9]` past the end of the record. */
  datatype Exception = ValueError | IndexError

  /** A glyph, the `None` of a record with too few vertices, or an exception. */
  datatype Parsed = Decoded(glyph: Glyph) | NoGlyph | Raised(error: Exception)

  /** Python's `s[lo:hi]` for 0 <= lo <= hi: the bounds are cut to the length. */
  function Slice(s: string, lo: nat, hi: nat): (r: string)
    requires lo <= hi
    ensures |r| == (if hi <= |s| then hi - lo else if lo <= |s| then |s| - lo else 0)
    ensures forall i :: 0 <= i < |r| ==> r[i] == s[lo + i]
  {
    var a := if lo <= |s| then lo else |s|;
    var b := if hi <= |s| then hi else |s|;
    s[a..b]
  }

  /** Python's `s[lo:]`. */
  function Suffix(s: string, lo: nat): (r: string)
    ensures lo <= |s| ==> |r| == |s| - lo && forall i :: 0 <= i < |r| ==> r[i] == s[lo + i]
    ensures lo > |s| ==> r == []
  {
    if lo <= |s| then s[lo..] else ""
  }

  /** The loop `for s in ...: lines.append(map(...))`: one point list per
      piece, in order. */
  function Strokes(pieces: seq<string>): (r: seq<seq<Point>>)
    ensures |r| == |pieces|
    ensures forall j :: 0 <= j < |r| ==> r[j] == Pairs(pieces[j])
  {
    if pieces == [] then [] else [Pairs(pieces[0])] + Strokes(pieces[1..])
  }

  /** The vertex field, columns 6-8, as `int()` reads it. */
  function VertexField(dat: string): (r: Option<int>)
    ensures r.Some? ==> |dat| > 5
  {
    ParseInt(Slice(dat, 5, 8))
  }

  /** `hersheyparse(dat)`. */
  function HersheyParse(dat: string): (r: Parsed)
    ensures r.NoGlyph? <==> VertexField(dat).Some? && VertexField(dat).value - 1 < 2
    ensures r.Raised? && r.error == IndexError <==>
              VertexField(dat).Some? && VertexField(dat).value - 1 >= 2 &&
              ParseInt(Slice(dat, 0, 5)).Some? && |dat| < 10
    ensures r.Decoded? ==>
              VertexField(dat) == Some(r.glyph.vertices + 1) && r.glyph.vertices >= 2 &&
              ParseInt(Slice(dat, 0, 5)) == Some(r.glyph.charcode) && |dat| >= 10 &&
              r.glyph.left == CharToVal(dat[8]) && r.glyph.right == CharToVal(dat[9])
    ensures r.Decoded? ==> r.glyph.lines == Strokes(Split(dat[10..]))
  {
    var count := VertexField(dat);
    if count.None? then Raised(ValueError)
    else if count.value - 1 < 2 then NoGlyph
    else
      var lines := Strokes(Split(Suffix(dat, 10)));
      var code := ParseInt(Slice(dat, 0, 5));
      if code.None? then Raised(ValueError)
      else if |dat| < 10 then Raised(IndexError)
      else Decoded(Glyph(code.value, count.value - 1, CharToVal(dat[8]), CharToVal(dat[9]), lines))
  }

  /** Point `k` of stroke `j` of a decoded glyph is the `k`-th pair of
      letters of the `j`-th " R"-separated piece of the body, and a piece of
      odd length loses its last letter. */
  lemma DecodedPoint(dat: string, j: nat, k: nat)
    requires HersheyParse(dat).Decoded?
    requires j < |Split(dat[10..])|
    ensures var piece := Split(dat[10..])[j];
            var line := HersheyParse(dat).glyph.lines[j];
            |line| == |piece| / 2 &&
            (k < |piece| / 2 ==> line[k] == Point(CharToVal(piece[2 * k]), CharToVal(piece[2 * k + 1])))
  {
  }

  /** The number of points in all strokes. */
  function TotalPoints(lines: seq<seq<Point>>): nat
  {
    if lines == [] then 0 else |lines[0]| + TotalPoints(lines[1..])
  }

  /** The number of letters in all pieces. */
  function TotalLength(pieces: seq<string>): nat
  {
    if pieces == [] then 0 else |pieces[0]| + TotalLength(pieces[1..])
  }

  lemma {:induction false} JoinLength(pieces: seq<string>)
    requires |pieces| > 0
    ensures |Join(pieces)| == TotalLength(pieces) + 2 * (|pieces| - 1)
  {
    if |pieces| > 1 {
      JoinLength(pieces[1..]);
    }
  }

  /** Every piece of even length: each letter belongs to a point. */
  predicate EvenPieces(pieces: seq<string>)
  {
    forall j :: 0 <= j < |pieces| ==> |pieces[j]| % 2 == 0
  }

  lemma {:induction false} PointsOfEvenPieces(pieces: seq<string>)
    requires EvenPieces(pieces)
    ensures 2 * TotalPoints(Strokes(pieces)) == TotalLength(pieces)
  {
    if pieces != [] {
      assert Strokes(pieces)[1..] == Strokes(pieces[1..]);
      PointsOfEvenPieces(pieces[1..]);
    }
  }

  /** In a well-formed record each stroke separator " R" counts as one
      vertex: when every piece has an even number of letters, the points of
      all strokes plus one per separator make up half the body, which is the
      header's vertex count when the header agrees with the body. */
  lemma PointCount(dat: string)
    requires HersheyParse(dat).Decoded?
    requires EvenPieces(Split(dat[10..]))
    ensures var g := HersheyParse(dat).glyph;
            TotalPoints(g.lines) + (|g.lines| - 1) == |dat[10..]| / 2 &&
            (2 * g.vertices == |dat[10..]| ==> TotalPoints(g.lines) + (|g.lines| - 1) == g.vertices)
  {
    var pieces := Split(dat[10..]);
    JoinLength(pieces);
    PointsOfEvenPieces(pieces);
  }

  /** A body without a space is a single stroke. */
  lemma SplitWithoutSpace(s: string)
    requires forall i :: 0 <= i < |s| ==> s[i] != ' '
    ensures Split(s) == [s]
  {
    SplitUnique(s, [s]);
  }

  /** `n` spaces. */
  function Spaces(n: nat): (r: string)
    ensures |r| == n && forall i :: 0 <= i < n ==> r[i] == ' '
  {
    seq(n, _ => ' ')
  }

  /** A number right-aligned in a header field `width` columns wide. */
  function Field(n: nat, width: nat): (r: string)
    requires |Decimal(n)| <= width
    ensures |r| == width
  {
    Spaces(width - |Decimal(n)|) + Decimal(n)
  }

  /** The record a Hershey font file holds for one glyph: the code in
      columns 1-5, the vertex count plus one in columns 6-8, the bearing
      letters in columns 9 and 10, then the body. */
  function Record(code: nat, count: nat, left: char, right: char, body: string): (r: string)
    requires |Decimal(code)| <= 5 && |Decimal(count)| <= 3
    ensures |r| == 10 + |body|
  {
    Field(code, 5) + Field(count, 3) + [left, right] + body
  }

  lemma RecordColumns(code: nat, count: nat, left: char, right: char, body: string)
    requires |Decimal(code)| <= 5 && |Decimal(count)| <= 3
    ensures var r := Record(code, count, left, right, body);
            Slice(r, 0, 5) == Field(code, 5) && Slice(r, 5, 8) == Field(count, 3) &&
            r[8] == left && r[9] == right && r[10..] == body
  {
    var r := Record(code, count, left, right, body);
    var f := Field(code, 5);
    var g := Field(count, 3);
    assert r == f + (g + ([left, right] + body));
    assert Slice(r, 0, 5) == r[..5] == f;
    assert Slice(r, 5, 8) == r[5..8] == g;
  }

  /** A right-aligned field reads back as its number. */
  lemma FieldParses(n: nat, width: nat)
    requires |Decimal(n)| <= width
    ensures ParseInt(Field(n, width)) == Some(n)
  {
    ParsePadded(Spaces(width - |Decimal(n)|), n);
  }

  lemma RecordFields(code: nat, count: nat, left: char, right: char, body: string)
    requires |Decimal(code)| <= 5 && |Decimal(count)| <= 3
    ensures var r := Record(code, count, left, right, body);
            VertexField(r) == Some(count as int) && ParseInt(Slice(r, 0, 5)) == Some(code as int) &&
            |r| >= 10 && r[8] == left && r[9] == right && r[10..] == body
  {
    RecordColumns(code, count, left, right, body);
    FieldParses(code, 5);
    FieldParses(count, 3);
  }

  /** `hersheyparse` of a record whose header reads as numbers and whose
      count leaves at least two vertices. */
  lemma DecodeHeader(dat: string, code: int, count: int)
    requires VertexField(dat) == Some(count) && count >= 3
    requires ParseInt(Slice(dat, 0, 5)) == Some(code) && |dat| >= 10
    ensures HersheyParse(dat) ==
            Decoded(Glyph(code, count - 1, CharToVal(dat[8]), CharToVal(dat[9]), Strokes(Split(dat[10..]))))
  {
  }

  /** Writing a glyph's fields into a record and parsing it gives the
      fields back: `hersheyparse` reads exactly the columns the format
      defines, and rejects a record whose count leaves fewer than two
      vertices. */
  lemma RecordRoundTrip(code: nat, count: nat, left: char, right: char, body: string)
    requires |Decimal(code)| <= 5 && |Decimal(count)| <= 3
    ensures count < 3 ==> HersheyParse(Record(code, count, left, right, body)) == NoGlyph
    ensures count >= 3 ==>
              HersheyParse(Record(code, count, left, right, body)) ==
              Decoded(Glyph(code, count - 1, CharToVal(left), CharToVal(right), Strokes(Split(body))))
  {
    RecordFields(code, count, left, right, body);
    if count >= 3 {
      DecodeHeader(Record(code, count, left, right, body), code, count);
    }
  }

  /** The script glyph for the digit '0'. */
  const DigitZeroBody: string := "QFNGLJKOKRLWNZQ[S[VZXWYRYOXJVGSFQF"

  lemma DigitZeroHeader()
    ensures Decimal(700) == "700" && Decimal(18) == "18"
  {
    assert Decimal(700) == "700" by {
      assert Decimal(7) == "7";
      assert DigitChar(0) == '0';
      assert Decimal(70) == "70";
    }
    assert Decimal(18) == "18" by {
      assert Decimal(1) == "1";
      assert DigitChar(8) == '8';
    }
  }

  /** The line of the font file that holds it. */
  const DigitZeroLine: string := "  700 18H\\" + DigitZeroBody

  lemma DigitZeroColumns()
    ensures "  700" + " 18" + "H\\" + DigitZeroBody == DigitZeroLine
  {
    assert "  700" + " 18" + "H\\" == "  700 18H\\";
  }

  /** The record is the line of the font file. */
  lemma DigitZeroRecord()
    ensures |Decimal(700)| <= 5 && |Decimal(18)| <= 3
    ensures Record(700, 18, 'H', '\\', DigitZeroBody) == DigitZeroLine
  {
    DigitZeroHeader();
    assert Field(700, 5) == "  700" by {
      assert Spaces(2) == "  ";
    }
    assert Field(18, 3) == " 18" by {
      assert Spaces(1) == " ";
    }
    DigitZeroColumns();
  }

  lemma DigitZeroNoSpace()
    ensures forall i :: 0 <= i < |DigitZeroBody| ==> DigitZeroBody[i] != ' '
  {
  }

  lemma DigitZeroLength()
    ensures |DigitZeroBody| == 34
  {
  }

  lemma DigitZeroEnds()
    ensures DigitZeroBody[0] == DigitZeroBody[32] == 'Q'
    ensures DigitZeroBody[1] == DigitZeroBody[33] == 'F'
  {
  }

  /** A body of 17 pairs whose last pair repeats the first draws a closed
      stroke of 17 points. */
  lemma ClosedStroke(s: string)
    requires |s| == 34 && s[32] == s[0] && s[33] == s[1]
    ensures var line := Pairs(s);
            |line| == 17 && line[0] == Point(CharToVal(s[0]), CharToVal(s[1])) && line[16] == line[0]
  {
  }

  lemma DigitZeroStroke()
    ensures var line := Pairs(DigitZeroBody);
            |line| == 17 && line[0] == Point(-1, -12) && line[16] == line[0]
  {
    DigitZeroLength();
    DigitZeroEnds();
    ClosedStroke(DigitZeroBody);
  }

  /** The script font's digit '0' decodes to one closed stroke of 17
      points between bearings -10 and 10. */
  lemma DigitZeroGlyph()
    ensures HersheyParse(DigitZeroLine) ==
            Decoded(Glyph(700, 17, -10, 10, [Pairs(DigitZeroBody)]))
  {
    DigitZeroRecord();
    DigitZeroNoSpace();
    calc {
      HersheyParse(DigitZeroLine);
      HersheyParse(Record(700, 18, 'H', '\\', DigitZeroBody));
      { SingleStrokeRecord(700, 18, 'H', '\\', DigitZeroBody); }
      Decoded(Glyph(700, 17, CharToVal('H'), CharToVal('\\'), [Pairs(DigitZeroBody)]));
    }
  }

  /** The typed glyph for 's': two strokes, the second of odd length. */
  const TypedSFirst: string := "WOXMXQWOVNTMPMNNMOMQNRPSUUWVXW"
  const TypedSSecond: string := "MPNQPRUTWUXVXYWZU[Q[OZNYMWM[NY,"
  const TypedSLine: string := " 2119 32J[" + TypedSFirst + " R" + TypedSSecond

  /** A piece without a space holds no separator. */
  lemma NoSpaceNoSeparator(s: string)
    requires forall i :: 0 <= i < |s| ==> s[i] != ' '
    ensures !HasSeparator(s)
  {
  }

  lemma TypedSHeader()
    ensures Decimal(2119) == "2119" && Decimal(32) == "32"
  {
    assert Decimal(2119) == "2119" by {
      assert Decimal(2) == "2";
      assert DigitChar(1) == '1';
      assert Decimal(21) == "21";
      assert DigitChar(9) == '9';
      assert Decimal(211) == "211";
    }
    assert Decimal(32) == "32" by {
      assert Decimal(3) == "3";
      assert DigitChar(2) == '2';
    }
  }

  lemma TypedSColumns()
    ensures " 2119" + " 32" + ['J', '['] + (TypedSFirst + " R" + TypedSSecond) == TypedSLine
  {
    assert " 2119" + " 32" + ['J', '['] == " 2119 32J[";
  }

  /** The record is the line of the font file. */
  lemma TypedSRecord()
    ensures |Decimal(2119)| <= 5 && |Decimal(32)| <= 3
    ensures Record(2119, 32, 'J', '[', TypedSFirst + " R" + TypedSSecond) == TypedSLine
  {
    TypedSHeader();
    assert Field(2119, 5) == " 2119" by {
      assert Spaces(1) == " ";
    }
    assert Field(32, 3) == " 32" by {
      assert Spaces(1) == " ";
    }
    TypedSColumns();
  }

  /** Two space-free pieces joined by " R" split back into those pieces. */
  lemma TwoPieceSplit(p: string, q: string)
    requires forall i :: 0 <= i < |p| ==> p[i] != ' '
    requires forall i :: 0 <= i < |q| ==> q[i] != ' '
    ensures Split(p + " R" + q) == [p, q]
  {
    assert Join([p, q]) == p + " R" + Join([q]);
    NoSpaceNoSeparator(p);
    NoSpaceNoSeparator(q);
    SplitUnique(p + " R" + q, [p, q]);
  }

  /** A record whose body is two space-free pieces joined by " R" decodes
      to two strokes, the pairings of the two pieces. */
  lemma TwoStrokeRecord(code: nat, count: nat, left: char, right: char, p: string, q: string)
    requires |Decimal(code)| <= 5 && 3 <= count && |Decimal(count)| <= 3
    requires forall i :: 0 <= i < |p| ==> p[i] != ' '
    requires forall i :: 0 <= i < |q| ==> q[i] != ' '
    ensures HersheyParse(Record(code, count, left, right, p + " R" + q)) ==
            Decoded(Glyph(code, count - 1, CharToVal(left), CharToVal(right), [Pairs(p), Pairs(q)]))
  {
    var body := p + " R" + q;
    calc {
      HersheyParse(Record(code, count, left, right, body));
      { RecordRoundTrip(code, count, left, right, body); }
      Decoded(Glyph(code, count - 1, CharToVal(left), CharToVal(right), Strokes(Split(body))));
      { TwoPieceSplit(p, q); }
      Decoded(Glyph(code, count - 1, CharToVal(left), CharToVal(right), Strokes([p, q])));
      { assert Strokes([p, q]) == [Pairs(p), Pairs(q)]; }
      Decoded(Glyph(code, count - 1, CharToVal(left), CharToVal(right), [Pairs(p), Pairs(q)]));
    }
  }

  /** The typed 's' (line 310) decodes to code 2119, 31 vertices, bearings
      -8 and 9, and two strokes. */
  lemma TypedSGlyph()
    ensures HersheyParse(TypedSLine) ==
            Decoded(Glyph(2119, 31, -8, 9, [Pairs(TypedSFirst), Pairs(TypedSSecond)]))
  {
    TypedSRecord();
    TypedSNoSpace();
    calc {
      HersheyParse(TypedSLine);
      HersheyParse(Record(2119, 32, 'J', '[', TypedSFirst + " R" + TypedSSecond));
      { TwoStrokeRecord(2119, 32, 'J', '[', TypedSFirst, TypedSSecond); }
      Decoded(Glyph(2119, 31, CharToVal('J'), CharToVal('['), [Pairs(TypedSFirst), Pairs(TypedSSecond)]));
    }
  }

  lemma TypedSNoSpace()
    ensures forall i :: 0 <= i < |TypedSFirst| ==> TypedSFirst[i] != ' '
    ensures forall i :: 0 <= i < |TypedSSecond| ==> TypedSSecond[i] != ' '
  {
  }

  /** A stroke of odd length `2n + 1` loses its last letter: its `n`
      points are those of the stroke without it. */
  lemma OddStroke(s: string, n: nat)
    requires |s| == 2 * n + 1
    ensures |Pairs(s)| == n && Pairs(s) == Pairs(s[..2 * n])
  {
    var a, b := Pairs(s), Pairs(s[..2 * n]);
    forall k | 0 <= k < |a|
      ensures a[k] == b[k]
    {
    }
  }

  lemma TypedSLengths()
    ensures |TypedSFirst| == 30 && |TypedSSecond| == 31 && TypedSSecond[30] == ','
  {
  }

  /** Both strokes of the typed 's' have 15 points: the second has 31
      letters, and its last, ',', has no partner and is dropped. */
  lemma TypedSStrokes()
    ensures TypedSSecond[|TypedSSecond| - 1] == ','
    ensures |Pairs(TypedSFirst)| == 15 && |Pairs(TypedSSecond)| == 15
    ensures Pairs(TypedSSecond) == Pairs(TypedSSecond[..30])
  {
    TypedSLengths();
    OddStroke(TypedSSecond, 15);
  }

  /** A record whose body has no space decodes to a single stroke: the
      pairs of letters of the whole body. */
  lemma SingleStrokeRecord(code: nat, count: nat, left: char, right: char, body: string)
    requires |Decimal(code)| <= 5 && 3 <= count && |Decimal(count)| <= 3
    requires forall i :: 0 <= i < |body| ==> body[i] != ' '
    ensures HersheyParse(Record(code, count, left, right, body)) ==
            Decoded(Glyph(code, count - 1, CharToVal(left), CharToVal(right), [Pairs(body)]))
  {
    RecordRoundTrip(code, count, left, right, body);
    SplitWithoutSpace(body);
  }
}
