/** The script's layout loop: every character of the text is looked up in a
    glyph table, decoded with `hersheyparse`, and its strokes become pen
    events at plotter positions; '_' starts a new line and ' ' advances by
    the width of 'i'. The plotter calls are returned as a list of events
    (a `move` or a `draw` to a position) instead of being made. */
module Layout {
  import opened PyInt
  import opened Hershey
  import opened Seqs

  // The script's layout constants. `l_scale * l_aspect_radio` is 8 * 1.25,
  // exactly 10, so every coordinate the loop computes is a whole number.
  const XBase: int := 100
  const YBase: int := 100
  const Scale: int := 8
  const RowScale: int := 10
  const LineAdvance: int := 25

  /** Which plotter call an event stands for. */
  datatype Pen = Move | Draw

  /** `my_line_us.move(lx, ly)` or `my_line_us.draw(lx, ly)`. */
  datatype Event = Event(lx: int, ly: int, pen: Pen)

  /** What stops the loop: a character with no entry in the table
      (`KeyError`), a record `hersheyparse` rejects with `None` (subscripting
      it raises `TypeError`), or an exception from `hersheyparse` itself. */
  datatype Failure = KeyError(key: char) | TypeError | ParseError(error: Exception)

  /** The events made so far, the failure that stopped the loop if any, and
      the cursor `(x, y)` in font units. */
  datatype Outcome = Outcome(events: seq<Event>, failure: Option<Failure>, x: int, y: int)

  /** The event for point `pt` of a glyph drawn at cursor (x, y):
      `rx = x + pt[0] - left`, `ry = y + pt[1]`, and the plotter position is
      `(100 + 10 ry, 100 + 8 rx)`; the font's rows become the plotter's x. */
  function Place(x: int, y: int, left: int, pt: Point, pen: Pen): Event
  {
    var rx := x + pt.x - left;
    var ry := y + pt.y;
    Event(YBase + RowScale * ry, XBase + Scale * rx, pen)
  }

  /** The events of one stroke, built as the inner loop builds them: the
      first point moves there with the pen up, every later point draws. */
  function StrokeEvents(x: int, y: int, left: int, line: seq<Point>): (r: seq<Event>)
    ensures |r| == |line|
    ensures forall k :: 0 <= k < |r| ==>
              r[k] == Place(x, y, left, line[k], if k == 0 then Move else Draw)
  {
    if line == [] then []
    else
      var last := |line| - 1;
      StrokeEvents(x, y, left, line[..last]) +
      [Place(x, y, left, line[last], if last == 0 then Move else Draw)]
  }

  /** The events of all strokes of a glyph, stroke after stroke. */
  function LinesEvents(x: int, y: int, left: int, lines: seq<seq<Point>>): (r: seq<Event>)
    ensures |r| == TotalPoints(lines)
  {
    if lines == [] then []
    else StrokeEvents(x, y, left, lines[0]) + LinesEvents(x, y, left, lines[1..])
  }

  /** One more stroke at the end adds its events at the end. */
  lemma {:induction false} LinesEventsSnoc(x: int, y: int, left: int, lines: seq<seq<Point>>, j: nat)
    requires j < |lines|
    ensures LinesEvents(x, y, left, lines[..j + 1]) ==
            LinesEvents(x, y, left, lines[..j]) + StrokeEvents(x, y, left, lines[j])
    decreases j
  {
    if j == 0 {
      assert lines[..1][1..] == [];
      assert lines[..0] == [];
    } else {
      var tail := lines[1..];
      var head := StrokeEvents(x, y, left, lines[0]);
      assert lines[..j + 1][1..] == tail[..j];
      assert lines[..j][1..] == tail[..j - 1];
      LinesEventsSnoc(x, y, left, tail, j - 1);
      assert tail[j - 1] == lines[j];
      AppendAssoc(head, LinesEvents(x, y, left, tail[..j - 1]), StrokeEvents(x, y, left, lines[j]));
    }
  }

  /** The horizontal advance of a glyph, `right - left`. */
  function Width(g: Glyph): int
  {
    g.right - g.left
  }

  /** The table key a character is printed with: a space borrows 'i'. */
  function Key(c: char): (k: char)
    ensures k == 'i' <==> c == ' ' || c == 'i'
    ensures c != ' ' ==> k == c
  {
    if c == ' ' then 'i' else c
  }

  /** The glyph table with every record decoded: what `hersheyparse`
      makes of the record a character looks up. */
  function Font(glyphs: map<char, string>): (font: map<char, Parsed>)
    ensures font.Keys == glyphs.Keys
  {
    map c | c in glyphs :: HersheyParse(glyphs[c])
  }

  /** One pass of the outer loop for character `c` at cursor (x, y). */
  function Step(font: map<char, Parsed>, c: char, x: int, y: int): (o: Outcome)
    ensures o.failure.Some? ==> o.events == [] && o.x == x && o.y == y
    ensures o.failure.None? <==> c == '_' || (Key(c) in font && font[Key(c)].Decoded?)
    ensures c != '_' ==> o.y == y
    ensures c == '_' ==> o == Outcome([], None, 0, y + LineAdvance)
  {
    if c == '_' then Outcome([], None, 0, y + LineAdvance)
    else if Key(c) !in font then Outcome([], Some(KeyError(Key(c))), x, y)
    else
      match font[Key(c)]
      case Raised(e) => Outcome([], Some(ParseError(e)), x, y)
      case NoGlyph => Outcome([], Some(TypeError), x, y)
      case Decoded(g) =>
        var events := if c == ' ' then [] else LinesEvents(x, y, g.left, g.lines);
        Outcome(events, None, x + Width(g), y)
  }

  /** Continue an outcome with the rest of the text, unless it failed. */
  function Then(font: map<char, Parsed>, o: Outcome, text: string): (r: Outcome)
    ensures o.events <= r.events
    ensures o.failure.Some? ==> r == o
    ensures '_' !in text ==> r.y == o.y
    decreases |text|, 1
  {
    if o.failure.Some? then o
    else
      var r := RenderFrom(font, text, o.x, o.y);
      Outcome(o.events + r.events, r.failure, r.x, r.y)
  }

  /** The whole loop over `text` from cursor (x, y). */
  function RenderFrom(font: map<char, Parsed>, text: string, x: int, y: int): (r: Outcome)
    ensures '_' !in text ==> r.y == y
    decreases |text|, 0
  {
    if text == [] then Outcome([], None, x, y)
    else Then(font, Step(font, text[0], x, y), text[1..])
  }

  /** The characters the loop gets past: '_', or one whose key is in the
      table and whose record decodes to a glyph. */
  predicate Printable(font: map<char, Parsed>, c: char)
  {
    c == '_' || (Key(c) in font && font[Key(c)].Decoded?)
  }

  /** The loop runs to the end exactly when every character is printable;
      otherwise it stops with the failure of the first one that is not. */
  lemma {:induction false} RenderFails(font: map<char, Parsed>, text: string, x: int, y: int)
    ensures RenderFrom(font, text, x, y).failure.None? <==>
            forall i :: 0 <= i < |text| ==> Printable(font, text[i])
    decreases |text|
  {
    if text != [] {
      var o := Step(font, text[0], x, y);
      assert o.failure.None? <==> Printable(font, text[0]);
      if o.failure.None? {
        RenderFails(font, text[1..], o.x, o.y);
        assert forall i :: 1 <= i < |text| ==> text[i] == text[1..][i - 1];
      }
    }
  }

  /** Rendering `a + b` renders `a`, then `b` from where `a` left the
      cursor, unless `a` failed. */
  lemma {:induction false} RenderAppend(font: map<char, Parsed>, a: string, b: string, x: int, y: int)
    ensures RenderFrom(font, a + b, x, y) == Then(font, RenderFrom(font, a, x, y), b)
    decreases |a|
  {
    if a == [] {
      assert a + b == b;
      assert RenderFrom(font, b, x, y).events == [] + RenderFrom(font, b, x, y).events;
    } else {
      var o := Step(font, a[0], x, y);
      assert (a + b)[0] == a[0];
      assert (a + b)[1..] == a[1..] + b;
      if o.failure.None? {
        RenderAppend(font, a[1..], b, o.x, o.y);
        var r := RenderFrom(font, a[1..], o.x, o.y);
        if r.failure.None? {
          var t := RenderFrom(font, b, r.x, r.y);
          assert o.events + (r.events + t.events) == (o.events + r.events) + t.events;
        }
      }
    }
  }

  /** '_' returns the cursor to the left margin one line (25 units) down and
      makes no events. */
  lemma Newline(font: map<char, Parsed>, text: string, x: int, y: int)
    ensures RenderFrom(font, "_", x, y) == Outcome([], None, 0, y + LineAdvance)
    ensures RenderFrom(font, "_" + text, x, y) == RenderFrom(font, text, 0, y + LineAdvance)
  {
    assert "_"[1..] == [];
    assert ("_" + text)[0] == '_';
    assert ("_" + text)[1..] == text;
    assert [] + RenderFrom(font, text, 0, y + 25).events == RenderFrom(font, text, 0, y + 25).events;
  }

  /** ' ' makes no events and advances the cursor by the width of 'i'. */
  lemma Space(font: map<char, Parsed>, x: int, y: int)
    requires 'i' in font && font['i'].Decoded?
    ensures var o := RenderFrom(font, " ", x, y);
            o.events == [] && o.failure == None &&
            o.x == x + Width(font['i'].glyph) && o.y == y
  {
    assert " "[1..] == [];
  }

  /** Any character other than '_' that the loop gets past leaves the row
      and advances the cursor by its glyph's width, `right - left`; a space
      advances by the width of 'i'. */
  lemma StepAdvance(font: map<char, Parsed>, c: char, x: int, y: int)
    requires c != '_' && Printable(font, c)
    ensures var g := font[Key(c)].glyph;
            var o := Step(font, c, x, y);
            o.failure.None? && o.x == x + g.right - g.left && o.y == y &&
            (c == ' ' ==> o.events == [] && g == font['i'].glyph)
  {
  }

  /** The events moved by (dlx, dly) on the plotter. */
  function Shift(events: seq<Event>, dlx: int, dly: int): (r: seq<Event>)
    ensures |r| == |events|
  {
    seq(|events|, k requires 0 <= k < |events| =>
      Event(events[k].lx + dlx, events[k].ly + dly, events[k].pen))
  }

  lemma ShiftAppend(a: seq<Event>, b: seq<Event>, dlx: int, dly: int)
    ensures Shift(a + b, dlx, dly) == Shift(a, dlx, dly) + Shift(b, dlx, dly)
  {
  }

  /** A stroke drawn from a moved cursor is the same stroke moved: a cursor
      step of (dx, dy) font units is (10 dy, 8 dx) on the plotter. */
  lemma StrokeShift(x: int, y: int, left: int, line: seq<Point>, dx: int, dy: int)
    ensures StrokeEvents(x + dx, y + dy, left, line) ==
            Shift(StrokeEvents(x, y, left, line), RowScale * dy, Scale * dx)
  {
    var a := StrokeEvents(x + dx, y + dy, left, line);
    var b := Shift(StrokeEvents(x, y, left, line), RowScale * dy, Scale * dx);
    forall k | 0 <= k < |line|
      ensures a[k] == b[k]
    {
    }
  }

  lemma {:induction false} LinesShift(x: int, y: int, left: int, lines: seq<seq<Point>>, dx: int, dy: int)
    ensures LinesEvents(x + dx, y + dy, left, lines) ==
            Shift(LinesEvents(x, y, left, lines), RowScale * dy, Scale * dx)
    decreases |lines|
  {
    if lines != [] {
      StrokeShift(x, y, left, lines[0], dx, dy);
      LinesShift(x, y, left, lines[1..], dx, dy);
      ShiftAppend(StrokeEvents(x, y, left, lines[0]), LinesEvents(x, y, left, lines[1..]),
                  RowScale * dy, Scale * dx);
    }
  }

  /** `p` is `o` with the cursor moved by (dx, dy) font units: the same
      failure, the events moved by (10 dy, 8 dx) on the plotter, and the
      cursor moved by (dx, dy). */
  predicate Shifted(p: Outcome, o: Outcome, dx: int, dy: int)
  {
    p.events == Shift(o.events, RowScale * dy, Scale * dx) && p.failure == o.failure &&
    p.x == o.x + dx && p.y == o.y + dy
  }

  /** One character at a moved cursor; '_' is moved only down, since it
      returns the cursor to the left margin. */
  lemma StepShift(font: map<char, Parsed>, c: char, x: int, y: int, dx: int, dy: int)
    requires c == '_' ==> dx == 0
    ensures Shifted(Step(font, c, x + dx, y + dy), Step(font, c, x, y), dx, dy)
  {
    if c != '_' && Key(c) in font && font[Key(c)].Decoded? {
      var g := font[Key(c)].glyph;
      if c != ' ' {
        LinesShift(x, y, g.left, g.lines, dx, dy);
      }
    }
  }

  /** Continuing two shifted outcomes with the same text keeps them shifted
      when the continuations are. */
  lemma ThenShift(font: map<char, Parsed>, p: Outcome, o: Outcome, text: string, dx: int, dy: int)
    requires Shifted(p, o, dx, dy)
    requires o.failure.None? ==>
               Shifted(RenderFrom(font, text, o.x + dx, o.y + dy), RenderFrom(font, text, o.x, o.y), dx, dy)
    ensures Shifted(Then(font, p, text), Then(font, o, text), dx, dy)
  {
    if o.failure.None? {
      ShiftAppend(o.events, RenderFrom(font, text, o.x, o.y).events, RowScale * dy, Scale * dx);
    }
  }

  /** A text rendered `dy` font units further down: the same events `10 dy`
      further along the plotter's x, the same failure, and the cursor `dy`
      lower. '_' keeps the offset, since it adds 25 to y. */
  lemma {:induction false} RenderShiftDown(font: map<char, Parsed>, text: string, x: int, y: int, dy: int)
    ensures Shifted(RenderFrom(font, text, x, y + dy), RenderFrom(font, text, x, y), 0, dy)
    decreases |text|
  {
    if text != [] {
      var s := Step(font, text[0], x, y);
      var t := Step(font, text[0], x, y + dy);
      StepShift(font, text[0], x, y, 0, dy);
      if s.failure.None? {
        RenderShiftDown(font, text[1..], s.x, s.y, dy);
      }
      ThenShift(font, t, s, text[1..], 0, dy);
    }
  }

  /** Without '_', a text rendered `dx` font units further right is the same
      events `8 dx` further along the plotter's y, the same failure, and the
      cursor `dx` further right. */
  lemma {:induction false} RenderShiftAcross(font: map<char, Parsed>, text: string, x: int, y: int, dx: int)
    requires '_' !in text
    ensures Shifted(RenderFrom(font, text, x + dx, y), RenderFrom(font, text, x, y), dx, 0)
    decreases |text|
  {
    if text != [] {
      var c, rest := text[0], text[1..];
      assert text == [c] + rest;
      var s := Step(font, c, x, y);
      var t := Step(font, c, x + dx, y);
      StepShift(font, c, x, y, dx, 0);
      assert t.x == s.x + dx && t.y == s.y;
      if s.failure.None? {
        RenderShiftAcross(font, rest, s.x, s.y, dx);
      }
      ThenShift(font, t, s, rest, dx, 0);
    }
  }

  /** The script's loop, with the plotter calls collected as events: it
      stops at the first character it cannot print. */
  method Render(glyphs: map<char, string>, text: string) returns (events: seq<Event>, failure: Option<Failure>)
    ensures events == RenderFrom(Font(glyphs), text, 0, 0).events
    ensures failure == RenderFrom(Font(glyphs), text, 0, 0).failure
  {
    ghost var font := Font(glyphs);
    FontDecodes(glyphs);
    var x, y := 0, 0;
    events := [];
    failure := None;
    var i := 0;
    while i < |text|
      invariant 0 <= i <= |text| && Decodes(glyphs, font) && failure.None?
      invariant Then(font, Outcome(events, None, x, y), text[i..]) == RenderFrom(font, text, 0, 0)
    {
      ghost var before := Outcome(events, None, x, y);
      ghost var step := Step(font, text[i], x, y);
      events, failure, x, y := PrintChar(glyphs, font, text[i], events, x, y);
      RenderStep(font, before, text, i);
      if failure.Some? {
        assert events == before.events + [];
        break;
      }
      assert Outcome(events, None, x, y) == Outcome(before.events + step.events, None, step.x, step.y);
      i := i + 1;
    }
    assert failure.None? ==> text[i..] == [] && events + [] == events;
    assert events == RenderFrom(font, text, 0, 0).events && failure == RenderFrom(font, text, 0, 0).failure;
  }

  /** One pass of the loop body for character `c`: the events of its glyph
      appended, or the failure that ends the loop. */
  method PrintChar(glyphs: map<char, string>, ghost font: map<char, Parsed>, c: char,
                   before: seq<Event>, x0: int, y0: int)
    returns (events: seq<Event>, failure: Option<Failure>, x: int, y: int)
    requires Decodes(glyphs, font)
    ensures var s := Step(font, c, x0, y0);
            events == before + s.events && failure == s.failure && x == s.x && y == s.y
  {
    events, failure, x, y := before, None, x0, y0;
    if c == '_' {
      x := 0;
      y := y + LineAdvance;
      assert events == before + [];
      return;
    }
    var key := if c == ' ' then 'i' else c;
    assert key == Key(c);
    if key !in glyphs {
      failure := Some(KeyError(key));
      assert events == before + [];
      return;
    }
    var parsed := ParseRecord(glyphs, font, key);
    if parsed.Raised? {
      failure := Some(ParseError(parsed.error));
      assert events == before + [];
      return;
    }
    if parsed.NoGlyph? {
      failure := Some(TypeError);
      assert events == before + [];
      return;
    }
    var glyph := parsed.glyph;
    if c != ' ' {
      events := DrawGlyph(events, glyph, x, y);
    } else {
      assert events == before + [];
    }
    x := x + Width(glyph);
  }

  /** `hersheyparse(type_glyphs[key])` for a key the table holds. */
  method ParseRecord(glyphs: map<char, string>, ghost font: map<char, Parsed>, key: char)
    returns (parsed: Parsed)
    requires Decodes(glyphs, font) && key in glyphs
    ensures parsed == font[key]
  {
    parsed := HersheyParse(glyphs[key]);
  }

  /** `font` holds what `hersheyparse` makes of each record of `glyphs`.
      The trigger lets the fact be used only where a record is decoded. */
  predicate Decodes(glyphs: map<char, string>, font: map<char, Parsed>)
  {
    font.Keys == glyphs.Keys &&
    forall c {:trigger HersheyParse(glyphs[c])} :: c in glyphs ==> font[c] == HersheyParse(glyphs[c])
  }

  lemma FontDecodes(glyphs: map<char, string>)
    ensures Decodes(glyphs, Font(glyphs))
  {
  }

  /** One pass of the loop at position `i`: a failing character ends the
      loop with the events so far; any other adds its events, moves the
      cursor, and leaves the rest of the text to do. */
  lemma RenderStep(font: map<char, Parsed>, o: Outcome, text: string, i: nat)
    requires i < |text| && o.failure.None?
    ensures var s := Step(font, text[i], o.x, o.y);
            var r := Then(font, o, text[i..]);
            (s.failure.Some? ==> r == Outcome(o.events, s.failure, o.x, o.y)) &&
            (s.failure.None? ==>
               r == Then(font, Outcome(o.events + s.events, None, s.x, s.y), text[i + 1..]))
  {
    var s := Step(font, text[i], o.x, o.y);
    assert text[i..][0] == text[i];
    assert text[i..][1..] == text[i + 1..];
    assert RenderFrom(font, text[i..], o.x, o.y) == Then(font, s, text[i + 1..]);
    if s.failure.Some? {
      assert o.events + [] == o.events;
    } else {
      var r := RenderFrom(font, text[i + 1..], s.x, s.y);
      assert o.events + (s.events + r.events) == (o.events + s.events) + r.events;
    }
  }

  /** One more point at the end of a stroke adds its event at the end. */
  lemma StrokeSnoc(x: int, y: int, left: int, line: seq<Point>, k: nat)
    requires k < |line|
    ensures StrokeEvents(x, y, left, line[..k + 1]) ==
            StrokeEvents(x, y, left, line[..k]) + [Place(x, y, left, line[k], if k == 0 then Move else Draw)]
  {
    assert line[..k + 1][..k] == line[..k];
  }

  /** The inner loops: for each stroke, a move to its first point, then a
      draw to each later point. */
  method DrawGlyph(before: seq<Event>, glyph: Glyph, x: int, y: int) returns (events: seq<Event>)
    ensures events == before + LinesEvents(x, y, glyph.left, glyph.lines)
  {
    events := before;
    var j := 0;
    while j < |glyph.lines|
      invariant 0 <= j <= |glyph.lines|
      invariant events == before + LinesEvents(x, y, glyph.left, glyph.lines[..j])
    {
      events := DrawStroke(events, glyph.lines[j], glyph.left, x, y);
      LinesEventsSnoc(x, y, glyph.left, glyph.lines, j);
      AppendAssoc(before, LinesEvents(x, y, glyph.left, glyph.lines[..j]),
                  StrokeEvents(x, y, glyph.left, glyph.lines[j]));
      j := j + 1;
    }
    assert glyph.lines[..|glyph.lines|] == glyph.lines;
  }

  /** The inner loop: one stroke, a Move to its first point and a Draw to
      each point after it. */
  method DrawStroke(before: seq<Event>, line: seq<Point>, left: int, x: int, y: int) returns (events: seq<Event>)
    ensures events == before + StrokeEvents(x, y, left, line)
  {
    events := before;
    var first := true;
    var k := 0;
    while k < |line|
      invariant 0 <= k <= |line|
      invariant first == (k == 0)
      invariant events == before + StrokeEvents(x, y, left, line[..k])
    {
      var pt := line[k];
      var rx := x + pt.x - left;
      var ry := y + pt.y;
      var lx := YBase + RowScale * ry;
      var ly := XBase + Scale * rx;
      var pen;
      if first {
        first := false;
        pen := Move;
      } else {
        pen := Draw;
      }
      assert Event(lx, ly, pen) == Place(x, y, left, pt, if k == 0 then Move else Draw);
      StrokeSnoc(x, y, left, line, k);
      AppendAssoc(before, StrokeEvents(x, y, left, line[..k]), [Event(lx, ly, pen)]);
      events := events + [Event(lx, ly, pen)];
      k := k + 1;
    }
    assert line[..|line|] == line;
  }
}
