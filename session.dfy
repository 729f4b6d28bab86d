/** The `LineUs` session: the plotter's coordinate clamp, the G-code
    commands it sends, and the pen/position state it keeps. The TCP socket is
    an abstract channel: `sent` holds every byte written so far and
    `incoming` every byte the plotter has yet to deliver, which `recv(1)`
    takes from the front. Commands and replies are NUL-terminated frames and
    every command is followed by exactly one read of a reply. */
module Session {
  import opened PyInt
  import opened Framing
  import opened Seqs

  // The class constants of `LineUs`.
  const XOffset: int := 790
  const MaxX: int := 900
  const XMin: int := 0
  const YOffset: int := -900
  const MaxY: int := 1790
  const YMin: int := 0

  /** One axis of `check_coords`: first cap at `hi`, then raise to `lo`. */
  function ClampAxis(v: int, lo: int, hi: int): (r: int)
    ensures r >= lo
    ensures lo <= hi ==> r <= hi
    ensures lo <= v <= hi ==> r == v
    ensures lo <= hi < v ==> r == hi
    ensures v < lo ==> r == lo
  {
    var capped := if v > hi then hi else v;
    if capped < lo then lo else capped
  }

  /** `check_coords(x, y)`: the drawing-area position clamped to the
      paper and shifted into the plotter's own frame. */
  function DeviceCoords(x: int, y: int): (r: (int, int))
    ensures XMin + XOffset <= r.0 <= MaxX + XOffset
    ensures YMin + YOffset <= r.1 <= MaxY + YOffset
    ensures XMin <= x <= MaxX ==> r.0 == x + XOffset
    ensures YMin <= y <= MaxY ==> r.1 == y + YOffset
    ensures x > MaxX ==> r.0 == MaxX + XOffset
    ensures x < XMin ==> r.0 == XMin + XOffset
    ensures y > MaxY ==> r.1 == MaxY + YOffset
    ensures y < YMin ==> r.1 == YMin + YOffset
  {
    (ClampAxis(x, XMin, MaxX) + XOffset, ClampAxis(y, YMin, MaxY) + YOffset)
  }

  /** Clamping never reorders positions along either axis. */
  lemma DeviceCoordsMonotone(x1: int, y1: int, x2: int, y2: int)
    requires x1 <= x2 && y1 <= y2
    ensures DeviceCoords(x1, y1).0 <= DeviceCoords(x2, y2).0
    ensures DeviceCoords(x1, y1).1 <= DeviceCoords(x2, y2).1
  {
  }

  /** The numbers a G01 command carries for a clamped position: `int(v + 0.5)`
      keeps the X range but moves the lowest Y, -900, to -899. */
  lemma SentCoordinates(x: int, y: int)
    ensures var d := DeviceCoords(x, y);
            790 <= RoundHalfUp(d.0) <= 1690 && -899 <= RoundHalfUp(d.1) <= 890 &&
            (y <= 0 ==> RoundHalfUp(d.1) == -899) && (900 <= y <= MaxY ==> RoundHalfUp(d.1) == y - 900)
  {
  }

  // ---------------------------------------------------------------------
  // Commands

  /** The Z heights `move` and `draw` send. */
  const RaisedZ: int := 1000
  const LoweredZ: int := 0

  const PenUpText: string := "G01 Z1000"
  const PenDownText: string := "G01 Z0"
  const HomeText: string := "G28"
  const NotConnectedText: string := "Not connected"

  /** `str(n)` is text: digits and a minus sign. */
  lemma FormatIsText(n: int)
    ensures IsText(FormatInt(n))
  {
    var t := FormatInt(n);
    forall i | 0 <= i < |t|
      ensures 0 < t[i] as int < 128
    {
      assert IsDigit(t[i]) || t[i] == '-';
    }
  }

  /** `str(int(v + 0.5))`: one coordinate as `g01` writes it. */
  function CoordText(v: int): (t: string)
    ensures IsText(t)
  {
    FormatIsText(RoundHalfUp(v));
    FormatInt(RoundHalfUp(v))
  }

  /** The text of `g01(x, y, z)`: each coordinate as `str(int(v + 0.5))`. */
  function G01Text(x: int, y: int, z: int): (t: string)
    ensures IsText(t)
  {
    var xs, ys, zs := CoordText(x), CoordText(y), CoordText(z);
    TextAppend("G01 X", xs);
    TextAppend("G01 X" + xs, " Y");
    TextAppend("G01 X" + xs + " Y", ys);
    TextAppend("G01 X" + xs + " Y" + ys, " Z");
    TextAppend("G01 X" + xs + " Y" + ys + " Z", zs);
    "G01 X" + xs + " Y" + ys + " Z" + zs
  }

  /** What `g01` writes for a coordinate, `int()` reads back as the rounded
      coordinate. */
  lemma CoordReadsBack(v: int)
    ensures ParseInt(CoordText(v)) == Some(RoundHalfUp(v))
  {
    ParseFormat(RoundHalfUp(v));
  }

  /** A G01 command is "G01 X", then the x field, " Y", the y field, " Z" and
      the z field, and each field reads back as its rounded coordinate. */
  lemma G01Fields(x: int, y: int, z: int)
    ensures var a := CoordText(x);
            var b := CoordText(y);
            var t := G01Text(x, y, z);
            |t| == 9 + |a| + |b| + |CoordText(z)| &&
            t[..5] == "G01 X" && ParseInt(t[5..5 + |a|]) == Some(RoundHalfUp(x)) &&
            t[5 + |a|..7 + |a|] == " Y" &&
            ParseInt(t[7 + |a|..7 + |a| + |b|]) == Some(RoundHalfUp(y)) &&
            t[7 + |a| + |b|..9 + |a| + |b|] == " Z" &&
            ParseInt(t[9 + |a| + |b|..]) == Some(RoundHalfUp(z))
  {
    G01Columns(CoordText(x), CoordText(y), CoordText(z));
    CoordReadsBack(x);
    CoordReadsBack(y);
    CoordReadsBack(z);
  }

  /** Where each piece of "G01 X<a> Y<b> Z<c>" sits. */
  lemma G01Columns(a: string, b: string, c: string)
    ensures var t := "G01 X" + a + " Y" + b + " Z" + c;
            |t| == 9 + |a| + |b| + |c| &&
            t[..5] == "G01 X" && t[5..5 + |a|] == a && t[5 + |a|..7 + |a|] == " Y" &&
            t[7 + |a|..7 + |a| + |b|] == b && t[7 + |a| + |b|..9 + |a| + |b|] == " Z" &&
            t[9 + |a| + |b|..] == c
  {
    var p1 := "G01 X" + a;
    var p2 := p1 + " Y";
    var p3 := p2 + b;
    var p4 := p3 + " Z";
    var t := p4 + c;
    Split2(p4, c);
    Split2(p3, " Z");
    Split2(p2, b);
    Split2(p1, " Y");
    Split2("G01 X", a);
    Within(t, p4, |p3|);
    Within(t, p3, |p2|);
    Within(t, p2, |p1|);
    Within(t, p1, 5);
  }

  lemma Split2(p: string, q: string)
    ensures (p + q)[..|p|] == p && (p + q)[|p|..] == q
  {
  }

  /** A slice that lies inside a prefix is that prefix's slice. */
  lemma Within(t: string, p: string, i: nat)
    requires |p| <= |t| && t[..|p|] == p && i <= |p|
    ensures t[i..|p|] == p[i..] && t[..i] == p[..i]
  {
  }

  /** `g01` encodes its command piece by piece; the pieces make up the
      encoding of the whole text. */
  lemma G01Pieces(x: int, y: int, z: int)
    ensures G01Command(x, y, z) ==
            Ascii("G01 X") + Ascii(CoordText(x)) + Ascii(" Y") +
            Ascii(CoordText(y)) + Ascii(" Z") + Ascii(CoordText(z))
  {
    var xs := CoordText(x);
    var ys := CoordText(y);
    var zs := CoordText(z);
    AsciiAppend("G01 X", xs);
    AsciiAppend("G01 X" + xs, " Y");
    AsciiAppend("G01 X" + xs + " Y", ys);
    AsciiAppend("G01 X" + xs + " Y" + ys, " Z");
    AsciiAppend("G01 X" + xs + " Y" + ys + " Z", zs);
  }

  function PenUpCommand(): seq<byte> { Ascii(PenUpText) }
  function PenDownCommand(): seq<byte> { Ascii(PenDownText) }
  function HomeCommand(): seq<byte> { Ascii(HomeText) }
  function NotConnectedBytes(): seq<byte> { Ascii(NotConnectedText) }
  /** `g01`'s command bytes: one character per byte, and no NUL. */
  function G01Command(x: int, y: int, z: int): (r: seq<byte>)
    ensures |r| == |G01Text(x, y, z)| && Nul !in r
  {
    AsciiNoNul(G01Text(x, y, z));
    Ascii(G01Text(x, y, z))
  }

  /** No command holds a NUL, so each is exactly one frame on the wire. */
  lemma CommandsAreFrames(x: int, y: int, z: int)
    ensures Nul !in PenUpCommand() && Nul !in PenDownCommand() && Nul !in HomeCommand()
    ensures Nul !in G01Command(x, y, z)
  {
    AsciiNoNul(PenUpText);
    AsciiNoNul(PenDownText);
    AsciiNoNul(HomeText);
    AsciiNoNul(G01Text(x, y, z));
  }

  // ---------------------------------------------------------------------
  // The session state and its operations

  /** The state of a `LineUs` object together with its socket. */
  datatype Session = Session(connected: bool, up: bool, xPos: int, yPos: int,
                             hello: seq<byte>, sent: seq<byte>, incoming: seq<byte>)

  /** `LineUs(name)`: connected, the hello message read, the pen flag
      false and the position (0, 0). */
  function Connect(input: seq<byte>): (s: Session)
    requires Nul in input
    ensures s.connected && !s.up && s.xPos == 0 && s.yPos == 0 && s.sent == []
    ensures input == s.hello + [Nul] + s.incoming && Nul !in s.hello
  {
    var (line, rest) := Receive(input);
    Session(true, false, 0, 0, line, [], rest)
  }

  /** `__send_command(command)` followed by `__read_response()`, the reply
      dropped: one frame out, one frame in. */
  function Transact(s: Session, command: seq<byte>): (r: Session)
    requires s.connected && Nul in s.incoming
    ensures r.sent == s.sent + command + [Nul]
    ensures s.incoming == Receive(s.incoming).0 + [Nul] + r.incoming
    ensures ZeroCount(r.incoming) == ZeroCount(s.incoming) - 1
    ensures r.(sent := s.sent, incoming := s.incoming) == s
  {
    s.(sent := s.sent + command + [Nul], incoming := Receive(s.incoming).1)
  }

  /** `up()`: only a pen that is down is raised. */
  function PenUp(s: Session): (r: Session)
    requires s.up || (s.connected && Nul in s.incoming)
    ensures r.up && r.xPos == s.xPos && r.yPos == s.yPos && r.connected == s.connected
    ensures s.up ==> r == s
  {
    if s.up then s else Transact(s, PenUpCommand()).(up := true)
  }

  /** `down()`: only a pen that is up is lowered. */
  function PenDown(s: Session): (r: Session)
    requires !s.up || (s.connected && Nul in s.incoming)
    ensures !r.up && r.xPos == s.xPos && r.yPos == s.yPos && r.connected == s.connected
    ensures !s.up ==> r == s
  {
    if !s.up then s else Transact(s, PenDownCommand()).(up := false)
  }

  /** `g01(x, y, z)`. */
  function Linear(s: Session, x: int, y: int, z: int): (r: Session)
    requires s.connected && Nul in s.incoming
    ensures r.up == s.up && r.xPos == s.xPos && r.yPos == s.yPos
  {
    Transact(s, G01Command(x, y, z))
  }

  /** The replies an operation that raises the pen, then sends one command
      needs; `LowerReplies` the same for lowering it. */
  function RaiseReplies(s: Session): nat { if s.up then 1 else 2 }
  function LowerReplies(s: Session): nat { if s.up then 2 else 1 }

  /** The session with its remembered position set to (x, y). */
  function At(s: Session, x: int, y: int): Session
  {
    s.(xPos := x, yPos := y)
  }

  /** `move(x, y)`: remember the unclamped position, raise the pen, then
      travel to the clamped position with Z at 1000. */
  function MoveTo(s: Session, x: int, y: int): (r: Session)
    requires s.connected && ZeroCount(s.incoming) >= RaiseReplies(s)
    ensures r.up && r.xPos == x && r.yPos == y && r.connected
  {
    var d := DeviceCoords(x, y);
    var raised := PenUp(At(s, x, y));
    Linear(raised, d.0, d.1, RaisedZ)
  }

  /** `draw(x, y)`: the same with the pen lowered and Z at 0. */
  function DrawTo(s: Session, x: int, y: int): (r: Session)
    requires s.connected && ZeroCount(s.incoming) >= LowerReplies(s)
    ensures !r.up && r.xPos == x && r.yPos == y && r.connected
  {
    var d := DeviceCoords(x, y);
    var lowered := PenDown(At(s, x, y));
    Linear(lowered, d.0, d.1, LoweredZ)
  }

  /** `move` and `draw` overwrite the remembered position before they use
      it, so the position they start from makes no difference. */
  lemma TravelForgetsPosition(s: Session, x: int, y: int)
    ensures s.connected && ZeroCount(s.incoming) >= RaiseReplies(s) ==>
            MoveTo(At(s, x, y), x, y) == MoveTo(s, x, y)
    ensures s.connected && ZeroCount(s.incoming) >= LowerReplies(s) ==>
            DrawTo(At(s, x, y), x, y) == DrawTo(s, x, y)
  {
    assert At(At(s, x, y), x, y) == At(s, x, y);
  }

  /** `v += d`: one coordinate of `move_relative` and `draw_relative`. */
  function Offset(v: int, d: int): int
  {
    v + d
  }

  /** `home()`: G28, then the remembered position is the origin; the pen
      flag is left as it was. */
  function GoHome(s: Session): (r: Session)
    requires s.connected && Nul in s.incoming
    ensures r.xPos == 0 && r.yPos == 0 && r.up == s.up && r.connected
  {
    Transact(s, HomeCommand()).(xPos := 0, yPos := 0)
  }

  /** `disconnect()`. */
  function Disconnected(s: Session): (r: Session)
    ensures !r.connected && r.(connected := s.connected) == s
  {
    s.(connected := false)
  }

  /** `get_hello_string()`, as bytes. */
  function HelloString(s: Session): (r: seq<byte>)
    ensures s.connected ==> r == s.hello
  {
    if s.connected then s.hello else NotConnectedBytes()
  }

  // ---------------------------------------------------------------------
  // What goes over the wire

  /** The operations a script performs on a session. */
  datatype Op =
    | UpOp
    | DownOp
    | MoveOp(x: int, y: int)
    | DrawOp(x: int, y: int)
    | HomeOp
    | DisconnectOp

  /** The commands each operation sends, in order: a reference for the
      traffic, written from the pen flag and the operation's arguments alone. */
  function Sends(s: Session, op: Op): seq<seq<byte>>
  {
    match op
    case UpOp => RaiseSends(s)
    case DownOp => LowerSends(s)
    case MoveOp(x, y) => RaiseSends(s) + [TravelCommand(x, y, RaisedZ)]
    case DrawOp(x, y) => LowerSends(s) + [TravelCommand(x, y, LoweredZ)]
    case HomeOp => [HomeCommand()]
    case DisconnectOp => []
  }

  function RaiseSends(s: Session): seq<seq<byte>>
  {
    if s.up then [] else [PenUpCommand()]
  }

  function LowerSends(s: Session): seq<seq<byte>>
  {
    if s.up then [PenDownCommand()] else []
  }

  /** The G01 that travels to drawing-area position (x, y) at height z. */
  function TravelCommand(x: int, y: int, z: int): seq<byte>
  {
    G01Command(DeviceCoords(x, y).0, DeviceCoords(x, y).1, z)
  }

  /** An operation can run when it sends nothing, or when the session is
      connected and a reply is pending for each command it sends. */
  predicate Ready(s: Session, op: Op)
  {
    |Sends(s, op)| == 0 || (s.connected && ZeroCount(s.incoming) >= |Sends(s, op)|)
  }

  /** The operation `op` performed on `s`. */
  function Apply(s: Session, op: Op): Session
    requires Ready(s, op)
  {
    match op
    case UpOp => PenUp(s)
    case DownOp => PenDown(s)
    case MoveOp(x, y) => MoveTo(s, x, y)
    case DrawOp(x, y) => DrawTo(s, x, y)
    case HomeOp => GoHome(s)
    case DisconnectOp => Disconnected(s)
  }

  lemma FramesOfLast(cmds: seq<seq<byte>>, c: seq<byte>)
    ensures Frames(cmds + [c]) == Frames(cmds) + c + [Nul]
  {
    DropLast(cmds, c);
  }

  /** The bytes of one transaction: the command and its terminator. */
  lemma TransactSent(s: Session, command: seq<byte>)
    requires s.connected && Nul in s.incoming
    ensures Transact(s, command).sent == s.sent + Frames([command])
  {
    FramesOfLast([], command);
    assert [] + [command] == [command];
    assert Frames([command]) == command + [Nul];
    AppendAssoc(s.sent, command, [Nul]);
  }

  lemma PenUpSent(s: Session)
    requires s.up || (s.connected && Nul in s.incoming)
    ensures PenUp(s).sent == s.sent + Frames(RaiseSends(s))
    ensures ZeroCount(PenUp(s).incoming) == ZeroCount(s.incoming) - |RaiseSends(s)|
  {
    if !s.up {
      TransactSent(s, PenUpCommand());
    }
  }

  lemma PenDownSent(s: Session)
    requires !s.up || (s.connected && Nul in s.incoming)
    ensures PenDown(s).sent == s.sent + Frames(LowerSends(s))
    ensures ZeroCount(PenDown(s).incoming) == ZeroCount(s.incoming) - |LowerSends(s)|
  {
    if s.up {
      TransactSent(s, PenDownCommand());
    }
  }

  /** A pen change followed by one G01. */
  lemma TravelSent(s: Session, t: Session, pen: seq<seq<byte>>, x: int, y: int, z: int)
    requires t.connected && Nul in t.incoming && t.sent == s.sent + Frames(pen)
    ensures Linear(t, DeviceCoords(x, y).0, DeviceCoords(x, y).1, z).sent ==
            s.sent + Frames(pen + [TravelCommand(x, y, z)])
  {
    var g := TravelCommand(x, y, z);
    FramesOfLast(pen, g);
    AppendAssoc(s.sent, Frames(pen), g + [Nul]);
    AppendAssoc(Frames(pen), g, [Nul]);
    AppendAssoc(s.sent + Frames(pen), g, [Nul]);
  }

  lemma MoveSent(s: Session, x: int, y: int)
    requires s.connected && ZeroCount(s.incoming) >= RaiseReplies(s)
    ensures MoveTo(s, x, y).sent == s.sent + Frames(RaiseSends(s) + [TravelCommand(x, y, RaisedZ)])
    ensures ZeroCount(MoveTo(s, x, y).incoming) == ZeroCount(s.incoming) - RaiseReplies(s)
  {
    var moved := At(s, x, y);
    PenUpSent(moved);
    TravelSent(s, PenUp(moved), RaiseSends(s), x, y, RaisedZ);
  }

  lemma DrawSent(s: Session, x: int, y: int)
    requires s.connected && ZeroCount(s.incoming) >= LowerReplies(s)
    ensures DrawTo(s, x, y).sent == s.sent + Frames(LowerSends(s) + [TravelCommand(x, y, LoweredZ)])
    ensures ZeroCount(DrawTo(s, x, y).incoming) == ZeroCount(s.incoming) - LowerReplies(s)
  {
    var moved := At(s, x, y);
    PenDownSent(moved);
    TravelSent(s, PenDown(moved), LowerSends(s), x, y, LoweredZ);
  }

  /** Every operation puts the frames of exactly the commands `Sends` lists
      on the wire and consumes one reply per command. */
  lemma ApplySent(s: Session, op: Op)
    requires Ready(s, op)
    ensures Apply(s, op).sent == s.sent + Frames(Sends(s, op))
    ensures ZeroCount(Apply(s, op).incoming) == ZeroCount(s.incoming) - |Sends(s, op)|
  {
    match op
    case UpOp => PenUpSent(s);
    case DownOp => PenDownSent(s);
    case MoveOp(x, y) => MoveSent(s, x, y);
    case DrawOp(x, y) => DrawSent(s, x, y);
    case HomeOp => TransactSent(s, HomeCommand());
    case DisconnectOp => assert s.sent + Frames([]) == s.sent;
  }

  /** Every command an operation sends is a single frame. */
  lemma SendsNulFree(s: Session, op: Op)
    ensures NulFree(Sends(s, op))
  {
    CommandsAreFrames(0, 0, 0);
    match op
    case MoveOp(x, y) =>
      CommandsAreFrames(DeviceCoords(x, y).0, DeviceCoords(x, y).1, RaisedZ);
    case DrawOp(x, y) =>
      CommandsAreFrames(DeviceCoords(x, y).0, DeviceCoords(x, y).1, LoweredZ);
    case _ =>
  }

  /** Exactly the commands `Sends` lists reach the plotter, each frame
      after the ones already sent, and exactly one reply is consumed per
      command: the "one send, one read" rhythm. */
  lemma ApplyTraffic(s: Session, op: Op)
    requires Ready(s, op) && Framed(s.sent)
    ensures Framed(Apply(s, op).sent)
    ensures Unframe(Apply(s, op).sent) == Unframe(s.sent) + Sends(s, op)
    ensures ZeroCount(Apply(s, op).incoming) == ZeroCount(s.incoming) - |Sends(s, op)|
  {
    ApplySent(s, op);
    SendsNulFree(s, op);
    UnframeFrames(s.sent, Sends(s, op));
  }

  /** A script: operations performed one after another, each when it can
      run; the commands of the whole run; and the run itself. */
  predicate RunReady(s: Session, ops: seq<Op>)
    decreases |ops|
  {
    ops == [] || (Ready(s, ops[0]) && RunReady(Apply(s, ops[0]), ops[1..]))
  }

  function RunSends(s: Session, ops: seq<Op>): seq<seq<byte>>
    requires RunReady(s, ops)
    decreases |ops|
  {
    if ops == [] then [] else Sends(s, ops[0]) + RunSends(Apply(s, ops[0]), ops[1..])
  }

  function Run(s: Session, ops: seq<Op>): Session
    requires RunReady(s, ops)
    decreases |ops|
  {
    if ops == [] then s else Run(Apply(s, ops[0]), ops[1..])
  }

  /** Over a whole run the plotter reads exactly the listed commands, and
      the replies consumed equal the commands sent. */
  lemma {:induction false} RunTraffic(s: Session, ops: seq<Op>)
    requires RunReady(s, ops) && Framed(s.sent)
    ensures Framed(Run(s, ops).sent)
    ensures Unframe(Run(s, ops).sent) == Unframe(s.sent) + RunSends(s, ops)
    ensures ZeroCount(s.incoming) - ZeroCount(Run(s, ops).incoming) == |RunSends(s, ops)|
    decreases |ops|
  {
    if ops != [] {
      var next := Apply(s, ops[0]);
      ApplyTraffic(s, ops[0]);
      RunTraffic(next, ops[1..]);
      AppendAssoc(Unframe(s.sent), Sends(s, ops[0]), RunSends(next, ops[1..]));
    }
  }

  /** `up()` twice sends at most one command, and the second call changes
      nothing; the same for `down()`. */
  lemma PenIdempotent(s: Session)
    requires Ready(s, UpOp) && Ready(s, DownOp)
    ensures PenUp(PenUp(s)) == PenUp(s) && Sends(PenUp(s), UpOp) == []
    ensures PenDown(PenDown(s)) == PenDown(s) && Sends(PenDown(s), DownOp) == []
  {
  }

  /** A fresh session has its pen flag false, so the first `move` raises
      the pen before it travels. */
  lemma FirstMoveRaises(input: seq<byte>, x: int, y: int)
    requires Nul in input
    ensures var d := DeviceCoords(x, y);
            Sends(Connect(input), MoveOp(x, y)) == [PenUpCommand(), G01Command(d.0, d.1, RaisedZ)]
  {
  }

  /** After a move the pen is up, so a second move sends only its G01. */
  lemma MoveAfterMove(s: Session, x1: int, y1: int, x2: int, y2: int)
    requires s.connected && ZeroCount(s.incoming) >= RaiseReplies(s)
    ensures var d := DeviceCoords(x2, y2);
            Sends(MoveTo(s, x1, y1), MoveOp(x2, y2)) == [G01Command(d.0, d.1, RaisedZ)]
  {
  }

  /** `move_relative(0, 0)` and `draw_relative(0, 0)` keep the remembered
      position but still send their G01, after any pen change. */
  lemma ZeroRelative(s: Session)
    ensures s.connected && ZeroCount(s.incoming) >= RaiseReplies(s) ==>
            var r := MoveTo(s, Offset(s.xPos, 0), Offset(s.yPos, 0));
            r.xPos == s.xPos && r.yPos == s.yPos &&
            r.sent == s.sent + Frames(RaiseSends(s) + [TravelCommand(s.xPos, s.yPos, RaisedZ)])
    ensures s.connected && ZeroCount(s.incoming) >= LowerReplies(s) ==>
            var r := DrawTo(s, Offset(s.xPos, 0), Offset(s.yPos, 0));
            r.xPos == s.xPos && r.yPos == s.yPos &&
            r.sent == s.sent + Frames(LowerSends(s) + [TravelCommand(s.xPos, s.yPos, LoweredZ)])
  {
    if s.connected && ZeroCount(s.incoming) >= RaiseReplies(s) {
      MoveSent(s, s.xPos, s.yPos);
    }
    if s.connected && ZeroCount(s.incoming) >= LowerReplies(s) {
      DrawSent(s, s.xPos, s.yPos);
    }
  }

  /** The hello string of a fresh session is the first frame the plotter
      sends; after `disconnect()` it is "Not connected". */
  lemma HelloIsFirstFrame(line: seq<byte>, rest: seq<byte>)
    requires Nul !in line
    ensures var input := line + [Nul] + rest;
            input[|line|] == Nul && HelloString(Connect(input)) == line &&
            Connect(input).incoming == rest &&
            HelloString(Disconnected(Connect(input))) == NotConnectedBytes()
  {
    ReceiveUnique(line, rest);
  }

  /** One pass of `__read_response`'s loop: a byte other than NUL joins the
      line and a NUL still lies ahead; a NUL ends the reply. */
  lemma ReceiveStep(input: seq<byte>, line: seq<byte>, pending: seq<byte>, c: byte, rest: seq<byte>)
    requires input == line + pending && pending == [c] + rest
    requires Nul !in line && Nul in pending
    ensures c != Nul ==> input == (line + [c]) + rest && Nul !in line + [c] && Nul in rest
    ensures c == Nul ==> Receive(input) == (line, rest)
  {
    AppendAssoc(line, [c], rest);
    if c == Nul {
      ReceiveUnique(line, rest);
    } else {
      assert Nul in rest by {
        assert forall i :: 0 < i < |pending| ==> pending[i] == rest[i - 1];
      }
    }
  }

  // ---------------------------------------------------------------------
  // The object

  /** `LineUs`: the session's fields, updated in place. */
  class LineUs {
    var connected: bool
    var up: bool
    var xPos: int
    var yPos: int
    var hello: seq<byte>
    var sent: seq<byte>
    var incoming: seq<byte>

    function State(): Session
      reads this
    {
      Session(connected, up, xPos, yPos, hello, sent, incoming)
    }

    /** `LineUs(name)` on a socket whose plotter will send `input`. */
    constructor (input: seq<byte>)
      requires Nul in input
      ensures State() == Connect(input)
    {
      xPos := 0;
      yPos := 0;
      sent := [];
      incoming := input;
      connected := true;
      new;
      hello := ReadResponse();
      up := false;
    }

    /** `recv(1)`: the next byte from the plotter. */
    method Recv() returns (b: byte)
      requires |incoming| > 0
      modifies this
      ensures b == old(incoming)[0]
      ensures State() == old(State()).(incoming := old(incoming)[1..])
    {
      b := incoming[0];
      incoming := incoming[1..];
    }

    /** `__read_response()`: bytes up to the first NUL, the NUL consumed. */
    method ReadResponse() returns (line: seq<byte>)
      requires Nul in incoming
      modifies this
      ensures (line, incoming) == Receive(old(incoming))
      ensures State() == old(State()).(incoming := incoming)
    {
      line := [];
      while true
        invariant old(incoming) == line + incoming
        invariant Nul !in line && Nul in incoming
        invariant connected == old(connected) && up == old(up) && hello == old(hello)
        invariant xPos == old(xPos) && yPos == old(yPos) && sent == old(sent)
        decreases |incoming|
      {
        ghost var pending := incoming;
        var c := Recv();
        ReceiveStep(old(incoming), line, pending, c, incoming);
        if c != Nul {
          line := line + [c];
        } else {
          break;
        }
      }
    }

    /** `__send_command(command)`: the command and one NUL. */
    method SendCommand(command: seq<byte>)
      requires connected
      modifies this
      ensures State() == old(State()).(sent := old(sent) + command + [Nul])
    {
      var framed := command + [Nul];
      sent := sent + framed;
    }

    /** `g01(x, y, z)`: the G01 command built piece by piece, sent, and its
        reply read. */
    method G01(x: int, y: int, z: int)
      requires connected && Nul in incoming
      modifies this
      ensures State() == Linear(old(State()), x, y, z)
    {
      var cmd := Ascii("G01 X");
      cmd := cmd + Ascii(CoordText(x));
      cmd := cmd + Ascii(" Y");
      cmd := cmd + Ascii(CoordText(y));
      cmd := cmd + Ascii(" Z");
      cmd := cmd + Ascii(CoordText(z));
      G01Pieces(x, y, z);
      SendCommand(cmd);
      var reply := ReadResponse();
    }

    /** `up()`. */
    method Up()
      requires up || (connected && Nul in incoming)
      modifies this
      ensures State() == PenUp(old(State()))
    {
      if up {
        return;
      }
      up := true;
      SendCommand(PenUpCommand());
      var reply := ReadResponse();
    }

    /** `down()`. */
    method Down()
      requires !up || (connected && Nul in incoming)
      modifies this
      ensures State() == PenDown(old(State()))
    {
      if !up {
        return;
      }
      up := false;
      SendCommand(PenDownCommand());
      var reply := ReadResponse();
    }

    /** `check_coords(x, y)`. */
    method CheckCoords(x: int, y: int) returns (cx: int, cy: int)
      ensures (cx, cy) == DeviceCoords(x, y)
    {
      cx := x;
      if cx > MaxX {
        cx := MaxX;
      }
      if cx < XMin {
        cx := XMin;
      }
      cx := cx + XOffset;
      cy := y;
      if cy > MaxY {
        cy := MaxY;
      }
      if cy < YMin {
        cy := YMin;
      }
      cy := cy + YOffset;
    }

    /** `move(x, y)`. */
    method Move(x: int, y: int)
      requires connected && ZeroCount(incoming) >= RaiseReplies(State())
      modifies this
      ensures State() == MoveTo(old(State()), x, y)
    {
      xPos := x;
      yPos := y;
      ghost var moved := At(old(State()), x, y);
      assert State() == moved;
      var cx, cy := CheckCoords(x, y);
      Up();
      assert State() == PenUp(moved);
      G01(cx, cy, RaisedZ);
    }

    /** `draw(x, y)`. */
    method Draw(x: int, y: int)
      requires connected && ZeroCount(incoming) >= LowerReplies(State())
      modifies this
      ensures State() == DrawTo(old(State()), x, y)
    {
      xPos := x;
      yPos := y;
      ghost var moved := At(old(State()), x, y);
      assert State() == moved;
      var cx, cy := CheckCoords(x, y);
      Down();
      assert State() == PenDown(moved);
      G01(cx, cy, LoweredZ);
    }

    /** `draw_relative(dx, dy)`: the remembered position, unclamped, plus
        the offset, drawn to. */
    method DrawRelative(dx: int, dy: int)
      requires connected && ZeroCount(incoming) >= LowerReplies(State())
      modifies this
      ensures State() == DrawTo(old(State()), Offset(old(xPos), dx), Offset(old(yPos), dy))
    {
      xPos := Offset(xPos, dx);
      yPos := Offset(yPos, dy);
      Draw(xPos, yPos);
    }

    /** `move_relative(dx, dy)`: the same as a move. */
    method MoveRelative(dx: int, dy: int)
      requires connected && ZeroCount(incoming) >= RaiseReplies(State())
      modifies this
      ensures State() == MoveTo(old(State()), Offset(old(xPos), dx), Offset(old(yPos), dy))
    {
      xPos := Offset(xPos, dx);
      yPos := Offset(yPos, dy);
      Move(xPos, yPos);
    }

    /** `home()`. */
    method Home()
      requires connected && Nul in incoming
      modifies this
      ensures State() == GoHome(old(State()))
    {
      SendCommand(HomeCommand());
      var reply := ReadResponse();
      xPos := 0;
      yPos := 0;
    }

    /** `get_hello_string()`, as bytes. */
    method GetHelloString() returns (r: seq<byte>)
      ensures r == HelloString(State())
    {
      if connected {
        return hello;
      } else {
        return NotConnectedBytes();
      }
    }

    /** `disconnect()`. */
    method Disconnect()
      modifies this
      ensures State() == Disconnected(old(State()))
    {
      connected := false;
    }
  }
}
