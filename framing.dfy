/** The byte stream between the script and the plotter. Every command and
    every response is a payload followed by one zero byte (NUL); there is no
    length prefix, so framing is sound only for payloads without a NUL. */
module Framing {
  import opened Seqs

  newtype byte = b: int | 0 <= b < 256

  const Nul: byte := 0

  /** `s.encode()` for a string of ASCII characters. */
  function Ascii(s: string): (r: seq<byte>)
    requires forall i :: 0 <= i < |s| ==> s[i] as int < 128
    ensures |r| == |s| && forall i :: 0 <= i < |s| ==> r[i] as int == s[i] as int
  {
    seq(|s|, i requires 0 <= i < |s| => s[i] as int as byte)
  }

  /** ASCII text without a NUL character: what a command may hold. */
  predicate IsText(s: string)
  {
    forall i :: 0 <= i < |s| ==> 0 < s[i] as int < 128
  }

  /** Text joined to text is text. */
  lemma TextAppend(a: string, b: string)
    requires IsText(a) && IsText(b)
    ensures IsText(a + b)
  {
  }

  /** Text encodes to a NUL-free payload. */
  lemma AsciiNoNul(s: string)
    requires IsText(s)
    ensures Nul !in Ascii(s)
  {
  }

  /** `a.encode() + b.encode() == (a + b).encode()`. */
  lemma AsciiAppend(a: string, b: string)
    requires IsText(a) && IsText(b)
    ensures IsText(a + b) && Ascii(a + b) == Ascii(a) + Ascii(b)
  {
  }

  /** The number of terminators in a byte sequence: the frames it holds. */
  function ZeroCount(s: seq<byte>): (n: nat)
    ensures n > 0 <==> Nul in s
    ensures n <= |s|
  {
    if s == [] then 0
    else (if s[0] == Nul then 1 else 0) + ZeroCount(s[1..])
  }

  lemma {:induction false} ZeroCountAppend(a: seq<byte>, b: seq<byte>)
    ensures ZeroCount(a + b) == ZeroCount(a) + ZeroCount(b)
  {
    if a == [] {
      assert a + b == b;
    } else {
      assert (a + b)[1..] == a[1..] + b;
      ZeroCountAppend(a[1..], b);
    }
  }

  /** The position of the first terminator. */
  function FirstZero(s: seq<byte>): (i: nat)
    requires Nul in s
    ensures i < |s| && s[i] == Nul && Nul !in s[..i]
  {
    if s[0] == Nul then 0
    else
      var j := FirstZero(s[1..]);
      assert s[..j + 1] == [s[0]] + s[1..][..j];
      j + 1
  }

  /** A frame is found where its terminator is: reading `c + [Nul] + rest`
      stops after `c` exactly when `c` holds no NUL. */
  lemma {:induction false} FirstZeroOfFrame(c: seq<byte>, rest: seq<byte>)
    requires Nul !in c
    ensures FirstZero(c + [Nul] + rest) == |c|
  {
    var s := c + [Nul] + rest;
    if c != [] {
      assert s[1..] == c[1..] + [Nul] + rest;
      FirstZeroOfFrame(c[1..], rest);
    }
  }

  /** One framed read from a stream: the payload before the first NUL and
      what is left after that NUL. */
  function Receive(input: seq<byte>): (r: (seq<byte>, seq<byte>))
    requires Nul in input
    ensures input == r.0 + [Nul] + r.1 && Nul !in r.0
    ensures ZeroCount(r.1) == ZeroCount(input) - 1
  {
    var i := FirstZero(input);
    assert input == input[..i] + [Nul] + input[i + 1..];
    ZeroCountAppend(input[..i] + [Nul], input[i + 1..]);
    ZeroCountAppend(input[..i], [Nul]);
    (input[..i], input[i + 1..])
  }

  /** `Receive` is determined by the split it promises. */
  lemma ReceiveUnique(line: seq<byte>, rest: seq<byte>)
    requires Nul !in line
    ensures Receive(line + [Nul] + rest) == (line, rest)
  {
    var s := line + [Nul] + rest;
    FirstZeroOfFrame(line, rest);
    assert s[..|line|] == line;
    assert s[|line| + 1..] == rest;
  }

  /** A stream that ends on a terminator (or is empty): only whole frames. */
  predicate Framed(s: seq<byte>)
  {
    s == [] || s[|s| - 1] == Nul
  }

  /** The payloads of a stream of whole frames, in order. */
  function Unframe(s: seq<byte>): (r: seq<seq<byte>>)
    requires Framed(s)
    ensures |r| == ZeroCount(s)
    decreases |s|
  {
    if s == [] then []
    else
      var (line, rest) := Receive(s);
      assert rest == [] || rest[|rest| - 1] == s[|s| - 1];
      [line] + Unframe(rest)
  }

  /** Reading a frame off the front of a stream of whole frames. */
  lemma UnframeCons(line: seq<byte>, rest: seq<byte>)
    requires Nul !in line && Framed(rest)
    ensures Framed(line + [Nul] + rest)
    ensures Unframe(line + [Nul] + rest) == [line] + Unframe(rest)
  {
    ReceiveUnique(line, rest);
  }

  /** Sending one more NUL-free command adds exactly that payload to what a
      reader of the stream sees. */
  lemma {:induction false} UnframeAppend(s: seq<byte>, c: seq<byte>)
    requires Framed(s) && Nul !in c
    ensures Framed(s + c + [Nul])
    ensures Unframe(s + c + [Nul]) == Unframe(s) + [c]
    decreases |s|
  {
    if s == [] {
      assert s + c + [Nul] == c + [Nul] + [];
      UnframeCons(c, []);
    } else {
      var r := Receive(s);
      assert Framed(r.1) by {
        assert r.1 == [] || r.1[|r.1| - 1] == s[|s| - 1];
      }
      UnframeAppend(r.1, c);
      UnframeShift(r.0, r.1, c);
    }
  }

  /** The step of UnframeAppend: the first frame stays in front. */
  lemma UnframeShift(line: seq<byte>, rest: seq<byte>, c: seq<byte>)
    requires Nul !in line && Nul !in c && Framed(rest)
    requires Framed(rest + c + [Nul]) && Unframe(rest + c + [Nul]) == Unframe(rest) + [c]
    ensures Framed(line + [Nul] + rest + c + [Nul])
    ensures Unframe(line + [Nul] + rest + c + [Nul]) == Unframe(line + [Nul] + rest) + [c]
  {
    var front := line + [Nul];
    calc {
      front + rest + c + [Nul];
      { AppendAssoc(front, rest, c); }
      (front + (rest + c)) + [Nul];
      { AppendAssoc(front, rest + c, [Nul]); }
      front + (rest + c + [Nul]);
    }
    UnframeCons(line, rest);
    UnframeCons(line, rest + c + [Nul]);
    AppendAssoc([line], Unframe(rest), [c]);
  }

  /** Payloads that are each one frame. */
  predicate NulFree(cmds: seq<seq<byte>>)
  {
    forall j :: 0 <= j < |cmds| ==> Nul !in cmds[j]
  }

  /** The bytes that sending `cmds` in order puts on the wire. */
  function Frames(cmds: seq<seq<byte>>): seq<byte>
  {
    if cmds == [] then [] else Frames(cmds[..|cmds| - 1]) + cmds[|cmds| - 1] + [Nul]
  }

  /** A reader of the stream sees exactly the payloads sent, in order. */
  lemma {:induction false} UnframeFrames(s: seq<byte>, cmds: seq<seq<byte>>)
    requires Framed(s) && NulFree(cmds)
    ensures Framed(s + Frames(cmds))
    ensures Unframe(s + Frames(cmds)) == Unframe(s) + cmds
    decreases |cmds|
  {
    if cmds == [] {
      assert s + Frames(cmds) == s;
      assert Unframe(s) + cmds == Unframe(s);
    } else {
      var init := cmds[..|cmds| - 1];
      var c := cmds[|cmds| - 1];
      UnframeFrames(s, init);
      var before := s + Frames(init);
      assert Frames(cmds) == Frames(init) + c + [Nul];
      calc {
        s + Frames(cmds);
        s + (Frames(init) + c + [Nul]);
        { AppendAssoc(s, Frames(init) + c, [Nul]); AppendAssoc(s, Frames(init), c); }
        before + c + [Nul];
      }
      UnframeAppend(before, c);
      AppendAssoc(Unframe(s), init, [c]);
      SplitLast(cmds);
    }
  }
}
