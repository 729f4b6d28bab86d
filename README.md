# line-us-text in Dafny

`line-us-text.py` writes text with a Line-us drawing robot. It has three parts, and each is modelled here:

* **The Hershey decoder** (`char2val`, `identity`, `hersheyparse`), in module `Hershey`. It turns one fixed-column Hershey font record into a glyph. The record holds a character code, a vertex count, left and right bearings and strokes of letter-encoded points. `int()` and `str()` of the fields are modelled in `PyInt`.
* **The `LineUs` class**, in module `Session`. It clamps drawing-area coordinates into the plotter's frame (`check_coords`) and writes G-code commands as NUL-terminated ASCII frames (`g01`, `up`, `down`, `move`, `draw`, the relative forms, `home`). After each command it reads one NUL-terminated reply (`__read_response`). It keeps the pen flag, the last requested position and the hello message.
  * The class keeps its fields and its methods update them in place.
  * The socket is two byte sequences: `sent`, every byte written so far, and `incoming`, every byte the plotter has yet to deliver.
  * Each state-changing method is proved to leave the state that a function on a `Session` value describes. `Recv` and `SendCommand` state their new state as an update of the old one. `CheckCoords` and `GetHelloString` return the value of `DeviceCoords` and `HelloString`.
  * Module `Framing` proves what the plotter reads off the wire: exactly the commands sent, in order.
* **The layout loop** at the end of the script, in module `Layout`. For each character of the input it looks up the glyph record, decodes it, and moves or draws to each stroke point after scaling and offsetting it. `_` starts a new line and a space advances by the width of `i`.
  * The loop is a method over the glyph table.
  * It returns the plotter calls as a list of events, `Move` or `Draw` at a position.
  * It is proved equal to a recursive specification, `RenderFrom`.
  * Lemmas about `RenderFrom` state how it fails, splits over concatenation, and shifts with the cursor.

Shared sequence lemmas are in `Seqs`.

Coordinates are `int`. The script's layout factor is `8 * 1.25 = 10`, so every position the loop computes is a whole number. `int(v + 0.5)` on a whole number is modelled exactly by `RoundHalfUp`: `v` for `v >= 0` and `v + 1` below zero, because `int()` truncates toward zero.

## Model

| member | source | states |
|---|---|---|
| PyInt.RoundHalfUpTruncates | line-us-text.py:53-57 | `RoundHalfUp(v)`, the model of `int(v + 0.5)` on a whole number, is the truncation toward zero of `(2v+1)/2`. It is never below `v` and at most one above it. |
| PyInt.ParseFormat | line-us-text.py:53-57 | `int(str(n)) == n` for every integer: a G01 coordinate reads back as the number written. |
| PyInt.ParsePadded | line-us-text.py:186-187 | `int()` of a right-aligned header field (spaces, then digits) is the number of the digits. |
| PyInt.ParseInt | line-us-text.py:186-187 | `int(s)`: a value only when something is left after stripping white space. `ParseFormat` and `ParsePadded` give the values. |
| PyInt.FormatInt | line-us-text.py:53 | `str(n)`: digits, with a leading minus sign exactly when `n` is negative. |
| Framing.Ascii | line-us-text.py:52-57 | `.encode()` of ASCII text keeps the length and maps each character to its code. |
| Framing.AsciiNoNul | line-us-text.py:52-57 | Encoded command text holds no NUL byte, so it is one frame on the wire. |
| Framing.AsciiAppend | line-us-text.py:52-57 | Encoding the pieces of a command and concatenating them equals encoding the whole text. |
| Framing.ZeroCount | line-us-text.py:127-136 | The number of NULs pending is positive exactly when a reply can be read. |
| Framing.Receive | line-us-text.py:127-136 | One reply read: the input is the reply, a NUL, then the rest. The reply holds no NUL and one fewer frame remains. |
| Framing.ReceiveUnique | line-us-text.py:127-136 | The read stops at the first NUL. For `line + [NUL] + rest` with a NUL-free `line`, it returns `(line, rest)`. |
| Framing.FirstZeroOfFrame | line-us-text.py:130-135 | The first NUL of `c + [NUL] + rest`, for a NUL-free `c`, is at `|c|`. |
| Framing.UnframeAppend | line-us-text.py:138-143 | Sending one NUL-free command, then a NUL, adds exactly that command to what a reader of the stream sees. |
| Framing.UnframeFrames | line-us-text.py:138-143 | Sending NUL-free commands in order: a reader of the stream sees the earlier payloads followed by exactly those commands. |
| Hershey.CharToVal | line-us-text.py:161-162 | `char2val`: the letter's code minus the code of 'R'; 'R' is 0. |
| Hershey.CharToValRoundTrip | line-us-text.py:161-162 | `chr(char2val(c) + ord('R')) == c`: decoding a letter loses nothing. |
| Hershey.ValToCharRoundTrip | line-us-text.py:161-162 | Every offset whose character is a Unicode scalar value decodes back to itself. |
| Hershey.CharToValInjective | line-us-text.py:161-162 | Different letters decode to different offsets. |
| Hershey.Identity | line-us-text.py:164-165 | `identity(a, b)` is the point with x = a and y = b. |
| Hershey.Slice | line-us-text.py:186-187 | `dat[lo:hi]` with the bounds cut to the length: the length that leaves, and character i is `dat[lo + i]`. |
| Hershey.Suffix | line-us-text.py:176 | `dat[10:]`: the characters from column 11 on, or empty for a shorter record. |
| Hershey.VertexField | line-us-text.py:170 | `int(dat[5:8])` reads a number only when the record reaches column 6. |
| Hershey.Pairs | line-us-text.py:180 | The pairing of one stroke yields `len(s) // 2` points. Point k is (char2val(s[2k]), char2val(s[2k+1])), and an odd last letter is dropped. |
| Hershey.Split | line-us-text.py:176 | `str.split(s, ' R')`: the pieces, joined with " R", give back `s`, and no piece holds " R". |
| Hershey.SplitUnique | line-us-text.py:176 | Any list of pieces with those two properties is the result of the split: the split is fully specified by them. |
| Hershey.SplitWithoutSpace | line-us-text.py:176 | A body without a space is a single stroke. |
| Hershey.Strokes | line-us-text.py:178-181 | One point list per piece, in order; list j is the pairing of piece j. |
| Hershey.HersheyParse | line-us-text.py:167-192 | `None` exactly when the vertex count minus one is below 2. IndexError exactly when the header parses but the record is shorter than 10 columns. A decoded glyph carries the code from columns 1-5, the count minus one from 6-8, bearings from columns 9-10, and the strokes of the split body. |
| Hershey.DecodedPoint | line-us-text.py:176-181 | Point k of stroke j of a decoded glyph comes from letters 2k and 2k+1 of the j-th piece of the body. |
| Hershey.PointCount | line-us-text.py:176-187 | With even-length pieces, points plus separators make half the body length. When the body has two letters per vertex, that equals the vertex count. |
| Hershey.RecordFields | line-us-text.py:170-189 | Each field of a written record reads back: the code, the count, both bearing letters and the body. |
| Hershey.DecodeHeader | line-us-text.py:170-192 | A record whose header parses with count >= 3 and which reaches column 10 decodes to the glyph built from those fields. |
| Hershey.RecordRoundTrip | line-us-text.py:167-192 | Writing a glyph's fields into a record and decoding it gives the fields back. A count below 3 gives `None`. |
| Hershey.SingleStrokeRecord | line-us-text.py:176-192 | A record whose body has no space decodes to one stroke, the pairing of the whole body. |
| Hershey.DigitZeroRecord | line-us-text.py:252 | The table's '0' entry is the record with code 700, count 18, bearings 'H' and '\\' and its 34-letter body. |
| Hershey.DigitZeroGlyph | line-us-text.py:252 | That entry decodes to code 700, 17 vertices, bearings -10 and 10, and one stroke. |
| Hershey.DigitZeroStroke | line-us-text.py:252 | That stroke has 17 points, starts at (-1, -12), and is closed. |
| Hershey.TwoPieceSplit | line-us-text.py:176 | Two space-free pieces joined by " R" split back into exactly those pieces. |
| Hershey.TwoStrokeRecord | line-us-text.py:167-192 | A record whose body is two space-free pieces joined by " R" decodes to two strokes, the pairings of the pieces. |
| Hershey.TypedSRecord | line-us-text.py:310 | The typed 's' entry is the record with code 2119, count 32, bearings 'J' and '[' and a body of two pieces. |
| Hershey.TypedSGlyph | line-us-text.py:310 | That entry decodes to code 2119, 31 vertices, bearings -8 and 9, and two strokes. |
| Hershey.OddStroke | line-us-text.py:180 | A piece of odd length `2n + 1` gives `n` points, the same as the piece without its last letter. |
| Hershey.TypedSStrokes | line-us-text.py:310 | Both strokes of the typed 's' have 15 points. The second has 31 letters, and its last, ',', is dropped. |
| Session.DeviceCoords | line-us-text.py:82-93 | The clamped position lies in [790, 1690] x [-900, 890]. A coordinate on the paper is shifted by the offset; one off the paper is pinned to the nearer edge. |
| Session.ClampAxis | line-us-text.py:83-87 | One axis of the clamp: never below the minimum, and never above the maximum when the range is not empty. A value in range is kept; one above is cut to the maximum and one below raised to the minimum. |
| Session.DeviceCoordsMonotone | line-us-text.py:82-93 | Clamping never reorders two positions on either axis. |
| Session.SentCoordinates | line-us-text.py:53-57 | The numbers G01 carries for a clamped position lie in [790, 1690] x [-899, 890]. Because of `int(v + 0.5)`, every y at or below 0 is sent as -899. |
| Session.CoordText | line-us-text.py:53 | One written coordinate is ASCII text. |
| Session.CoordReadsBack | line-us-text.py:53 | `int()` of a written coordinate is the rounded coordinate. |
| Session.G01Text | line-us-text.py:52-57 | The G01 text is ASCII. Its layout and the values of its fields are given by `G01Fields`. |
| Session.G01Command | line-us-text.py:52-57 | The G01 bytes hold one byte per character of the text and no NUL. |
| Session.G01Fields | line-us-text.py:52-57 | A G01 command is "G01 X", x, " Y", y, " Z", z, and each field reads back as its rounded coordinate. |
| Session.G01Pieces | line-us-text.py:52-57 | The command encoded piece by piece is the encoding of the whole command text. |
| Session.CommandsAreFrames | line-us-text.py:52-80 | No pen-up, pen-down, home or G01 command holds a NUL. |
| Session.Connect | line-us-text.py:26-33 | A fresh session is connected, with its pen flag false, its position (0, 0) and nothing sent. The hello message is the first frame of the input. |
| Session.Transact | line-us-text.py:127-143 | One command then one read. The command and a NUL are appended to what was sent, one reply frame is consumed, and nothing else changes. |
| Session.PenUp | line-us-text.py:61-70 | `up()` leaves the pen up and the position unchanged. A pen already up is left as it is, with nothing sent. |
| Session.PenDown | line-us-text.py:72-80 | `down()` leaves the pen down and the position unchanged. A pen already down is left as it is, with nothing sent. |
| Session.Linear | line-us-text.py:50-59 | `g01` changes neither the pen flag nor the remembered position. |
| Session.MoveTo | line-us-text.py:95-102 | After `move(x, y)` the pen is up and the remembered position is the unclamped (x, y). |
| Session.DrawTo | line-us-text.py:104-111 | After `draw(x, y)` the pen is down and the remembered position is the unclamped (x, y). |
| Session.TravelForgetsPosition | line-us-text.py:95-106 | `move` and `draw` do not depend on the previously remembered position. |
| Session.GoHome | line-us-text.py:145-152 | `home()` sends G28 and sets the remembered position to (0, 0). The pen flag is not changed. |
| Session.Disconnected | line-us-text.py:43-48 | `disconnect()` clears the connected flag only. |
| Session.HelloString | line-us-text.py:35-41 | A connected session returns the hello message read at connection. |
| Session.TransactSent | line-us-text.py:138-143 | One transaction puts exactly the frame of its command on the wire. |
| Session.PenUpSent | line-us-text.py:61-70 | `up()` sends "G01 Z1000" exactly when the pen was down, and uses one reply per command sent. |
| Session.PenDownSent | line-us-text.py:72-80 | `down()` sends "G01 Z0" exactly when the pen was up, and uses one reply per command sent. |
| Session.TravelSent | line-us-text.py:98-102 | A pen change followed by the G01 to the clamped position sends those frames in that order. |
| Session.MoveSent | line-us-text.py:95-102 | `move` sends any needed pen-up, then "G01 X.. Y.. Z1000" for the clamped position. It consumes one reply per command. |
| Session.DrawSent | line-us-text.py:104-111 | `draw` sends any needed pen-down, then "G01 X.. Y.. Z0" for the clamped position. It consumes one reply per command. |
| Session.ApplySent | line-us-text.py:50-152 | Every operation puts on the wire the frames of exactly the commands `Sends` lists, and consumes one reply for each. |
| Session.SendsNulFree | line-us-text.py:138-143 | Every command an operation sends is a single frame. |
| Session.ApplyTraffic | line-us-text.py:138-143 | After an operation, the plotter has read the earlier commands followed by exactly the listed ones. |
| Session.RunTraffic | line-us-text.py:50-152 | After a whole script, the plotter has read exactly the commands of all operations in order, and one reply was consumed per command. |
| Session.PenIdempotent | line-us-text.py:61-80 | A second `up()` (or `down()`) changes nothing and sends nothing. |
| Session.FirstMoveRaises | line-us-text.py:33 | The pen flag of a fresh session is false, so the first `move` sends "G01 Z1000" before its G01. |
| Session.MoveAfterMove | line-us-text.py:95-102 | After a `move` the pen is up, so a second `move` sends only its G01. |
| Session.HelloIsFirstFrame | line-us-text.py:32-41 | The hello string of a fresh session is the plotter's first frame. After `disconnect()` it is "Not connected". |
| Session.ZeroRelative | line-us-text.py:113-125 | `move_relative(0, 0)` and `draw_relative(0, 0)` keep the remembered position but still send their G01, after any pen change. |
| Session.ReceiveStep | line-us-text.py:130-135 | One pass of the read loop: a byte other than NUL joins the reply; the NUL ends it with the rest left pending. |
| Session.LineUs.constructor | line-us-text.py:26-33 | Construction gives the state `Connect` describes: the hello frame read from the socket. |
| Session.LineUs.Recv | line-us-text.py:131 | `recv(1)` returns the first pending byte and removes it. |
| Session.LineUs.ReadResponse | line-us-text.py:127-136 | Returns the bytes before the first pending NUL and consumes them with the NUL (`Receive`). Nothing else changes. |
| Session.LineUs.SendCommand | line-us-text.py:138-143 | Appends the command and one NUL to the sent bytes. |
| Session.LineUs.G01 | line-us-text.py:50-59 | Sends the G01 text and reads one reply (`Linear`). |
| Session.LineUs.Up | line-us-text.py:61-70 | The state `PenUp` describes. |
| Session.LineUs.Down | line-us-text.py:72-80 | The state `PenDown` describes. |
| Session.LineUs.CheckCoords | line-us-text.py:82-93 | Returns `DeviceCoords(x, y)`: the cap-then-raise clamp per axis, then the offsets. |
| Session.LineUs.Move | line-us-text.py:95-102 | The state `MoveTo` describes. |
| Session.LineUs.Draw | line-us-text.py:104-111 | The state `DrawTo` describes. |
| Session.LineUs.DrawRelative | line-us-text.py:113-118 | A `draw` to the remembered, unclamped position plus (dx, dy). |
| Session.LineUs.MoveRelative | line-us-text.py:120-125 | A `move` to the remembered, unclamped position plus (dx, dy). |
| Session.LineUs.Home | line-us-text.py:145-152 | The state `GoHome` describes. |
| Session.LineUs.GetHelloString | line-us-text.py:35-41 | Returns `HelloString` of the current state. |
| Session.LineUs.Disconnect | line-us-text.py:43-48 | The state `Disconnected` describes. |
| Layout.StrokeEvents | line-us-text.py:373-383 | One event per point. The first point is a `Move` and every later point a `Draw`, each at the scaled and offset position. |
| Layout.LinesEvents | line-us-text.py:372-383 | A glyph makes one event per point of all its strokes. |
| Layout.LinesEventsSnoc | line-us-text.py:372-383 | Drawing one more stroke appends exactly that stroke's events. |
| Layout.StrokeShift | line-us-text.py:375-378 | The event position of a point (`Place`): moving the cursor by (dx, dy) font units moves every event by (10 dy, 8 dx) on the plotter. |
| Layout.Font | line-us-text.py:369-371 | The decoded table has the same keys as the glyph table. |
| Layout.Key | line-us-text.py:367-371 | The table key is 'i' exactly for ' ' and 'i'; every other character is looked up as itself. |
| Layout.Step | line-us-text.py:359-384 | One character succeeds exactly when it is '_' or its key (space borrows 'i') decodes to a glyph. A failing character makes no events and leaves the cursor. '_' makes no events and moves the cursor to (0, y + 25); any other character keeps the row. |
| Layout.StepAdvance | line-us-text.py:384 | A printable character other than '_' keeps the row and advances the cursor by its glyph's width, `right - left`. A space makes no events and uses the glyph of 'i'. |
| Layout.Then | line-us-text.py:359-384 | Continuing with more text only adds events after those already made. A failed outcome stays as it is, and text without '_' keeps the row. |
| Layout.RenderFrom | line-us-text.py:359-384 | The specification of the whole loop. Text without '_' ends on the row it started on. |
| Layout.RenderFails | line-us-text.py:359-384 | The loop finishes without an exception exactly when every character is printable. |
| Layout.RenderAppend | line-us-text.py:359-384 | Printing `a + b` prints `a`, then `b` from where `a` left the cursor, unless `a` failed. |
| Layout.Newline | line-us-text.py:361-365 | '_' alone makes no events, no failure, and leaves the cursor at (0, y + 25). Any text after it is printed exactly as from that cursor. |
| Layout.Space | line-us-text.py:367-369 | ' ' makes no events and advances the cursor by the width of 'i'. |
| Layout.RenderShiftDown | line-us-text.py:359-384 | Starting d rows lower moves every event by 10d on the plotter's x axis. The failure is the same, and the final cursor is d rows lower. |
| Layout.RenderShiftAcross | line-us-text.py:359-384 | For a text without '_', starting d units right moves every event by 8d on the plotter's y axis. The failure is the same and the final cursor is d units further right. |
| Layout.Render | line-us-text.py:359-384 | The loop's events and failure are those of the specification `RenderFrom` from cursor (0, 0). |
| Layout.PrintChar | line-us-text.py:361-384 | One loop pass: the character's events appended, its failure, and the new cursor, as `Step` says. |
| Layout.ParseRecord | line-us-text.py:369-371 | Decoding a table entry gives what the decoded table holds for it. |
| Layout.DrawGlyph | line-us-text.py:372-383 | The loop over strokes appends `LinesEvents` of the glyph. |
| Layout.DrawStroke | line-us-text.py:373-383 | The loop over one stroke's points appends its `StrokeEvents`. |

## Left out

- The socket itself (`socket.socket`, `connect`, `send`, `close`) and host name resolution are not modelled. The connection is the pair of byte sequences `sent` and `incoming`; `incoming` stands for whatever the plotter will say.
- `recv(1)` returning `b''` on a closed connection is not modelled. It would make `__read_response` loop forever. Every method that reads requires enough NULs pending for its replies.
- Sending after `disconnect()` raises `OSError` in the script. The model's sending methods require the session to be connected.
- `time.sleep`, the `verbose` and `command_debug` prints and the script's other `print` calls are left out: they do not change state.
- `setup_pen` (lines 154-159) is interactive set-up of the pen height and is not part of this model.
- The `input()` prompts and the S/T style choice are not modelled. `Render` takes the chosen glyph table and the text as parameters.
- The glyph tables are taken as a parameter. Two entries are written out and decoded: the script '0' (line 252) and the typed 's' (line 310).
- `get_hello_string` returns `bytes.decode()`, a `str`, in the script; the model keeps the bytes.
- Floating point is not modelled. Positions are integers, which is exact for what the layout loop computes. `move` and `draw` called with non-integral floats are not covered.
- The layout loop's calls to `my_line_us.move` and `draw` are returned as `Event`s rather than made on a `LineUs` object. Their effect on the session is given by `Session.MoveTo`, `Session.DrawTo` and `Session.RunTraffic`.
- `ParseInt` accepts ASCII digits only. Python's `int()` also accepts other Unicode decimal digits, which no Hershey record contains.
- `move_relative` and `draw_relative` are not part of `Session.Op`. Their effect is the `move` or `draw` to the offset position, which is already an operation.
- In Python 3 each stroke of a decoded glyph is a lazy `map` iterator that can be consumed once. The model holds strokes as sequences, which is equivalent for the layout loop because it passes over each stroke once.
- `__send_command` ignores the count `socket.send` returns (line 143). The model treats every send as writing the whole command and its NUL; `Framing.UnframeFrames` and `Session.RunTraffic` rely on this.
