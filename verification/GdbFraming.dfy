// The framing of the GDB remote protocol: frames as they are written, the stream parser that
// carries incomplete frames over from one read to the next, and how the two fit together.
module GdbFraming {

  type byte = x: int | 0 <= x < 0x100

  const DOLLAR: byte := 0x24
  const HASH: byte := 0x23
  const PLUS: byte := 0x2B
  const MINUS: byte := 0x2D
  const CONTROL_C: byte := 0x03

  // ---------------------------------------------------------------- hexadecimal

  function Digit(n: nat): byte
    requires n < 16
  {
    if n < 10 then 0x30 + n else 0x61 + (n - 10)
  }

  // The value of a hexadecimal digit of either case, or -1.
  function DigitValue(c: byte): (v: int)
    ensures -1 <= v < 16
  {
    if 0x30 <= c <= 0x39 then c - 0x30
    else if 0x61 <= c <= 0x66 then c - 0x61 + 10
    else if 0x41 <= c <= 0x46 then c - 0x41 + 10
    else -1
  }

  function Hex(n: byte): (s: seq<byte>)
    ensures |s| == 2
  {
    [Digit(n / 16), Digit(n % 16)]
  }

  // What a scan for at most two hexadecimal digits makes of the two bytes at hand: an
  // optional sign, then digits up to the first byte that is none; 0 when there is nothing
  // to convert.
  function Scanned(c: byte, d: byte): int {
    if DigitValue(c) >= 0 then
      if DigitValue(d) >= 0 then 16 * DigitValue(c) + DigitValue(d) else DigitValue(c)
    else if c == PLUS && DigitValue(d) >= 0 then DigitValue(d)
    else if c == MINUS && DigitValue(d) >= 0 then -DigitValue(d)
    else 0
  }

  // There is something to convert.
  predicate Converts(c: byte, d: byte) {
    DigitValue(c) >= 0 || (c in {PLUS, MINUS} && DigitValue(d) >= 0)
  }

  lemma ScannedHex(n: byte)
    ensures Scanned(Hex(n)[0], Hex(n)[1]) == n && Converts(Hex(n)[0], Hex(n)[1])
    ensures HASH !in Hex(n) && 0 !in Hex(n)
  {
  }

  // No other character is a digit.
  lemma NoOtherDigit(c: byte)
    ensures DigitValue(c) >= 0 ==>
              c == Digit(DigitValue(c)) || (DigitValue(c) >= 10 && c == Digit(DigitValue(c)) - 0x20)
  {
  }

  // Anything but a digit, or a sign before one, is no number.
  lemma NoNumber(c: byte, d: byte)
    requires DigitValue(c) < 0 && !(c in {PLUS, MINUS} && DigitValue(d) >= 0)
    ensures !Converts(c, d) && Scanned(c, d) == 0
  {
  }

  // Digits are read in either case; a sign goes before a single one.
  lemma DigitForms(n: nat, m: nat)
    requires n < 16 && m < 16
    ensures Scanned(Digit(n), Digit(m)) == 16 * n + m
    ensures n >= 10 ==> Scanned(Digit(n) - 0x20, Digit(m)) == 16 * n + m
    ensures Scanned(PLUS, Digit(n)) == n && Scanned(MINUS, Digit(n)) + n == 0 && Scanned(Digit(n), HASH) == n
    ensures Converts(PLUS, Digit(n)) && Converts(MINUS, Digit(n)) && Converts(Digit(n), HASH) && !Converts(HASH, Digit(n))
  {
  }

  function HexAll(data: seq<byte>): (s: seq<byte>)
    ensures |s| == 2 * |data|
    decreases |data|
  {
    if data == [] then [] else Hex(data[0]) + HexAll(data[1..])
  }

  // The bytes read from pairs of digits; a last odd byte is not looked at. A pair that is no
  // number leaves whatever the variable held.
  function ReadHexAll(s: seq<byte>, held: seq<byte>): (data: seq<byte>)
    requires |held| >= |s| / 2
    ensures |data| == |s| / 2
    decreases |s|
  {
    if |s| < 2 then []
    else [if Converts(s[0], s[1]) then Scanned(s[0], s[1]) % 0x100 else held[0]] + ReadHexAll(s[2..], held[1..])
  }

  // Memory written as hexadecimal digits is read back as it was.
  lemma {:induction false} HexRoundTrip(data: seq<byte>, held: seq<byte>)
    requires |held| >= |data|
    ensures ReadHexAll(HexAll(data), held) == data
    ensures HASH !in HexAll(data) && 0 !in HexAll(data)
    decreases |data|
  {
    hide Scanned, Digit, Converts;
    if data != [] {
      ScannedHex(data[0]);
      HexRoundTrip(data[1..], held[1..]);
      assert HexAll(data)[2..] == HexAll(data[1..]);
    }
  }

  // ---------------------------------------------------------------- frames

  function Sum(data: seq<byte>): nat
    decreases |data|
  {
    if data == [] then 0 else Sum(data[..|data| - 1]) + data[|data| - 1]
  }

  function Checksum(data: seq<byte>): byte {
    Sum(data) % 0x100
  }

  function Frame(payload: seq<byte>): seq<byte> {
    [DOLLAR] + payload + [HASH] + Hex(Checksum(payload))
  }

  lemma {:induction false} SumAdds(s: seq<byte>, t: seq<byte>)
    ensures Sum(s + t) == Sum(s) + Sum(t)
    decreases |t|
  {
    if t == [] {
      assert s + t == s;
    } else {
      assert (s + t)[..|s + t| - 1] == s + t[..|t| - 1];
      SumAdds(s, t[..|t| - 1]);
    }
  }

  // The checksum is the sum of the bytes modulo 256: these three laws leave no other.
  lemma ChecksumAdds(s: seq<byte>, t: seq<byte>, b: byte)
    ensures Checksum([]) == 0 && Checksum([b]) == b
    ensures (Checksum(s + t) as int - Checksum(s) as int - Checksum(t) as int) % 0x100 == 0
  {
    SumAdds(s, t);
    assert [b][..0] == [];
    assert Sum([b]) == b;
    var x, y := Sum(s), Sum(t);
    assert x + y - x % 0x100 - y % 0x100 == 0x100 * (x / 0x100 + y / 0x100);
  }

  // Digits are the lower-case ones: as a frame, the answer OK reads $OK#9a.
  lemma AnswerFrame()
    ensures Frame([0x4F, 0x4B]) == [0x24, 0x4F, 0x4B, 0x23, 0x39, 0x61]
  {
    ChecksumAdds([0x4F], [0x4B], 0x4F);
    ChecksumAdds([0x4F], [0x4B], 0x4B);
    assert [0x4F, 0x4B] == [0x4F] + [0x4B];
    assert Checksum([0x4F, 0x4B]) == 0x9A;
  }

  // What the server does about the stream: it answers a good frame with a plus and handles
  // it, any other frame with a minus, and it stops the machine on control-C.
  datatype Action = Handle(payload: seq<byte>) | Refuse | Stop

  datatype Parsed = Parsed(actions: seq<Action>, rest: seq<byte>)

  function Judge(payload: seq<byte>, c: byte, d: byte): Action {
    if Checksum(payload) != Scanned(c, d) || payload == [] then Refuse else Handle(payload)
  }

  // The first hash from k on, or the end.
  function FindHash(s: seq<byte>, k: nat): (h: nat)
    requires k <= |s|
    ensures k <= h <= |s| && (h < |s| ==> s[h] == HASH)
    ensures forall j :: k <= j < h ==> s[j] != HASH
    decreases |s| - k
  {
    if k == |s| || s[k] == HASH then k else FindHash(s, k + 1)
  }

  function Before(action: Action, later: Parsed): Parsed {
    Parsed([action] + later.actions, later.rest)
  }

  // The meaning of a stream: the actions it calls for, in order, and the beginning of a
  // frame that has not come to its end.
  function Parse(s: seq<byte>): Parsed
    decreases |s|
  {
    if s == [] then Parsed([], [])
    else if s[0] == DOLLAR then
      var h := FindHash(s, 1);
      if h + 2 < |s| then Before(Judge(s[1..h], s[h + 1], s[h + 2]), Parse(s[h + 3..]))
      else Parsed([], s)
    else if s[0] == CONTROL_C then Before(Stop, Parse(s[1..]))
    else Parse(s[1..])
  }

  // ---------------------------------------------------------------- chunks

  lemma FindHashIs(s: seq<byte>, k: nat, h: nat)
    requires k <= h <= |s| && (h < |s| ==> s[h] == HASH) && forall j :: k <= j < h ==> s[j] != HASH
    ensures FindHash(s, k) == h
  {
  }

  // The control-C bytes of a stream.
  function Stops(s: seq<byte>): (n: nat)
    decreases |s|
  {
    if s == [] then 0 else (if s[0] == CONTROL_C then 1 else 0) + Stops(s[1..])
  }

  // Outside of frames only control-C does anything, and nothing is carried over.
  lemma {:induction false} OutsideFrames(s: seq<byte>)
    requires DOLLAR !in s
    ensures Parse(s).rest == [] && |Parse(s).actions| == Stops(s)
    ensures forall i :: 0 <= i < |Parse(s).actions| ==> Parse(s).actions[i] == Stop
    decreases |s|
  {
    if s != [] {
      OutsideFrames(s[1..]);
    }
  }

  // A frame without its end, or without its whole checksum, calls for nothing, whatever is in
  // it, and is carried over as it is.
  lemma Unfinished(text: seq<byte>)
    requires forall i :: 0 <= i < |text| - 2 ==> text[i] != HASH
    ensures Parse([DOLLAR] + text) == Parsed([], [DOLLAR] + text)
  {
    var s := [DOLLAR] + text;
    assert forall i :: 0 <= i < |text| ==> s[i + 1] == text[i];
    assert FindHash(s, 1) + 2 >= |s|;
  }

  // What a stream called for before its last bytes came, it still calls for; the rest is
  // decided by what was carried over and those bytes.
  lemma {:induction false} ParseAppend(a: seq<byte>, b: seq<byte>)
    ensures var p := Parse(a);
            var q := Parse(p.rest + b);
            Parse(a + b) == Parsed(p.actions + q.actions, q.rest)
    decreases |a|
  {
    hide Judge, FindHash;
    var p := Parse(a);
    var q := Parse(p.rest + b);
    if a == [] {
      NoBytes(b, q.actions);
    } else if a[0] == DOLLAR {
      var h := FindHash(a, 1);
      if h + 2 < |a| {
        LongerFrame(a, b, h);
        ParseAppend(a[h + 3..], b);
        Joined(Judge(a[1..h], a[h + 1], a[h + 2]), Parse(a[h + 3..]).actions, q.actions);
      } else {
        NoBytes(b, q.actions);
      }
    } else {
      ParseAppend(a[1..], b);
      assert (a + b)[1..] == a[1..] + b;
      Joined(Stop, Parse(a[1..]).actions, q.actions);
    }
  }

  // A whole frame is the same frame with more bytes behind it.
  lemma LongerFrame(a: seq<byte>, b: seq<byte>, h: nat)
    requires a != [] && a[0] == DOLLAR && h == FindHash(a, 1) && h + 2 < |a|
    ensures Parse(a + b) == Before(Judge(a[1..h], a[h + 1], a[h + 2]), Parse(a[h + 3..] + b))
  {
    FindHashIs(a + b, 1, h);
    hide FindHash, Judge;
    assert (a + b)[h + 3..] == a[h + 3..] + b;
    assert (a + b)[1..h] == a[1..h];
  }

  lemma NoBytes(b: seq<byte>, actions: seq<Action>)
    ensures [] + b == b && [] + actions == actions
  {
  }

  lemma Joined(a: Action, x: seq<Action>, y: seq<Action>)
    ensures [a] + (x + y) == [a] + x + y
  {
  }

  // Feeding a stream in pieces: what is carried over goes in front of the next piece.
  function Feed(rest: seq<byte>, chunks: seq<seq<byte>>): Parsed
    decreases |chunks|
  {
    if chunks == [] then Parsed([], rest)
    else
      var p := Parse(rest + chunks[0]);
      var later := Feed(p.rest, chunks[1..]);
      Parsed(p.actions + later.actions, later.rest)
  }

  function Flat(chunks: seq<seq<byte>>): seq<byte>
    decreases |chunks|
  {
    if chunks == [] then [] else chunks[0] + Flat(chunks[1..])
  }

  lemma {:induction false} RestStays(s: seq<byte>)
    ensures Parse(Parse(s).rest) == Parsed([], Parse(s).rest)
    decreases |s|
  {
    if s != [] {
      if s[0] == DOLLAR {
        var h := FindHash(s, 1);
        if h + 2 < |s| {
          RestStays(s[h + 3..]);
        }
      } else {
        RestStays(s[1..]);
      }
    }
  }

  // However a stream is cut into pieces, the same actions are taken in the same order, and
  // the same bytes are left over, as when it comes at once.
  lemma {:induction false} ChunksDoNotMatter(rest: seq<byte>, chunks: seq<seq<byte>>)
    requires Parse(rest) == Parsed([], rest)
    ensures Feed(rest, chunks) == Parse(rest + Flat(chunks))
    decreases |chunks|
  {
    hide Parse;
    if chunks == [] {
      assert rest + [] == rest;
    } else {
      var p := Parse(rest + chunks[0]);
      RestStays(rest + chunks[0]);
      ChunksDoNotMatter(p.rest, chunks[1..]);
      ParseAppend(rest + chunks[0], Flat(chunks[1..]));
      assert rest + chunks[0] + Flat(chunks[1..]) == rest + Flat(chunks);
    }
  }

  // ---------------------------------------------------------------- round trip

  function FrameAll(payloads: seq<seq<byte>>): seq<byte>
    decreases |payloads|
  {
    if payloads == [] then [] else Frame(payloads[0]) + FrameAll(payloads[1..])
  }

  function HandleAll(payloads: seq<seq<byte>>): seq<Action>
    decreases |payloads|
  {
    if payloads == [] then [] else [Handle(payloads[0])] + HandleAll(payloads[1..])
  }

  predicate Sendable(payload: seq<byte>) {
    payload != [] && HASH !in payload
  }

  // The first thing that a text between dollar and hash calls for, with a checksum that may
  // be that of something else, and whatever comes behind it.
  lemma FirstAction(text: seq<byte>, checksum: byte, behind: seq<byte>)
    ensures var p := Parse([DOLLAR] + text + [HASH] + Hex(checksum) + behind);
            && p.actions != []
            && (p.actions[0] == Handle(text) <==> Sendable(text) && checksum == Checksum(text))
            && (HASH !in text && !(Sendable(text) && checksum == Checksum(text)) ==> p == Before(Refuse, Parse(behind)))
            && (Sendable(text) && checksum == Checksum(text) ==> p == Before(Handle(text), Parse(behind)))
            && (p.actions[0].Handle? ==> |p.actions[0].payload| <= |text|)
  {
    var s := [DOLLAR] + text + [HASH] + Hex(checksum) + behind;
    var n := |text|;
    var h := FindHash(s, 1);
    ScannedHex(checksum);
    assert s[n + 1] == HASH && s[1..n + 1] == text;
    if h < n + 1 {
      assert text[h - 1] == HASH;
      assert |s[1..h]| < n;
    } else {
      assert h == n + 1;
      assert HASH !in text by {
        forall j | 0 <= j < n ensures text[j] != HASH {
          assert s[j + 1] == text[j];
        }
      }
      assert s[h + 1] == Hex(checksum)[0] && s[h + 2] == Hex(checksum)[1];
      assert s[h + 3..] == behind;
    }
  }

  // The first thing a frame calls for, whatever comes behind it.
  lemma FrameFirst(payload: seq<byte>, behind: seq<byte>)
    ensures var p := Parse(Frame(payload) + behind);
            && p.actions != [] && (p.actions[0] == Handle(payload) <==> Sendable(payload))
            && (Sendable(payload) ==> p == Before(Handle(payload), Parse(behind)))
  {
    FirstAction(payload, Checksum(payload), behind);
  }

  // A frame with nothing in it, as a reply to an unsupported command is.
  lemma EmptyFrameRefused(behind: seq<byte>)
    ensures Parse(Frame([]) + behind) == Before(Refuse, Parse(behind))
  {
    FirstAction([], Checksum([]), behind);
  }

  predicate AllSendable(payloads: seq<seq<byte>>)
    decreases |payloads|
  {
    payloads == [] || (Sendable(payloads[0]) && AllSendable(payloads[1..]))
  }

  // Frames sent one after another are parsed back into exactly their payloads, with nothing
  // left over, if and only if every payload has at least one byte and no hash.
  lemma {:induction false} FramesRoundTrip(payloads: seq<seq<byte>>)
    ensures Parse(FrameAll(payloads)) == Parsed(HandleAll(payloads), []) <==> AllSendable(payloads)
    decreases |payloads|
  {
    hide Parse, Frame, Sendable;
    if payloads == [] {
      ParseNothing();
    } else {
      var first, behind := payloads[0], FrameAll(payloads[1..]);
      FrameFirst(first, behind);
      FramesRoundTrip(payloads[1..]);
      BeforeSplits(Parse(Frame(first) + behind), Handle(first), HandleAll(payloads[1..]), Parse(behind));
    }
  }

  lemma ParseNothing()
    ensures Parse([]) == Parsed([], [])
  {
  }

  lemma BeforeSplits(p: Parsed, a: Action, later: seq<Action>, q: Parsed)
    ensures p == Parsed([a] + later, []) ==> p.actions != [] && p.actions[0] == a
    ensures p == Before(a, q) ==> (p == Parsed([a] + later, []) <==> q == Parsed(later, []))
  {
    assert ([a] + later)[1..] == later && ([a] + q.actions)[1..] == q.actions;
  }

  // A block of memory sent as hexadecimal digits behind a prefix comes through whole.
  lemma MemoryRoundTrip(prefix: seq<byte>, data: seq<byte>, behind: seq<byte>, held: seq<byte>)
    requires |held| >= |data| && HASH !in prefix && (prefix != [] || data != [])
    ensures Parse(Frame(prefix + HexAll(data)) + behind) == Before(Handle(prefix + HexAll(data)), Parse(behind))
    ensures ReadHexAll((prefix + HexAll(data))[|prefix|..], held) == data
  {
    HexRoundTrip(data, held);
    FrameFirst(prefix + HexAll(data), behind);
    assert (prefix + HexAll(data))[|prefix|..] == HexAll(data);
  }

  // ---------------------------------------------------------------- the server

  // gdb_checksum
  method ComputeChecksum(data: seq<byte>) returns (result: byte)
    ensures result == Checksum(data)
  {
    var sum: nat := 0;
    for i := 0 to |data|
      invariant sum == Sum(data[..i])
    {
      assert data[..i + 1][..i] == data[..i];
      sum := sum + data[i];
    }
    assert data[..|data|] == data;
    result := sum % 0x100;
  }

  // Printing stops at a NUL.
  function UpToNul(data: seq<byte>): (r: seq<byte>)
    ensures r <= data && 0 !in r && (|r| < |data| ==> data[|r|] == 0)
    decreases |data|
  {
    if data == [] || data[0] == 0 then [] else [data[0]] + UpToNul(data[1..])
  }

  lemma {:induction false} NoNul(data: seq<byte>)
    ensures UpToNul(data) == data <==> 0 !in data
    decreases |data|
  {
    if data != [] {
      NoNul(data[1..]);
    }
  }

  // What gdb_send_frame puts on the stack for a payload.
  function Printed(data: seq<byte>): seq<byte> {
    [DOLLAR] + UpToNul(data) + [HASH] + Hex(Checksum(data)) + [0]
  }

  // The bytes sent: as many as the frame has, so that a payload with a NUL is cut off there
  // and followed by what was on the stack before.
  function Sent(data: seq<byte>, stack: seq<byte>): (s: seq<byte>)
    requires |stack| == |data| + 5
    ensures |s| == |data| + 4
  {
    (Printed(data) + stack[|Printed(data)|..])[..|data| + 4]
  }

  // They are the frame if and only if the payload has no NUL.
  lemma SentIsFrame(data: seq<byte>, stack: seq<byte>)
    requires |stack| == |data| + 5
    ensures Sent(data, stack) == Frame(data) <==> 0 !in data
  {
    var n := |UpToNul(data)|;
    NoNul(data);
    if 0 in data {
      assert Sent(data, stack)[n + 1] == HASH && Frame(data)[n + 1] == data[n];
    } else {
      assert Printed(data) == Frame(data) + [0];
    }
  }

  lemma SentSplits(data: seq<byte>, stack: seq<byte>) returns (garbage: seq<byte>)
    requires |stack| == |data| + 5
    ensures Sent(data, stack) == [DOLLAR] + UpToNul(data) + [HASH] + Hex(Checksum(data)) + garbage
  {
    garbage := Sent(data, stack)[|UpToNul(data)| + 4..];
  }

  // gdb_send_frame, with what was on the stack before.
  method SendFrame(data: seq<byte>, stack: seq<byte>) returns (out: seq<byte>)
    requires |stack| == |data| + 5
    ensures out == Sent(data, stack)
    ensures out == Frame(data) <==> 0 !in data
  {
    var checksum := ComputeChecksum(data);
    var printed := [DOLLAR] + UpToNul(data) + [HASH] + Hex(checksum) + [0];
    out := (printed + stack[|printed|..])[..|data| + 4];
    SentIsFrame(data, stack);
  }

  // The bytes sent call for the payload to be handled if and only if it has at least one
  // byte, and neither a hash nor a NUL.
  lemma SentComesBack(data: seq<byte>, stack: seq<byte>, behind: seq<byte>)
    requires |stack| == |data| + 5
    ensures var p := Parse(Sent(data, stack) + behind);
            p.actions != [] && (p.actions[0] == Handle(data) <==> data != [] && HASH !in data && 0 !in data)
  {
    hide Parse, Frame;
    var garbage := SentSplits(data, stack);
    var text := UpToNul(data);
    FirstAction(text, Checksum(data), garbage + behind);
    assert Sent(data, stack) + behind == [DOLLAR] + text + [HASH] + Hex(Checksum(data)) + (garbage + behind);
    NoNul(data);
  }

  // A payload with a NUL may still be taken for the part before it: if and only if that part
  // can be sent and has the checksum of the whole.
  lemma CutOffFrame(data: seq<byte>, stack: seq<byte>, behind: seq<byte>)
    requires |stack| == |data| + 5
    ensures var p, text := Parse(Sent(data, stack) + behind), UpToNul(data);
            p.actions != [] && (p.actions[0] == Handle(text) <==> Sendable(text) && Checksum(data) == Checksum(text))
  {
    hide Parse, Frame;
    var garbage := SentSplits(data, stack);
    FirstAction(UpToNul(data), Checksum(data), garbage + behind);
    assert Sent(data, stack) + behind
           == [DOLLAR] + UpToNul(data) + [HASH] + Hex(Checksum(data)) + (garbage + behind);
  }

  // gdb_send_hex_data
  method SendHexData(prefix: seq<byte>, data: seq<byte>) returns (out: seq<byte>)
    requires 0 !in prefix
    ensures out == Frame(prefix + HexAll(data))
  {
    out := [DOLLAR] + prefix;
    for i := 0 to |data|
      invariant out == [DOLLAR] + (prefix + HexAll(data[..i]))
    {
      HexAllAppend(data[..i], data[i]);
      assert data[..i + 1] == data[..i] + [data[i]];
      out := out + Hex(data[i]);
    }
    assert data[..|data|] == data;
    var checksum := ComputeChecksum(out[1..]);
    assert out[1..] == prefix + HexAll(data);
    out := out + [HASH] + Hex(checksum);
  }

  lemma {:induction false} HexAllAppend(data: seq<byte>, b: byte)
    ensures HexAll(data + [b]) == HexAll(data) + Hex(b)
    decreases |data|
  {
    if data == [] {
      assert HexAll([b]) == Hex(b) + HexAll([b][1..]);
    } else {
      HexAllAppend(data[1..], b);
      assert (data + [b])[1..] == data[1..] + [b];
    }
  }

  lemma ReadHexPair(s: seq<byte>, held: seq<byte>, buf: seq<byte>)
    requires |s| >= 2 && |held| >= |s| / 2
    ensures buf + ReadHexAll(s, held)
            == buf + [if Converts(s[0], s[1]) then Scanned(s[0], s[1]) % 0x100 else held[0]] + ReadHexAll(s[2..], held[1..])
  {
  }

  lemma ReadHexEnd(s: seq<byte>, held: seq<byte>, buf: seq<byte>)
    requires |s| < 2
    ensures buf + ReadHexAll(s, held) == buf
  {
  }

  // gdb_read_hex_data, with what its variable holds in each round before a number is read.
  method ReadHexData(data: seq<byte>, held: seq<byte>) returns (buf: seq<byte>)
    requires |held| >= |data| / 2
    ensures buf == ReadHexAll(data, held)
  {
    hide ReadHexAll, Scanned, Converts;
    buf := [];
    var p := 0;
    ghost var rest := data;
    for i := 0 to |data| / 2
      invariant p == 2 * i && rest == data[p..]
      invariant buf + ReadHexAll(rest, held[i..]) == ReadHexAll(data, held)
    {
      ReadHexPair(rest, held[i..], buf);
      buf := buf + [if Converts(data[p], data[p + 1]) then Scanned(data[p], data[p + 1]) % 0x100 else held[i]];
      p := p + 2;
      rest := rest[2..];
    }
    ReadHexEnd(rest, held[|data| / 2..], buf);
  }

  class Server {
    const buf: array<byte>
    var bufPosn: nat

    ghost predicate Valid()
      reads this
    {
      bufPosn <= buf.Length
    }

    // The bytes carried over.
    ghost function Pending(): seq<byte>
      reads this, buf
      requires Valid()
    {
      buf[..bufPosn]
    }

    constructor (size: nat)
      ensures Valid() && Pending() == [] && buf.Length == size && fresh(buf)
    {
      buf := new byte[size](_ => 0);
      bufPosn := 0;
    }

    // gdb_server_process_buffer, and what it does about the frames it finds.
    method ProcessBuffer() returns (actions: seq<Action>)
      requires Valid()
      modifies this, buf
      ensures Valid() && bufPosn <= old(bufPosn)
      ensures Parsed(actions, Pending()) == Parse(old(Pending()))
    {
      hide Scan, Parse, Judge;
      ghost var s := Pending();
      var frameStart := -1;
      var i := 0;
      actions := [];
      ScanStarts(s);
      while i < bufPosn
        invariant -1 <= frameStart < i <= bufPosn == |s|
        invariant Scan(s, buf[..bufPosn], actions, frameStart, i)
        modifies buf
      {
        ScanAgrees(s, buf[..bufPosn], actions, frameStart, i);
        ghost var now := buf[..bufPosn];
        if frameStart == -1 {
          ScanOutside(s, now, actions, i);
          if buf[i] == DOLLAR {
            frameStart := i;
          } else if buf[i] == CONTROL_C {
            actions := actions + [Stop];
          }
        } else if buf[i] == HASH && i + 2 < bufPosn {
          var payload := buf[frameStart + 1..i];
          ScanFrame(s, now, actions, frameStart, i);
          assert now[frameStart + 1..i] == payload;
          var calculated := ComputeChecksum(payload);
          var action := Judged(payload, calculated, buf[i + 1], buf[i + 2]);
          if action.Handle? {
            buf[i] := 0;
            assert buf[..bufPosn] == now[i := 0];
          }
          actions := actions + [action];
          i := i + 2;
          frameStart := -1;
        } else {
          ScanInside(s, now, actions, frameStart, i);
        }
        i := i + 1;
      }
      ScanEnds(s, buf[..bufPosn], actions, frameStart);
      if frameStart == -1 {
        bufPosn := 0;
      } else {
        KeepFrom(frameStart);
      }
    }

    // Moves the start of an unfinished frame to the start of the buffer.
    method KeepFrom(frameStart: nat)
      requires Valid() && frameStart <= bufPosn
      modifies this, buf
      ensures Valid() && bufPosn <= old(bufPosn) && Pending() == old(Pending())[frameStart..]
    {
      if frameStart > 0 {
        forall k | 0 <= k < bufPosn - frameStart {
          buf[k] := buf[frameStart + k];
        }
        bufPosn := bufPosn - frameStart;
      }
    }

    // The verdict on one frame.
    static method Judged(payload: seq<byte>, calculated: byte, c: byte, d: byte) returns (action: Action)
      requires calculated == Checksum(payload)
      ensures action == Judge(payload, c, d)
    {
      if calculated != Scanned(c, d) {
        action := Refuse;
      } else if |payload| == 0 {
        action := Refuse;
      } else {
        action := Handle(payload);
      }
    }

    // gdb_server_data_callback, once the bytes have been read.
    method Receive(data: seq<byte>) returns (actions: seq<Action>)
      requires Valid() && bufPosn + |data| <= buf.Length
      modifies this, buf
      ensures Valid()
      ensures Parsed(actions, Pending()) == Parse(old(Pending()) + data)
    {
      hide Parse;
      forall k | bufPosn <= k < bufPosn + |data| {
        buf[k] := data[k - bufPosn];
      }
      bufPosn := bufPosn + |data|;
      assert Pending() == old(Pending()) + data;
      actions := ProcessBuffer();
    }
  }

  // The scan has come to i: what it has done so far, and the frame it is inside of. A hash
  // in it that has not ended it has fewer than two bytes behind.
  ghost predicate Scan(s: seq<byte>, now: seq<byte>, actions: seq<Action>, frameStart: int, i: nat) {
    var base := if frameStart == -1 then i else frameStart;
    && |now| == |s| && i <= |s| && -1 <= frameStart < i
    && (forall k :: base <= k < |s| ==> now[k] == s[k])
    && (frameStart != -1 ==> s[frameStart] == DOLLAR)
    && (frameStart != -1 ==> forall k :: frameStart < k < i && s[k] == HASH ==> k + 2 >= |s|)
    && Parse(s) == After(actions, Parse(s[base..]))
  }

  function After(actions: seq<Action>, later: Parsed): Parsed {
    Parsed(actions + later.actions, later.rest)
  }

  lemma ScanAgrees(s: seq<byte>, now: seq<byte>, actions: seq<Action>, frameStart: int, i: nat)
    requires Scan(s, now, actions, frameStart, i)
    ensures |now| == |s| && forall k :: i <= k < |s| ==> now[k] == s[k]
  {
  }

  lemma ScanStarts(s: seq<byte>)
    ensures Scan(s, s, [], -1, 0)
  {
  }

  // One byte outside of any frame.
  lemma ScanOutside(s: seq<byte>, now: seq<byte>, actions: seq<Action>, i: nat)
    requires Scan(s, now, actions, -1, i) && i < |s|
    ensures now[i] == DOLLAR ==> Scan(s, now, actions, i, i + 1)
    ensures now[i] == CONTROL_C ==> Scan(s, now, actions + [Stop], -1, i + 1)
    ensures now[i] != DOLLAR && now[i] != CONTROL_C ==> Scan(s, now, actions, -1, i + 1)
  {
  }

  // One byte inside a frame that does not end it.
  lemma ScanInside(s: seq<byte>, now: seq<byte>, actions: seq<Action>, frameStart: int, i: nat)
    requires Scan(s, now, actions, frameStart, i) && frameStart != -1 && i < |s|
    requires now[i] != HASH || i + 2 >= |s|
    ensures Scan(s, now, actions, frameStart, i + 1)
  {
  }

  // The end of a frame, with the two bytes of its checksum there.
  lemma ScanFrame(s: seq<byte>, now: seq<byte>, actions: seq<Action>, frameStart: int, i: nat)
    requires Scan(s, now, actions, frameStart, i) && frameStart != -1 && i + 2 < |s| && now[i] == HASH
    ensures var action := Judge(now[frameStart + 1..i], now[i + 1], now[i + 2]);
            Scan(s, now, actions + [action], -1, i + 3) && Scan(s, now[i := 0], actions + [action], -1, i + 3)
  {
    hide FindHash, Judge;
    var f, n := s[frameStart..], i - frameStart;
    assert forall j :: 1 <= j < n ==> f[j] != HASH by {
      forall j | 1 <= j < n ensures f[j] != HASH {
        assert f[j] == s[frameStart + j];
      }
    }
    FindHashIs(f, 1, n);
    var payload := now[frameStart + 1..i];
    forall j | 0 <= j < n - 1 ensures f[1..n][j] == payload[j] {
      assert s[frameStart + 1 + j] == now[frameStart + 1 + j];
    }
    assert f[1..n] == payload;
    assert f[n + 3..] == s[i + 3..];
    var action := Judge(now[frameStart + 1..i], now[i + 1], now[i + 2]);
    var later := Parse(s[i + 3..]).actions;
    assert actions + ([action] + later) == actions + [action] + later;
  }

  lemma ScanEnds(s: seq<byte>, now: seq<byte>, actions: seq<Action>, frameStart: int)
    requires Scan(s, now, actions, frameStart, |s|)
    ensures frameStart == -1 ==> Parse(s) == Parsed(actions, [])
    ensures frameStart != -1 ==> Parse(s) == Parsed(actions, now[frameStart..])
  {
    assert actions + [] == actions;
    if frameStart != -1 {
      var f := s[frameStart..];
      var h := FindHash(f, 1);
      assert h < |f| ==> s[frameStart + h] == HASH;
      assert now[frameStart..] == f;
    } else {
      assert s[|s|..] == [];
    }
  }
}
