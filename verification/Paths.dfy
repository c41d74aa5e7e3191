// Writing paths to the configuration file with escapes, and reading them back with variables
// substituted into a buffer of fixed size.
module Paths {

  type byte = x: int | 0 <= x < 0x100
  type text = seq<byte>

  const PATH_MAX := 4096
  // The last place of the buffer is kept for the terminator.
  const LIMIT := PATH_MAX - 1

  const DOLLAR: byte := 0x24
  const BACKSLASH: byte := 0x5C
  const QUOTE: byte := 0x22
  const BACKTICK: byte := 0x60
  const OPEN: byte := 0x7B
  const CLOSE: byte := 0x7D
  const UNDERSCORE: byte := 0x5F

  predicate Alnum(c: byte) {
    0x30 <= c <= 0x39 || 0x41 <= c <= 0x5A || 0x61 <= c <= 0x7A
  }

  // Letters, digits and . _ @ % / are left alone.
  predicate Plain(c: byte) {
    Alnum(c) || c in {0x2E, UNDERSCORE, 0x40, 0x25, 0x2F}
  }

  predicate NeedsEscaping(p: text) {
    exists i :: 0 <= i < |p| && !Plain(p[i])
  }

  // In the order of the character codes, these are five ranges.
  lemma PlainRanges(c: byte)
    ensures Plain(c) <==> c == 0x25 || 0x2E <= c <= 0x39 || 0x40 <= c <= 0x5A || c == 0x5F || 0x61 <= c <= 0x7A
  {
  }

  predicate Special(c: byte) {
    c in {BACKSLASH, QUOTE, DOLLAR, BACKTICK}
  }

  // ---------------------------------------------------------------- escaping

  function Body(p: text): text
    decreases |p|
  {
    if p == [] then []
    else if Special(p[0]) then [BACKSLASH, p[0]] + Body(p[1..])
    else [p[0]] + Body(p[1..])
  }

  function Escaped(p: text): text {
    if NeedsEscaping(p) then [QUOTE] + Body(p) + [QUOTE] else p
  }

  // ---------------------------------------------------------------- expanding

  type Environment = map<text, text>

  function Value(env: Environment, name: text): text {
    if name in env then env[name] else []
  }

  // The text expanded; or the input itself, when it does not fit or has a variable without
  // its closing brace; or a read past the terminator, behind a backslash that is the last
  // character.
  datatype Outcome = Expanded(result: text) | Unchanged | Overrun

  function FindClose(s: text, k: nat): (q: nat)
    requires k <= |s|
    ensures k <= q <= |s| && (q < |s| ==> s[q] == CLOSE)
    ensures forall i :: k <= i < q ==> s[i] != CLOSE
    decreases |s| - k
  {
    if k == |s| || s[k] == CLOSE then k else FindClose(s, k + 1)
  }

  function NameEnd(s: text, k: nat): (q: nat)
    requires k <= |s|
    ensures k <= q <= |s| && (q < |s| ==> !(Alnum(s[q]) || s[q] == UNDERSCORE))
    ensures forall i :: k <= i < q ==> Alnum(s[i]) || s[i] == UNDERSCORE
    decreases |s| - k
  {
    if k == |s| || !(Alnum(s[k]) || s[k] == UNDERSCORE) then k else NameEnd(s, k + 1)
  }

  // What a piece of the input at the start of it stands for, and how long the piece is; no
  // length at all for a variable that is not closed.
  datatype Piece = Piece(length: nat, value: text) | Unclosed

  function First(s: text, env: Environment): (p: Piece)
    requires s != []
    ensures p.Piece? ==> 0 < p.length <= |s| + 1
    ensures p.Piece? && p.length > |s| <==> s == [BACKSLASH]
  {
    if s[0] == DOLLAR then
      if |s| > 1 && s[1] == OPEN then
        var q := FindClose(s, 2);
        if q == |s| then Unclosed else Piece(q + 1, Value(env, s[2..q]))
      else
        var q := NameEnd(s, 1);
        if q == 1 then Piece(1, [DOLLAR]) else Piece(q, Value(env, s[1..q]))
    else if s[0] == BACKSLASH then
      if |s| > 1 then Piece(2, [s[1]]) else Piece(2, [BACKSLASH])
    else if s[0] == QUOTE then Piece(1, [])
    else Piece(1, [s[0]])
  }

  // The expander, with this much in the buffer and this much of the input to go.
  function Expand(s: text, out: text, env: Environment): Outcome
    decreases |s|
  {
    if s == [] then Expanded(out)
    else if |out| >= LIMIT then Unchanged
    else
      match First(s, env)
      case Unclosed => Unchanged
      case Piece(length, value) =>
        if |out| + |value| > LIMIT then Unchanged
        else if length > |s| then Overrun
        else Expand(s[length..], out + value, env)
  }

  function Returned(o: Outcome, input: text): text {
    match o
    case Expanded(result) => result
    case Unchanged => input
    case Overrun => []
  }

  // ---------------------------------------------------------------- the meaning of an input

  // The same without a buffer: the text an input stands for, if it comes to its end.
  datatype Meaning = Text(whole: text) | Open(before: text) | Dangling(before: text)

  function MeaningOf(s: text, out: text, env: Environment): Meaning
    decreases |s|
  {
    if s == [] then Text(out)
    else
      match First(s, env)
      case Unclosed => Open(out)
      case Piece(length, value) =>
        if length > |s| then Dangling(out) else MeaningOf(s[length..], out + value, env)
  }

  function Reached(m: Meaning): text {
    match m
    case Text(whole) => whole
    case Open(before) => before
    case Dangling(before) => before
  }

  // What the pieces of an input bring. A variable in braces brings its value, whatever comes
  // behind it.
  lemma BracedVariable(name: text, rest: text, out: text, env: Environment)
    requires CLOSE !in name
    ensures MeaningOf([DOLLAR, OPEN] + name + [CLOSE] + rest, out, env) == MeaningOf(rest, out + Value(env, name), env)
  {
    var s := [DOLLAR, OPEN] + name + [CLOSE] + rest;
    var n := |name|;
    assert forall i :: 0 <= i < n ==> s[i + 2] == name[i];
    FindCloseIs(s, 2, n + 2);
    assert s[2..n + 2] == name && s[n + 3..] == rest;
  }

  // One without braces does, up to the first character that is no part of a name.
  lemma PlainVariable(name: text, rest: text, out: text, env: Environment)
    requires name != [] && name[0] != OPEN && forall i :: 0 <= i < |name| ==> Alnum(name[i]) || name[i] == UNDERSCORE
    requires rest == [] || !(Alnum(rest[0]) || rest[0] == UNDERSCORE)
    ensures MeaningOf([DOLLAR] + name + rest, out, env) == MeaningOf(rest, out + Value(env, name), env)
  {
    var s := [DOLLAR] + name + rest;
    var n := |name|;
    assert forall i :: 0 <= i < n ==> s[i + 1] == name[i];
    NameEndIs(s, 1, n + 1);
    assert s[1..n + 1] == name && s[n + 1..] == rest;
  }

  // A dollar before anything else stands for itself, a backslash takes the character behind
  // it as it is, a quote brings nothing, and any other character itself.
  lemma SingleCharacters(c: byte, rest: text, out: text, env: Environment)
    ensures (rest == [] || !(rest[0] == OPEN || Alnum(rest[0]) || rest[0] == UNDERSCORE)) ==>
              MeaningOf([DOLLAR] + rest, out, env) == MeaningOf(rest, out + [DOLLAR], env)
    ensures MeaningOf([BACKSLASH, c] + rest, out, env) == MeaningOf(rest, out + [c], env)
    ensures MeaningOf([QUOTE] + rest, out, env) == MeaningOf(rest, out, env)
    ensures c !in {DOLLAR, BACKSLASH, QUOTE} ==> MeaningOf([c] + rest, out, env) == MeaningOf(rest, out + [c], env)
  {
    assert ([DOLLAR] + rest)[1..] == rest && ([BACKSLASH, c] + rest)[2..] == rest;
    assert ([QUOTE] + rest)[1..] == rest && ([c] + rest)[1..] == rest;
    assert out + [] == out;
    if rest == [] || !(rest[0] == OPEN || Alnum(rest[0]) || rest[0] == UNDERSCORE) {
      NameEndIs([DOLLAR] + rest, 1, 1);
    }
  }

  lemma {:induction false} MeaningGrows(s: text, out: text, env: Environment)
    ensures |Reached(MeaningOf(s, out, env))| >= |out|
    decreases |s|
  {
    if s != [] {
      match First(s, env)
      case Unclosed =>
      case Piece(length, value) =>
        if length <= |s| {
          MeaningGrows(s[length..], out + value, env);
        }
    }
  }

  // The buffer never changes what comes out, only whether anything does; an input whose text
  // stays below the limit is always expanded. The terminator is overrun exactly for an input
  // that ends in a backslash with nothing behind it, when the text before fits.
  lemma {:induction false} ExpandMeans(s: text, out: text, env: Environment)
    requires |out| <= LIMIT
    ensures var m := MeaningOf(s, out, env);
            var o := Expand(s, out, env);
            && (o.Expanded? ==> m == Text(o.result) && |o.result| <= LIMIT)
            && (m.Text? && |m.whole| < LIMIT ==> o == Expanded(m.whole))
            && (m.Text? && |m.whole| > LIMIT ==> o == Unchanged)
            && (m.Open? ==> o == Unchanged)
            && (o == Overrun <==> m.Dangling? && |m.before| < LIMIT)
    decreases |s|
  {
    hide First;
    if s != [] {
      MeaningGrows(s, out, env);
      match First(s, env)
      case Unclosed =>
      case Piece(length, value) =>
        if length <= |s| {
          MeaningGrows(s[length..], out + value, env);
          if |out| + |value| <= LIMIT {
            ExpandMeans(s[length..], out + value, env);
          }
        } else {
          DanglingPiece(s, env);
        }
    }
  }

  lemma DanglingPiece(s: text, env: Environment)
    requires s != [] && First(s, env).Piece? && First(s, env).length > |s|
    ensures First(s, env) == Piece(2, [BACKSLASH])
  {
  }

  // ---------------------------------------------------------------- the end of an input

  // How many backslashes an input ends in.
  function Trailing(s: text): (n: nat)
    ensures n <= |s|
    decreases |s|
  {
    if s == [] || s[|s| - 1] != BACKSLASH then 0 else 1 + Trailing(s[..|s| - 1])
  }

  // A variable starts here, with no backslash to escape it, and is never closed.
  ghost predicate UnclosedAt(s: text, i: nat) {
    && i + 1 < |s| && s[i] == DOLLAR && s[i + 1] == OPEN
    && (forall j :: i + 2 <= j < |s| ==> s[j] != CLOSE)
    && Trailing(s[..i]) % 2 == 0
  }

  lemma {:induction false} TrailingJoin(s: text, t: text)
    ensures Trailing(s + t) == if Trailing(t) == |t| then |t| + Trailing(s) else Trailing(t)
    decreases |t|
  {
    if t == [] {
      assert s + t == s;
    } else {
      assert (s + t)[..|s + t| - 1] == s + t[..|t| - 1];
      TrailingJoin(s, t[..|t| - 1]);
    }
  }

  lemma PieceEndsEven(s: text, env: Environment)
    requires s != [] && First(s, env).Piece? && First(s, env).length <= |s|
    ensures Trailing(s[..First(s, env).length]) % 2 == 0
  {
    var t := s[..First(s, env).length];
    if s[0] == BACKSLASH {
      assert t == [BACKSLASH, s[1]] && t[..1] == [BACKSLASH] && [BACKSLASH][..0] == [];
      assert Trailing([BACKSLASH]) == 1;
    }
  }

  // So the run of backslashes before a place behind the first piece stays even or odd when
  // that piece is taken away.
  lemma SameParity(s: text, env: Environment, i: nat)
    requires s != [] && First(s, env).Piece? && First(s, env).length <= i <= |s|
    ensures Trailing(s[..i]) % 2 == Trailing(s[First(s, env).length..][..i - First(s, env).length]) % 2
  {
    var n := First(s, env).length;
    PieceEndsEven(s, env);
    TrailingJoin(s[..n], s[n..][..i - n]);
    assert s[..i] == s[..n] + s[n..][..i - n];
  }

  lemma NotInPiece(s: text, env: Environment, i: nat)
    requires s != [] && First(s, env).Piece? && UnclosedAt(s, i)
    ensures i >= First(s, env).length
  {
  }

  lemma LaterPiece(s: text, env: Environment, i: nat)
    requires s != [] && First(s, env).Piece? && First(s, env).length <= i <= |s|
    ensures UnclosedAt(s, i) <==> UnclosedAt(s[First(s, env).length..], i - First(s, env).length)
  {
    var n := First(s, env).length;
    SameParity(s, env, i);
    forall j | i + 2 <= j < |s| ensures s[j] == s[n..][j - n] {
    }
  }

  // Whether an input comes to its end can be told from its characters, whatever the
  // variables stand for: it must have no variable left open, and must not end in an odd
  // number of backslashes.
  lemma {:induction false} EndOfInput(s: text, out: text, env: Environment)
    ensures MeaningOf(s, out, env).Open? <==> exists i: nat :: UnclosedAt(s, i)
    ensures MeaningOf(s, out, env).Dangling? <==> Trailing(s) % 2 == 1 && forall i: nat :: !UnclosedAt(s, i)
    decreases |s|
  {
    hide First, UnclosedAt, Trailing;
    if s == [] {
      Nothing();
    } else {
      match First(s, env)
      case Unclosed => FirstUnclosed(s, env);
      case Piece(length, value) =>
        if length > |s| {
          LoneBackslash(s, env);
        } else {
          var rest := s[length..];
          EndOfInput(rest, out + value, env);
          SameParity(s, env, |s|);
          assert s[..|s|] == s && rest[..|rest|] == rest;
          forall i: nat | UnclosedAt(s, i) ensures exists k: nat :: UnclosedAt(rest, k) {
            NotInPiece(s, env, i);
            UnclosedInside(s, i);
            LaterPiece(s, env, i);
            assert UnclosedAt(rest, i - length);
          }
          forall i: nat | UnclosedAt(rest, i) ensures UnclosedAt(s, length + i) {
            UnclosedInside(rest, i);
            LaterPiece(s, env, length + i);
          }
        }
    }
  }

  lemma UnclosedInside(s: text, i: nat)
    requires UnclosedAt(s, i)
    ensures i < |s|
  {
  }

  lemma Nothing()
    ensures Trailing([]) == 0 && forall i: nat :: !UnclosedAt([], i)
  {
  }

  lemma FirstUnclosed(s: text, env: Environment)
    requires s != [] && First(s, env).Unclosed?
    ensures UnclosedAt(s, 0)
  {
  }

  lemma LoneBackslash(s: text, env: Environment)
    requires s != [] && First(s, env).Piece? && First(s, env).length > |s|
    ensures Trailing(s) == 1 && forall i: nat :: !UnclosedAt(s, i)
  {
    assert s[..0] == [];
  }

  // The expander reads past the terminator exactly when its input ends in an odd number of
  // backslashes, leaves no variable open, and the text before the last backslash fits.
  lemma OverrunExactly(s: text, env: Environment)
    ensures Expand(s, [], env) == Overrun
            <==> Trailing(s) % 2 == 1 && (forall i: nat :: !UnclosedAt(s, i)) && |Reached(MeaningOf(s, [], env))| < LIMIT
  {
    hide UnclosedAt, Trailing, Expand, MeaningOf;
    ExpandMeans(s, [], env);
    EndOfInput(s, [], env);
  }

  lemma LoneBackslashOverruns(env: Environment)
    ensures Expand([BACKSLASH], [], env) == Overrun
  {
  }

  // ---------------------------------------------------------------- round trip

  // The inside of an escaped path, and its closing quote, give back the path while it fits;
  // the quote still needs a place before the limit.
  lemma {:induction false} BodyExpands(p: text, out: text, env: Environment)
    requires |out| <= LIMIT
    ensures Expand(Body(p) + [QUOTE], out, env)
            == if |out| + |p| < LIMIT then Expanded(out + p) else Unchanged
    decreases |p|
  {
    var s := Body(p) + [QUOTE];
    if p == [] {
      assert s == [QUOTE];
      assert out + [] == out;
      assert [QUOTE][1..] == [];
    } else if |out| < LIMIT {
      var n := if Special(p[0]) then 2 else 1;
      assert s[n..] == Body(p[1..]) + [QUOTE];
      assert First(s, env) == Piece(n, [p[0]]);
      BodyExpands(p[1..], out + [p[0]], env);
      assert out + [p[0]] + p[1..] == out + p;
    }
  }

  lemma {:induction false} PlainExpands(p: text, out: text, env: Environment)
    requires |out| <= LIMIT && forall i :: 0 <= i < |p| ==> Plain(p[i])
    ensures Expand(p, out, env) in {Expanded(out + p), Unchanged}
    decreases |p|
  {
    if p == [] {
      assert out + [] == out;
    } else if |out| < LIMIT {
      assert First(p, env) == Piece(1, [p[0]]);
      PlainExpands(p[1..], out + [p[0]], env);
      assert out + [p[0]] + p[1..] == out + p;
    }
  }

  // Reading back an escaped path gives the path, whatever the environment, if and only if it
  // needed no escapes or is shorter than PATH_MAX - 1.
  lemma EscapeRoundTrip(p: text, env: Environment)
    ensures Returned(Expand(Escaped(p), [], env), Escaped(p)) == p <==> !NeedsEscaping(p) || |p| < LIMIT
  {
    hide Expand, Body, Plain, Special;
    assert [] + p == p;
    if NeedsEscaping(p) {
      QuoteExpands(Body(p) + [QUOTE], env);
      assert Escaped(p) == [QUOTE] + (Body(p) + [QUOTE]);
      BodyExpands(p, [], env);
      BodyLength(p);
    } else {
      PlainExpands(p, [], env);
    }
  }

  lemma QuoteExpands(rest: text, env: Environment)
    ensures Expand([QUOTE] + rest, [], env) == Expand(rest, [], env)
  {
    assert ([QUOTE] + rest)[1..] == rest;
    assert First([QUOTE] + rest, env) == Piece(1, []);
  }

  // The shortest path that is lost, of spaces say.
  lemma LongPathLost(env: Environment)
    ensures var p := seq(LIMIT, _ => 0x20); Returned(Expand(Escaped(p), [], env), Escaped(p)) != p
  {
    var p := seq(LIMIT, _ => 0x20);
    assert !Plain(p[0]);
    EscapeRoundTrip(p, env);
  }

  // Only the four special characters get a backslash.
  lemma {:induction false} BodyIs(p: text, i: nat)
    requires i < |p|
    ensures Body(p) == Body(p[..i]) + (if p[i] in {BACKSLASH, QUOTE, DOLLAR, BACKTICK} then [BACKSLASH, p[i]] else [p[i]]) + Body(p[i + 1..])
    decreases |p|
  {
    if i > 0 {
      BodyIs(p[1..], i - 1);
      assert p[..i][1..] == p[1..][..i - 1] && p[1..][i..] == p[i + 1..];
    }
  }

  lemma {:induction false} BodyLength(p: text)
    ensures |Body(p)| >= |p|
    decreases |p|
  {
    if p != [] {
      BodyLength(p[1..]);
    }
  }

  // ---------------------------------------------------------------- the loops

  // path_needs_escaping
  method PathNeedsEscaping(value: text) returns (needed: bool)
    ensures needed == NeedsEscaping(value)
  {
    var p := 0;
    while p < |value|
      invariant p <= |value| && forall i :: 0 <= i < p ==> Plain(value[i])
    {
      if !Plain(value[p]) {
        return true;
      }
      p := p + 1;
    }
    return false;
  }

  lemma BodyNext(p: text, s: nat, done: text)
    requires s < |p|
    ensures done + Body(p[s..]) == done + (if Special(p[s]) then [BACKSLASH, p[s]] else [p[s]]) + Body(p[s + 1..])
  {
    assert p[s..][1..] == p[s + 1..];
  }

  lemma BodyDone(p: text, done: text)
    ensures done + Body(p[|p|..]) == done
  {
  }

  // get_escaped_path
  method GetEscapedPath(value: text) returns (escaped: text)
    ensures escaped == Escaped(value)
  {
    hide Special, NeedsEscaping, Body;
    var needed := PathNeedsEscaping(value);
    if !needed {
      return value;
    }
    var buf := new byte[2 * |value| + 3];
    var s, p := 0, 1;
    buf[0] := QUOTE;
    while s < |value|
      invariant s <= |value| && 1 <= p <= 1 + 2 * s
      invariant buf[..p] + Body(value[s..]) == [QUOTE] + Body(value)
    {
      ghost var before := buf[..p];
      ghost var piece: text := if Special(value[s]) then [BACKSLASH, value[s]] else [value[s]];
      BodyNext(value, s, before);
      if Special(value[s]) {
        buf[p] := BACKSLASH;
        p := p + 1;
      }
      buf[p] := value[s];
      p := p + 1;
      s := s + 1;
      assert buf[..p] == before + piece;
    }
    BodyDone(value, buf[..p]);
    buf[p] := QUOTE;
    p := p + 1;
    assert buf[..p] == buf[..p - 1] + [QUOTE];
    return buf[..p];
  }

  // strcpy, with the terminator.
  method CopyText(result: array<byte>, d: nat, value: text)
    requires d + |value| < result.Length
    modifies result
    ensures result[..d + |value|] == old(result[..d]) + value
  {
    forall i | d <= i < d + |value| {
      result[i] := value[i - d];
    }
    result[d + |value|] := 0;
  }

  lemma FindCloseIs(s: text, k: nat, q: nat)
    requires k <= q <= |s| && (q < |s| ==> s[q] == CLOSE) && forall i :: k <= i < q ==> s[i] != CLOSE
    ensures FindClose(s, k) == q
  {
  }

  lemma NameEndIs(s: text, k: nat, q: nat)
    requires k <= q <= |s| && (q < |s| ==> !(Alnum(s[q]) || s[q] == UNDERSCORE))
    requires forall i :: k <= i < q ==> Alnum(s[i]) || s[i] == UNDERSCORE
    ensures NameEnd(s, k) == q
  {
  }

  // The parts of get_expanded_path that read one piece of the input.
  method ReadPiece(input: text, s: nat, env: Environment) returns (piece: Piece)
    requires s < |input|
    ensures piece == First(input[s..], env)
  {
    hide FindClose, NameEnd;
    ghost var rest := input[s..];
    var c := input[s];
    if c == DOLLAR {
      if s + 1 < |input| && input[s + 1] == OPEN {
        var q := s + 2;
        while q < |input| && input[q] != CLOSE
          invariant s + 2 <= q <= |input| && forall i :: s + 2 <= i < q ==> input[i] != CLOSE
        {
          q := q + 1;
        }
        FindCloseIs(rest, 2, q - s);
        if q == |input| {
          piece := Unclosed;
        } else {
          assert rest[2..q - s] == input[s + 2..q];
          piece := Piece(q + 1 - s, Value(env, input[s + 2..q]));
        }
      } else {
        var q := s + 1;
        while q < |input| && (Alnum(input[q]) || input[q] == UNDERSCORE)
          invariant s + 1 <= q <= |input| && forall i :: s + 1 <= i < q ==> Alnum(input[i]) || input[i] == UNDERSCORE
        {
          q := q + 1;
        }
        NameEndIs(rest, 1, q - s);
        if q == s + 1 {
          piece := Piece(1, [DOLLAR]);
        } else {
          assert rest[1..q - s] == input[s + 1..q];
          piece := Piece(q - s, Value(env, input[s + 1..q]));
        }
      }
    } else if c == BACKSLASH {
      piece := Piece(2, [if s + 1 < |input| then input[s + 1] else BACKSLASH]);
    } else if c == QUOTE {
      piece := Piece(1, []);
    } else {
      piece := Piece(1, [c]);
    }
  }

  // get_expanded_path, in a buffer of PATH_MAX bytes.
  method GetExpandedPath(input: text, env: Environment) returns (outcome: Outcome)
    ensures outcome == Expand(input, [], env)
  {
    hide First;
    var result := new byte[PATH_MAX];
    var s, d := 0, 0;
    assert input[0..] == input;
    while s < |input|
      invariant 0 <= s <= |input| && 0 <= d <= LIMIT
      invariant Expand(input, [], env) == Expand(input[s..], result[..d], env)
    {
      if d == LIMIT {
        return Unchanged;
      }
      var piece := ReadPiece(input, s, env);
      match piece {
        case Unclosed =>
          return Unchanged;
        case Piece(length, value) =>
          if d + |value| > LIMIT {
            return Unchanged;
          }
          CopyText(result, d, value);
          if s + length > |input| {
            return Overrun;
          }
          assert input[s..][length..] == input[s + length..];
          d := d + |value|;
          s := s + length;
      }
    }
    return Expanded(result[..d]);
  }
}
