/**
 The incremental OSC 9;9 parser of windows/session/cwdtracker.go.

 `Step` and `Run` say what one byte and a byte string do to the parser; the class
 `CWDTracker` is the source's mutable parser, proved to compute `Run`.  The
 reference parser `RefRun` keeps the whole OSC body instead of a capped payload.
 */
module OscTracker {
  import opened Bytes

  const ESC: byte := 0x1b
  const BEL: byte := 0x07
  const BACKSLASH: byte := 0x5c
  const BRACKET: byte := 0x5d
  const QUOTE: byte := 0x22

  /** "9;9;" */
  const PREFIX: bytes := [0x39, 0x3b, 0x39, 0x3b]

  const MAX_BODY: nat := 4096

  // ---------------------------------------------------------------- trimming

  /** Length of the white-space rune (in UTF-8) at the front of `s`, 0 if none. */
  function SpacePrefix(s: bytes): (n: nat)
    ensures n <= |s|
  {
    if 1 <= |s| && IsSpace1(s[0]) then 1
    else if 2 <= |s| && IsSpace2(s[0], s[1]) then 2
    else if 3 <= |s| && IsSpace3(s[0], s[1], s[2]) then 3
    else 0
  }

  /** Length of the white-space rune at the end of `s`, 0 if none. */
  function SpaceSuffix(s: bytes): (n: nat)
    ensures n <= |s|
  {
    var k := |s|;
    if 1 <= k && IsSpace1(s[k - 1]) then 1
    else if 2 <= k && IsSpace2(s[k - 2], s[k - 1]) then 2
    else if 3 <= k && IsSpace3(s[k - 3], s[k - 2], s[k - 1]) then 3
    else 0
  }

  /** The one-byte white space: U+0009..U+000D and U+0020. */
  predicate IsSpace1(a: byte) {
    9 <= a <= 13 || a == 32
  }

  /** U+0085 and U+00A0. */
  predicate IsSpace2(a: byte, b: byte) {
    a == 0xc2 && (b == 0x85 || b == 0xa0)
  }

  /** U+1680, U+2000..U+200A, U+2028, U+2029, U+202F, U+205F and U+3000. */
  predicate IsSpace3(a: byte, b: byte, c: byte) {
    || (a == 0xe1 && b == 0x9a && c == 0x80)
    || (a == 0xe2 && b == 0x80 && (0x80 <= c <= 0x8a || c == 0xa8 || c == 0xa9 || c == 0xaf))
    || (a == 0xe2 && b == 0x81 && c == 0x9f)
    || (a == 0xe3 && b == 0x80 && c == 0x80)
  }

  /** `r` is `s` or a shorter string made of bytes of `s`. */
  predicate CutFrom(r: bytes, s: bytes) {
    (r == s || |r| < |s|) && forall x | x in r :: x in s
  }

  function TrimLeft(s: bytes): (r: bytes)
    ensures CutFrom(r, s) && (r == s <==> SpacePrefix(s) == 0)
  {
    if SpacePrefix(s) == 0 then s else TrimLeft(s[SpacePrefix(s)..])
  }

  function TrimRight(s: bytes): (r: bytes)
    ensures CutFrom(r, s) && (r == s <==> SpaceSuffix(s) == 0)
  {
    if SpaceSuffix(s) == 0 then s else TrimRight(s[..|s| - SpaceSuffix(s)])
  }

  function TrimQuotes(s: bytes): (r: bytes)
    ensures CutFrom(r, s)
    ensures r == s <==> s == [] || (s[0] != QUOTE && s[|s| - 1] != QUOTE)
  {
    if s == [] then s
    else if s[0] == QUOTE then TrimQuotes(s[1..])
    else if s[|s| - 1] == QUOTE then TrimQuotes(s[..|s| - 1])
    else s
  }

  function Trimmed(s: bytes): (r: bytes)
    ensures CutFrom(r, s)
  {
    TrimQuotes(TrimRight(TrimLeft(s)))
  }

  /** A path with no white space or quote at either end. */
  predicate Clean(path: bytes) {
    && path != []
    && SpacePrefix(path) == 0 && SpaceSuffix(path) == 0
    && path[0] != QUOTE && path[|path| - 1] != QUOTE
  }

  lemma CleanIsFixed(path: bytes)
    ensures path != [] && Trimmed(path) == path <==> Clean(path)
  {
    var l := TrimLeft(path);
    var r := TrimRight(l);
    if Trimmed(path) == path {
      assert |path| <= |r| <= |l| <= |path|;
    }
  }

  /** One white-space rune in UTF-8. */
  predicate IsSpace(rune: bytes) {
    || (|rune| == 1 && IsSpace1(rune[0]))
    || (|rune| == 2 && IsSpace2(rune[0], rune[1]))
    || (|rune| == 3 && IsSpace3(rune[0], rune[1], rune[2]))
  }

  predicate AllSpaces(runes: seq<bytes>) {
    forall r | r in runes :: IsSpace(r)
  }

  predicate AllQuotes(s: bytes) {
    forall i | 0 <= i < |s| :: s[i] == QUOTE
  }

  lemma {:induction false} TrimLeftSpaces(runes: seq<bytes>, s: bytes)
    requires AllSpaces(runes) && SpacePrefix(s) == 0
    ensures TrimLeft(Flatten(runes) + s) == s
  {
    if runes == [] {
      assert Flatten(runes) + s == s;
    } else {
      var rune, rest := runes[0], Flatten(runes[1..]) + s;
      assert IsSpace(rune);
      TrimLeftSpaces(runes[1..], s);
      assert Flatten(runes) + s == rune + rest;
      assert (rune + rest)[|rune|..] == rest;
    }
  }

  lemma FlattenLast(runes: seq<bytes>)
    requires runes != []
    ensures Flatten(runes) == Flatten(runes[..|runes| - 1]) + runes[|runes| - 1]
  {
    var n := |runes| - 1;
    assert runes == runes[..n] + [runes[n]];
    FlattenAppend(runes[..n], [runes[n]]);
  }

  lemma SpaceAtEnd(s: bytes, rune: bytes)
    requires IsSpace(rune)
    ensures SpaceSuffix(s + rune) == |rune| && (s + rune)[..|s|] == s
  {
  }

  lemma SpaceIsSome(rune: bytes)
    requires IsSpace(rune)
    ensures rune != []
  {
  }

  lemma {:induction false} TrimRightSpaces(s: bytes, runes: seq<bytes>)
    requires AllSpaces(runes) && SpaceSuffix(s) == 0
    ensures TrimRight(s + Flatten(runes)) == s
  {
    if runes == [] {
      assert s + Flatten(runes) == s;
    } else {
      var n := |runes| - 1;
      var rune, rest := runes[n], s + Flatten(runes[..n]);
      hide IsSpace, Flatten, SpaceSuffix;
      TrimRightSpaces(s, runes[..n]);
      FlattenLast(runes);
      SpaceAtEnd(rest, rune);
      SpaceIsSome(rune);
      assert s + Flatten(runes) == rest + rune;
    }
  }

  /** Nothing but quotes, or no quote at either end. */
  predicate Unquoted(s: bytes) {
    s == [] || (s[0] != QUOTE && s[|s| - 1] != QUOTE)
  }

  lemma {:induction false} TrimQuotesAway(left: bytes, s: bytes, right: bytes)
    requires AllQuotes(left) && AllQuotes(right) && Unquoted(s)
    ensures TrimQuotes(left + s + right) == s
    decreases |left| + |right|
  {
    var t := left + s + right;
    if left != [] {
      TrimQuotesAway(left[1..], s, right);
      assert t[1..] == left[1..] + s + right;
    } else if right != [] {
      var n := |right| - 1;
      if s == [] {
        TrimQuotesAway([], s, right[1..]);
        assert t[1..] == [] + s + right[1..];
      } else {
        TrimQuotesAway([], s, right[..n]);
        assert t[..|t| - 1] == [] + s + right[..n];
      }
    } else {
      assert t == s;
    }
  }

  /**
   What trimming leaves of any string: outer white space goes, then outer quotes, and
   nothing else.  White space inside the quotes stays.
   */
  lemma TrimmedExactly(before: seq<bytes>, left: bytes, path: bytes, right: bytes, after: seq<bytes>)
    requires AllSpaces(before) && AllSpaces(after) && AllQuotes(left) && AllQuotes(right) && Unquoted(path)
    requires SpacePrefix(left + path + right) == 0 && SpaceSuffix(left + path + right) == 0
    ensures Trimmed(Flatten(before) + (left + path + right) + Flatten(after)) == path
  {
    var s := left + path + right;
    if s == [] {
      OnlySpaces(before, after);
    } else {
      PrefixKept(s, after);
      TrimLeftSpaces(before, s + Flatten(after));
      assert Flatten(before) + s + Flatten(after) == Flatten(before) + (s + Flatten(after));
      TrimRightSpaces(s, after);
    }
    TrimQuotesAway(left, path, right);
  }

  /** No white space arises across the end of `s`: a rune starts with a byte that continues none. */
  lemma PrefixKept(s: bytes, after: seq<bytes>)
    requires s != [] && SpacePrefix(s) == 0 && AllSpaces(after)
    ensures SpacePrefix(s + Flatten(after)) == 0
  {
    if after != [] {
      assert IsSpace(after[0]) && Flatten(after)[0] == after[0][0];
    }
  }

  lemma OnlySpaces(before: seq<bytes>, after: seq<bytes>)
    requires AllSpaces(before) && AllSpaces(after)
    ensures TrimRight(TrimLeft(Flatten(before) + [] + Flatten(after))) == []
  {
    FlattenAppend(before, after);
    TrimLeftSpaces(before + after, []);
    assert Flatten(before) + [] + Flatten(after) == Flatten(before + after) + [];
  }

  function ParseOsc99(body: bytes): (r: Option<bytes>)
    ensures r.Some? ==> r.value != [] && |r.value| + 4 <= |body| && CutFrom(r.value, body)
  {
    if !(PREFIX <= body) then None
    else
      var path := Trimmed(body[4..]);
      if path == [] then None else Some(path)
  }

  // ------------------------------------------------------------- the parser

  datatype Mode = Text | Escaped | Osc | OscEscaped

  datatype State = State(mode: Mode, payload: bytes, overflow: bool)

  const INITIAL := State(Text, [], false)

  function Paths(o: Option<bytes>): seq<bytes> {
    match o
    case None => []
    case Some(p) => [p]
  }

  function EscapedByte(s: State, b: byte): State {
    if b == BRACKET then State(Osc, [], false)
    else if b == ESC then s.(mode := Escaped)
    else s.(mode := Text)
  }

  function AppendByte(s: State, b: byte): State {
    if |s.payload| < MAX_BODY then s.(payload := s.payload + [b]) else s.(overflow := true)
  }

  function Finished(s: State): seq<bytes> {
    if s.overflow then [] else Paths(ParseOsc99(s.payload))
  }

  /** The parser after one byte, and the paths that byte completes. */
  function Step(s: State, b: byte): (State, seq<bytes>) {
    match s.mode
    case Text => (if b == ESC then s.(mode := Escaped) else s, [])
    case Escaped => (EscapedByte(s, b), [])
    case Osc =>
      if b == BEL then (INITIAL, Finished(s))
      else if b == ESC then (s.(mode := OscEscaped), [])
      else (AppendByte(s, b), [])
    case OscEscaped =>
      if b == BACKSLASH then (INITIAL, Finished(s))
      else (EscapedByte(INITIAL, b), [])
  }

  function Run(s: State, input: bytes): (State, seq<bytes>) {
    if input == [] then (s, [])
    else
      var r := Run(s, input[..|input| - 1]);
      var q := Step(r.0, input[|input| - 1]);
      (q.0, r.1 + q.1)
  }

  lemma RunSnoc(s: State, input: bytes, b: byte)
    ensures
      var r := Run(s, input);
      Run(s, input + [b]) == (Step(r.0, b).0, r.1 + Step(r.0, b).1)
  {
    assert (input + [b])[..|input|] == input;
  }

  class CWDTracker {
    var mode: Mode
    var payload: bytes
    var overflow: bool

    function View(): State
      reads this
    {
      State(mode, payload, overflow)
    }

    constructor ()
      ensures View() == INITIAL
    {
      mode, payload, overflow := Text, [], false;
    }

    method FeedEscaped(b: byte)
      modifies this
      ensures View() == EscapedByte(old(View()), b)
    {
      if b == BRACKET {
        mode := Osc;
        payload := [];
        overflow := false;
      } else if b == ESC {
        mode := Escaped;
      } else {
        mode := Text;
      }
    }

    method AppendPayload(b: byte)
      modifies this
      ensures View() == AppendByte(old(View()), b)
    {
      if |payload| < MAX_BODY {
        payload := payload + [b];
        return;
      }
      overflow := true;
    }

    method Reset()
      modifies this
      ensures View() == INITIAL
    {
      mode, payload, overflow := Text, [], false;
    }

    method FinishOsc(paths: seq<bytes>) returns (r: seq<bytes>)
      modifies this
      ensures View() == INITIAL && r == paths + Finished(old(View()))
    {
      r := paths;
      if !overflow {
        var parsed := ParseOsc99(payload);
        if parsed.Some? {
          r := r + [parsed.value];
        }
      }
      Reset();
    }

    method Feed(p: bytes) returns (paths: seq<bytes>)
      modifies this
      ensures (View(), paths) == Run(old(View()), p)
    {
      paths := [];
      ghost var s := View();
      assert (s, paths) == Run(s, p[..0]);
      hide Run, ParseOsc99;
      for i := 0 to |p|
        invariant (View(), paths) == Run(s, p[..i])
      {
        var b := p[i];
        RunSnoc(s, p[..i], b);
        assert p[..i + 1] == p[..i] + [b] && paths + [] == paths;
        match mode {
          case Text =>
            if b == ESC {
              mode := Escaped;
            }
          case Escaped =>
            FeedEscaped(b);
          case Osc =>
            if b == BEL {
              paths := FinishOsc(paths);
            } else if b == ESC {
              mode := OscEscaped;
            } else {
              AppendPayload(b);
            }
          case OscEscaped =>
            if b == BACKSLASH {
              paths := FinishOsc(paths);
            } else {
              Reset();
              FeedEscaped(b);
            }
        }
      }
      assert p[..|p|] == p;
    }
  }

  // ------------------------------------------------------ chunk independence

  lemma Regroup(a: seq<bytes>, b: seq<bytes>, c: seq<bytes>)
    ensures (a + b) + c == a + (b + c)
  {
  }

  lemma {:induction false} RunAppend(s: State, a: bytes, b: bytes)
    ensures Run(s, a + b).0 == Run(Run(s, a).0, b).0
    ensures Run(s, a + b).1 == Run(s, a).1 + Run(Run(s, a).0, b).1
    decreases b
  {
    if b == [] {
      assert a + b == a;
    } else {
      hide Run, Step;
      var front, last := b[..|b| - 1], b[|b| - 1];
      assert b == front + [last];
      RunAppend(s, a, front);
      RunSnoc(Run(s, a).0, front, last);
      RunSnoc(s, a + front, last);
      assert a + b == (a + front) + [last];
      Regroup(Run(s, a).1, Run(Run(s, a).0, front).1, Step(Run(Run(s, a).0, front).0, last).1);
    }
  }

  /** The parser and the session's cwd after feeding the chunks one read at a time. */
  function FeedChunks(s: State, cwd: bytes, chunks: seq<bytes>): (State, seq<bytes>, bytes)
    decreases chunks
  {
    if chunks == [] then (s, [], cwd)
    else
      var r := Run(s, chunks[0]);
      var t := FeedChunks(r.0, LastPath(cwd, r.1), chunks[1..]);
      (t.0, r.1 + t.1, t.2)
  }

  /** Pump's update: a read that completes paths commits the last of them. */
  function LastPath(cwd: bytes, paths: seq<bytes>): bytes {
    if paths == [] then cwd else paths[|paths| - 1]
  }

  /** How the terminal output is cut into reads changes neither the paths nor the cwd. */
  lemma {:induction false} ChunkIndependence(s: State, cwd: bytes, chunks: seq<bytes>)
    ensures
      var whole := Run(s, Flatten(chunks));
      FeedChunks(s, cwd, chunks) == (whole.0, whole.1, LastPath(cwd, whole.1))
    decreases chunks
  {
    if chunks != [] {
      var r := Run(s, chunks[0]);
      ChunkIndependence(r.0, LastPath(cwd, r.1), chunks[1..]);
      RunAppend(s, chunks[0], Flatten(chunks[1..]));
    }
  }

  // ------------------------------------------------ the cap, against no cap

  /** The same parser with an unbounded body instead of a capped payload. */
  datatype RefState = RefState(mode: Mode, body: bytes)

  function RefStep(r: RefState, b: byte): (RefState, seq<bytes>) {
    var done := (RefState(Text, []), if |r.body| <= MAX_BODY then Paths(ParseOsc99(r.body)) else []);
    match r.mode
    case Text => (if b == ESC then RefState(Escaped, []) else r, [])
    case Escaped =>
      (RefState(if b == BRACKET then Osc else if b == ESC then Escaped else Text, []), [])
    case Osc =>
      if b == BEL then done
      else if b == ESC then (r.(mode := OscEscaped), [])
      else (r.(body := r.body + [b]), [])
    case OscEscaped =>
      if b == BACKSLASH then done
      else (RefState(if b == BRACKET then Osc else if b == ESC then Escaped else Text, []), [])
  }

  function RefRun(r: RefState, input: bytes): (RefState, seq<bytes>) {
    if input == [] then (r, [])
    else
      var p := RefRun(r, input[..|input| - 1]);
      var q := RefStep(p.0, input[|input| - 1]);
      (q.0, p.1 + q.1)
  }

  /**
   The payload is the first min(4096, n) bytes of the current n-byte body, and
   overflow says exactly that n exceeds 4096.
   */
  ghost predicate Capped(s: State, r: RefState) {
    && s.mode == r.mode
    && s.payload == r.body[..if |r.body| <= MAX_BODY then |r.body| else MAX_BODY]
    && (s.overflow <==> |r.body| > MAX_BODY)
    && (s.mode == Text || s.mode == Escaped ==> r.body == [])
  }

  lemma CappedAppend(s: State, r: RefState, b: byte)
    requires Capped(s, r) && s.mode == Osc
    ensures Capped(AppendByte(s, b), r.(body := r.body + [b]))
  {
    var body := r.body + [b];
    if |r.body| < MAX_BODY {
      assert r.body[..|r.body|] == r.body && body[..|body|] == body;
    } else {
      assert body[..MAX_BODY] == r.body[..MAX_BODY];
    }
  }

  lemma CappedStep(s: State, r: RefState, b: byte)
    requires Capped(s, r)
    ensures Capped(Step(s, b).0, RefStep(r, b).0) && Step(s, b).1 == RefStep(r, b).1
  {
    if |r.body| <= MAX_BODY {
      assert r.body[..|r.body|] == r.body;
    }
    if s.mode == Osc && b != BEL && b != ESC {
      CappedAppend(s, r, b);
    }
  }

  lemma {:induction false} CappedParserRefinesUncapped(input: bytes)
    ensures Capped(Run(INITIAL, input).0, RefRun(RefState(Text, []), input).0)
    ensures Run(INITIAL, input).1 == RefRun(RefState(Text, []), input).1
  {
    if input != [] {
      var before := input[..|input| - 1];
      CappedParserRefinesUncapped(before);
      CappedStep(Run(INITIAL, before).0, RefRun(RefState(Text, []), before).0, input[|input| - 1]);
    }
  }

  // ---------------------------------------- self-synchronisation, round trip

  const OPEN: bytes := [ESC, BRACKET]

  lemma OpenResynchronises(s: State)
    ensures Run(s, OPEN) == (State(Osc, [], false), [])
  {
    RunSnoc(s, [], ESC);
    RunSnoc(s, [ESC], BRACKET);
    assert [] + [ESC] == [ESC] && [ESC] + [BRACKET] == OPEN;
  }

  /** Whatever two trackers were doing, one ESC ] makes them agree for ever after. */
  lemma SelfSynchronising(s: State, t: State, before: bytes, after: bytes)
    ensures Run(s, before + OPEN + after).0 == Run(t, before + OPEN + after).0
    ensures Run(Run(s, before + OPEN).0, after) == Run(Run(t, before + OPEN).0, after)
  {
    RunAppend(s, before, OPEN);
    RunAppend(t, before, OPEN);
    OpenResynchronises(Run(s, before).0);
    OpenResynchronises(Run(t, before).0);
    RunAppend(s, before + OPEN, after);
    RunAppend(t, before + OPEN, after);
  }

  predicate Plain(p: bytes) {
    ESC !in p && BEL !in p
  }

  /** The parser inside an OSC string, having collected `body` from its start. */
  function Collecting(body: bytes): State {
    State(Osc, if |body| <= MAX_BODY then body else body[..MAX_BODY], |body| > MAX_BODY)
  }

  lemma CollectOne(body: bytes, b: byte)
    ensures AppendByte(Collecting(body), b) == Collecting(body + [b])
  {
    if |body| >= MAX_BODY {
      assert (body + [b])[..MAX_BODY] == body[..MAX_BODY];
    }
  }

  /** A plain body is collected byte by byte, up to the cap. */
  lemma {:induction false} RunPlain(body: bytes)
    requires Plain(body)
    ensures Run(Collecting([]), body) == (Collecting(body), [])
  {
    if body != [] {
      var n := |body| - 1;
      var front, b := body[..n], body[n];
      assert body == front + [b] && b in body;
      RunPlain(front);
      RunSnoc(Collecting([]), front, b);
      CollectOne(front, b);
      assert Step(Collecting(front), b) == (Collecting(body), []);
      var none: seq<bytes> := [];
      assert none + none == none;
    }
  }

  function Terminator(st: bool): bytes {
    if st then [ESC, BACKSLASH] else [BEL]
  }

  /** What shell.go prints around a path: BEL from PowerShell, zsh and bash, ESC \ from cmd. */
  function Printed(path: bytes, st: bool): bytes {
    OPEN + PREFIX + path + Terminator(st)
  }

  /** A whole OSC string with a plain body, from any parser state. */
  lemma RunOscString(s: State, body: bytes, st: bool)
    requires Plain(body)
    ensures Run(s, OPEN + body + Terminator(st)) == (INITIAL, Finished(Collecting(body)))
  {
    var end := Terminator(st);
    OpenResynchronises(s);
    RunAppend(s, OPEN, body);
    RunAppend(s, OPEN + body, end);
    RunPlain(body);
    RunTerminator(Collecting(body), st);
    hide Run, Terminator, Finished;
    var none: seq<bytes> := [];
    assert none + none == none && none + Finished(Collecting(body)) == Finished(Collecting(body));
  }

  /** A printed plain path, from any parser state: what comes out and where it ends. */
  lemma PrintedPlainPath(s: State, path: bytes, st: bool)
    requires Plain(path)
    ensures Run(s, Printed(path, st)).0 == INITIAL
    ensures Run(s, Printed(path, st)).1 ==
            if |path| <= MAX_BODY - 4 && Trimmed(path) != [] then [Trimmed(path)] else []
  {
    var body := PREFIX + path;
    hide Run, Trimmed, Terminator, Finished, Collecting, Plain;
    MarkerBody(path);
    RunOscString(s, body, st);
    assert OPEN + PREFIX + path == OPEN + body;
  }

  lemma MarkerBody(path: bytes)
    requires Plain(path)
    ensures Plain(PREFIX + path)
    ensures Finished(Collecting(PREFIX + path)) ==
            if |path| <= MAX_BODY - 4 && Trimmed(path) != [] then [Trimmed(path)] else []
  {
    var body := PREFIX + path;
    hide Trimmed;
    assert PREFIX <= body && body[4..] == path;
  }

  lemma RunTerminator(s: State, st: bool)
    requires s.mode == Osc
    ensures Run(s, Terminator(st)) == (INITIAL, Finished(s))
  {
    if st {
      RunSnoc(s, [], ESC);
      RunSnoc(s, [ESC], BACKSLASH);
      assert [] + [ESC] == [ESC] && [ESC] + [BACKSLASH] == [ESC, BACKSLASH];
      assert Run(s, [ESC]).0 == s.(mode := OscEscaped);
      assert Run(s, [ESC]).1 + Finished(s) == Finished(s);
    } else {
      RunSnoc(s, [], BEL);
      assert [] + [BEL] == [BEL] && [] + Finished(s) == Finished(s);
    }
  }

  // -------------------------------------- exactly what comes out, and when

  /** `text` is `before`, ESC ] and `body`: it ends inside an OSC string. */
  predicate OpenedAt(text: bytes, before: bytes, body: bytes) {
    text == before + OPEN + body && Plain(body)
  }

  ghost predicate Inside(text: bytes, body: bytes) {
    exists before :: OpenedAt(text, before, body)
  }

  /** The last byte of `text` ends an OSC string with this body. */
  ghost predicate Completes(text: bytes, body: bytes) {
    exists before, st :: text == before + OPEN + body + Terminator(st) && Plain(body)
  }

  /** What the state of the parser says about everything it has been fed. */
  ghost predicate Tracks(s: State, text: bytes) {
    match s.mode
    case Text => true
    case Escaped => text != [] && text[|text| - 1] == ESC
    case Osc => exists body :: Inside(text, body) && s == Collecting(body)
    case OscEscaped =>
      && text != [] && text[|text| - 1] == ESC
      && exists body :: Inside(text[..|text| - 1], body) && s == Collecting(body).(mode := OscEscaped)
  }

  lemma InsideGrows(text: bytes, body: bytes, b: byte)
    requires Inside(text, body) && b != ESC && b != BEL
    ensures Inside(text + [b], body + [b])
  {
    var before :| OpenedAt(text, before, body);
    assert OpenedAt(text + [b], before, body + [b]);
  }

  lemma JustOpened(text: bytes)
    requires text != [] && text[|text| - 1] == ESC
    ensures Inside(text + [BRACKET], []) && Collecting([]) == State(Osc, [], false)
  {
    var before := text[..|text| - 1];
    assert text == before + [ESC];
    assert OpenedAt(text + [BRACKET], before, []);
  }

  lemma TracksStep(s: State, text: bytes, b: byte)
    requires Tracks(s, text)
    ensures Tracks(Step(s, b).0, text + [b])
  {
    var t, s' := text + [b], Step(s, b).0;
    assert t[..|t| - 1] == text;
    if s.mode == Osc {
      var body :| Inside(text, body) && s == Collecting(body);
      CollectOne(body, b);
      if b != ESC && b != BEL {
        InsideGrows(text, body, b);
      }
    } else if s'.mode == Osc {
      JustOpened(text);
    }
  }

  lemma {:induction false} AlwaysTracks(text: bytes)
    ensures Tracks(Run(INITIAL, text).0, text)
  {
    if text != [] {
      var before, b := text[..|text| - 1], text[|text| - 1];
      AlwaysTracks(before);
      TracksStep(Run(INITIAL, before).0, before, b);
      assert before + [b] == text;
    }
  }

  lemma InsideThenEnd(text: bytes, b: byte, inside: bytes, body: bytes, st: bool)
    requires Inside(inside, body) && text + [b] == inside + Terminator(st)
    ensures Completes(text + [b], body)
  {
    var before :| OpenedAt(inside, before, body);
    assert text + [b] == before + OPEN + body + Terminator(st);
  }

  /** A byte that puts a path out ends an OSC string that parses to it … */
  lemma EmissionCompletes(text: bytes, b: byte, path: bytes)
    requires Step(Run(INITIAL, text).0, b).1 == [path]
    ensures exists body :: Completes(text + [b], body) && |body| <= MAX_BODY && ParseOsc99(body) == Some(path)
  {
    AlwaysTracks(text);
    var s := Run(INITIAL, text).0;
    hide Run, ParseOsc99, Completes, Inside;
    if s.mode == OscEscaped {
      var inside := text[..|text| - 1];
      var body :| Inside(inside, body) && s == Collecting(body).(mode := OscEscaped);
      assert text + [b] == inside + Terminator(true);
      InsideThenEnd(text, b, inside, body, true);
    } else {
      var body :| Inside(text, body) && s == Collecting(body);
      InsideThenEnd(text, b, text, body, false);
    }
  }

  lemma InsideCollects(text: bytes, body: bytes)
    requires Inside(text, body)
    ensures Run(INITIAL, text).0 == Collecting(body)
  {
    var before :| OpenedAt(text, before, body);
    RunAppend(INITIAL, before + OPEN, body);
    RunAppend(INITIAL, before, OPEN);
    OpenResynchronises(Run(INITIAL, before).0);
    RunPlain(body);
    hide Run;
  }

  /** A text that completes a string, taken apart at its last byte. */
  lemma CompletesLast(text: bytes, b: byte, body: bytes)
    requires Completes(text + [b], body)
    ensures (b == BEL && Inside(text, body))
         || (b == BACKSLASH && text != [] && text[|text| - 1] == ESC && Inside(text[..|text| - 1], body))
  {
    var before, st :| text + [b] == before + OPEN + body + Terminator(st) && Plain(body);
    var inside, all := before + OPEN + body, text + [b];
    assert OpenedAt(inside, before, body);
    assert all[|text|] == b && all[..|text|] == text;
    assert all[..|inside|] == inside;
    if st {
      assert all[|inside|] == ESC && all[|inside| + 1] == BACKSLASH;
      assert text[..|text| - 1] == inside;
    } else {
      assert all[|inside|] == BEL;
      assert text == inside;
    }
  }

  /** … and every OSC string puts out what its body parses to. */
  lemma CompletionEmits(text: bytes, b: byte, body: bytes)
    requires Completes(text + [b], body)
    ensures Step(Run(INITIAL, text).0, b).1 == if |body| <= MAX_BODY then Paths(ParseOsc99(body)) else []
  {
    CompletesLast(text, b, body);
    hide Run, ParseOsc99, Completes, Inside;
    if b == BEL {
      InsideCollects(text, body);
    } else {
      var inside := text[..|text| - 1];
      InsideCollects(inside, body);
      RunSnoc(INITIAL, inside, ESC);
      assert text == inside + [ESC];
    }
  }

  /**
   Exactly what the parser reports.  After any output `text`, the next byte reports
   `path` if and only if it ends a sequence ESC ] body BEL or ESC ] body ESC \ whose
   body has no ESC or BEL, is at most 4096 bytes long and parses to that path.
   */
  lemma ReportsExactly(text: bytes, b: byte, path: bytes)
    ensures Step(Run(INITIAL, text).0, b).1 == [path]
            <==> exists body :: Completes(text + [b], body) && |body| <= MAX_BODY && ParseOsc99(body) == Some(path)
  {
    hide Run, Step, ParseOsc99, Completes;
    if Step(Run(INITIAL, text).0, b).1 == [path] {
      EmissionCompletes(text, b, path);
    }
    forall body | Completes(text + [b], body) && |body| <= MAX_BODY && ParseOsc99(body) == Some(path)
      ensures Step(Run(INITIAL, text).0, b).1 == [path]
    {
      CompletionEmits(text, b, body);
    }
  }

  /**
   The session's cwd: after a printed prompt marker, and then output without another
   one, it is the path of that marker, whatever came before and however it was read.
   */
  lemma PromptSetsCwd(s: State, cwd: bytes, chunks: seq<bytes>, before: bytes, path: bytes, st: bool, after: bytes)
    requires Flatten(chunks) == before + Printed(path, st) + after
    requires Plain(path) && |path| <= MAX_BODY - 4 && Clean(path) && Run(INITIAL, after).1 == []
    ensures FeedChunks(s, cwd, chunks).2 == path
  {
    ChunkIndependence(s, cwd, chunks);
    RunAppend(s, before + Printed(path, st), after);
    RunAppend(s, before, Printed(path, st));
    PrintedPlainPath(Run(s, before).0, path, st);
    CleanIsFixed(path);
    hide Run, FeedChunks, Printed;
  }

  /** Every path that comes out of the parser is plain and fits the cap. */
  lemma {:induction false} EmittedPathsArePlain(s: State, input: bytes)
    requires Plain(s.payload) && |s.payload| <= MAX_BODY
    ensures
      var r := Run(s, input);
      && Plain(r.0.payload) && |r.0.payload| <= MAX_BODY
      && forall p | p in r.1 :: Plain(p) && |p| <= MAX_BODY - 4
  {
    if input != [] {
      var before := input[..|input| - 1];
      EmittedPathsArePlain(s, before);
      StepKeepsPlain(Run(s, before).0, input[|input| - 1]);
    }
  }

  lemma StepKeepsPlain(t: State, b: byte)
    requires Plain(t.payload) && |t.payload| <= MAX_BODY
    ensures
      var r := Step(t, b);
      && Plain(r.0.payload) && |r.0.payload| <= MAX_BODY
      && forall p | p in r.1 :: Plain(p) && |p| <= MAX_BODY - 4
  {
    assert t.mode == Osc && b != BEL && b != ESC ==> Plain(t.payload + [b]);
    var parsed := ParseOsc99(t.payload);
    assert parsed.Some? ==> Plain(parsed.value) && |parsed.value| <= MAX_BODY - 4;
  }

  /**
   The round trip, exactly: from any parser state the printed path comes back,
   alone and unchanged, if and only if it is free of ESC and BEL, at most 4092
   bytes long and has no white space or quote at either end.
   */
  lemma RoundTripExactly(s: State, path: bytes, st: bool)
    ensures Run(s, Printed(path, st)).1 == [path]
            <==> Plain(path) && |path| <= MAX_BODY - 4 && Clean(path)
  {
    CleanIsFixed(path);
    if Plain(path) {
      PrintedPlainPath(s, path, st);
    } else {
      var rest := PREFIX + path + Terminator(st);
      assert Printed(path, st) == OPEN + rest;
      OpenResynchronises(s);
      RunAppend(s, OPEN, rest);
      var start := State(Osc, [], false);
      EmittedPathsArePlain(start, rest);
      assert path in [path];
      assert [] + Run(start, rest).1 == Run(start, rest).1;
    }
  }
}
