/**
 Length-prefixed framing of core/wire/wire.go: a base-128 varint length (as in the
 Protocol Buffers encoding), then that many payload bytes.  Payloads are the
 marshalled messages; marshalling itself is not part of this model.
 */
module Wire {
  import opened Bytes

  const MAX_FRAME_SIZE: nat := 4 * 1024 * 1024
  const MAX_VARINT_LEN: nat := 10
  const UINT64: nat := 0x1_0000_0000_0000_0000

  // --------------------------------------------------------------- varints

  function PutUvarint(x: nat): (s: bytes)
    ensures s != []
  {
    if x < 128 then [x as byte] else [(x % 128 + 128) as byte] + PutUvarint(x / 128)
  }

  datatype Varint = Value(x: nat, n: nat) | EndOfInput | Overflow

  /** binary.ReadUvarint on the bytes `s`, of which `i` bytes of the varint are already read. */
  function Uvarint(s: bytes, i: nat): (r: Varint)
    requires i <= MAX_VARINT_LEN
    ensures r.Value? ==> 0 < r.n <= |s|
    decreases MAX_VARINT_LEN - i
  {
    if i == MAX_VARINT_LEN then Overflow
    else if s == [] then EndOfInput
    else if s[0] < 128 then
      if i == MAX_VARINT_LEN - 1 && s[0] > 1 then Overflow else Value(s[0] as nat, 1)
    else
      match Uvarint(s[1..], i + 1)
      case Value(x, n) => Value(s[0] as nat - 128 + 128 * x, n + 1)
      case e => e
  }

  /** Values that still fit a 64-bit varint after `i` bytes. */
  function Room(i: nat): nat
    requires i < MAX_VARINT_LEN
    decreases MAX_VARINT_LEN - i
  {
    if i == MAX_VARINT_LEN - 1 then 2 else 128 * Room(i + 1)
  }

  lemma RoomIsUint64()
    ensures Room(0) == UINT64
  {
    assert Room(9) == 2;
    assert Room(8) == 0x100;
    assert Room(7) == 0x8000;
    assert Room(6) == 0x40_0000;
    assert Room(5) == 0x2000_0000;
    assert Room(4) == 0x10_0000_0000;
    assert Room(3) == 0x800_0000_0000;
    assert Room(2) == 0x4_0000_0000_0000;
    assert Room(1) == 0x200_0000_0000_0000;
  }

  lemma RoomStep(x: nat, i: nat)
    requires i < MAX_VARINT_LEN && 128 <= x < Room(i)
    ensures i + 1 < MAX_VARINT_LEN && x / 128 < Room(i + 1)
  {
  }

  lemma PutStep(x: nat)
    requires x >= 128
    ensures
      var s := PutUvarint(x);
      && s[0] >= 128 && s[1..] == PutUvarint(x / 128)
      && (s[0] as nat - 128) + 128 * (x / 128) == x
  {
  }

  lemma {:induction false} UvarintInverts(x: nat, i: nat, rest: bytes)
    requires i < MAX_VARINT_LEN && x < Room(i)
    ensures Uvarint(PutUvarint(x) + rest, i) == Value(x, |PutUvarint(x)|)
    decreases x
  {
    var s := PutUvarint(x) + rest;
    if x < 128 {
      assert s[0] == x as byte;
    } else {
      RoomStep(x, i);
      PutStep(x);
      hide Room, PutUvarint;
      UvarintInverts(x / 128, i + 1, rest);
      assert s[1..] == PutUvarint(x / 128) + rest;
    }
  }

  /** The number that base-128 digits stand for, the least significant first. */
  function Base128(s: bytes): nat {
    if s == [] then 0 else s[0] as nat % 128 + 128 * Base128(s[1..])
  }

  /**
   The encoding is the base-128 varint of the Protocol Buffers encoding: the digits of
   the number, every byte but the last marked as continued, and none too many.
   */
  lemma {:induction false} VarintIsBase128(x: nat)
    ensures
      var s := PutUvarint(x); var last := |s| - 1;
      && Base128(s) == x
      && (forall i | 0 <= i < last :: s[i] >= 128)
      && s[last] < 128 && (last > 0 ==> s[last] > 0)
  {
    var s := PutUvarint(x);
    if x < 128 {
      assert s == [x as byte] && Base128(s[1..]) == 0;
    } else {
      VarintIsBase128(x / 128);
      PutStep(x);
      var t := s[1..];
      forall i | 0 <= i < |s| - 1
        ensures s[i] >= 128
      {
        assert i > 0 ==> s[i] == t[i - 1];
      }
    }
  }

  /** Bytes of which each says that another one follows. */
  predicate Continued(s: bytes) {
    forall j | 0 <= j < |s| :: s[j] >= 128
  }

  /** What `r`, read from `s` with `left` bytes to go, says of `s`. */
  predicate ReadsExactly(s: bytes, left: nat, r: Varint)
    requires 0 < left
  {
    && (r.EndOfInput? <==> |s| < left && Continued(s))
    && (r.Overflow? <==> |s| >= left && Continued(s[..left - 1]) && s[left - 1] > 1)
    && (r.Value? ==>
          && 0 < r.n <= |s| && r.n <= left && Continued(s[..r.n - 1]) && s[r.n - 1] < 128
          && r.x == Base128(s[..r.n]))
  }

  /**
   Which bytes are a number, for every input and not only for encoded ones: at most ten
   bytes, all but the last continued, of which a tenth is at most one.  What ends before
   that is cut short, and anything longer or larger overflows.
   */
  lemma {:induction false} UvarintExactly(s: bytes, i: nat)
    requires i < MAX_VARINT_LEN
    ensures ReadsExactly(s, MAX_VARINT_LEN - i, Uvarint(s, i))
    decreases MAX_VARINT_LEN - i
  {
    if s == [] || s[0] < 128 || i == MAX_VARINT_LEN - 1 {
      LastByte(s, i);
    } else {
      UvarintExactly(s[1..], i + 1);
      var r := Uvarint(s[1..], i + 1);
      OneByteMore(s, MAX_VARINT_LEN - i, r);
      hide ReadsExactly;
    }
  }

  lemma LastByte(s: bytes, i: nat)
    requires i < MAX_VARINT_LEN && (s == [] || s[0] < 128 || i == MAX_VARINT_LEN - 1)
    ensures ReadsExactly(s, MAX_VARINT_LEN - i, Uvarint(s, i))
  {
    if s != [] {
      assert s[..1] == [s[0]] && Base128(s[..1][1..]) == 0;
      if s[0] < 128 && i < MAX_VARINT_LEN - 1 && |s| >= MAX_VARINT_LEN - i {
        ContinuedStep(s, MAX_VARINT_LEN - i - 1);
      }
    }
  }

  lemma OneByteMore(s: bytes, left: nat, r: Varint)
    requires 1 < left && s != [] && s[0] >= 128 && ReadsExactly(s[1..], left - 1, r)
    ensures ReadsExactly(s, left, match r
      case Value(x, n) => Value(s[0] as nat - 128 + 128 * x, n + 1)
      case e => e)
  {
    ContinuedStep(s, |s|);
    assert s[..|s|] == s && s[1..][..|s| - 1] == s[1..];
    if |s| >= left {
      ContinuedStep(s, left - 1);
    }
    if r.Value? {
      ContinuedStep(s, r.n);
      assert s[..r.n + 1][1..] == s[1..][..r.n];
    }
    hide Continued;
  }

  lemma ContinuedStep(s: bytes, n: nat)
    requires 0 < n <= |s|
    ensures Continued(s[..n]) <==> s[0] >= 128 && Continued(s[1..][..n - 1])
  {
    var t := s[1..][..n - 1];
    assert forall j | 0 < j < n :: s[..n][j] == t[j - 1];
    assert forall j | 0 <= j < n - 1 :: t[j] == s[..n][j + 1];
  }

  /** No proper prefix of an encoded number is a number. */
  lemma {:induction false} UvarintPrefix(x: nat, i: nat, k: nat)
    requires i < MAX_VARINT_LEN && x < Room(i) && k < |PutUvarint(x)|
    ensures Uvarint(PutUvarint(x)[..k], i) == EndOfInput
    decreases x
  {
    if x >= 128 && k > 0 {
      RoomStep(x, i);
      hide Room;
      UvarintPrefix(x / 128, i + 1, k - 1);
      assert PutUvarint(x)[..k][1..] == PutUvarint(x / 128)[..k - 1];
    }
  }

  /** A varint is decided by its own bytes: what follows is not looked at. */
  lemma {:induction false} UvarintLocal(s: bytes, i: nat, rest: bytes)
    requires i <= MAX_VARINT_LEN && Uvarint(s, i).Value?
    ensures Uvarint(s + rest, i) == Uvarint(s, i)
    ensures Uvarint(s[..Uvarint(s, i).n], i) == Uvarint(s, i)
    decreases MAX_VARINT_LEN - i
  {
    if s[0] >= 128 {
      UvarintLocal(s[1..], i + 1, rest);
      assert (s + rest)[1..] == s[1..] + rest;
      var n := Uvarint(s, i).n;
      assert s[..n][1..] == s[1..][..n - 1];
    }
  }

  method EncodeLength(length: nat) returns (buf: bytes)
    ensures buf == PutUvarint(length)
  {
    buf := [];
    var x := length;
    while x >= 128
      invariant buf + PutUvarint(x) == PutUvarint(length)
    {
      assert buf + PutUvarint(x) == buf + [(x % 128 + 128) as byte] + PutUvarint(x / 128);
      buf := buf + [(x % 128 + 128) as byte];
      x := x / 128;
    }
    buf := buf + [x as byte];
  }

  /** A digit string worth `y`, at the place whose weight is `p`. */
  function Weighted(p: nat, y: nat): nat { p * y }

  /** What is known after `i` continuation bytes with value `x` so far, the next worth `p` times as much. */
  ghost function Resume(x: nat, p: nat, i: nat, r: Varint): Varint {
    match r
    case Value(y, n) => Value(x + Weighted(p, y), i + n)
    case e => e
  }

  lemma ResumeStep(x: nat, p: nat, i: nat, s: bytes)
    requires i <= MAX_VARINT_LEN
    ensures Resume(x, p, i, Uvarint(s, i)) ==
            if i == MAX_VARINT_LEN then Overflow
            else if s == [] then EndOfInput
            else if s[0] >= 128 then
              Resume(x + Weighted(p, s[0] as nat - 128), p * 128, i + 1, Uvarint(s[1..], i + 1))
            else if i == MAX_VARINT_LEN - 1 && s[0] > 1 then Overflow
            else Value(x + Weighted(p, s[0] as nat), i + 1)
  {
    if i < MAX_VARINT_LEN && s != [] && s[0] >= 128 {
      var r := Uvarint(s[1..], i + 1);
      if r.Value? {
        var b := s[0] as nat - 128;
        assert p * (b + 128 * r.x) == p * b + p * 128 * r.x;
      }
    }
  }

  method ReadUvarint(s: bytes) returns (r: Varint)
    ensures r == Uvarint(s, 0)
    ensures r.Overflow? ==> MAX_VARINT_LEN <= |s|
  {
    var x: nat, p: nat := 0, 1;
    assert s[0..] == s;
    assert Resume(0, 1, 0, Uvarint(s, 0)) == Uvarint(s, 0);
    hide Uvarint, Resume, Weighted;
    for i := 0 to MAX_VARINT_LEN
      invariant i <= |s| && Uvarint(s, 0) == Resume(x, p, i, Uvarint(s[i..], i))
    {
      ResumeStep(x, p, i, s[i..]);
      if i == |s| {
        return EndOfInput;
      }
      var b := s[i];
      if b < 128 {
        if i == MAX_VARINT_LEN - 1 && b > 1 {
          return Overflow;
        }
        return Value(x + Weighted(p, b as nat), i + 1);
      }
      assert s[i..][1..] == s[i + 1..];
      x := x + Weighted(p, b as nat - 128);
      p := p * 128;
    }
    ResumeStep(x, p, MAX_VARINT_LEN, s[MAX_VARINT_LEN..]);
    return Overflow;
  }

  // ---------------------------------------------------------------- frames

  function Frame(payload: bytes): bytes {
    PutUvarint(|payload|) + payload
  }

  datatype ReadResult =
    | Message(payload: bytes, rest: bytes)
    | BadLength                       // no readable length
    | FrameTooLarge(rest: bytes)      // declared length over the limit; `rest` starts at the payload
    | ShortPayload

  function ReadFrame(s: bytes): ReadResult {
    match Uvarint(s, 0)
    case Value(length, n) =>
      var rest := s[n..];
      if length > MAX_FRAME_SIZE then FrameTooLarge(rest)
      else if |rest| < length then ShortPayload
      else Message(rest[..length], rest[length..])
    case _ => BadLength
  }

  /** `prefix` is the varint of `length`, and no more. */
  predicate Announces(prefix: bytes, length: nat) {
    Uvarint(prefix, 0) == Value(length, |prefix|)
  }

  /** `s` starts with the varint of `length`. */
  lemma LengthSplits(s: bytes)
    requires Uvarint(s, 0).Value?
    ensures var v := Uvarint(s, 0); Announces(s[..v.n], v.x) && s == s[..v.n] + s[v.n..]
  {
    UvarintLocal(s, 0, []);
    hide Uvarint;
  }

  /** A byte stream: Write appends to it and Read takes from its front. */
  class Stream {
    var data: bytes

    constructor ()
      ensures data == []
    {
      data := [];
    }

    method Write(payload: bytes)
      modifies this
      ensures data == old(data) + Frame(payload)
    {
      var prefix := EncodeLength(|payload|);
      data := data + prefix;
      data := data + payload;
    }

    method Read() returns (r: ReadResult)
      modifies this
      ensures r == ReadFrame(old(data))
      ensures r.Message? ==>
        && r.rest == data && |r.payload| <= MAX_FRAME_SIZE
        && exists prefix :: Announces(prefix, |r.payload|) && old(data) == prefix + r.payload + data
      ensures r.FrameTooLarge? ==>
        && r.rest == data
        && exists prefix, length: nat :: Announces(prefix, length) && length > MAX_FRAME_SIZE && old(data) == prefix + data
      ensures r.ShortPayload? ==>
        && data == []
        && exists prefix, length: nat :: Announces(prefix, length) && prefix <= old(data) && |old(data)| < |prefix| + length
      ensures r.BadLength? ==>
        if Uvarint(old(data), 0).Overflow? then |data| == |old(data)| - MAX_VARINT_LEN && data == old(data)[MAX_VARINT_LEN..]
        else Uvarint(old(data), 0) == EndOfInput && data == []
    {
      var length := ReadUvarint(data);
      if !length.Value? {
        data := if length.Overflow? then data[MAX_VARINT_LEN..] else [];
        return BadLength;
      }
      ghost var prefix := data[..length.n];
      LengthSplits(data);
      hide Uvarint, Announces;
      data := data[length.n..];
      if length.x > MAX_FRAME_SIZE {
        return FrameTooLarge(data);
      }
      if |data| < length.x {
        data := [];
        return ShortPayload;
      }
      var payload := data[..length.x];
      data := data[length.x..];
      SplitTwice(old(data), length.n, length.x);
      return Message(payload, data);
    }

    /**
     As many reads as frames were written, one after the other: they return the payloads
     in order and leave on the stream exactly what followed.
     */
    method ReadEach(n: nat, ghost payloads: seq<bytes>, ghost tail: bytes) returns (got: seq<bytes>)
      requires n == |payloads| && data == Frames(payloads) + tail
      requires forall p | p in payloads :: |p| <= MAX_FRAME_SIZE
      modifies this
      ensures got == payloads && data == tail
    {
      hide Frame, Frames, ReadFrame, Announces;
      NoFrames(tail);
      got := [];
      assert payloads[0..] == payloads;
      for i := 0 to n
        invariant got == payloads[..i] && data == Frames(payloads[i..]) + tail
      {
        FramesStep(payloads[i..], tail);
        FrameRoundTrip(payloads[i], Frames(payloads[i..][1..]) + tail);
        assert payloads[i] in payloads && payloads[i..][0] == payloads[i] && payloads[i..][1..] == payloads[i + 1..];
        var r := Read();
        got := got + [r.payload];
      }
      assert payloads[n..] == [];
    }
  }

  /**
   A written frame reads back, leaving what follows it untouched, exactly when it is
   within the limit; an oversized one is refused with its payload still unread.
   */
  lemma FrameRoundTrip(payload: bytes, rest: bytes)
    requires |payload| < UINT64
    ensures ReadFrame(Frame(payload) + rest) ==
            if |payload| <= MAX_FRAME_SIZE then Message(payload, rest) else FrameTooLarge(payload + rest)
  {
    RoomIsUint64();
    var prefix := PutUvarint(|payload|);
    UvarintInverts(|payload|, 0, payload + rest);
    assert Frame(payload) + rest == prefix + (payload + rest);
    assert (prefix + (payload + rest))[|prefix|..] == payload + rest;
    assert (payload + rest)[..|payload|] == payload && (payload + rest)[|payload|..] == rest;
  }

  /** No proper prefix of a frame reads as a message. */
  lemma NoPrefixReads(payload: bytes, k: nat)
    requires |payload| < UINT64 && k < |Frame(payload)|
    ensures !ReadFrame(Frame(payload)[..k]).Message?
  {
    RoomIsUint64();
    var prefix := PutUvarint(|payload|);
    var cut := Frame(payload)[..k];
    if k < |prefix| {
      UvarintPrefix(|payload|, 0, k);
      assert cut == prefix[..k];
    } else {
      UvarintInverts(|payload|, 0, payload[..k - |prefix|]);
      assert cut == prefix + payload[..k - |prefix|];
    }
  }

  function Frames(payloads: seq<bytes>): bytes {
    if payloads == [] then [] else Frame(payloads[0]) + Frames(payloads[1..])
  }

  /** Read frames until `n` have been read or one fails: the payloads and the unread bytes. */
  function ReadMany(s: bytes, n: nat): (seq<bytes>, bytes)
    decreases n
  {
    if n == 0 then ([], s)
    else match ReadFrame(s)
      case Message(payload, rest) =>
        var r := ReadMany(rest, n - 1);
        ([payload] + r.0, r.1)
      case _ => ([], s)
  }

  lemma FramesStep(payloads: seq<bytes>, tail: bytes)
    requires payloads != []
    ensures Frames(payloads) + tail == Frame(payloads[0]) + (Frames(payloads[1..]) + tail)
  {
    hide Frame;
  }

  /** Any sequence of frames within the limit reads back as written, whatever follows it. */
  lemma {:induction false} StreamRoundTrip(payloads: seq<bytes>, tail: bytes)
    requires forall p | p in payloads :: |p| <= MAX_FRAME_SIZE
    ensures ReadMany(Frames(payloads) + tail, |payloads|) == (payloads, tail)
  {
    hide Frame, ReadFrame, Frames, ReadMany;
    if payloads == [] {
      NoFrames(tail);
    } else {
      var p, rest := payloads[0], payloads[1..];
      assert p in payloads;
      FramesStep(payloads, tail);
      FrameRoundTrip(p, Frames(rest) + tail);
      ReadManyStep(Frames(payloads) + tail, |rest|, p, Frames(rest) + tail);
      StreamRoundTrip(rest, tail);
      assert [p] + rest == payloads;
    }
  }

  lemma NoFrames(tail: bytes)
    ensures Frames([]) + tail == tail && ReadMany(tail, 0) == ([], tail)
  {
  }

  lemma ReadManyStep(s: bytes, n: nat, payload: bytes, rest: bytes)
    requires ReadFrame(s) == Message(payload, rest)
    ensures ReadMany(s, n + 1) == ([payload] + ReadMany(rest, n).0, ReadMany(rest, n).1)
  {
    hide ReadFrame;
  }

  /** Whatever is read was there: a length prefix announcing exactly the payload, then the payload. */
  lemma ReadIsFaithful(s: bytes)
    requires ReadFrame(s).Message?
    ensures
      var r := ReadFrame(s);
      var n := |s| - |r.rest| - |r.payload|;
      && 0 < n <= MAX_VARINT_LEN && s == s[..n] + r.payload + r.rest
      && Uvarint(s[..n], 0) == Value(|r.payload|, n) && |r.payload| <= MAX_FRAME_SIZE
  {
    hide Uvarint, ReadFrame;
    ReadShape(s);
    UvarintLocal(s, 0, []);
    VarintLength(s, 0);
    SplitTwice(s, Uvarint(s, 0).n, Uvarint(s, 0).x);
  }

  /** The parts of a successful read, in terms of its length prefix. */
  lemma ReadShape(s: bytes)
    requires ReadFrame(s).Message?
    ensures
      var r, v := ReadFrame(s), Uvarint(s, 0);
      && v.Value? && v.x <= MAX_FRAME_SIZE && v.n + v.x <= |s|
      && r.payload == s[v.n..][..v.x] && r.rest == s[v.n..][v.x..]
  {
    hide Uvarint;
  }

  lemma SplitTwice(s: bytes, n: nat, k: nat)
    requires n + k <= |s|
    ensures s == s[..n] + s[n..][..k] + s[n..][k..]
  {
  }

  lemma {:induction false} VarintLength(s: bytes, i: nat)
    requires i <= MAX_VARINT_LEN && Uvarint(s, i).Value?
    ensures i + Uvarint(s, i).n <= MAX_VARINT_LEN
    decreases MAX_VARINT_LEN - i
  {
    if s[0] >= 128 {
      VarintLength(s[1..], i + 1);
    }
  }
}
