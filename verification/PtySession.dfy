/**
 The output side of windows/ptyhost/ptyhost.go: one pump feeds the scrollback ring
 and every attached sink under one lock.

 Each critical section under `sinkMu` is one event, so a list of events is one
 interleaving of the pump with any number of attaching and detaching clients.  A
 sink callback is represented by the frames it has been called with.
 */
module PtySession {
  import opened Bytes
  import opened RingBuffers
  import Osc = OscTracker

  type SinkToken = nat

  type int32 = x: int | -0x8000_0000 <= x < 0x8000_0000

  datatype Frame = Data(data: bytes) | Exit(code: int32, error: string)

  datatype Event =
    | Chunk(payload: bytes)                 // dispatchData
    | Exited(code: int32, error: string)    // dispatchExit
    | Add(snapshot: bool)                   // AddSinkWithSnapshot, or AddSink without one
    | Remove(token: SinkToken)              // RemoveSink

  datatype State = State(
    cap: nat,                               // capacity of the ring; 0 while none is installed
    scrollback: bytes,
    sinks: set<SinkToken>,
    next: SinkToken,
    calls: map<SinkToken, seq<Frame>>,      // frames each callback has received, removed ones too
    exited: bool)                           // the pump has sent its Exit and returned

  function Opened(cap: nat): State {
    State(cap, [], {}, 0, map[], false)
  }

  function Fanout(s: State, f: Frame): map<SinkToken, seq<Frame>> {
    map t | t in s.calls :: if t in s.sinks then s.calls[t] + [f] else s.calls[t]
  }

  /** What AttachResult.Replay gets when a sink is added in state `s`. */
  function Replay(s: State, snapshot: bool): bytes {
    if snapshot then s.scrollback else []
  }

  /** One critical section.  The pump does nothing on an empty read or once it has returned. */
  function Step(s: State, e: Event): State {
    match e
    case Chunk(p) =>
      if s.exited || p == [] then s
      else s.(scrollback := LastN(s.scrollback + p, s.cap), calls := Fanout(s, Data(p)))
    case Exited(code, error) =>
      if s.exited then s else s.(calls := Fanout(s, Exit(code, error)), exited := true)
    case Add(_) =>
      var t := s.next + 1;
      s.(next := t, sinks := s.sinks + {t}, calls := s.calls[t := []])
    case Remove(t) =>
      s.(sinks := s.sinks - {t})
  }

  /** The state after the first `k` events of an interleaving. */
  function StateAt(s: State, es: seq<Event>, k: nat): State
    requires k <= |es|
  {
    if k == 0 then s else Step(StateAt(s, es, k - 1), es[k - 1])
  }

  // ------------------------------------------- the session as an object

  class Session {
    var ringAppend: RingBuffer?
    var sinks: set<SinkToken>
    var nextSink: SinkToken
    var calls: map<SinkToken, seq<Frame>>
    var exited: bool
    const tracker: Osc.CWDTracker
    var cwd: bytes

    ghost function Repr(): set<object>
      reads this
    {
      {this, tracker} + if ringAppend == null then {} else {ringAppend, ringAppend.buf}
    }

    ghost predicate Valid()
      reads this, Repr()
    {
      && (ringAppend != null ==> ringAppend.Valid())
      && sinks <= calls.Keys
      && (forall t | t in calls :: 0 < t <= nextSink)
    }

    ghost function View(): State
      requires Valid()
      reads this, Repr()
    {
      if ringAppend == null then State(0, [], sinks, nextSink, calls, exited)
      else State(ringAppend.cap, ringAppend.Contents(), sinks, nextSink, calls, exited)
    }

    constructor ()
      ensures Valid() && fresh(Repr()) && ringAppend == null
      ensures View() == Opened(0) && tracker.View() == Osc.INITIAL && cwd == []
    {
      ringAppend, sinks, nextSink, calls, exited, cwd := null, {}, 0, map[], false, [];
      tracker := new Osc.CWDTracker();
    }

    method SetRingAppend(ring: RingBuffer)
      requires Valid() && ring.Valid()
      modifies this`ringAppend
      ensures Valid() && ringAppend == ring
      ensures View() == old(View()).(cap := ring.cap, scrollback := ring.Contents())
    {
      ringAppend := ring;
    }

    method AddSink() returns (token: SinkToken)
      requires Valid()
      modifies this`sinks, this`nextSink, this`calls
      ensures Valid() && View() == Step(old(View()), Add(false))
      ensures token == nextSink && token !in old(sinks)
    {
      nextSink := nextSink + 1;
      sinks := sinks + {nextSink};
      calls := calls[nextSink := []];
      token := nextSink;
    }

    method RemoveSink(token: SinkToken)
      requires Valid()
      modifies this`sinks
      ensures Valid() && View() == Step(old(View()), Remove(token))
    {
      sinks := sinks - {token};
    }

    method AddSinkWithSnapshot() returns (token: SinkToken, snap: bytes)
      requires Valid()
      modifies this`sinks, this`nextSink, this`calls
      ensures Valid() && View() == Step(old(View()), Add(true))
      ensures token == nextSink && token !in old(sinks)
      ensures snap == Replay(old(View()), true)
    {
      snap := [];
      if ringAppend != null {
        snap := ringAppend.Snapshot();
      }
      token := AddSink();
    }

    /** Call every installed sink, in the arbitrary order of a map iteration. */
    method CallSinks(frame: Frame)
      requires Valid()
      modifies this`calls
      ensures Valid() && calls == Fanout(old(View()), frame)
    {
      ghost var s := View();
      var todo := sinks;
      while todo != {}
        invariant todo <= sinks && calls.Keys == s.calls.Keys
        invariant forall t | t in calls ::
          calls[t] == if t in sinks && t !in todo then s.calls[t] + [frame] else s.calls[t]
        decreases todo
      {
        var t :| t in todo;
        calls := calls[t := calls[t] + [frame]];
        todo := todo - {t};
      }
    }

    method DispatchData(payload: bytes)
      requires Valid() && !exited && payload != []
      modifies Repr() - {tracker}
      ensures Valid() && ringAppend == old(ringAppend) && cwd == old(cwd)
      ensures View() == Step(old(View()), Chunk(payload))
    {
      ghost var s := View();
      if ringAppend != null {
        ringAppend.Write(payload);
      }
      if sinks == {} {
        assert calls == Fanout(s, Data(payload));
        return;
      }
      CallSinks(Data(payload));
    }

    method DispatchExit(code: int32, error: string)
      requires Valid() && !exited
      modifies this`calls, this`exited
      ensures Valid() && View() == Step(old(View()), Exited(code, error))
    {
      if sinks == {} {
        assert calls == Fanout(View(), Exit(code, error));
      } else {
        CallSinks(Exit(code, error));
      }
      exited := true;
    }

    /** One turn of the pump's loop: track the cwd, then dispatch. */
    method PumpRead(p: bytes)
      requires Valid() && !exited
      modifies Repr()
      ensures Valid() && !exited && ringAppend == old(ringAppend)
      ensures View() == Step(old(View()), Chunk(p))
      ensures (tracker.View(), cwd) ==
              var r := Osc.Run(old(tracker.View()), p);
              (r.0, Osc.LastPath(old(cwd), r.1))
    {
      if p != [] {
        var paths := tracker.Feed(p);
        if paths != [] {
          cwd := paths[|paths| - 1];
        }
        DispatchData(p);
      }
    }

    /** The pump's loop: `received` are the results of the successive p.Read calls. */
    method PumpLoop(received: seq<bytes>, ghost es: seq<Event>)
      requires Valid() && !exited
      requires |received| <= |es| && forall i | 0 <= i < |received| :: es[i] == Chunk(received[i])
      modifies Repr()
      ensures Valid() && !exited && ringAppend == old(ringAppend)
      ensures View() == StateAt(old(View()), es, |received|)
      ensures (tracker.View(), cwd) ==
              var f := Osc.FeedChunks(old(tracker.View()), old(cwd), received);
              (f.0, f.2)
    {
      ghost var s, t, c := View(), tracker.View(), cwd;
      hide Osc.FeedChunks, Osc.Run, Step, StateAt, Osc.LastPath, FedTo;
      PumpStart(s, es, t, c, received);
      for i := 0 to |received|
        invariant Valid() && !exited && ringAppend == old(ringAppend)
        invariant View() == StateAt(s, es, i)
        invariant (tracker.View(), cwd) == FedTo(t, c, received, i)
      {
        OneMore(s, es, i);
        FedToNext(t, c, received, i);
        PumpRead(received[i]);
      }
    }

    /**
     The pump on its own: its loop, up to the read that also reports the error ending
     it, and then the exit, with what waiting for the child returned.
     */
    method Pump(received: seq<bytes>, code: int, failure: WaitError)
      requires Valid() && !exited
      modifies Repr()
      ensures Valid() && exited && ringAppend == old(ringAppend)
      ensures View() == StateAt(old(View()), PumpEvents(received, code, failure), |received| + 1)
      ensures (tracker.View(), cwd) ==
              var r := Osc.Run(old(tracker.View()), Flatten(received));
              (r.0, Osc.LastPath(old(cwd), r.1))
    {
      hide Osc.FeedChunks, Osc.Run, StateAt, Osc.LastPath;
      ghost var es := PumpEvents(received, code, failure);
      Osc.ChunkIndependence(tracker.View(), cwd, received);
      OneMore(View(), es, |received|);
      PumpLoop(received, es);
      var error := "";
      if failure.Failed? {
        error := failure.text;
      }
      DispatchExit(Int32(code), error);
    }
  }

  /** The error of waiting for the child; the end of its output is not reported as one. */
  datatype WaitError = NoError | EndOfFile | Failed(text: string)

  /** Go's conversion to a 32-bit integer keeps the low 32 bits. */
  function Int32(code: int): (r: int32)
    ensures (r - code) % 0x1_0000_0000 == 0
  {
    (code + 0x8000_0000) % 0x1_0000_0000 - 0x8000_0000
  }

  /** The events of a whole pump: one per read, then the exit. */
  function PumpEvents(received: seq<bytes>, code: int, failure: WaitError): (es: seq<Event>)
    ensures |es| == |received| + 1
    ensures forall i | 0 <= i < |received| :: es[i] == Chunk(received[i])
    ensures es[|received|] == Exited(Int32(code), if failure.Failed? then failure.text else "")
  {
    seq(|received|, i requires 0 <= i < |received| => Chunk(received[i]))
    + [Exited(Int32(code), if failure.Failed? then failure.text else "")]
  }

  lemma OneMore(s: State, es: seq<Event>, k: nat)
    requires k < |es|
    ensures StateAt(s, es, 0) == s && StateAt(s, es, k + 1) == Step(StateAt(s, es, k), es[k])
  {
  }

  lemma {:induction false} FeedChunksSnoc(t: Osc.State, cwd: bytes, chunks: seq<bytes>, last: bytes)
    ensures
      var f := Osc.FeedChunks(t, cwd, chunks);
      var g := Osc.FeedChunks(t, cwd, chunks + [last]);
      var r := Osc.Run(f.0, last);
      g.0 == r.0 && g.2 == Osc.LastPath(f.2, r.1)
    decreases chunks
  {
    if chunks == [] {
      assert [last][1..] == [];
    } else {
      var r := Osc.Run(t, chunks[0]);
      FeedChunksSnoc(r.0, Osc.LastPath(cwd, r.1), chunks[1..], last);
      assert (chunks + [last])[1..] == chunks[1..] + [last];
    }
  }

  /** The tracker and the cwd after the first `i` reads. */
  ghost function FedTo(t: Osc.State, cwd: bytes, received: seq<bytes>, i: nat): (Osc.State, bytes)
    requires i <= |received|
  {
    var f := Osc.FeedChunks(t, cwd, received[..i]);
    (f.0, f.2)
  }

  lemma FedToNext(t: Osc.State, cwd: bytes, received: seq<bytes>, i: nat)
    requires i < |received|
    ensures
      var f := FedTo(t, cwd, received, i);
      var r := Osc.Run(f.0, received[i]);
      FedTo(t, cwd, received, i + 1) == (r.0, Osc.LastPath(f.1, r.1))
  {
    hide Osc.FeedChunks, Osc.Run, Osc.LastPath;
    FeedChunksSnoc(t, cwd, received[..i], received[i]);
    assert received[..i + 1] == received[..i] + [received[i]];
  }

  lemma PumpStart(s: State, es: seq<Event>, t: Osc.State, cwd: bytes, received: seq<bytes>)
    ensures StateAt(s, es, 0) == s && FedTo(t, cwd, received, 0) == (t, cwd)
    ensures
      var f := Osc.FeedChunks(t, cwd, received);
      FedTo(t, cwd, received, |received|) == (f.0, f.2)
  {
    assert received[..0] == [] && received[..|received|] == received;
  }

  // --------------------------------------- what a run means for a client

  /** The child exits within the first `k` events. */
  predicate ExitBefore(es: seq<Event>, k: nat)
    requires k <= |es|
  {
    k > 0 && (es[k - 1].Exited? || ExitBefore(es, k - 1))
  }

  /** The first exit among the first `k` events, `k` if there is none. */
  function FirstExit(es: seq<Event>, k: nat): (x: nat)
    requires k <= |es|
    ensures x <= k && (x < k ==> es[x].Exited?)
    ensures forall y | 0 <= y < x :: !es[y].Exited?
  {
    if k == 0 then 0
    else
      var x := FirstExit(es, k - 1);
      if x < k - 1 || es[k - 1].Exited? then x else k
  }

  /** The Exit frame of a client served from event `i` up to event `end`: that of the child's exit, if it comes in between. */
  function ExitFrame(es: seq<Event>, i: nat, end: nat): Option<Frame>
    requires i <= end <= |es|
  {
    var x := FirstExit(es, end);
    if i <= x < end then Some(Exit(es[x].code, es[x].error)) else None
  }

  /** All bytes the child has output within the first `k` events: what the pump dispatched. */
  function Output(es: seq<Event>, k: nat): bytes
    requires k <= |es|
  {
    if k == 0 then [] else Output(es, k - 1) + Emitted(es, k - 1)
  }

  function Emitted(es: seq<Event>, j: nat): bytes
    requires j < |es|
  {
    if es[j].Chunk? && !ExitBefore(es, j) then es[j].payload else []
  }

  /** When the sink `t`, added by event `i`, is removed; `k` if it still is attached after `k` events. */
  function LeftAt(es: seq<Event>, i: nat, t: SinkToken, k: nat): (end: nat)
    requires i < k <= |es|
    ensures i < end <= k
  {
    if k == i + 1 then k
    else
      var end := LeftAt(es, i, t, k - 1);
      if end == k - 1 && es[end] != Remove(t) then k else end
  }

  lemma {:induction false} LeftAtIsFirstRemoval(es: seq<Event>, i: nat, t: SinkToken, k: nat)
    requires i < k <= |es|
    ensures
      var end := LeftAt(es, i, t, k);
      (forall j | i < j < end :: es[j] != Remove(t)) && (end < k ==> es[end] == Remove(t))
  {
    if i + 1 < k {
      LeftAtIsFirstRemoval(es, i, t, k - 1);
    }
  }

  /** The bytes of the Data frames of a frame sequence. */
  function DataBytes(fs: seq<Frame>): bytes {
    if fs == [] then []
    else
      var n := |fs| - 1;
      DataBytes(fs[..n]) + if fs[n].Data? then fs[n].data else []
  }

  /** Data frames, then at most one Exit. */
  predicate WellOrdered(fs: seq<Frame>) {
    forall i | 0 <= i < |fs| - 1 :: fs[i].Data?
  }

  /** The Exit that the frames end with, if they do. */
  function LastExit(fs: seq<Frame>): Option<Frame> {
    if fs != [] && fs[|fs| - 1].Exit? then Some(fs[|fs| - 1]) else None
  }

  ghost predicate WellFormed(s: State) {
    s.sinks <= s.calls.Keys && forall t | t in s.calls :: 0 < t <= s.next
  }

  lemma StepFacts(s: State, e: Event)
    requires WellFormed(s)
    ensures
      var s' := Step(s, e);
      && WellFormed(s') && s'.cap == s.cap
      && (s'.exited <==> s.exited || e.Exited?)
      && s'.scrollback == if e.Chunk? && !s.exited && e.payload != []
                          then LastN(s.scrollback + e.payload, s.cap) else s.scrollback
  {
  }

  /** The lock-protected state after any interleaving. */
  lemma {:induction false} SessionInvariant(cap: nat, es: seq<Event>, k: nat)
    requires k <= |es|
    ensures
      var s := StateAt(Opened(cap), es, k);
      && WellFormed(s) && s.cap == cap
      && s.scrollback == LastN(Output(es, k), cap)
      && (s.exited <==> ExitBefore(es, k))
  {
    if k > 0 {
      SessionInvariant(cap, es, k - 1);
      StepFacts(StateAt(Opened(cap), es, k - 1), es[k - 1]);
      LastNAppend(Output(es, k - 1), Emitted(es, k - 1), cap);
      assert Emitted(es, k - 1) == [] ==> Output(es, k) == Output(es, k - 1);
    }
  }

  /** `t`'s callback has received exactly `got` and then `exit`, and is still installed iff `live`. */
  ghost predicate Received(s: State, t: SinkToken, got: bytes, exit: Option<Frame>, live: bool) {
    && t in s.calls
    && DataBytes(s.calls[t]) == got
    && WellOrdered(s.calls[t])
    && LastExit(s.calls[t]) == exit
    && (t in s.sinks <==> live)
    && t <= s.next
  }

  lemma ReceivedStep(s: State, t: SinkToken, got: bytes, exit: Option<Frame>, live: bool, e: Event)
    requires Received(s, t, got, exit, live)
    requires exit.Some? ==> s.exited
    ensures
      var data := if live && e.Chunk? && !s.exited then e.payload else [];
      var exit' := if live && e.Exited? && !s.exited then Some(Exit(e.code, e.error)) else exit;
      Received(Step(s, e), t, got + data, exit', live && e != Remove(t))
  {
    assert got + [] == got;
    if live && !s.exited && (e.Exited? || (e.Chunk? && e.payload != [])) {
      var fs := s.calls[t];
      var f := if e.Chunk? then Data(e.payload) else Exit(e.code, e.error);
      assert Step(s, e).calls[t] == fs + [f];
      assert (fs + [f])[..|fs|] == fs;
    }
  }

  /** What the callback of `t` has been called with. */
  function CallsTo(s: State, t: SinkToken): seq<Frame> {
    if t in s.calls then s.calls[t] else []
  }

  /** `replay` ends the output `out`, and `live` carries on from there to the end of `all`. */
  predicate Contiguous(replay: bytes, live: bytes, out: bytes, all: bytes) {
    && |replay| <= |out| <= |all| && out <= all
    && replay + live == all[|out| - |replay|..]
  }

  /**
   The stream theorem.  In every interleaving, a client that attaches at event `i`
   gets as replay the last `cap` bytes output so far, and replay followed by the
   bytes its callback has received after `k` events is exactly the output from
   there up to then (or to its removal): no byte is missed and none comes twice.
   The frames are Data frames and then, just when the child exited while the client
   was attached, one Exit with the code and the error of that exit.
   */
  lemma AttachSeesEveryByteOnce(cap: nat, es: seq<Event>, i: nat, k: nat)
    requires i < k <= |es| && es[i].Add?
    ensures
      var before, after := StateAt(Opened(cap), es, i), StateAt(Opened(cap), es, k);
      var t, replay := before.next + 1, Replay(before, es[i].snapshot);
      var end := LeftAt(es, i, t, k);
      && (es[i].snapshot ==> replay == LastN(Output(es, i), cap))
      && t in after.calls
      && Contiguous(replay, DataBytes(CallsTo(after, t)), Output(es, i), Output(es, end))
      && WellOrdered(CallsTo(after, t))
      && LastExit(CallsTo(after, t)) == ExitFrame(es, i, end)
      && (t in after.sinks <==> end == k)
  {
    hide Step, Output, StateAt;
    var before := StateAt(Opened(cap), es, i);
    var t := before.next + 1;
    SessionInvariant(cap, es, i);
    LiveBytes(cap, es, i, k);
    var replay := Replay(before, es[i].snapshot);
    var out := Output(es, i);
    JoinAt(out, Output(es, LeftAt(es, i, t, k)), replay, if es[i].snapshot then cap else 0);
  }

  /** A suffix of `out`, then what follows `out` in `all`, is a suffix of `all`. */
  lemma JoinAt(out: bytes, all: bytes, replay: bytes, n: nat)
    requires out <= all && replay == LastN(out, n)
    ensures replay + all[|out|..] == all[|out| - |replay|..]
  {
    var k := |out| - |replay|;
    assert replay == out[k..];
    assert all == out + all[|out|..];
    assert all[k..] == out[k..] + all[|out|..];
  }

  lemma {:induction false} ExitStays(es: seq<Event>, j: nat, k: nat)
    requires j <= k <= |es|
    ensures ExitBefore(es, j) ==> ExitBefore(es, k)
  {
    if j < k {
      ExitStays(es, j, k - 1);
    }
  }

  lemma {:induction false} ExitFound(es: seq<Event>, k: nat)
    requires k <= |es|
    ensures ExitBefore(es, k) <==> FirstExit(es, k) < k
  {
    if k > 0 {
      ExitFound(es, k - 1);
    }
  }

  /** How one more event moves the Exit frame of a client that joined at `i`. */
  lemma ExitAfter(es: seq<Event>, i: nat, k: nat)
    requires i <= k < |es|
    ensures ExitFrame(es, i, k + 1) ==
            if es[k].Exited? && !ExitBefore(es, k) then Some(Exit(es[k].code, es[k].error)) else ExitFrame(es, i, k)
  {
    ExitFound(es, k);
  }

  lemma OutputAfter(es: seq<Event>, k: nat)
    requires k < |es|
    ensures Output(es, k + 1) == Output(es, k) + Emitted(es, k)
  {
  }

  lemma ReceivedFrom(s: State, t: SinkToken, out: bytes, all: bytes, exit: Option<Frame>, live: bool,
                     e: Event, all': bytes, exit': Option<Frame>, live': bool)
    requires out <= all && Received(s, t, all[|out|..], exit, live)
    requires exit.Some? ==> s.exited
    requires all' == all + (if live && e.Chunk? && !s.exited then e.payload else [])
    requires exit' == if live && e.Exited? && !s.exited then Some(Exit(e.code, e.error)) else exit
    requires live' == (live && e != Remove(t))
    ensures out <= all' && Received(Step(s, e), t, all'[|out|..], exit', live')
  {
    ReceivedStep(s, t, all[|out|..], exit, live, e);
    var data := if live && e.Chunk? && !s.exited then e.payload else [];
    assert (all + data)[|out|..] == all[|out|..] + data;
  }

  /** The same, for the live bytes alone. */
  ghost predicate LiveSince(s: State, es: seq<Event>, i: nat, t: SinkToken, k: nat)
    requires i < k <= |es|
  {
    var end := LeftAt(es, i, t, k);
    && Output(es, i) <= Output(es, end)
    && Received(s, t, Output(es, end)[|Output(es, i)|..], ExitFrame(es, i, end), end == k)
  }

  lemma LiveSinceStep(s: State, es: seq<Event>, i: nat, t: SinkToken, k: nat)
    requires i < k < |es|
    requires LiveSince(s, es, i, t, k) && (s.exited <==> ExitBefore(es, k))
    ensures LiveSince(Step(s, es[k]), es, i, t, k + 1)
  {
    hide Step, Received, ExitBefore, FirstExit, Output;
    OutputAfter(es, k);
    var end := LeftAt(es, i, t, k);
    var all := Output(es, end);
    var exit := ExitFrame(es, i, end);
    ExitFound(es, end);
    ExitStays(es, end, k);
    ExitAfter(es, i, k);
    var end' := LeftAt(es, i, t, k + 1);
    var all' := Output(es, end');
    var exit' := ExitFrame(es, i, end');
    if end < k || es[k] == Remove(t) {
      assert all + [] == all;
      ReceivedFrom(s, t, Output(es, i), all, exit, end == k, es[k], all', exit', false);
    } else {
      ReceivedFrom(s, t, Output(es, i), all, exit, true, es[k], all', exit', true);
    }
  }

  lemma LiveSinceStart(s: State, es: seq<Event>, i: nat)
    requires i < |es| && es[i].Add?
    ensures LiveSince(Step(s, es[i]), es, i, s.next + 1, i + 1)
  {
    var out := Output(es, i);
    assert Output(es, i + 1) == out + [];
    assert out + [] == out && out[|out|..] == [];
  }

  lemma {:induction false} LiveBytes(cap: nat, es: seq<Event>, i: nat, k: nat)
    requires i < k <= |es| && es[i].Add?
    ensures LiveSince(StateAt(Opened(cap), es, k), es, i, StateAt(Opened(cap), es, i).next + 1, k)
  {
    hide Step, LiveSince, Output, WellFormed;
    var s := StateAt(Opened(cap), es, k - 1);
    if k == i + 1 {
      LiveSinceStart(s, es, i);
    } else {
      LiveBytes(cap, es, i, k - 1);
      SessionInvariant(cap, es, k - 1);
      LiveSinceStep(s, es, i, StateAt(Opened(cap), es, i).next + 1, k - 1);
    }
  }
}
