/**
 Two whole-run results about the PTY manager.

 Owners do not interfere: removing every call of one owner from a run leaves what
 another owner observes unchanged.  And the stream theorem of the session level
 lifts to the manager: whichever sections interleave, each client stream gets its
 replay and its live bytes exactly once.
 */
module PtyOwners {
  import opened Bytes
  import opened PtyTable
  import opened PtyStreams
  import S = PtySession

  // --------------------------------------------------------- non-interference

  function Caller(e: Event): Option<Owner> {
    match e
    case Register(k, _, _, _, _) => Some(k.owner)
    case Attach(k, _, _) => Some(k.owner)
    case AddSink(k) => Some(k.owner)
    case Count(k, _) => Some(k.owner)
    case DetachLookup(k) => Some(k.owner)
    case RemoveSink(k) => Some(k.owner)
    case Uncount(k, _) => Some(k.owner)
    case Drop(owner, _) => Some(owner)
    case _ => None
  }

  /** The run with every call of owner `a` left out. */
  function StateWithout(m: Machine, es: seq<Event>, a: Owner, i: nat): (m': Machine)
    requires Linked(m) && i <= |es|
    ensures Linked(m')
  {
    if i == 0 then m
    else
      var before := StateWithout(m, es, a, i - 1);
      if Caller(es[i - 1]) == Some(a) then before else Step(before, es[i - 1])
  }

  predicate Has(m: Machine, b: Owner, h: Handle) {
    h in m.table.entries && h in m.sessions && m.table.entries[h].owner == b
  }

  /** `b` cannot tell the two states apart by the entry `h`. */
  ghost predicate SameEntry(m: Machine, n: Machine, b: Owner, h: Handle) {
    && (Has(m, b, h) <==> Has(n, b, h))
    && (Has(m, b, h) ==>
          && m.table.entries[h] == n.table.entries[h]
          && m.sessions[h] == n.sessions[h]
          && (h in m.table.listed <==> h in n.table.listed)
          && (h in m.pumping <==> h in n.pumping))
  }

  ghost predicate SameStream(m: Machine, n: Machine, k: Key) {
    && (k in m.streams <==> k in n.streams)
    && (k in m.streams ==> m.streams[k] == n.streams[k])
  }

  /** Everything `b` can observe, now or later, is the same in both states. */
  ghost predicate SameFor(m: Machine, n: Machine, b: Owner) {
    && m.table.closed == n.table.closed && m.table.timeout == n.table.timeout
    && m.ringSize == n.ringSize
    && (forall h :: SameEntry(m, n, b, h))
    && (forall k: Key | k.owner == b :: SameStream(m, n, k))
  }

  predicate StreamSection(e: Event) {
    e.AddSink? || e.Count? || e.DetachLookup? || e.RemoveSink? || e.Uncount?
  }

  /** `m'` differs from `m` only in the stream `k` and in the entry `h`. */
  ghost predicate Touches(m: Machine, m': Machine, k: Key, h: Handle) {
    && h in m.table.entries && h in m'.table.entries && h in m.sessions && h in m'.sessions
    && m'.table.entries == m.table.entries[h := m'.table.entries[h]]
    && m'.table.entries[h].owner == m.table.entries[h].owner
    && m'.table.listed == m.table.listed && m'.table.closed == m.table.closed
    && m'.table.timeout == m.table.timeout && m'.ringSize == m.ringSize
    && m'.sessions == m.sessions[h := m'.sessions[h]]
    && (m'.pumping == m.pumping || m'.pumping == m.pumping + {h})
    && k in m'.streams && m'.streams == m.streams[k := m'.streams[k]]
  }

  lemma SectionTouches(m: Machine, e: Event)
    requires Linked(m) && StreamSection(e)
    requires e.k in m.streams && !m.streams[e.k].Refused?
    ensures Touches(m, Step(m, e), e.k, m.streams[e.k].h)
  {
    if e.AddSink? || e.RemoveSink? {
      SinkSectionTouches(m, e.k);
    } else {
      assert OnEntry(m.streams[e.k], e.k.owner, m.table.entries) && m.streams[e.k].h in m.sessions;
      hide S.Step, Linked, Sinking, Removing;
    }
  }

  lemma SinkSectionTouches(m: Machine, k: Key)
    requires Linked(m) && k in m.streams && !m.streams[k].Refused?
    ensures Touches(m, Sinking(m, k), k, m.streams[k].h) && Touches(m, Removing(m, k), k, m.streams[k].h)
  {
    assert OnEntry(m.streams[k], k.owner, m.table.entries) && m.streams[k].h in m.sessions;
    hide S.Step, S.Replay;
  }

  lemma SectionRefused(m: Machine, e: Event)
    requires Linked(m) && StreamSection(e)
    requires e.k !in m.streams || m.streams[e.k].Refused?
    ensures Step(m, e) == m
  {
  }

  lemma TouchUnseen(m: Machine, m': Machine, k: Key, h: Handle, b: Owner)
    requires Touches(m, m', k, h) && k.owner != b && m.table.entries[h].owner != b
    ensures SameFor(m, m', b)
  {
    forall g ensures SameEntry(m, m', b, g) {
    }
  }

  /** A call by another owner changes nothing for `b`. */
  lemma OthersUnseen(m: Machine, e: Event, b: Owner)
    requires Linked(m) && Caller(e).Some? && Caller(e).value != b
    ensures SameFor(m, Step(m, e), b)
  {
    if StreamSection(e) {
      if e.k in m.streams && !m.streams[e.k].Refused? {
        SectionTouches(m, e);
        hide Step;
        assert OnEntry(m.streams[e.k], e.k.owner, m.table.entries);
        TouchUnseen(m, Step(m, e), e.k, m.streams[e.k].h, b);
      } else {
        SectionRefused(m, e);
      }
    } else {
      var n := Step(m, e);
      forall h ensures SameEntry(m, n, b, h) {
      }
    }
  }

  lemma SameForTransitive(m: Machine, n: Machine, o: Machine, b: Owner)
    requires SameFor(m, n, b) && SameFor(n, o, b)
    ensures SameFor(m, o, b)
  {
    forall h ensures SameEntry(m, o, b, h) {
      assert SameEntry(m, n, b, h) && SameEntry(n, o, b, h);
    }
    forall k: Key | k.owner == b ensures SameStream(m, o, k) {
      assert SameStream(m, n, k) && SameStream(n, o, k);
    }
  }

  lemma SameForSymmetric(m: Machine, n: Machine, b: Owner)
    requires SameFor(m, n, b)
    ensures SameFor(n, m, b)
  {
    forall h ensures SameEntry(n, m, b, h) {
      assert SameEntry(m, n, b, h);
    }
    forall k: Key | k.owner == b ensures SameStream(n, m, k) {
      assert SameStream(m, n, k);
    }
  }

  ghost predicate FreshIn(m: Machine, e: Event) {
    e.Register? ==> e.h !in m.table.entries
  }

  /** The entry the stream `k` works on, if it has one, is the same in both states. */
  lemma StreamEntrySame(m: Machine, n: Machine, k: Key)
    requires Linked(m) && Linked(n) && SameFor(m, n, k.owner)
    ensures SameStream(m, n, k)
    ensures k in m.streams && !m.streams[k].Refused? ==>
      Has(m, k.owner, m.streams[k].h) && SameEntry(m, n, k.owner, m.streams[k].h)
  {
  }

  lemma OwnRegisterSame(m: Machine, n: Machine, e: Event, b: Owner)
    requires Linked(m) && Linked(n) && SameFor(m, n, b) && FreshIn(m, e) && FreshIn(n, e)
    requires e.Register? && e.k.owner == b
    ensures SameFor(Step(m, e), Step(n, e), b)
  {
    StreamEntrySame(m, n, e.k);
    var m', n' := Registering(m, e), Registering(n, e);
    forall h ensures SameEntry(m', n', b, h) {
      assert SameEntry(m, n, b, h);
    }
    forall k: Key | k.owner == b ensures SameStream(m', n', k) {
      assert SameStream(m, n, k);
    }
  }

  lemma OwnAttachSame(m: Machine, n: Machine, e: Event, b: Owner)
    requires Linked(m) && Linked(n) && SameFor(m, n, b)
    requires (e.Attach? && e.k.owner == b) || (e.Drop? && e.owner == b)
    ensures SameFor(Step(m, e), Step(n, e), b)
  {
    assert SameEntry(m, n, b, e.h);
    var m', n' := Step(m, e), Step(n, e);
    forall h ensures SameEntry(m', n', b, h) {
      assert SameEntry(m, n, b, h);
    }
    forall k: Key | k.owner == b ensures SameStream(m', n', k) {
      assert SameStream(m, n, k);
    }
  }

  /** The two states agree on the stream `k` and on its entry. */
  ghost predicate SameAround(m: Machine, n: Machine, k: Key, h: Handle) {
    && k in m.streams && k in n.streams && m.streams[k] == n.streams[k]
    && !m.streams[k].Refused? && m.streams[k].h == h
    && SameEntry(m, n, k.owner, h) && Has(m, k.owner, h)
  }

  lemma SinkingIsLocal(m: Machine, n: Machine, k: Key, h: Handle)
    requires Linked(m) && Linked(n) && SameAround(m, n, k, h)
    ensures SameAround(Sinking(m, k), Sinking(n, k), k, h)
  {
    hide S.Step, S.Replay;
  }

  lemma CountingIsLocal(m: Machine, n: Machine, k: Key, h: Handle, now: Time)
    requires Linked(m) && Linked(n) && SameAround(m, n, k, h)
    ensures SameAround(Counting(m, k, now), Counting(n, k, now), k, h)
    ensures SameAround(Uncounting(m, k, now), Uncounting(n, k, now), k, h)
  {
  }

  lemma RemovingIsLocal(m: Machine, n: Machine, k: Key, h: Handle)
    requires Linked(m) && Linked(n) && SameAround(m, n, k, h)
    ensures SameAround(Detaching(m, k), Detaching(n, k), k, h)
    ensures SameAround(Removing(m, k), Removing(n, k), k, h)
  {
    hide S.Step;
  }

  /** A section reads and writes nothing but its stream and that stream's entry. */
  lemma SectionIsLocal(m: Machine, n: Machine, e: Event, h: Handle)
    requires Linked(m) && Linked(n) && StreamSection(e) && SameAround(m, n, e.k, h)
    ensures SameAround(Step(m, e), Step(n, e), e.k, h)
  {
    hide SameAround, Linked, Sinking, Counting, Uncounting, Detaching, Removing;
    match e
    case AddSink(k) => SinkingIsLocal(m, n, k, h);
    case Count(k, now) => CountingIsLocal(m, n, k, h, now);
    case DetachLookup(k) => RemovingIsLocal(m, n, k, h);
    case RemoveSink(k) => RemovingIsLocal(m, n, k, h);
    case Uncount(k, now) => CountingIsLocal(m, n, k, h, now);
  }

  lemma TouchSame(m: Machine, n: Machine, m': Machine, n': Machine, k: Key, h: Handle, b: Owner)
    requires SameFor(m, n, b) && Touches(m, m', k, h) && Touches(n, n', k, h)
    requires SameEntry(m', n', b, h) && SameStream(m', n', k)
    ensures SameFor(m', n', b)
  {
    forall g ensures SameEntry(m', n', b, g) {
      assert SameEntry(m, n, b, g);
    }
    forall l: Key | l.owner == b ensures SameStream(m', n', l) {
      assert SameStream(m, n, l);
    }
  }

  /** A section of one of `b`'s own streams does the same in both states. */
  lemma OwnStreamSame(m: Machine, n: Machine, e: Event, b: Owner)
    requires Linked(m) && Linked(n) && SameFor(m, n, b)
    requires StreamSection(e) && e.k.owner == b
    ensures SameFor(Step(m, e), Step(n, e), b)
  {
    StreamEntrySame(m, n, e.k);
    if e.k in m.streams && !m.streams[e.k].Refused? {
      hide Step, SameFor, Linked;
      SectionTouches(m, e);
      SectionTouches(n, e);
      SectionIsLocal(m, n, e, m.streams[e.k].h);
      TouchSame(m, n, Step(m, e), Step(n, e), e.k, m.streams[e.k].h, b);
    } else {
      SectionRefused(m, e);
      SectionRefused(n, e);
    }
  }

  lemma PumpSame(m: Machine, n: Machine, h: Handle, x: S.Event, b: Owner)
    requires Linked(m) && Linked(n) && SameFor(m, n, b)
    ensures SameFor(Pumped(m, h, x), Pumped(n, h, x), b)
  {
    hide S.Step;
    var m', n' := Pumped(m, h, x), Pumped(n, h, x);
    forall g ensures SameEntry(m', n', b, g) {
      assert SameEntry(m, n, b, g);
    }
    forall k: Key | k.owner == b ensures SameStream(m', n', k) {
      assert SameStream(m, n, k);
    }
  }

  lemma GlobalSame(m: Machine, n: Machine, e: Event, b: Owner)
    requires Linked(m) && Linked(n) && SameFor(m, n, b) && Caller(e).None?
    ensures SameFor(Step(m, e), Step(n, e), b)
  {
    if e.Chunk? {
      PumpSame(m, n, e.h, S.Chunk(e.payload), b);
    } else if e.Exited? {
      PumpSame(m, n, e.h, S.Exited(e.code, e.error), b);
    } else {
      var m', n' := Step(m, e), Step(n, e);
      forall h ensures SameEntry(m', n', b, h) {
        assert SameEntry(m, n, b, h);
      }
      forall k: Key | k.owner == b ensures SameStream(m', n', k) {
        assert SameStream(m, n, k);
      }
    }
  }

  lemma StepSame(m: Machine, n: Machine, e: Event, b: Owner)
    requires Linked(m) && Linked(n) && SameFor(m, n, b) && FreshIn(m, e) && FreshIn(n, e)
    ensures SameFor(Step(m, e), Step(n, e), b)
  {
    hide Step, SameFor, Linked;
    if Caller(e).None? {
      GlobalSame(m, n, e, b);
    } else if Caller(e).value != b {
      OthersUnseen(m, e, b);
      OthersUnseen(n, e, b);
      SameForSymmetric(m, Step(m, e), b);
      SameForTransitive(Step(m, e), m, n, b);
      SameForTransitive(Step(m, e), n, Step(n, e), b);
    } else if e.Register? {
      OwnRegisterSame(m, n, e, b);
    } else if e.Attach? || e.Drop? {
      OwnAttachSame(m, n, e, b);
    } else {
      OwnStreamSame(m, n, e, b);
    }
  }

  ghost predicate RegisteredBefore(es: seq<Event>, i: nat, h: Handle)
    requires i <= |es|
  {
    exists j | 0 <= j < i :: es[j].Register? && es[j].h == h
  }

  /** newHandle never returns the same handle twice. */
  ghost predicate DistinctHandles(es: seq<Event>) {
    forall i, j | 0 <= i < j < |es| && es[i].Register? && es[j].Register? :: es[i].h != es[j].h
  }

  lemma StepEntries(m: Machine, e: Event, h: Handle)
    requires Linked(m) && h in Step(m, e).table.entries && h !in m.table.entries
    ensures e.Register? && e.h == h
  {
  }

  lemma {:induction false} EntriesAreRegistered(m: Machine, es: seq<Event>, a: Owner, i: nat, h: Handle)
    requires Linked(m) && i <= |es| && m.table.entries == map[]
    ensures h in StateAt(m, es, i).table.entries ==> RegisteredBefore(es, i, h)
    ensures h in StateWithout(m, es, a, i).table.entries ==> RegisteredBefore(es, i, h)
  {
    hide Step, Linked;
    if i > 0 {
      EntriesAreRegistered(m, es, a, i - 1, h);
      var m1, m2 := StateAt(m, es, i - 1), StateWithout(m, es, a, i - 1);
      if h in Step(m1, es[i - 1]).table.entries && h !in m1.table.entries {
        StepEntries(m1, es[i - 1], h);
      }
      if h in Step(m2, es[i - 1]).table.entries && h !in m2.table.entries {
        StepEntries(m2, es[i - 1], h);
      }
    }
  }

  /** One step of `b`'s view of both runs: with `e` left out of the second one if it is `a`'s. */
  lemma StepWithout(m: Machine, n: Machine, e: Event, a: Owner, b: Owner)
    requires a != b && Linked(m) && Linked(n) && SameFor(m, n, b) && FreshIn(m, e) && FreshIn(n, e)
    ensures SameFor(Step(m, e), if Caller(e) == Some(a) then n else Step(n, e), b)
  {
    hide Step, SameFor, Linked;
    if Caller(e) == Some(a) {
      OthersUnseen(m, e, b);
      SameForSymmetric(m, Step(m, e), b);
      SameForTransitive(Step(m, e), m, n, b);
    } else {
      StepSame(m, n, e, b);
    }
  }

  lemma HandlesAreFresh(m: Machine, es: seq<Event>, a: Owner, i: nat)
    requires Linked(m) && i < |es| && m.table.entries == map[] && DistinctHandles(es)
    ensures FreshIn(StateAt(m, es, i), es[i]) && FreshIn(StateWithout(m, es, a, i), es[i])
  {
    hide StateAt, StateWithout, Linked;
    if es[i].Register? {
      EntriesAreRegistered(m, es, a, i, es[i].h);
    }
  }

  lemma SameForReflexive(m: Machine, b: Owner)
    ensures SameFor(m, m, b)
  {
  }

  lemma {:induction false} RunsAgree(m0: Machine, es: seq<Event>, a: Owner, b: Owner, i: nat)
    requires Linked(m0) && m0.table.entries == map[] && a != b && DistinctHandles(es) && i <= |es|
    ensures SameFor(StateAt(m0, es, i), StateWithout(m0, es, a, i), b)
  {
    hide Step, SameFor, Linked, DistinctHandles, FreshIn;
    if i == 0 {
      SameForReflexive(m0, b);
    } else {
      RunsAgree(m0, es, a, b, i - 1);
      HandlesAreFresh(m0, es, a, i - 1);
      StepWithout(StateAt(m0, es, i - 1), StateWithout(m0, es, a, i - 1), es[i - 1], a, b);
    }
  }

  /**
   Owner non-interference over whole runs: leave out all of `a`'s Register, Attach,
   Detach and Drop sections, and `b` is in the same situation at every point.
   */
  lemma OwnerNonInterference(timeout: Time, ringSize: nat, es: seq<Event>, a: Owner, b: Owner, i: nat)
    requires a != b && DistinctHandles(es) && i <= |es|
    ensures SameFor(StateAt(Start(timeout, ringSize), es, i), StateWithout(Start(timeout, ringSize), es, a, i), b)
  {
    hide SameFor, StateAt, StateWithout, DistinctHandles;
    RunsAgree(Start(timeout, ringSize), es, a, b, i);
  }

  /** So List, Get, Attach's answer, and every token and replay `b` got are the same too. */
  lemma OwnerObservationsUnchanged(timeout: Time, ringSize: nat, es: seq<Event>, a: Owner, b: Owner, i: nat,
                                   cwds: Cwds)
    requires a != b && DistinctHandles(es) && i <= |es|
    ensures
      var m, n := StateAt(Start(timeout, ringSize), es, i), StateWithout(Start(timeout, ringSize), es, a, i);
      && Listings(m.table, b, cwds) == Listings(n.table, b, cwds)
      && (forall h :: Owns(m.table, b, h) == Owns(n.table, b, h))
      && (forall h :: Lookup(m.table, b, h) == Lookup(n.table, b, h))
      && (forall k: Key | k.owner == b :: SameStream(m, n, k))
  {
    OwnerNonInterference(timeout, ringSize, es, a, b, i);
    hide StateAt, StateWithout;
    var m, n := StateAt(Start(timeout, ringSize), es, i), StateWithout(Start(timeout, ringSize), es, a, i);
    forall h ensures Owns(m.table, b, h) == Owns(n.table, b, h)
                  && (Owns(m.table, b, h) ==> m.table.entries[h] == n.table.entries[h]) {
      assert SameEntry(m, n, b, h);
    }
  }

  // ---------------------------------- the stream theorem, for client streams

  /** The interleaving that the session of `h` sees within the first `i` events. */
  ghost function SessionTrace(m: Machine, es: seq<Event>, h: Handle, i: nat): seq<S.Event>
    requires Linked(m) && i <= |es|
  {
    if i == 0 then []
    else
      var before := SessionTrace(m, es, h, i - 1);
      var e := OnSession(StateAt(m, es, i - 1), es[i - 1], h);
      if e.Some? then before + [e.value] else before
  }

  ghost function SessionAfter(cap: nat, trace: seq<S.Event>): S.State {
    S.StateAt(S.Opened(cap), trace, |trace|)
  }

  lemma {:induction false} TraceSnoc(cap: nat, trace: seq<S.Event>, e: S.Event, j: nat)
    requires j <= |trace|
    ensures S.StateAt(S.Opened(cap), trace + [e], j) == S.StateAt(S.Opened(cap), trace, j)
    ensures j == |trace| ==> SessionAfter(cap, trace + [e]) == S.Step(SessionAfter(cap, trace), e)
  {
    if j > 0 {
      TraceSnoc(cap, trace, e, j - 1);
    }
  }

  lemma StepOnSession(m: Machine, e: Event, h: Handle)
    requires Linked(m)
    ensures
      var m', x := Step(m, e), OnSession(m, e, h);
      && m'.ringSize == m.ringSize
      && (h in m.sessions ==>
            && h in m'.sessions
            && m'.sessions[h] == if x.Some? then S.Step(m.sessions[h], x.value) else m.sessions[h])
      && (h !in m.sessions ==> x == None && (h in m'.sessions ==> m'.sessions[h] == S.Opened(m.ringSize)))
  {
    hide S.Step;
  }

  /** `token` was handed out, with `replay`, by the Add event `j` of the trace. */
  ghost predicate JoinedAt(cap: nat, trace: seq<S.Event>, token: S.SinkToken, replay: bytes, j: nat) {
    && j < |trace| && trace[j].Add?
    && token == S.StateAt(S.Opened(cap), trace, j).next + 1
    && replay == S.Replay(S.StateAt(S.Opened(cap), trace, j), trace[j].snapshot)
  }

  ghost predicate Joined(cap: nat, trace: seq<S.Event>, token: S.SinkToken, replay: bytes) {
    exists j: nat :: JoinedAt(cap, trace, token, replay, j)
  }

  lemma JoinedStays(cap: nat, trace: seq<S.Event>, token: S.SinkToken, replay: bytes, e: S.Event)
    requires Joined(cap, trace, token, replay)
    ensures Joined(cap, trace + [e], token, replay)
  {
    var j: nat :| JoinedAt(cap, trace, token, replay, j);
    TraceSnoc(cap, trace, e, j);
    assert JoinedAt(cap, trace + [e], token, replay, j);
  }

  lemma JoinedNow(cap: nat, trace: seq<S.Event>, e: S.Event)
    requires e.Add?
    ensures
      var s := SessionAfter(cap, trace);
      Joined(cap, trace + [e], s.next + 1, S.Replay(s, e.snapshot))
  {
    TraceSnoc(cap, trace, e, |trace|);
    var s := SessionAfter(cap, trace);
    assert JoinedAt(cap, trace + [e], s.next + 1, S.Replay(s, e.snapshot), |trace|);
  }

  ghost predicate WithSink(p: Phase, h: Handle) {
    p.Bound? && p.h == h && p.token != 0
  }

  /** The stream `k` gets, in this step, a sink just installed by an Add for the session of `h`. */
  ghost predicate SinkInstalledBy(m: Machine, e: Event, p: Phase, h: Handle) {
    var x := OnSession(m, e, h);
    && h in m.sessions && x.Some? && x.value.Add? && p.Bound?
    && p.token == m.sessions[h].next + 1 && p.replay == S.Replay(m.sessions[h], x.value.snapshot)
  }

  ghost predicate HeldBefore(m: Machine, k: Key, p: Phase, h: Handle) {
    && k in m.streams && WithSink(m.streams[k], h) && p.Bound?
    && m.streams[k].token == p.token && m.streams[k].replay == p.replay
  }

  /** How a stream comes to hold a sink: it held it before, or this event installed it. */
  lemma StepWithSink(m: Machine, e: Event, k: Key, h: Handle)
    requires Linked(m) && k in Step(m, e).streams && WithSink(Step(m, e).streams[k], h)
    ensures HeldBefore(m, k, Step(m, e).streams[k], h) || SinkInstalledBy(m, e, Step(m, e).streams[k], h)
  {
    if e.AddSink? && e.k == k {
      AddSinkInstalls(m, k, h);
    } else {
      hide S.Step, SinkInstalledBy, Linked;
    }
  }

  lemma AddSinkInstalls(m: Machine, k: Key, h: Handle)
    requires Linked(m) && k in Sinking(m, k).streams && WithSink(Sinking(m, k).streams[k], h)
    ensures HeldBefore(m, k, Sinking(m, k).streams[k], h)
         || SinkInstalledBy(m, AddSink(k), Sinking(m, k).streams[k], h)
  {
    hide S.Step;
  }

  /** The session of `h` is where its trace leads, and every sink came from an Add in it. */
  ghost predicate Follows(m: Machine, cap: nat, trace: seq<S.Event>, h: Handle) {
    && m.ringSize == cap
    && (h in m.sessions ==> m.sessions[h] == SessionAfter(cap, trace))
    && (h !in m.sessions ==> trace == [])
    && (forall k | k in m.streams && WithSink(m.streams[k], h) ::
          Joined(cap, trace, m.streams[k].token, m.streams[k].replay))
  }

  lemma FollowsStep(m: Machine, cap: nat, trace: seq<S.Event>, h: Handle, e: Event)
    requires Linked(m) && Follows(m, cap, trace, h)
    ensures
      var x := OnSession(m, e, h);
      Follows(Step(m, e), cap, if x.Some? then trace + [x.value] else trace, h)
  {
    StepOnSession(m, e, h);
    hide Step, OnSession, Linked, Joined, SessionAfter, S.Step;
    var x, m' := OnSession(m, e, h), Step(m, e);
    var trace' := if x.Some? then trace + [x.value] else trace;
    if x.Some? {
      TraceSnoc(cap, trace, x.value, |trace|);
    }
    assert SessionAfter(cap, []) == S.Opened(cap) by { EmptyTrace(cap); }
    forall k | k in m'.streams && WithSink(m'.streams[k], h)
      ensures Joined(cap, trace', m'.streams[k].token, m'.streams[k].replay)
    {
      StepWithSink(m, e, k, h);
      if x.Some? {
        if k in m.streams && WithSink(m.streams[k], h) {
          JoinedStays(cap, trace, m.streams[k].token, m.streams[k].replay, x.value);
        }
        if x.value.Add? {
          JoinedNow(cap, trace, x.value);
        }
      }
    }
  }

  lemma EmptyTrace(cap: nat)
    ensures SessionAfter(cap, []) == S.Opened(cap)
  {
  }

  lemma {:induction false} SessionsFollowTraces(timeout: Time, ringSize: nat, es: seq<Event>, h: Handle, i: nat)
    requires i <= |es|
    ensures Follows(StateAt(Start(timeout, ringSize), es, i), ringSize,
                    SessionTrace(Start(timeout, ringSize), es, h, i), h)
  {
    var m0 := Start(timeout, ringSize);
    if i > 0 {
      hide Step, OnSession, Linked, Follows;
      SessionsFollowTraces(timeout, ringSize, es, h, i - 1);
      FollowsStep(StateAt(m0, es, i - 1), ringSize, SessionTrace(m0, es, h, i - 1), h, es[i - 1]);
    }
  }

  /**
   `replay`, then the Data frames its callback received, is one contiguous piece of
   the session's output: it starts at most `cap` bytes before the point where the
   client joined and ends where it left, or now if it has not; just when the child
   exited in between, the Exit of that exit follows.
   */
  ghost predicate SeesEveryByteOnce(cap: nat, trace: seq<S.Event>, token: S.SinkToken, replay: bytes, j: nat) {
    && j < |trace| && trace[j].Add?
    && var s, end := SessionAfter(cap, trace), S.LeftAt(trace, j, token, |trace|);
       && (trace[j].snapshot ==> replay == LastN(S.Output(trace, j), cap))
       && token in s.calls
       && S.Contiguous(replay, S.DataBytes(s.calls[token]), S.Output(trace, j), S.Output(trace, end))
       && S.WellOrdered(s.calls[token])
       && S.LastExit(s.calls[token]) == S.ExitFrame(trace, j, end)
       && (token in s.sinks <==> end == |trace|)
  }

  lemma JoinedSees(cap: nat, trace: seq<S.Event>, token: S.SinkToken, replay: bytes, j: nat)
    requires JoinedAt(cap, trace, token, replay, j)
    ensures SeesEveryByteOnce(cap, trace, token, replay, j)
  {
    hide S.Output, S.StateAt, S.DataBytes, S.LeftAt, S.WellOrdered, S.LastExit, S.ExitFrame;
    S.AttachSeesEveryByteOnce(cap, trace, j, |trace|);
  }

  /** The stream theorem for every client stream of every run of the manager. */
  lemma EveryStreamSeesEveryByteOnce(timeout: Time, ringSize: nat, es: seq<Event>, i: nat, k: Key)
    requires i <= |es|
    requires
      var m := StateAt(Start(timeout, ringSize), es, i);
      k in m.streams && m.streams[k].Bound? && m.streams[k].token != 0
    ensures
      var m := StateAt(Start(timeout, ringSize), es, i);
      var p := m.streams[k];
      var trace := SessionTrace(Start(timeout, ringSize), es, p.h, i);
      && p.h in m.sessions && m.sessions[p.h] == SessionAfter(ringSize, trace)
      && exists j: nat ::
           JoinedAt(ringSize, trace, p.token, p.replay, j) && SeesEveryByteOnce(ringSize, trace, p.token, p.replay, j)
  {
    hide StateAt, SessionTrace, SeesEveryByteOnce, JoinedAt, SessionAfter;
    var m := StateAt(Start(timeout, ringSize), es, i);
    var p := m.streams[k];
    var trace := SessionTrace(Start(timeout, ringSize), es, p.h, i);
    SessionsFollowTraces(timeout, ringSize, es, p.h, i);
    assert OnEntry(p, k.owner, m.table.entries) && WithSink(p, p.h);
    var j: nat :| JoinedAt(ringSize, trace, p.token, p.replay, j);
    JoinedSees(ringSize, trace, p.token, p.replay, j);
  }
}
