/**
 Attach accounting over every interleaving: what `attachCount` means while Attach
 and Detach calls are only partly done, and what Sweep may rely on.
 */
module PtyAccounting {
  import opened Bytes
  import opened PtyTable
  import opened PtyStreams
  import S = PtySession

  /** The parts a stream can play for an entry. */
  datatype Role =
    | Holding     // its sink is installed
    | Counting    // it is included in attachCount
    | Entering    // sink installed, not yet counted
    | Departing   // sink removed, still counted

  predicate SinkInstalled(stage: Stage) {
    stage == Sunk || stage == Attached || stage == Leaving || stage == Abandoned
  }

  predicate InCount(stage: Stage) {
    stage != Sunk && stage != Gone
  }

  predicate Plays(p: Phase, h: Handle, role: Role) {
    && p.Bound? && p.h == h
    && match role
       case Holding => p.token != 0 && SinkInstalled(p.stage)
       case Counting => p.counted && InCount(p.stage)
       case Entering => p.stage == Sunk
       case Departing => p.stage == Removed
  }

  ghost function Members(streams: map<Key, Phase>, h: Handle, role: Role): set<Key> {
    set k | k in streams && Plays(streams[k], h, role)
  }

  ghost function Size(streams: map<Key, Phase>, h: Handle, role: Role): nat {
    |Members(streams, h, role)|
  }

  function One(b: bool): int {
    if b then 1 else 0
  }

  lemma PointSize(s: set<Key>, s': set<Key>, k: Key, b: bool)
    requires forall x :: x in s' <==> if x == k then b else x in s
    ensures |s'| == |s| - One(k in s) + One(b)
  {
    var rest := s - {k};
    assert s == if k in s then rest + {k} else rest;
    assert s' == if b then rest + {k} else rest;
  }

  lemma SizeUpdate(streams: map<Key, Phase>, k: Key, p: Phase, h: Handle, role: Role)
    ensures Size(streams[k := p], h, role) ==
            Size(streams, h, role) - One(k in streams && Plays(streams[k], h, role)) + One(Plays(p, h, role))
  {
    hide Plays;
    PointSize(Members(streams, h, role), Members(streams[k := p], h, role), k, Plays(p, h, role));
  }

  /** Every stream brings a sink, as servePTYStream does. */
  ghost predicate Disciplined(es: seq<Event>) {
    forall i | 0 <= i < |es| :: (es[i].Register? || es[i].Attach?) ==> es[i].hasSink
  }

  ghost predicate PhaseOk(p: Phase, s: map<Handle, S.State>) {
    match p
    case Looked(_, hasSink) => hasSink
    case Bound(h, token, _, _, counted, stage) =>
      && h in s && 0 < token <= s[h].next
      && (counted <==> InCount(stage))
      && (SinkInstalled(stage) ==> token in s[h].sinks)
    case _ => true
  }

  ghost predicate DistinctTokens(streams: map<Key, Phase>) {
    forall k, l | k in streams && l in streams && k != l && streams[k].Bound? && streams[l].Bound?
      :: streams[k].h == streams[l].h ==> streams[k].token != streams[l].token
  }

  /** Tokens identify sinks: the bound streams of a session hold different ones. */
  ghost predicate Tokens(m: Machine) {
    && (forall h | h in m.sessions :: S.WellFormed(m.sessions[h]))
    && (forall k | k in m.streams :: PhaseOk(m.streams[k], m.sessions))
    && DistinctTokens(m.streams)
  }

  /** The counts agree with the streams. */
  ghost predicate TotalsAt(m: Machine, h: Handle) {
    && h in m.sessions && h in m.table.entries
    && m.table.entries[h].attachCount == Size(m.streams, h, Counting)
    && |m.sessions[h].sinks| == Size(m.streams, h, Holding)
  }

  ghost predicate Totals(m: Machine) {
    forall h | h in m.table.entries :: TotalsAt(m, h)
  }

  /** The accounting invariant. */
  ghost predicate Accounted(m: Machine) {
    Linked(m) && Tokens(m) && Totals(m)
  }

  /** One stream of the entry `g` moves to phase `p`, and the entry's counts follow. */
  lemma TotalsUpdate(m: Machine, m': Machine, k: Key, p: Phase, g: Handle)
    requires Totals(m) && g in m.table.entries && m'.streams == m.streams[k := p]
    requires m'.table.entries.Keys == m.table.entries.Keys == m'.sessions.Keys
    requires p.Bound? ==> p.h == g
    requires k in m.streams && m.streams[k].Bound? ==> m.streams[k].h == g
    requires forall h | h in m.table.entries && h != g ::
      && h in m.sessions && m'.sessions[h].sinks == m.sessions[h].sinks
      && m'.table.entries[h].attachCount == m.table.entries[h].attachCount
    requires m'.table.entries[g].attachCount == m.table.entries[g].attachCount
      - One(k in m.streams && Plays(m.streams[k], g, Counting)) + One(Plays(p, g, Counting))
    requires g in m.sessions && |m'.sessions[g].sinks| == |m.sessions[g].sinks|
      - One(k in m.streams && Plays(m.streams[k], g, Holding)) + One(Plays(p, g, Holding))
    ensures Totals(m')
  {
    hide Size;
    forall h | h in m'.table.entries ensures TotalsAt(m', h) {
      assert TotalsAt(m, h);
      SizeUpdate(m.streams, k, p, h, Counting);
      SizeUpdate(m.streams, k, p, h, Holding);
    }
  }

  lemma RegisterTokens(m: Machine, e: Event)
    requires Accounted(m) && e.Register? && e.hasSink
    ensures Tokens(Registering(m, e))
  {
    hide Totals;
  }

  lemma RegisterTotals(m: Machine, e: Event)
    requires Accounted(m) && e.Register? && e.hasSink
    ensures Totals(Registering(m, e))
  {
    hide Size, Tokens;
    var m' := Registering(m, e);
    if m' != m {
      forall h | h in m'.table.entries ensures TotalsAt(m', h) {
        SizeUpdate(m.streams, e.k, m'.streams[e.k], h, Counting);
        SizeUpdate(m.streams, e.k, m'.streams[e.k], h, Holding);
        if h in m.table.entries {
          assert TotalsAt(m, h);
        } else {
          NoMembers(m, h, Counting);
          NoMembers(m, h, Holding);
        }
      }
    }
  }

  lemma NoMembers(m: Machine, h: Handle, role: Role)
    requires Linked(m) && h !in m.table.entries
    ensures Size(m.streams, h, role) == 0
  {
    assert Members(m.streams, h, role) == {};
  }

  lemma AttachTokens(m: Machine, k: Key, h: Handle)
    requires Accounted(m)
    ensures Tokens(Attaching(m, k, h, true))
  {
    hide Totals, Linked, S.WellFormed, Lookup;
  }

  lemma AttachTotals(m: Machine, k: Key, h: Handle)
    requires Accounted(m)
    ensures Totals(Attaching(m, k, h, true))
  {
    hide Size, Tokens, Lookup;
    var m' := Attaching(m, k, h, true);
    if m' != m && m.table.entries != map[] {
      var g :| g in m.table.entries;
      assert TotalsAt(m, g);
      TotalsUpdate(m, m', k, m'.streams[k], g);
    }
  }

  /** A sink is about to be installed for `k`. */
  predicate ReadyToSink(m: Machine, k: Key) {
    k in m.streams && (m.streams[k].Opening? || m.streams[k].Looked?)
  }

  /** Installing a sink in `h` keeps every other phase in order. */
  lemma PhaseOkAfterAdd(p: Phase, sessions: map<Handle, S.State>, h: Handle, e: S.Event)
    requires h in sessions && e.Add? && PhaseOk(p, sessions)
    ensures PhaseOk(p, sessions[h := S.Step(sessions[h], e)])
  {
  }

  lemma TokensAfterAdd(m: Machine, m': Machine, k: Key, p: Phase, e: S.Event)
    requires Tokens(m) && k in m.streams && !m.streams[k].Bound?
    requires p.Bound? && p.h in m.sessions && e.Add? && p.token == m.sessions[p.h].next + 1
    requires p.stage == Sunk && !p.counted
    requires m'.sessions == m.sessions[p.h := S.Step(m.sessions[p.h], e)]
    requires m'.streams == m.streams[k := p]
    ensures Tokens(m')
  {
    FreshTokenStaysDistinct(m.streams, m.sessions, k, p);
    S.StepFacts(m.sessions[p.h], e);
    assert PhaseOk(p, m'.sessions);
    hide S.Step, S.WellFormed, DistinctTokens, PhaseOk;
    forall l | l in m.streams && l != k ensures PhaseOk(m.streams[l], m'.sessions) {
      PhaseOkAfterAdd(m.streams[l], m.sessions, p.h, e);
    }
  }

  lemma AddSinkTokens(m: Machine, k: Key)
    requires Accounted(m)
    ensures Tokens(Sinking(m, k))
  {
    if ReadyToSink(m, k) {
      assert PhaseOk(m.streams[k], m.sessions);
      hide Tokens, Totals, S.Step;
      var m' := Sinking(m, k);
      TokensAfterAdd(m, m', k, m'.streams[k], S.Add(m.streams[k].Looked?));
    }
  }

  lemma FreshTokenStaysDistinct(streams: map<Key, Phase>, sessions: map<Handle, S.State>, k: Key, p: Phase)
    requires DistinctTokens(streams) && forall l | l in streams :: PhaseOk(streams[l], sessions)
    requires k in streams && !streams[k].Bound?
    requires p.Bound? && p.h in sessions && p.token > sessions[p.h].next
    ensures DistinctTokens(streams[k := p])
  {
    forall l | l in streams && l != k && streams[l].Bound? && streams[l].h == p.h
      ensures streams[l].token != p.token
    {
      assert PhaseOk(streams[l], sessions);
    }
  }

  /** What installing a sink changes. */
  lemma SinkShape(m: Machine, k: Key)
    requires Linked(m) && ReadyToSink(m, k) && (m.streams[k].Looked? ==> m.streams[k].hasSink)
    ensures
      var m', h := Sinking(m, k), m.streams[k].h;
      && h in m.sessions && m'.table == m.table && k in m'.streams
      && m'.sessions == m.sessions[h := S.Step(m.sessions[h], S.Add(m.streams[k].Looked?))]
      && var p := m'.streams[k];
         && m'.streams == m.streams[k := p]
         && p.Bound? && p.h == h && p.token == m.sessions[h].next + 1 && p.stage == Sunk && !p.counted
  {
    hide S.Step, S.Replay;
  }

  lemma AddSinkTotals(m: Machine, k: Key)
    requires Accounted(m)
    ensures Totals(Sinking(m, k))
  {
    hide Size;
    if ReadyToSink(m, k) {
      var m', h := Sinking(m, k), m.streams[k].h;
      assert PhaseOk(m.streams[k], m.sessions);
      SinkShape(m, k);
      assert TotalsAt(m, h) && S.WellFormed(m.sessions[h]);
      hide Sinking, Tokens, Totals, S.Step, S.WellFormed;
      OneMoreSink(m.sessions[h], S.Add(m.streams[k].Looked?));
      TotalsUpdate(m, m', k, m'.streams[k], h);
    }
  }

  lemma OneMoreSink(s: S.State, e: S.Event)
    requires S.WellFormed(s) && e.Add?
    ensures |S.Step(s, e).sinks| == |s.sinks| + 1
  {
    assert s.next + 1 !in s.sinks;
  }

  lemma CountAccounted(m: Machine, k: Key, now: Time)
    requires Accounted(m)
    ensures Tokens(PtyStreams.Counting(m, k, now)) && Totals(PtyStreams.Counting(m, k, now))
  {
    hide Size;
    var m' := PtyStreams.Counting(m, k, now);
    if BoundAt(m, k, Sunk) {
      assert PhaseOk(m.streams[k], m.sessions);
      TotalsUpdate(m, m', k, m'.streams[k], m.streams[k].h);
    }
  }

  lemma DetachAccounted(m: Machine, k: Key)
    requires Accounted(m)
    ensures Tokens(Detaching(m, k)) && Totals(Detaching(m, k))
  {
    hide Size;
    var m' := Detaching(m, k);
    if BoundAt(m, k, Attached) {
      TotalsUpdate(m, m', k, m'.streams[k], m.streams[k].h);
    }
  }

  lemma RemoveTokens(m: Machine, k: Key)
    requires Accounted(m)
    ensures Tokens(Removing(m, k))
  {
    hide Totals;
  }

  /** What removing a sink changes. */
  lemma RemoveShape(m: Machine, k: Key)
    requires Linked(m) && BoundAt(m, k, Leaving) && m.streams[k].token != 0
    ensures
      var m', p := Removing(m, k), m.streams[k];
      && p.h in m.sessions && m'.table == m.table
      && m'.sessions == m.sessions[p.h := S.Step(m.sessions[p.h], S.Remove(p.token))]
      && m'.streams == m.streams[k := p.(stage := Removed)]
  {
    hide S.Step;
  }

  lemma OneSinkLess(s: S.State, t: S.SinkToken)
    requires t in s.sinks
    ensures |S.Step(s, S.Remove(t)).sinks| == |s.sinks| - 1
  {
  }

  lemma RemoveTotals(m: Machine, k: Key)
    requires Accounted(m)
    ensures Totals(Removing(m, k))
  {
    hide Size;
    if BoundAt(m, k, Leaving) {
      var m', p := Removing(m, k), m.streams[k];
      assert PhaseOk(p, m.sessions) && p.token in m.sessions[p.h].sinks;
      RemoveShape(m, k);
      assert TotalsAt(m, p.h);
      hide Removing, Tokens, Totals, S.Step;
      OneSinkLess(m.sessions[p.h], p.token);
      TotalsUpdate(m, m', k, m'.streams[k], p.h);
    }
  }

  /** The guard on the decrement is never needed: a stream that decrements is counted. */
  lemma DecrementNeverGuarded(m: Machine, k: Key)
    requires Accounted(m) && BoundAt(m, k, Removed)
    ensures m.table.entries[m.streams[k].h].attachCount > 0
  {
    var h := m.streams[k].h;
    assert PhaseOk(m.streams[k], m.sessions) && TotalsAt(m, h);
    assert k in Members(m.streams, h, Counting);
  }

  lemma UncountTokens(m: Machine, k: Key, now: Time)
    requires Accounted(m)
    ensures Tokens(Uncounting(m, k, now))
  {
    hide Totals, Linked, S.WellFormed, Uncounted;
  }

  lemma UncountTotals(m: Machine, k: Key, now: Time)
    requires Accounted(m)
    ensures Totals(Uncounting(m, k, now))
  {
    hide Size;
    var m' := Uncounting(m, k, now);
    if BoundAt(m, k, Removed) {
      assert PhaseOk(m.streams[k], m.sessions);
      DecrementNeverGuarded(m, k);
      hide Tokens;
      TotalsUpdate(m, m', k, m'.streams[k], m.streams[k].h);
    }
  }

  lemma PumpAccounted(m: Machine, h: Handle, e: S.Event)
    requires Accounted(m) && (e.Chunk? || e.Exited?)
    ensures Tokens(Pumped(m, h, e)) && Totals(Pumped(m, h, e))
  {
    hide Size;
    var m' := Pumped(m, h, e);
    forall g | g in m'.table.entries ensures TotalsAt(m', g) {
      assert TotalsAt(m, g);
    }
  }

  lemma StepAccounted(m: Machine, e: Event)
    requires Accounted(m)
    requires (e.Register? || e.Attach?) ==> e.hasSink
    ensures Accounted(Step(m, e))
  {
    hide Registering, Attaching, Sinking, PtyStreams.Counting, Detaching, Removing, Uncounting, Pumped;
    hide Tokens, Totals, Linked;
    match e
    case Register(_, _, _, _, _) => RegisterTokens(m, e); RegisterTotals(m, e);
    case Attach(k, h, _) => AttachTokens(m, k, h); AttachTotals(m, k, h);
    case AddSink(k) => AddSinkTokens(m, k); AddSinkTotals(m, k);
    case Count(k, now) => CountAccounted(m, k, now);
    case DetachLookup(k) => DetachAccounted(m, k);
    case RemoveSink(k) => RemoveTokens(m, k); RemoveTotals(m, k);
    case Uncount(k, now) => UncountTokens(m, k, now); UncountTotals(m, k, now);
    case Chunk(h, p) => PumpAccounted(m, h, S.Chunk(p));
    case Exited(h, c, r) => PumpAccounted(m, h, S.Exited(c, r));
    case _ => TotalsKept(m, Step(m, e));
  }

  lemma TotalsKept(m: Machine, m': Machine)
    requires Tokens(m) && Totals(m) && m'.sessions == m.sessions && m'.streams == m.streams
    requires m'.table.entries == m.table.entries
    ensures Tokens(m') && Totals(m')
  {
    forall h | h in m'.table.entries ensures TotalsAt(m', h) {
      assert TotalsAt(m, h);
    }
  }

  lemma {:induction false} AlwaysAccounted(timeout: Time, ringSize: nat, es: seq<Event>, i: nat)
    requires Disciplined(es) && i <= |es|
    ensures Accounted(StateAt(Start(timeout, ringSize), es, i))
  {
    if i > 0 {
      AlwaysAccounted(timeout, ringSize, es, i - 1);
      hide Accounted, Step, Linked;
      StepAccounted(StateAt(Start(timeout, ringSize), es, i - 1), es[i - 1]);
    }
  }

  /**
   In every interleaving, an entry's live sinks are its attach count, plus the
   attaches that have installed their sink but are not counted yet, minus the
   detaches that have removed theirs but are still counted; and a stream about to
   decrement always finds a positive count.
   */
  lemma LiveSinksEquation(timeout: Time, ringSize: nat, es: seq<Event>, i: nat, h: Handle)
    requires Disciplined(es) && i <= |es|
    ensures
      var m := StateAt(Start(timeout, ringSize), es, i);
      && (h in m.table.entries ==>
            |m.sessions[h].sinks| == m.table.entries[h].attachCount
              + Size(m.streams, h, Entering) - Size(m.streams, h, Departing))
      && (forall k | BoundAt(m, k, Removed) :: m.table.entries[m.streams[k].h].attachCount > 0)
  {
    hide Size, StateAt;
    AlwaysAccounted(timeout, ringSize, es, i);
    var m := StateAt(Start(timeout, ringSize), es, i);
    forall k | BoundAt(m, k, Removed) ensures m.table.entries[m.streams[k].h].attachCount > 0 {
      DecrementNeverGuarded(m, k);
    }
    if h in m.table.entries {
      assert TotalsAt(m, h);
      assert forall k | k in m.streams :: PhaseOk(m.streams[k], m.sessions) && Disposed(m.streams[k]);
      RolesBalance(m.streams, h);
    }
  }

  ghost predicate Disposed(p: Phase) {
    p.Bound? ==> p.token != 0 && (p.counted <==> InCount(p.stage))
  }

  /** Installed or just removed is the same as counted or not yet counted. */
  lemma RolesOf(p: Phase, h: Handle)
    requires Disposed(p)
    ensures Plays(p, h, Holding) || Plays(p, h, Departing) <==> Plays(p, h, Counting) || Plays(p, h, Entering)
    ensures !(Plays(p, h, Holding) && Plays(p, h, Departing)) && !(Plays(p, h, Counting) && Plays(p, h, Entering))
  {
  }

  lemma RolesBalance(streams: map<Key, Phase>, h: Handle)
    requires forall k | k in streams :: Disposed(streams[k])
    ensures Size(streams, h, Holding) + Size(streams, h, Departing)
         == Size(streams, h, Counting) + Size(streams, h, Entering)
  {
    hide Plays;
    var holding, counting := Members(streams, h, Holding), Members(streams, h, Counting);
    var entering, departing := Members(streams, h, Entering), Members(streams, h, Departing);
    forall k | k in streams
      ensures k in holding + departing <==> k in counting + entering
      ensures !(k in holding && k in departing) && !(k in counting && k in entering)
    {
      RolesOf(streams[k], h);
    }
    assert holding + departing == counting + entering;
    UnionSize(holding, departing);
    UnionSize(counting, entering);
  }

  lemma UnionSize(a: set<Key>, b: set<Key>)
    requires a !! b
    ensures |a + b| == |a| + |b|
  {
  }

  /** If Sweep evicts an entry that has a live sink, that sink's attach is still in flight. */
  lemma EvictedSinksAreInFlight(timeout: Time, ringSize: nat, es: seq<Event>, i: nat, h: Handle, now: Time, k: Key)
    requires Disciplined(es) && i <= |es|
    requires
      var m := StateAt(Start(timeout, ringSize), es, i);
      Expired(m.table, h, now) && k in Members(m.streams, h, Holding)
    ensures StateAt(Start(timeout, ringSize), es, i).streams[k].stage == Sunk
  {
    AlwaysAccounted(timeout, ringSize, es, i);
    var m := StateAt(Start(timeout, ringSize), es, i);
    assert TotalsAt(m, h) && PhaseOk(m.streams[k], m.sessions);
    assert Members(m.streams, h, Counting) == {};
    assert k !in Members(m.streams, h, Counting);
  }

  ghost predicate InStage(m: Machine, h: Handle, k: Key, stage: Stage) {
    BoundAt(m, k, stage) && m.streams[k].h == h
  }

  /** Every stream bound to `h` is between its sink and its count, or has detached. */
  ghost predicate NoneCounted(m: Machine, h: Handle) {
    forall k | k in m.streams && m.streams[k].Bound? && m.streams[k].h == h ::
      m.streams[k].stage == Sunk || m.streams[k].stage == Gone
  }

  lemma CountIsZeroIff(m: Machine, h: Handle)
    requires Tokens(m) && TotalsAt(m, h)
    ensures m.table.entries[h].attachCount == 0 <==> NoneCounted(m, h)
  {
    hide S.WellFormed, DistinctTokens;
    var counting := Members(m.streams, h, Counting);
    forall k | k in m.streams && m.streams[k].Bound? && m.streams[k].h == h
      ensures k in counting <==> InCount(m.streams[k].stage)
    {
      assert PhaseOk(m.streams[k], m.sessions);
    }
    if NoneCounted(m, h) {
      assert counting == {};
    }
  }

  lemma HasSinkIff(m: Machine, h: Handle)
    requires Tokens(m) && TotalsAt(m, h) && NoneCounted(m, h)
    ensures m.sessions[h].sinks != {} <==> exists k :: InStage(m, h, k, Sunk)
  {
    hide S.WellFormed, DistinctTokens;
    var holding := Members(m.streams, h, Holding);
    forall k
      ensures k in holding <==> InStage(m, h, k, Sunk)
    {
      assert k in m.streams ==> PhaseOk(m.streams[k], m.sessions);
    }
    if holding != {} {
      var k :| k in holding;
      assert InStage(m, h, k, Sunk);
    }
  }

  /**
   Exactly when Sweep takes an entry whose time is up: every stream bound to it is
   between installing its sink and being counted, or gone.  The entry then has a live
   sink exactly when there is a stream of the first kind.
   */
  lemma EvictedIffNoneCounted(timeout: Time, ringSize: nat, es: seq<Event>, i: nat, h: Handle, now: Time)
    requires Disciplined(es) && i <= |es|
    requires h in StateAt(Start(timeout, ringSize), es, i).table.listed
    requires
      var t := StateAt(Start(timeout, ringSize), es, i).table;
      h in t.entries && now - t.entries[h].lastSeen > t.timeout
    ensures
      var m := StateAt(Start(timeout, ringSize), es, i);
      && (h !in Swept(m.table, now).listed <==> NoneCounted(m, h))
      && (NoneCounted(m, h) ==> (m.sessions[h].sinks != {} <==> exists k :: InStage(m, h, k, Sunk)))
  {
    AlwaysAccounted(timeout, ringSize, es, i);
    hide StateAt, Size, Tokens;
    var m := StateAt(Start(timeout, ringSize), es, i);
    assert TotalsAt(m, h);
    CountIsZeroIff(m, h);
    if NoneCounted(m, h) {
      HasSinkIff(m, h);
    }
    hide NoneCounted, InStage;
  }

  /** A run in which it does: an opener that has left, and a client between sink and count. */
  function InFlightRun(u: Owner, h: Handle, timeout: Time): seq<Event> {
    var opener, client := Key(u, 0), Key(u, 1);
    [Register(opener, h, "", true, 0), AddSink(opener), Count(opener, 0),
     DetachLookup(opener), RemoveSink(opener), Uncount(opener, 0),
     Attach(client, h, true), AddSink(client), Sweep(timeout + 1)]
  }

  /** The opener's count is the only one. */
  ghost predicate OpenerIn(m: Machine, u: Owner, h: Handle, timeout: Time) {
    && m.table == Table(map[h := Entry(u, "", 1, 0)], {h}, false, timeout)
    && m.streams == map[Key(u, 0) := Bound(h, 1, [], true, true, Attached)]
    && h in m.sessions && m.sessions[h].sinks == {1} && m.sessions[h].next == 1
  }

  /** The opener has left, and nobody else has come. */
  ghost predicate OpenerOut(m: Machine, u: Owner, h: Handle, timeout: Time) {
    && m.table == Table(map[h := Entry(u, "", 0, 0)], {h}, false, timeout)
    && m.streams == map[Key(u, 0) := Bound(h, 1, [], true, false, Gone)]
    && h in m.sessions && m.sessions[h].sinks == {} && m.sessions[h].next == 1
  }

  lemma OpenerComes(u: Owner, h: Handle, timeout: Time, ringSize: nat)
    ensures
      var opener := Key(u, 0);
      OpenerIn(Step(Step(Step(Start(timeout, ringSize), Register(opener, h, "", true, 0)), AddSink(opener)),
                    Count(opener, 0)), u, h, timeout)
  {
    var m1 := Step(Start(timeout, ringSize), Register(Key(u, 0), h, "", true, 0));
    assert m1.streams == map[Key(u, 0) := Opening(h)] && m1.sessions == map[h := S.Opened(ringSize)];
    var m2 := Step(m1, AddSink(Key(u, 0)));
    assert m2.streams == map[Key(u, 0) := Bound(h, 1, [], true, false, Sunk)];
    assert m2.table == m1.table == Table(map[h := Entry(u, "", 0, 0)], {h}, false, timeout);
    assert m2.sessions[h].sinks == {1};
  }

  lemma OpenerLeaves(m: Machine, u: Owner, h: Handle, timeout: Time)
    requires Linked(m) && OpenerIn(m, u, h, timeout)
    ensures
      var m' := Step(Step(m, DetachLookup(Key(u, 0))), RemoveSink(Key(u, 0)));
      && m'.table == m.table && m'.streams == map[Key(u, 0) := Bound(h, 1, [], true, true, Removed)]
      && h in m'.sessions && m'.sessions[h].sinks == {} && m'.sessions[h].next == 1
  {
    var m1 := Step(m, DetachLookup(Key(u, 0)));
    assert m1.streams == map[Key(u, 0) := Bound(h, 1, [], true, true, Leaving)] && m1.sessions == m.sessions;
  }

  lemma OpenerGoes(m: Machine, u: Owner, h: Handle, timeout: Time)
    requires Linked(m) && OpenerIn(m, u, h, timeout)
    ensures
      var opener := Key(u, 0);
      OpenerOut(Step(Step(Step(m, DetachLookup(opener)), RemoveSink(opener)), Uncount(opener, 0)), u, h, timeout)
  {
    hide Step, Linked;
    OpenerLeaves(m, u, h, timeout);
    OpenerUncounts(Step(Step(m, DetachLookup(Key(u, 0))), RemoveSink(Key(u, 0))), u, h, timeout);
  }

  lemma OpenerUncounts(m: Machine, u: Owner, h: Handle, timeout: Time)
    requires Linked(m) && m.table == Table(map[h := Entry(u, "", 1, 0)], {h}, false, timeout)
    requires m.streams == map[Key(u, 0) := Bound(h, 1, [], true, true, Removed)]
    requires h in m.sessions && m.sessions[h].sinks == {} && m.sessions[h].next == 1
    ensures OpenerOut(Step(m, Uncount(Key(u, 0), 0)), u, h, timeout)
  {
    hide Linked;
  }

  /** The client's sink is installed, and the entry is not listed any more. */
  ghost predicate LiveButEvicted(m: Machine, h: Handle, k: Key) {
    && InStage(m, h, k, Sunk) && m.streams[k].token != 0
    && h in m.sessions && m.streams[k].token in m.sessions[h].sinks && h !in m.table.listed
  }

  lemma ClientIsSwept(m: Machine, u: Owner, h: Handle, timeout: Time)
    requires Linked(m) && OpenerOut(m, u, h, timeout) && timeout >= 0
    ensures
      var client := Key(u, 1);
      LiveButEvicted(Step(Step(Step(m, Attach(client, h, true)), AddSink(client)), Sweep(timeout + 1)), h, client)
  {
    var m1 := Step(m, Attach(Key(u, 1), h, true));
    assert m1.streams == m.streams[Key(u, 1) := Looked(h, true)];
    assert m1.sessions == m.sessions && m1.table == m.table;
    var m2 := Step(m1, AddSink(Key(u, 1)));
    assert InStage(m2, h, Key(u, 1), Sunk) && m2.streams[Key(u, 1)].token == 2;
    assert h in m2.sessions && 2 in m2.sessions[h].sinks && m2.table == m.table;
    SweepStep(m2, timeout + 1);
  }

  /** The attach has succeeded and its sink is live, yet the entry is swept before the count. */
  lemma SweepEvictsALiveSink(u: Owner, h: Handle, timeout: Time, ringSize: nat)
    requires timeout >= 0
    ensures
      var m := StateAt(Start(timeout, ringSize), InFlightRun(u, h, timeout), 9);
      && Disciplined(InFlightRun(u, h, timeout))
      && LiveButEvicted(m, h, Key(u, 1)) && Key(u, 1) in Members(m.streams, h, Holding)
  {
    hide StateAt, Step, InFlightRun, Disciplined, OpenerIn, OpenerOut;
    var m0, es := Start(timeout, ringSize), InFlightRun(u, h, timeout);
    InFlightEvents(u, h, timeout);
    Unroll3(m0, es, 0);
    Unroll3(m0, es, 3);
    Unroll3(m0, es, 6);
    OpenerComes(u, h, timeout, ringSize);
    OpenerGoes(StateAt(m0, es, 3), u, h, timeout);
    ClientIsSwept(StateAt(m0, es, 6), u, h, timeout);
  }

  lemma InFlightEvents(u: Owner, h: Handle, timeout: Time)
    ensures
      var es, opener, client := InFlightRun(u, h, timeout), Key(u, 0), Key(u, 1);
      && Disciplined(es) && |es| == 9
      && es[0] == Register(opener, h, "", true, 0) && es[1] == AddSink(opener) && es[2] == Count(opener, 0)
      && es[3] == DetachLookup(opener) && es[4] == RemoveSink(opener) && es[5] == Uncount(opener, 0)
      && es[6] == Attach(client, h, true) && es[7] == AddSink(client) && es[8] == Sweep(timeout + 1)
  {
  }

  lemma Unroll3(m: Machine, es: seq<Event>, i: nat)
    requires Linked(m) && i + 2 < |es|
    ensures StateAt(m, es, 0) == m
    ensures StateAt(m, es, i + 3) == Step(Step(Step(StateAt(m, es, i), es[i]), es[i + 1]), es[i + 2])
  {
    hide Step, Linked;
    assert StateAt(m, es, i + 1) == Step(StateAt(m, es, i), es[i]);
    assert StateAt(m, es, i + 2) == Step(StateAt(m, es, i + 1), es[i + 1]);
  }

  // ------------------------------------------------ Register without a sink

  /**
   A stream registered without a sink is not counted, yet its Detach decrements.
   That leaves the count of the other streams right exactly when there is nothing
   to decrement.
   */
  lemma UncountedDetachIsHarmlessIff(m: Machine, k: Key, now: Time)
    requires Linked(m) && BoundAt(m, k, Removed) && !m.streams[k].counted
    requires m.table.entries[m.streams[k].h].attachCount == Size(m.streams, m.streams[k].h, Counting)
    ensures
      var h, m' := m.streams[k].h, Step(m, Uncount(k, now));
      m'.table.entries[h].attachCount == Size(m'.streams, h, Counting)
      <==> m.table.entries[h].attachCount == 0
  {
    SizeUpdate(m.streams, k, Step(m, Uncount(k, now)).streams[k], m.streams[k].h, Counting);
  }

  /** Such a run: an opener without a sink, a client with one, and the opener's Detach. */
  function NilRegisterRun(u: Owner, h: Handle, timeout: Time): seq<Event> {
    var opener, client := Key(u, 0), Key(u, 1);
    [Register(opener, h, "", false, 0), Attach(client, h, true), AddSink(client), Count(client, 0),
     DetachLookup(opener), RemoveSink(opener), Uncount(opener, 0), Sweep(timeout + 1)]
  }

  lemma NilRegisterAndAttach(m: Machine, u: Owner, h: Handle, timeout: Time, ringSize: nat)
    requires m == Start(timeout, ringSize)
    ensures
      var m' := Step(Step(m, Register(Key(u, 0), h, "", false, 0)), Attach(Key(u, 1), h, true));
      && m'.table == Table(map[h := Entry(u, "", 0, 0)], {h}, false, timeout)
      && m'.sessions == map[h := S.Opened(ringSize)]
      && m'.streams == map[Key(u, 0) := Bound(h, 0, [], true, false, Attached), Key(u, 1) := Looked(h, true)]
  {
  }

  lemma ClientAttaches(m: Machine, u: Owner, h: Handle, now: Time)
    requires Linked(m) && h in m.sessions && m.sessions[h].sinks == {} && m.sessions[h].next == 0
    requires Key(u, 1) in m.streams && m.streams[Key(u, 1)] == Looked(h, true)
    ensures
      var m' := Step(Step(m, AddSink(Key(u, 1))), Count(Key(u, 1), now));
      && h in m'.sessions && m'.sessions[h].sinks == {1}
      && m'.table == Counted(m.table, h, now)
      && m'.streams == m.streams[Key(u, 1) := Bound(h, 1, m.sessions[h].scrollback, false, true, Attached)]
  {
  }

  lemma OpenerDetaches(m: Machine, u: Owner, h: Handle, now: Time)
    requires Linked(m) && Owns(m.table, u, h)
    requires Key(u, 0) in m.streams && m.streams[Key(u, 0)] == Bound(h, 0, [], true, false, Attached)
    ensures
      var m' := Step(Step(Step(m, DetachLookup(Key(u, 0))), RemoveSink(Key(u, 0))), Uncount(Key(u, 0), now));
      && m'.sessions == m.sessions && m'.table == Uncounted(m.table, h, now)
      && m'.streams == m.streams[Key(u, 0) := Bound(h, 0, [], true, false, Gone)]
  {
    hide Step, Linked, Uncounted;
    var k, p := Key(u, 0), Bound(h, 0, [], true, false, Attached);
    var m1 := Step(m, DetachLookup(k));
    FoundStep(m, k);
    var m2 := Step(m1, RemoveSink(k));
    NothingToRemoveStep(m1, k);
    UncountStep(m2, k, now);
    assert m.streams[k := p.(stage := Leaving)][k := p.(stage := Removed)][k := p.(stage := Gone)]
        == m.streams[k := p.(stage := Gone)];
  }

  lemma FoundStep(m: Machine, k: Key)
    requires Linked(m) && BoundAt(m, k, Attached) && Owns(m.table, k.owner, m.streams[k].h)
    ensures Step(m, DetachLookup(k)) == m.(streams := m.streams[k := m.streams[k].(stage := Leaving)])
  {
    hide Linked;
  }

  lemma NothingToRemoveStep(m: Machine, k: Key)
    requires Linked(m) && BoundAt(m, k, Leaving) && m.streams[k].token == 0
    ensures Step(m, RemoveSink(k)) == m.(streams := m.streams[k := m.streams[k].(stage := Removed)])
  {
    hide Linked;
  }

  lemma UncountStep(m: Machine, k: Key, now: Time)
    requires Linked(m) && BoundAt(m, k, Removed)
    ensures m.streams[k].h in m.table.entries
    ensures Step(m, Uncount(k, now)) ==
            m.(table := Uncounted(m.table, m.streams[k].h, now),
               streams := m.streams[k := m.streams[k].(stage := Gone, counted := false)])
  {
  }

  lemma NilRegisterEvents(u: Owner, h: Handle, timeout: Time)
    ensures
      var es := NilRegisterRun(u, h, timeout);
      && |es| == 8 && es[0] == Register(Key(u, 0), h, "", false, 0) && es[1] == Attach(Key(u, 1), h, true)
      && es[2] == AddSink(Key(u, 1)) && es[3] == Count(Key(u, 1), 0)
  {
  }

  lemma ClientOfNilRegister(u: Owner, h: Handle, timeout: Time, ringSize: nat)
    ensures
      var m := StateAt(Start(timeout, ringSize), NilRegisterRun(u, h, timeout), 4);
      && h in m.sessions && m.sessions[h].sinks == {1}
      && m.table == Counted(Table(map[h := Entry(u, "", 0, 0)], {h}, false, timeout), h, 0)
      && Key(u, 0) in m.streams && m.streams[Key(u, 0)] == Bound(h, 0, [], true, false, Attached)
      && BoundAt(m, Key(u, 1), Attached) && m.streams[Key(u, 1)].token == 1
  {
    hide StateAt, Step, Counted, NilRegisterRun;
    var m0, es := Start(timeout, ringSize), NilRegisterRun(u, h, timeout);
    NilRegisterEvents(u, h, timeout);
    Unroll(m0, es, 0);
    Unroll(m0, es, 2);
    NilRegisterAndAttach(m0, u, h, timeout, ringSize);
    ClientAttaches(StateAt(m0, es, 2), u, h, 0);
  }

  /** A run in which it is not harmless: a live, counted client's entry is swept as idle. */
  lemma NilRegisterLosesALiveClient(u: Owner, h: Handle, timeout: Time, ringSize: nat)
    requires timeout >= 0
    ensures
      var m := StateAt(Start(timeout, ringSize), NilRegisterRun(u, h, timeout), 8);
      && BoundAt(m, Key(u, 1), Attached) && m.streams[Key(u, 1)].token == 1
      && h in m.sessions && 1 in m.sessions[h].sinks
      && h !in m.table.listed
  {
    var m0, es := Start(timeout, ringSize), NilRegisterRun(u, h, timeout);
    ClientOfNilRegister(u, h, timeout, ringSize);
    Unroll(m0, es, 4);
    Unroll(m0, es, 6);
    var m4 := StateAt(m0, es, 4);
    assert Owns(m4.table, u, h);
    hide StateAt, Step, Counted, Uncounted, Swept, Linked, Start;
    OpenerDetaches(m4, u, h, 0);
    SweepStep(Step(StateAt(m0, es, 6), es[6]), timeout + 1);
    UnderCountedIsSwept(Table(map[h := Entry(u, "", 0, 0)], {h}, false, timeout), h);
  }

  /** Counted once, decremented once too often: the entry looks idle. */
  lemma UnderCountedIsSwept(t: Table, h: Handle)
    requires h in t.entries && t.entries[h].attachCount == 0
    ensures h !in Swept(Uncounted(Counted(t, h, 0), h, 0), t.timeout + 1).listed
  {
  }

  lemma SweepStep(m: Machine, now: Time)
    requires Linked(m)
    ensures Step(m, Sweep(now)) == m.(table := Swept(m.table, now))
  {
  }

  lemma Unroll(m: Machine, es: seq<Event>, i: nat)
    requires Linked(m) && i + 1 < |es|
    ensures StateAt(m, es, 0) == m
    ensures StateAt(m, es, i + 2) == Step(Step(StateAt(m, es, i), es[i]), es[i + 1])
  {
  }

  // ------------------------------------------------------------ idle time

  function Stamp(e: Event): Option<Time> {
    match e
    case Register(_, _, _, _, now) => Some(now)
    case Count(_, now) => Some(now)
    case Uncount(_, now) => Some(now)
    case Sweep(now) => Some(now)
    case _ => None
  }

  /** The latest clock reading within the first `i` events. */
  function Clock(start: Time, es: seq<Event>, i: nat): Time
    requires i <= |es|
  {
    if i == 0 then start
    else if Stamp(es[i - 1]).Some? then Stamp(es[i - 1]).value
    else Clock(start, es, i - 1)
  }

  ghost predicate ClockMonotone(start: Time, es: seq<Event>) {
    forall i | 0 <= i < |es| && Stamp(es[i]).Some? :: Clock(start, es, i) <= Stamp(es[i]).value
  }

  ghost predicate IdleAt(m: Machine, h: Handle) {
    h in m.table.entries && m.table.entries[h].attachCount == 0
  }

  /** A step that leaves an entry idle either left it as it was or restarted its idle clock. */
  lemma StepIdle(m: Machine, e: Event, h: Handle)
    requires Linked(m) && IdleAt(Step(m, e), h)
    ensures
      var seen := Step(m, e).table.entries[h].lastSeen;
      (IdleAt(m, h) && seen == m.table.entries[h].lastSeen) || (Stamp(e) == Some(seen))
  {
  }

  lemma {:induction false} ClockAdvances(start: Time, es: seq<Event>, j: nat, i: nat)
    requires ClockMonotone(start, es) && j <= i <= |es|
    ensures Clock(start, es, j) <= Clock(start, es, i)
  {
    if j < i {
      ClockAdvances(start, es, j, i - 1);
    }
  }

  /** If an entry is idle now and was not at `j`, its idle clock started after `j`. */
  lemma {:induction false} IdleSince(m0: Machine, start: Time, es: seq<Event>, j: nat, i: nat, h: Handle)
    requires Linked(m0) && ClockMonotone(start, es) && j <= i <= |es|
    requires IdleAt(StateAt(m0, es, i), h) && !IdleAt(StateAt(m0, es, j), h)
    ensures Clock(start, es, j) <= StateAt(m0, es, i).table.entries[h].lastSeen
  {
    hide Step;
    var m := StateAt(m0, es, i - 1);
    StepIdle(m, es[i - 1], h);
    if Stamp(es[i - 1]).Some? && Stamp(es[i - 1]).value == StateAt(m0, es, i).table.entries[h].lastSeen {
      ClockAdvances(start, es, j, i);
    } else {
      IdleSince(m0, start, es, j, i - 1, h);
    }
  }

  /**
   Sweep evicts only what has been idle throughout the timeout: at every earlier
   point whose clock reading is within `timeout` of the sweep, the entry existed
   and its count was zero.
   */
  lemma SweepEvictsOnlyIdle(m0: Machine, start: Time, es: seq<Event>, j: nat, i: nat, h: Handle)
    requires Linked(m0) && ClockMonotone(start, es) && j <= i < |es| && es[i].Sweep?
    requires h in StateAt(m0, es, i).table.listed && h !in StateAt(m0, es, i + 1).table.listed
    requires es[i].now - Clock(start, es, j) <= StateAt(m0, es, i).table.timeout
    ensures IdleAt(StateAt(m0, es, j), h)
  {
    var m := StateAt(m0, es, i);
    assert StateAt(m0, es, i + 1) == Step(m, es[i]);
    assert Expired(m.table, h, es[i].now);
    if !IdleAt(StateAt(m0, es, j), h) {
      IdleSince(m0, start, es, j, i, h);
    }
  }
}
