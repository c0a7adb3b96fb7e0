/**
 The idle bookkeeping of windows/pwsh/manager.go: reattach or create, detach, and
 the sweeper.  Times and timeouts are integer nanoseconds.  AttachOrCreate runs as
 two critical sections: the lookup that may reattach, and the insertion of a
 session freshly started under a new random id.
 */
module PwshSessions {
  const SECOND: int := 1_000_000_000
  const MIN_IDLE: int := 60 * SECOND
  const MAX_IDLE: int := 7 * 24 * 3600 * SECOND

  function ClampIdleTimeoutSec(sec: nat): (d: int)
    ensures d == 0 <==> sec == 0
    ensures sec != 0 ==> MIN_IDLE <= d <= MAX_IDLE
    ensures sec != 0 && MIN_IDLE <= sec * SECOND <= MAX_IDLE ==> d == sec * SECOND
    ensures sec != 0 ==> d == Limit(sec, 0)
  {
    if sec == 0 then 0
    else if sec * SECOND < MIN_IDLE then MIN_IDLE
    else if sec * SECOND > MAX_IDLE then MAX_IDLE
    else sec * SECOND
  }

  /** How long a session may be idle: between a minute and seven days as asked for, or the manager's default. */
  function Limit(sec: nat, timeout: int): int {
    if sec == 0 then timeout else if sec < 60 then 60 * SECOND else if sec > 604_800 then 604_800 * SECOND else sec * SECOND
  }

  datatype Session = Session(attached: bool, lastActivity: int, idleTimeout: int)

  type Sessions = map<string, Session>

  function EffectiveTimeout(s: Session, timeout: int): int {
    if s.idleTimeout > 0 then s.idleTimeout else timeout
  }

  predicate Expired(s: Session, timeout: int, now: int) {
    !s.attached && now - s.lastActivity > EffectiveTimeout(s, timeout)
  }

  /** Whether AttachOrCreate finds a session to resume. */
  predicate Resumes(m: Sessions, timeout: int, id: string, now: int) {
    id != "" && id in m && !Expired(m[id], timeout, now)
  }

  function Attached(m: Sessions, timeout: int, id: string, sec: nat, now: int): Sessions {
    if Resumes(m, timeout, id, now) then m[id := Session(true, now, ClampIdleTimeoutSec(sec))] else m
  }

  function Created(m: Sessions, id: string, sec: nat, now: int): Sessions {
    m[id := Session(true, now, ClampIdleTimeoutSec(sec))]
  }

  function Detached(m: Sessions, id: string, now: int): Sessions {
    if id in m then m[id := m[id].(attached := false, lastActivity := now)] else m
  }

  function Swept(m: Sessions, timeout: int, now: int): Sessions {
    map id | id in m && !Expired(m[id], timeout, now) :: m[id]
  }

  class SessionManager {
    var sessions: Sessions
    var closed: bool
    const timeout: int

    ghost predicate Valid()
      reads this
    {
      closed ==> sessions == map[]
    }

    constructor (timeout: int)
      ensures Valid() && sessions == map[] && !closed && this.timeout == timeout
    {
      this.sessions, this.closed, this.timeout := map[], false, timeout;
    }

    method TryAttach(id: string, sec: nat, now: int) returns (reattached: bool)
      requires Valid()
      modifies this
      ensures Valid()
      ensures closed == old(closed)
      ensures reattached == (!closed && Resumes(old(sessions), timeout, id, now))
      ensures sessions == if closed then old(sessions) else Attached(old(sessions), timeout, id, sec, now)
    {
      var override := ClampIdleTimeoutSec(sec);
      if closed {
        return false;
      }
      if id != "" {
        if id in sessions && !Expired(sessions[id], timeout, now) {
          sessions := sessions[id := Session(true, now, override)];
          return true;
        }
      }
      return false;
    }

    method Create(id: string, sec: nat, now: int) returns (ok: bool)
      requires Valid()
      modifies this
      ensures Valid()
      ensures closed == old(closed) && ok == !closed
      ensures sessions == if closed then old(sessions) else Created(old(sessions), id, sec, now)
    {
      if closed {
        return false;
      }
      sessions := sessions[id := Session(true, now, ClampIdleTimeoutSec(sec))];
      return true;
    }

    method Detach(id: string, now: int)
      requires Valid()
      modifies this
      ensures Valid()
      ensures sessions == Detached(old(sessions), id, now) && closed == old(closed)
    {
      if id in sessions {
        sessions := sessions[id := sessions[id].(attached := false, lastActivity := now)];
      }
    }

    method Sweep(now: int) returns (evicted: nat)
      requires Valid()
      modifies this
      ensures Valid()
      ensures sessions == Swept(old(sessions), timeout, now) && closed == old(closed)
      ensures evicted == |old(sessions)| - |sessions|
    {
      hide Expired;
      ghost var was := sessions;
      var expired: set<string> := {};
      var todo := sessions.Keys;
      while todo != {}
        invariant sessions == was && todo <= was.Keys
        invariant expired <= was.Keys - todo
        invariant forall id | id in was && id !in todo :: id in expired <==> Expired(was[id], timeout, now)
        decreases todo
      {
        var id :| id in todo;
        todo := todo - {id};
        if Expired(sessions[id], timeout, now) {
          expired := expired + {id};
        }
      }
      sessions := sessions - expired;
      evicted := |expired|;
      assert sessions == Swept(was, timeout, now);
      RemovedCount(was, expired);
    }

    /** Evicts every session, whether in use or not, and refuses from then on. */
    method Close() returns (evicted: set<string>)
      requires Valid()
      modifies this
      ensures Valid() && closed && sessions == map[]
      ensures evicted == old(sessions).Keys
    {
      if closed {
        return {};
      }
      closed := true;
      evicted := sessions.Keys;
      sessions := map[];
    }
  }

  lemma RemovedCount(m: Sessions, gone: set<string>)
    requires gone <= m.Keys
    ensures |m - gone| == |m| - |gone|
  {
    assert (m - gone).Keys == m.Keys - gone;
    assert |m.Keys - gone| == |m.Keys| - |gone|;
  }

  // --------------------------------------------- when sweeping does not show

  datatype Event =
    | Attach(id: string, sec: nat, now: int)
    | Create(id: string, sec: nat, now: int)
    | Detach(id: string, now: int)
    | Sweep(now: int)

  function Step(m: Sessions, timeout: int, e: Event): Sessions {
    match e
    case Attach(id, sec, now) => Attached(m, timeout, id, sec, now)
    case Create(id, sec, now) => Created(m, id, sec, now)
    case Detach(id, now) => Detached(m, id, now)
    case Sweep(now) => Swept(m, timeout, now)
  }

  function StateAt(timeout: int, es: seq<Event>, i: nat): Sessions
    requires i <= |es|
  {
    if i == 0 then map[] else Step(StateAt(timeout, es, i - 1), timeout, es[i - 1])
  }

  /** The same run with every Sweep left out. */
  function UnsweptAt(timeout: int, es: seq<Event>, i: nat): Sessions
    requires i <= |es|
  {
    if i == 0 then map[]
    else if es[i - 1].Sweep? then UnsweptAt(timeout, es, i - 1)
    else Step(UnsweptAt(timeout, es, i - 1), timeout, es[i - 1])
  }

  ghost predicate Monotone(es: seq<Event>) {
    forall i, j | 0 <= i <= j < |es| :: es[i].now <= es[j].now
  }

  /** Session ids are random: Create never reuses one. */
  ghost predicate FreshIds(timeout: int, es: seq<Event>) {
    forall i | 0 <= i < |es| && es[i].Create? :: es[i].id !in UnsweptAt(timeout, es, i)
  }

  /** A Detach that reaches a session already detached and expired. */
  predicate StaleDetach(timeout: int, m: Sessions, e: Event) {
    e.Detach? && e.id != "" && e.id in m && Expired(m[e.id], timeout, e.now)
  }

  ghost predicate NoStaleDetach(timeout: int, es: seq<Event>) {
    forall i | 0 <= i < |es| :: !StaleDetach(timeout, UnsweptAt(timeout, es, i), es[i])
  }

  /** `m` is `n` without some sessions that have expired by time `t`, as far as a client can name them. */
  ghost predicate UpToExpired(m: Sessions, n: Sessions, timeout: int, t: int) {
    && (forall id | id in m && id != "" :: id in n && n[id] == m[id])
    && (forall id | id in n && id != "" && id !in m :: Expired(n[id], timeout, t))
  }

  lemma LagStep(m: Sessions, n: Sessions, timeout: int, e: Event)
    requires UpToExpired(m, n, timeout, e.now) && !StaleDetach(timeout, n, e)
    requires e.Create? ==> e.id !in n
    ensures UpToExpired(Step(m, timeout, e), if e.Sweep? then n else Step(n, timeout, e), timeout, e.now)
  {
  }

  lemma {:induction false} SweptRunLags(timeout: int, es: seq<Event>, i: nat, t: int)
    requires Monotone(es) && FreshIds(timeout, es) && NoStaleDetach(timeout, es)
    requires i <= |es| && (i > 0 ==> es[i - 1].now <= t)
    ensures UpToExpired(StateAt(timeout, es, i), UnsweptAt(timeout, es, i), timeout, t)
  {
    if i > 0 {
      SweptRunLags(timeout, es, i - 1, es[i - 1].now);
      LagStep(StateAt(timeout, es, i - 1), UnsweptAt(timeout, es, i - 1), timeout, es[i - 1]);
    }
  }

  /** As long as no Detach is stale, sweeps change no answer of AttachOrCreate. */
  lemma SweepTransparent(timeout: int, es: seq<Event>, i: nat)
    requires Monotone(es) && FreshIds(timeout, es) && NoStaleDetach(timeout, es)
    requires i < |es| && es[i].Attach?
    ensures Resumes(StateAt(timeout, es, i), timeout, es[i].id, es[i].now)
         == Resumes(UnsweptAt(timeout, es, i), timeout, es[i].id, es[i].now)
  {
    SweptRunLags(timeout, es, i, es[i].now);
  }

  /** At a stale Detach, a sweep just before it changes the answer of a reconnect just after it. */
  lemma StaleDetachShows(timeout: int, m: Sessions, id: string, now: int)
    requires timeout >= 0 && StaleDetach(timeout, m, Detach(id, now))
    ensures Resumes(Detached(m, id, now), timeout, id, now)
    ensures !Resumes(Detached(Swept(m, timeout, now), id, now), timeout, id, now)
  {
  }

  /** The first `i` events of a run, without its sweeps. */
  function Kept(w: seq<Event>, i: nat): seq<Event>
    requires i <= |w|
  {
    if i == 0 then [] else Kept(w, i - 1) + if w[i - 1].Sweep? then [] else [w[i - 1]]
  }

  lemma {:induction false} KeptGrows(w: seq<Event>, i: nat, j: nat)
    requires i <= j <= |w|
    ensures Kept(w, i) <= Kept(w, j)
    ensures i < j && !w[i].Sweep? ==> |Kept(w, i)| < |Kept(w, j)| && Kept(w, j)[|Kept(w, i)|] == w[i]
  {
    if i < j {
      KeptGrows(w, i, j - 1);
    }
  }

  ghost predicate SweepFree(es: seq<Event>) {
    forall i | 0 <= i < |es| :: !es[i].Sweep?
  }

  lemma {:induction false} UnsweptIsKept(timeout: int, w: seq<Event>, es: seq<Event>, i: nat)
    requires SweepFree(es) && i <= |w| && Kept(w, i) <= es
    ensures UnsweptAt(timeout, w, i) == StateAt(timeout, es, |Kept(w, i)|)
  {
    if i > 0 {
      assert Kept(w, i - 1) <= Kept(w, i);
      UnsweptIsKept(timeout, w, es, i - 1);
      hide Step;
      if !w[i - 1].Sweep? {
        assert es[|Kept(w, i - 1)|] == Kept(w, i)[|Kept(w, i - 1)|] == w[i - 1];
      }
    }
  }

  lemma {:induction false} SweepFreeStates(timeout: int, es: seq<Event>, i: nat)
    requires SweepFree(es) && i <= |es|
    ensures UnsweptAt(timeout, es, i) == StateAt(timeout, es, i)
  {
    if i > 0 {
      SweepFreeStates(timeout, es, i - 1);
    }
  }

  /** The run `w`, a part of `es` with sweeps put in and then a reconnect, is answered differently because of them. */
  ghost predicate Shows(timeout: int, es: seq<Event>, w: seq<Event>) {
    && w != [] && Monotone(w) && w[|w| - 1].Attach? && Kept(w, |w| - 1) <= es
    && var n, a := |w| - 1, w[|w| - 1];
       Resumes(StateAt(timeout, w, n), timeout, a.id, a.now)
       != Resumes(UnsweptAt(timeout, w, n), timeout, a.id, a.now)
  }

  lemma KeptIsDisciplined(timeout: int, es: seq<Event>, w: seq<Event>)
    requires SweepFree(es) && FreshIds(timeout, es) && NoStaleDetach(timeout, es)
    requires w != [] && w[|w| - 1].Attach? && Kept(w, |w| - 1) <= es
    ensures FreshIds(timeout, w) && NoStaleDetach(timeout, w)
  {
    hide UnsweptAt, StateAt, Kept;
    forall i | 0 <= i < |w| - 1 && !w[i].Sweep?
      ensures w[i].Create? ==> w[i].id !in UnsweptAt(timeout, w, i)
      ensures !StaleDetach(timeout, UnsweptAt(timeout, w, i), w[i])
    {
      KeptGrows(w, i, |w| - 1);
      var n := |Kept(w, i)|;
      assert es[n] == w[i];
      UnsweptIsKept(timeout, w, es, i);
      SweepFreeStates(timeout, es, n);
    }
  }

  /** A sweep just before event `i` and a reconnect just after it. */
  function Probe(es: seq<Event>, i: nat): seq<Event>
    requires i < |es| && es[i].Detach?
  {
    es[..i] + [Sweep(es[i].now), es[i], Attach(es[i].id, 0, es[i].now)]
  }

  lemma {:induction false} ProbeBefore(timeout: int, es: seq<Event>, i: nat, j: nat)
    requires SweepFree(es) && i < |es| && es[i].Detach? && j <= i
    ensures
      var w := Probe(es, i);
      && StateAt(timeout, w, j) == UnsweptAt(timeout, w, j) == StateAt(timeout, es, j)
      && Kept(w, j) == es[..j]
  {
    if j > 0 {
      ProbeBefore(timeout, es, i, j - 1);
      hide Step;
      var w := Probe(es, i);
      assert w[j - 1] == es[j - 1];
      assert es[..j] == es[..j - 1] + [es[j - 1]];
    }
  }

  lemma ProbeShows(timeout: int, es: seq<Event>, i: nat)
    requires timeout >= 0 && Monotone(es) && SweepFree(es) && i < |es|
    requires StaleDetach(timeout, StateAt(timeout, es, i), es[i])
    ensures Shows(timeout, es, Probe(es, i))
  {
    var w, m, e := Probe(es, i), StateAt(timeout, es, i), es[i];
    ProbeBefore(timeout, es, i, i);
    assert w[i] == Sweep(e.now) && w[i + 1] == e && w[i + 2] == Attach(e.id, 0, e.now);
    StaleDetachShows(timeout, m, e.id, e.now);
    assert StateAt(timeout, w, i + 1) == Swept(m, timeout, e.now);
    assert StateAt(timeout, w, i + 2) == Detached(Swept(m, timeout, e.now), e.id, e.now);
    assert UnsweptAt(timeout, w, i + 1) == m;
    assert UnsweptAt(timeout, w, i + 2) == Detached(m, e.id, e.now);
    assert Kept(w, i + 1) == es[..i];
    assert Kept(w, i + 2) == es[..i] + [e] == es[..i + 1];
    assert Monotone(w);
  }

  /**
   Exactly when sweeping can be noticed: for a run without sweeps, some way of putting
   sweeps into a part of it changes the answer of a later reconnect if and only if the
   run has a stale Detach.
   */
  lemma SweepsShowIff(timeout: int, es: seq<Event>)
    requires timeout >= 0 && Monotone(es) && FreshIds(timeout, es) && SweepFree(es)
    ensures (exists w :: Shows(timeout, es, w))
            <==> exists i | 0 <= i < |es| :: StaleDetach(timeout, StateAt(timeout, es, i), es[i])
  {
    hide StateAt, UnsweptAt, StaleDetach, Resumes, Kept;
    if i :| 0 <= i < |es| && StaleDetach(timeout, StateAt(timeout, es, i), es[i]) {
      ProbeShows(timeout, es, i);
    } else {
      forall i | 0 <= i < |es|
        ensures !StaleDetach(timeout, UnsweptAt(timeout, es, i), es[i])
      {
        SweepFreeStates(timeout, es, i);
      }
      forall w | Shows(timeout, es, w)
        ensures false
      {
        KeptIsDisciplined(timeout, es, w);
        SweepTransparent(timeout, w, |w| - 1);
      }
    }
  }

  // ------------------------------------------------------- sessions in use

  /** The clients using session `id`: those that created or resumed it and have not left. */
  function Users(timeout: int, es: seq<Event>, id: string, i: nat): int
    requires i <= |es|
  {
    if i == 0 then 0
    else
      Users(timeout, es, id, i - 1) +
      match es[i - 1]
      case Attach(x, _, now) => if x == id && Resumes(StateAt(timeout, es, i - 1), timeout, x, now) then 1 else 0
      case Create(x, _, _) => if x == id then 1 else 0
      case Detach(x, _) => if x == id then -1 else 0
      case Sweep(_) => 0
  }

  /** The session is there and counts as in use. */
  predicate Held(m: Sessions, id: string) {
    id in m && m[id].attached
  }

  /**
   As long as a session has one user at a time, its flag says whether it has one; so
   neither the sweeper nor anybody else takes it away from its user.
   */
  lemma {:induction false} SoleUserKeepsSession(timeout: int, es: seq<Event>, id: string, i: nat)
    requires i <= |es| && forall j | 0 <= j <= i :: 0 <= Users(timeout, es, id, j) <= 1
    ensures Held(StateAt(timeout, es, i), id) <==> Users(timeout, es, id, i) == 1
  {
    if i > 0 {
      SoleUserKeepsSession(timeout, es, id, i - 1);
      var u := Users(timeout, es, id, i);
      assert 0 <= u <= 1;
      UserStep(timeout, es, id, i - 1);
    }
  }

  /** What one event does to the flag. */
  lemma UserStep(timeout: int, es: seq<Event>, id: string, i: nat)
    requires i < |es|
    ensures
      var m, m', d := StateAt(timeout, es, i), StateAt(timeout, es, i + 1),
                      Users(timeout, es, id, i + 1) - Users(timeout, es, id, i);
      && -1 <= d <= 1
      && (d == 1 ==> Held(m', id))
      && (d == -1 ==> es[i].Detach? && !Held(m', id) && (id in m' <==> id in m))
      && (d == 0 ==> (Held(m', id) <==> Held(m, id)))
      && (d == 0 && Held(m, id) ==> m'[id].attached)
  {
  }

  /** A client is using the session, and it is gone. */
  predicate Lost(timeout: int, es: seq<Event>, id: string)
  {
    Users(timeout, es, id, |es|) >= 1 && id !in StateAt(timeout, es, |es|)
  }

  /** `run` goes on from `es` with nothing but clients leaving and the sweeper, and no client leaves twice. */
  ghost predicate Departures(timeout: int, es: seq<Event>, run: seq<Event>, id: string) {
    es <= run && forall i | |es| <= i < |run| :: Departs(timeout, run, id, i)
  }

  predicate Departs(timeout: int, run: seq<Event>, id: string, i: nat)
    requires i < |run|
  {
    && (run[i].Detach? || run[i].Sweep?) && Users(timeout, run, id, i + 1) >= 0
    && (i > 0 ==> run[i - 1].now <= run[i].now)
  }

  lemma {:induction false} SamePrefix(timeout: int, es: seq<Event>, run: seq<Event>, id: string, i: nat)
    requires es <= run && i <= |es|
    ensures StateAt(timeout, run, i) == StateAt(timeout, es, i)
    ensures Users(timeout, run, id, i) == Users(timeout, es, id, i)
  {
    if i > 0 {
      SamePrefix(timeout, es, run, id, i - 1);
      assert run[i - 1] == es[i - 1];
      hide Step;
    }
  }

  /** While clients only leave, users do not become more, and a held session with its user still there stays held. */
  lemma {:induction false} HeldWhileUsed(timeout: int, es: seq<Event>, run: seq<Event>, id: string, i: nat)
    requires Departures(timeout, es, run, id) && |es| <= i <= |run|
    ensures Users(timeout, run, id, i) <= Users(timeout, es, id, |es|)
    ensures Held(StateAt(timeout, es, |es|), id) && Users(timeout, run, id, i) == Users(timeout, es, id, |es|)
            ==> Held(StateAt(timeout, run, i), id)
  {
    if i == |es| {
      SamePrefix(timeout, es, run, id, i);
    } else {
      HeldWhileUsed(timeout, es, run, id, i - 1);
      assert Departs(timeout, run, id, i - 1);
      UserStep(timeout, run, id, i - 1);
      hide StateAt;
    }
  }

  /** A user can lose the session: either it shares it, or an earlier user's leaving has cleared the flag. */
  predicate AtRisk(timeout: int, es: seq<Event>, id: string) {
    var u := Users(timeout, es, id, |es|);
    u >= 2 || (u == 1 && !Held(StateAt(timeout, es, |es|), id))
  }

  /** A time at which the sweeper takes session `id` of `m` if it is not held. */
  function Overdue(timeout: int, m: Sessions, id: string, now: int): (t: int)
    ensures t >= now
    ensures id in m && !m[id].attached && m[id].lastActivity <= now ==> Expired(m[id], timeout, t)
  {
    if id in m then now + (if EffectiveTimeout(m[id], timeout) > 0 then EffectiveTimeout(m[id], timeout) else 0) + 1
    else now
  }

  lemma {:induction false} ActivityIsPast(timeout: int, es: seq<Event>, id: string, i: nat, now: int)
    requires i <= |es| && forall j | 0 <= j < i :: es[j].now <= now
    ensures id in StateAt(timeout, es, i) ==> StateAt(timeout, es, i)[id].lastActivity <= now
  {
    if i > 0 {
      ActivityIsPast(timeout, es, id, i - 1, now);
    }
  }

  /** An unheld session in use is lost at the next sweep after its timeout. */
  lemma SweepLoses(timeout: int, es: seq<Event>, id: string, now: int) returns (run: seq<Event>)
    requires Users(timeout, es, id, |es|) >= 1 && !Held(StateAt(timeout, es, |es|), id)
    requires forall j | 0 <= j < |es| :: es[j].now <= now
    ensures Departures(timeout, es, run, id) && Lost(timeout, run, id)
  {
    var m := StateAt(timeout, es, |es|);
    var t := Overdue(timeout, m, id, now);
    run := es + [Sweep(t)];
    assert run[..|es|] == es;
    SamePrefix(timeout, es, run, id, |es|);
    ActivityIsPast(timeout, es, id, |es|, now);
    assert StateAt(timeout, run, |run|) == Swept(m, timeout, t);
    assert Users(timeout, run, id, |run|) == Users(timeout, es, id, |es|);
  }

  lemma DetachThenSweepLoses(timeout: int, es: seq<Event>, id: string, now: int) returns (run: seq<Event>)
    requires Users(timeout, es, id, |es|) >= 2
    requires forall j | 0 <= j < |es| :: es[j].now <= now
    ensures Departures(timeout, es, run, id) && Lost(timeout, run, id)
  {
    var es' := es + [Detach(id, now)];
    SamePrefix(timeout, es, es', id, |es|);
    assert Users(timeout, es', id, |es'|) == Users(timeout, es, id, |es|) - 1;
    assert StateAt(timeout, es', |es'|) == Detached(StateAt(timeout, es, |es|), id, now);
    run := SweepLoses(timeout, es', id, now);
    SamePrefix(timeout, es', run, id, |es'|);
    hide StateAt;
    forall i | |es| <= i < |run|
      ensures Departs(timeout, run, id, i)
    {
      if i == |es| {
        assert run[i] == es'[i];
      }
    }
  }

  /**
   Exactly when a client can lose the session it is using, with nothing happening but
   other clients leaving and the sweeper: when the session is shared, or when it is not
   marked as attached any more.
   */
  lemma LossPossibleIff(timeout: int, es: seq<Event>, id: string, now: int)
    requires forall j | 0 <= j < |es| :: es[j].now <= now
    ensures (exists run :: Departures(timeout, es, run, id) && Lost(timeout, run, id))
            <==> AtRisk(timeout, es, id)
  {
    var u := Users(timeout, es, id, |es|);
    if u >= 2 {
      var run := DetachThenSweepLoses(timeout, es, id, now);
    } else if AtRisk(timeout, es, id) {
      var run := SweepLoses(timeout, es, id, now);
    } else {
      forall run | Departures(timeout, es, run, id) && Lost(timeout, run, id)
        ensures false
      {
        HeldWhileUsed(timeout, es, run, id, |run|);
      }
    }
  }

  /** Two clients share a session and one leaves. */
  function SharedRun(timeout: int, id: string): seq<Event> {
    [Create(id, 0, 0), Attach(id, 0, 0), Detach(id, 0), Sweep(timeout + 1)]
  }

  /** The sweeper then takes it away from the other. */
  lemma SharedSessionSweptInUse(timeout: int, id: string)
    requires timeout >= 0 && id != ""
    ensures
      var es := SharedRun(timeout, id);
      && Users(timeout, es, id, 2) == 2 && Users(timeout, es, id, 3) == 1
      && id in StateAt(timeout, es, 3) && Lost(timeout, es, id)
  {
    var es := SharedRun(timeout, id);
    assert es[0] == Create(id, 0, 0) && es[1] == Attach(id, 0, 0) && es[2] == Detach(id, 0) && es[3] == Sweep(timeout + 1);
    assert StateAt(timeout, es, 0) == map[];
    assert StateAt(timeout, es, 1) == map[id := Session(true, 0, 0)] && Users(timeout, es, id, 1) == 1;
    assert StateAt(timeout, es, 2) == map[id := Session(true, 0, 0)] && Users(timeout, es, id, 2) == 2;
    assert StateAt(timeout, es, 3) == map[id := Session(false, 0, 0)] && Users(timeout, es, id, 3) == 1;
    assert id !in StateAt(timeout, es, 4) && Users(timeout, es, id, 4) == 1;
  }

  // ------------------------------------------- when a session is still there

  /** Event `j` gives session `id` to a client: it creates it, or is an Attach that resumes it. */
  predicate Takes(timeout: int, es: seq<Event>, id: string, j: nat)
    ensures Takes(timeout, es, id, j) ==> j < |es| && (es[j].Create? || es[j].Attach?)
  {
    && j < |es| && (es[j].Create? || es[j].Attach?) && es[j].id == id
    && (es[j].Attach? ==> Resumes(StateAt(timeout, es, j), timeout, id, es[j].now))
  }

  predicate LeavesAt(es: seq<Event>, id: string, d: nat) {
    d < |es| && es[d].Detach? && es[d].id == id
  }

  /** Event `j` was the last to give the session to a client, and nobody has left it since. */
  ghost predicate Busy(timeout: int, es: seq<Event>, id: string, j: nat, i: nat) {
    && j < i && Takes(timeout, es, id, j)
    && forall k: nat | j < k < i :: !Takes(timeout, es, id, k) && !LeavesAt(es, id, k)
  }

  /** Event `j` was the last to give the session to a client, and `d` the last to leave it. */
  ghost predicate Idle(timeout: int, es: seq<Event>, id: string, j: nat, d: nat, i: nat) {
    && j < d < i && Takes(timeout, es, id, j) && LeavesAt(es, id, d)
    && (forall k: nat | j < k < i :: !Takes(timeout, es, id, k))
    && (forall k: nat | d < k < i :: !LeavesAt(es, id, k))
  }

  /** The session's fields say which of the two it is, since when, and for how long it may be. */
  ghost predicate Describes(timeout: int, es: seq<Event>, id: string, i: nat, s: Session) {
    if s.attached then
      exists j: nat :: Busy(timeout, es, id, j, i) && EffectiveTimeout(s, timeout) == Limit(es[j].sec, timeout)
    else
      exists j: nat, d: nat ::
        && Idle(timeout, es, id, j, d, i)
        && s.lastActivity == es[d].now && EffectiveTimeout(s, timeout) == Limit(es[j].sec, timeout)
  }

  lemma DescribesStep(timeout: int, es: seq<Event>, id: string, i: nat, s: Session, s': Session)
    requires i < |es| && Describes(timeout, es, id, i, s)
    requires !Takes(timeout, es, id, i)
    requires s' == if LeavesAt(es, id, i) then s.(attached := false, lastActivity := es[i].now) else s
    ensures Describes(timeout, es, id, i + 1, s')
  {
    hide Takes, StateAt;
    if s.attached {
      var j: nat :| Busy(timeout, es, id, j, i) && EffectiveTimeout(s, timeout) == Limit(es[j].sec, timeout);
      assert if s'.attached then Busy(timeout, es, id, j, i + 1) else Idle(timeout, es, id, j, i, i + 1);
    } else {
      var j: nat, d: nat :| Idle(timeout, es, id, j, d, i)
        && s.lastActivity == es[d].now && EffectiveTimeout(s, timeout) == Limit(es[j].sec, timeout);
      assert Idle(timeout, es, id, j, if LeavesAt(es, id, i) then i else d, i + 1);
    }
  }

  /** What one event does to session `id`. */
  lemma SessionStep(timeout: int, es: seq<Event>, id: string, i: nat)
    requires i < |es|
    ensures
      var m, m' := StateAt(timeout, es, i), StateAt(timeout, es, i + 1);
      if Takes(timeout, es, id, i) then
        id in m' && m'[id] == Session(true, es[i].now, ClampIdleTimeoutSec(es[i].sec))
      else if es[i].Sweep? then
        (id in m' <==> id in m && !Expired(m[id], timeout, es[i].now)) && (id in m' ==> m'[id] == m[id])
      else
        (id in m' <==> id in m)
        && (id in m ==> m'[id] == if LeavesAt(es, id, i) then m[id].(attached := false, lastActivity := es[i].now) else m[id])
  {
  }

  lemma {:induction false} SessionIs(timeout: int, es: seq<Event>, id: string, i: nat)
    requires i <= |es| && id in StateAt(timeout, es, i)
    ensures Describes(timeout, es, id, i, StateAt(timeout, es, i)[id])
  {
    if i > 0 {
      SessionStep(timeout, es, id, i - 1);
      hide StateAt, Expired;
      if Takes(timeout, es, id, i - 1) {
        assert Busy(timeout, es, id, i - 1, i);
      } else {
        SessionIs(timeout, es, id, i - 1);
        DescribesStep(timeout, es, id, i - 1, StateAt(timeout, es, i - 1)[id], StateAt(timeout, es, i)[id]);
      }
    }
  }

  /** At time `now` the session has been left for longer than its last client asked for. */
  ghost predicate OverLimit(timeout: int, es: seq<Event>, id: string, i: nat, now: int) {
    exists j: nat, d: nat :: Idle(timeout, es, id, j, d, i) && now - es[d].now > Limit(es[j].sec, timeout)
  }

  lemma SameIdle(timeout: int, es: seq<Event>, id: string, j: nat, d: nat, j': nat, d': nat, i: nat)
    requires Idle(timeout, es, id, j, d, i) && Idle(timeout, es, id, j', d', i)
    ensures j == j' && d == d'
  {
    hide Takes;
  }

  lemma NotBusyAndIdle(timeout: int, es: seq<Event>, id: string, j: nat, j': nat, d: nat, i: nat)
    requires Busy(timeout, es, id, j, i)
    ensures !Idle(timeout, es, id, j', d, i)
  {
    hide Takes;
  }

  /** A stored session has expired exactly if its last client left it for longer than the limit it asked for. */
  lemma ExpiredIff(timeout: int, es: seq<Event>, id: string, i: nat, now: int)
    requires i <= |es| && id in StateAt(timeout, es, i)
    ensures Expired(StateAt(timeout, es, i)[id], timeout, now) <==> OverLimit(timeout, es, id, i, now)
  {
    SessionIs(timeout, es, id, i);
    var s := StateAt(timeout, es, i)[id];
    hide StateAt, Busy, Idle, Limit, EffectiveTimeout;
    if s.attached {
      var j: nat :| Busy(timeout, es, id, j, i);
      forall j': nat, d: nat
        ensures !Idle(timeout, es, id, j', d, i)
      {
        NotBusyAndIdle(timeout, es, id, j, j', d, i);
      }
    } else {
      var j: nat, d: nat :| Idle(timeout, es, id, j, d, i)
        && s.lastActivity == es[d].now && EffectiveTimeout(s, timeout) == Limit(es[j].sec, timeout);
      forall j': nat, d': nat | Idle(timeout, es, id, j', d', i)
        ensures j' == j && d' == d
      {
        SameIdle(timeout, es, id, j, d, j', d', i);
      }
    }
  }

  /** Created by event `j`, and no sweep since has found it over its limit. */
  ghost predicate KeptSince(timeout: int, es: seq<Event>, id: string, j: nat, i: nat)
    requires i <= |es|
  {
    && j < i && es[j].Create? && es[j].id == id
    && forall k: nat | j < k < i && es[k].Sweep? :: !OverLimit(timeout, es, id, k, es[k].now)
  }

  ghost predicate Present(timeout: int, es: seq<Event>, id: string, i: nat)
    requires i <= |es|
  {
    exists j: nat :: KeptSince(timeout, es, id, j, i)
  }

  lemma PresentGrows(timeout: int, es: seq<Event>, id: string, i: nat)
    requires i < |es|
    ensures Present(timeout, es, id, i + 1) <==>
      || (es[i].Create? && es[i].id == id)
      || (Present(timeout, es, id, i) && (es[i].Sweep? ==> !OverLimit(timeout, es, id, i, es[i].now)))
  {
    hide OverLimit;
    if es[i].Create? && es[i].id == id {
      assert KeptSince(timeout, es, id, i, i + 1);
    }
    if Present(timeout, es, id, i) {
      var j: nat :| KeptSince(timeout, es, id, j, i);
      assert KeptSince(timeout, es, id, j, i + 1) || (es[i].Sweep? && OverLimit(timeout, es, id, i, es[i].now));
    }
    if Present(timeout, es, id, i + 1) {
      var j: nat :| KeptSince(timeout, es, id, j, i + 1);
      assert j < i ==> KeptSince(timeout, es, id, j, i);
    }
  }

  /**
   In every run a session is stored exactly if it was created and no sweep since has
   found it left, by the latest Detach after it was last taken, for longer than that
   client asked for.
   */
  lemma {:induction false} PresentIff(timeout: int, es: seq<Event>, id: string, i: nat)
    requires i <= |es|
    ensures id in StateAt(timeout, es, i) <==> Present(timeout, es, id, i)
  {
    if i > 0 {
      PresentIff(timeout, es, id, i - 1);
      SessionStep(timeout, es, id, i - 1);
      PresentGrows(timeout, es, id, i - 1);
      if id in StateAt(timeout, es, i - 1) {
        ExpiredIff(timeout, es, id, i - 1, es[i - 1].now);
      }
      hide StateAt, OverLimit, Present, Expired;
    }
  }

  /** A reconnect resumes exactly the sessions that are stored and not over their limit. */
  lemma ResumesIff(timeout: int, es: seq<Event>, i: nat)
    requires i < |es| && es[i].Attach?
    ensures Resumes(StateAt(timeout, es, i), timeout, es[i].id, es[i].now) <==>
      && es[i].id != "" && Present(timeout, es, es[i].id, i)
      && !OverLimit(timeout, es, es[i].id, i, es[i].now)
  {
    PresentIff(timeout, es, es[i].id, i);
    if es[i].id in StateAt(timeout, es, i) {
      ExpiredIff(timeout, es, es[i].id, i, es[i].now);
    }
    hide StateAt, OverLimit, Present, Expired;
  }
}
