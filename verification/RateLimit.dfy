/**
 The token buckets of server/ratelimit/ratelimit.go: one bucket per key, refilled
 lazily, with idle keys pruned during other keys' calls.

 The reference limiter `KeyStep` has one bucket, sees one key's calls only and never
 forgets.  Tokens and times (in seconds) are reals.
 */
module RateLimit {
  import opened Bytes

  datatype Config = Config(rate: real, capacity: real)

  datatype Entry = Entry(tokens: real, last: real)

  type Buckets = map<string, Entry>

  const IDLE_TTL: real := 600.0  // ten minutes

  function Get(m: Buckets, key: string): Option<Entry> {
    if key in m then Some(m[key]) else None
  }

  /** The tokens that `dt` seconds earn. */
  function Earned(c: Config, dt: real): real {
    dt * c.rate
  }

  lemma EarnedSum(c: Config, a: real, b: real)
    ensures Earned(c, a + b) == Earned(c, a) + Earned(c, b)
    ensures Earned(c, 0.0) == 0.0
  {
  }

  lemma EarnedMono(c: Config, a: real, b: real)
    requires c.rate >= 0.0 && a <= b
    ensures Earned(c, a) <= Earned(c, b)
    ensures a >= 0.0 ==> Earned(c, a) >= 0.0
  {
  }

  /** A bucket idle for longer than the idle time refills completely. */
  predicate RefillsWhileIdle(c: Config) {
    Earned(c, IDLE_TTL) >= c.capacity
  }

  /** The tokens available to a key at time `now`, before the call consumes one. */
  function Level(c: Config, e: Option<Entry>, now: real): (r: real)
    ensures r <= c.capacity
  {
    match e
    case None => c.capacity
    case Some(e) =>
      var t := e.tokens + Earned(c, now - e.last);
      if t > c.capacity then c.capacity else t
  }

  /** The reference: one call against one bucket that is never pruned. */
  function KeyStep(c: Config, e: Option<Entry>, now: real): (Entry, bool) {
    var t := Level(c, e, now);
    if t < 1.0 then (Entry(t, now), false) else (Entry(t - 1.0, now), true)
  }

  function Pruned(m: Buckets, now: real): Buckets {
    map k | k in m && !(now - m[k].last > IDLE_TTL) :: m[k]
  }

  /** One call of Allow: refill, prune every idle key, consume. */
  function AllowStep(c: Config, m: Buckets, key: string, now: real): (Buckets, bool) {
    var t := Level(c, Get(m, key), now);
    var kept := Pruned(m[key := Entry(t, now)], now);
    if t < 1.0 then (kept, false) else (kept[key := Entry(t - 1.0, now)], true)
  }

  class Bucket {
    const rate: real
    const capacity: real
    var entries: Buckets

    constructor (rate: real, capacity: real)
      ensures this.rate == rate && this.capacity == capacity && entries == map[]
    {
      this.rate, this.capacity, this.entries := rate, capacity, map[];
    }

    method Allow(key: string, now: real) returns (ok: bool)
      modifies this
      ensures (entries, ok) == AllowStep(Config(rate, capacity), old(entries), key, now)
    {
      var tokens := capacity;
      if key in entries {
        var e := entries[key];
        tokens := e.tokens + Earned(Config(rate, capacity), now - e.last);
        if tokens > capacity {
          tokens := capacity;
        }
      }
      entries := entries[key := Entry(tokens, now)];
      Prune(now);
      if tokens < 1.0 {
        return false;
      }
      entries := entries[key := Entry(tokens - 1.0, now)];
      return true;
    }

    method Prune(now: real)
      modifies this
      ensures entries == Pruned(old(entries), now)
    {
      ghost var m := entries;
      var todo := entries.Keys;
      while todo != {}
        invariant todo <= m.Keys
        invariant entries == map k | k in m && (k in todo || !(now - m[k].last > IDLE_TTL)) :: m[k]
        decreases todo
      {
        var k :| k in todo;
        todo := todo - {k};
        if now - entries[k].last > IDLE_TTL {
          entries := entries - {k};
        }
      }
    }
  }

  // --------------------------------------------------------------- traces

  datatype Call = Call(key: string, now: real)

  ghost predicate Monotone(calls: seq<Call>) {
    forall i, j | 0 <= i <= j < |calls| :: calls[i].now <= calls[j].now
  }

  function StateAt(c: Config, calls: seq<Call>, i: nat): Buckets
    requires i <= |calls|
  {
    if i == 0 then map[]
    else AllowStep(c, StateAt(c, calls, i - 1), calls[i - 1].key, calls[i - 1].now).0
  }

  /** What the i-th call of the trace returns. */
  function Answer(c: Config, calls: seq<Call>, i: nat): bool
    requires i < |calls|
  {
    AllowStep(c, StateAt(c, calls, i), calls[i].key, calls[i].now).1
  }

  /** The reference bucket of `key` after the first `i` calls: only its own calls matter. */
  function KeyState(c: Config, calls: seq<Call>, key: string, i: nat): Option<Entry>
    requires i <= |calls|
  {
    if i == 0 then None
    else
      var e := KeyState(c, calls, key, i - 1);
      if calls[i - 1].key == key then Some(KeyStep(c, e, calls[i - 1].now).0) else e
  }

  function KeyAnswer(c: Config, calls: seq<Call>, i: nat): bool
    requires i < |calls|
  {
    KeyStep(c, KeyState(c, calls, calls[i].key, i), calls[i].now).1
  }

  /** What a call does to the entry of `key`: its own step, or perhaps pruning. */
  lemma AllowOnKey(c: Config, m: Buckets, call: Call, key: string)
    ensures
      var r := AllowStep(c, m, call.key, call.now);
      && (call.key == key ==>
            && Get(r.0, key) == Some(KeyStep(c, Get(m, key), call.now).0)
            && r.1 == KeyStep(c, Get(m, key), call.now).1)
      && (call.key != key ==>
            Get(r.0, key) == if key in m && call.now - m[key].last > IDLE_TTL then None else Get(m, key))
  {
  }

  /** A forgotten bucket and one that has refilled to the brim behave alike. */
  ghost predicate Alike(c: Config, e: Option<Entry>, ref: Option<Entry>, t: real) {
    && (e == ref || (e.None? && Level(c, ref, t) == c.capacity))
    && (ref.Some? ==> ref.value.last <= t && (ref.value.tokens >= 0.0 || ref.value.tokens >= c.capacity))
  }

  lemma AlikeLater(c: Config, e: Option<Entry>, ref: Option<Entry>, t: real, t': real)
    requires Alike(c, e, ref, t) && t <= t' && c.rate >= 0.0
    ensures Alike(c, e, ref, t') && Level(c, e, t') == Level(c, ref, t')
  {
    hide Earned;
    if ref.Some? {
      EarnedMono(c, t - ref.value.last, t' - ref.value.last);
    }
  }

  lemma AlikeStep(c: Config, m: Buckets, ref: Option<Entry>, key: string, call: Call, t: real)
    requires c.rate >= 0.0 && RefillsWhileIdle(c)
    requires Alike(c, Get(m, key), ref, t) && t <= call.now
    ensures
      var ref' := if call.key == key then Some(KeyStep(c, ref, call.now).0) else ref;
      Alike(c, Get(AllowStep(c, m, call.key, call.now).0, key), ref', call.now)
  {
    hide AllowStep, Earned;
    AllowOnKey(c, m, call, key);
    AlikeLater(c, Get(m, key), ref, t, call.now);
    if ref.Some? {
      EarnedMono(c, 0.0, call.now - ref.value.last);
      EarnedSum(c, 0.0, 0.0);
    }
    if key in m && call.now - m[key].last > IDLE_TTL {
      EarnedMono(c, IDLE_TTL, call.now - m[key].last);
    }
  }

  function TimeAt(calls: seq<Call>, i: nat): real
    requires i <= |calls| && calls != []
  {
    if i == 0 then calls[0].now else calls[i - 1].now
  }

  lemma {:induction false} AlwaysAlike(c: Config, calls: seq<Call>, key: string, i: nat)
    requires c.rate >= 0.0 && RefillsWhileIdle(c) && Monotone(calls)
    requires i <= |calls| && calls != []
    ensures Alike(c, Get(StateAt(c, calls, i), key), KeyState(c, calls, key, i), TimeAt(calls, i))
  {
    if i > 0 {
      hide AllowStep, Alike;
      AlwaysAlike(c, calls, key, i - 1);
      AlikeStep(c, StateAt(c, calls, i - 1), KeyState(c, calls, key, i - 1), key, calls[i - 1], TimeAt(calls, i - 1));
    }
  }

  /** With capacity below one token nothing is ever admitted, pruned or not. */
  lemma NeverAdmits(c: Config, calls: seq<Call>, i: nat)
    requires c.capacity < 1.0 && i < |calls|
    ensures !Answer(c, calls, i) && !KeyAnswer(c, calls, i)
  {
  }

  /**
   Pruning does not show and keys do not affect one another: when a bucket refills
   within the idle time, every answer is the one the key's own, never pruned bucket
   gives.
   */
  lemma PruningUnobservable(c: Config, calls: seq<Call>, i: nat)
    requires c.rate >= 0.0 && (c.capacity < 1.0 || RefillsWhileIdle(c))
    requires Monotone(calls) && i < |calls|
    ensures Answer(c, calls, i) == KeyAnswer(c, calls, i)
  {
    if c.capacity < 1.0 {
      NeverAdmits(c, calls, i);
    } else {
      var key := calls[i].key;
      AlwaysAlike(c, calls, key, i);
      hide StateAt, KeyState, AllowStep;
      AlikeLater(c, Get(StateAt(c, calls, i), key), KeyState(c, calls, key, i), TimeAt(calls, i), calls[i].now);
      AllowOnKey(c, StateAt(c, calls, i), calls[i], key);
    }
  }

  // ------------------------------------------------- and only then: a witness

  function KeyRun(c: Config, e: Option<Entry>, times: seq<real>, j: nat): Option<Entry>
    requires j <= |times|
  {
    if j == 0 then e else Some(KeyStep(c, KeyRun(c, e, times, j - 1), times[j - 1]).0)
  }

  lemma {:induction false} KeyRunShift(c: Config, e: Option<Entry>, t: real, rest: seq<real>, j: nat)
    requires j <= |rest|
    ensures KeyRun(c, e, [t] + rest, j + 1) == KeyRun(c, Some(KeyStep(c, e, t).0), rest, j)
  {
    if j == 0 {
      assert KeyRun(c, e, [t] + rest, 0) == e;
    } else {
      KeyRunShift(c, e, t, rest, j - 1);
    }
  }

  /** Call times that tell a bucket at level `y` from one at a lower level `z`. */
  function Probe(c: Config, y: real, z: real, t: real): (times: seq<real>)
    requires c.rate > 0.0 || z < 1.0 <= y
    ensures times != []
    decreases if y < 1.0 then 0 else y.Floor
  {
    if y < 1.0 then [t + (1.0 - y) / c.rate]
    else if z < 1.0 then [t]
    else [t] + Probe(c, y - 1.0, z - 1.0, t)
  }

  ghost predicate ToldApartAt(c: Config, p: Option<Entry>, q: Option<Entry>, times: seq<real>, j: nat) {
    && j < |times|
    && KeyStep(c, KeyRun(c, p, times, j), times[j]).1 != KeyStep(c, KeyRun(c, q, times, j), times[j]).1
  }

  /** Waiting just long enough to earn what is missing from `y` to one token. */
  lemma WaitForOne(c: Config, e: Option<Entry>, t: real, y: real)
    requires c.rate > 0.0 && c.capacity >= 1.0 && y < 1.0 && Level(c, e, t) <= y
    ensures Level(c, e, t + (1.0 - y) / c.rate) == Level(c, e, t) + (1.0 - y)
  {
    var w := (1.0 - y) / c.rate;
    assert Earned(c, w) == 1.0 - y;
    hide Earned;
    if e.Some? {
      EarnedSum(c, t - e.value.last, w);
      assert t + w - e.value.last == t - e.value.last + w;
    }
  }

  lemma SpendOne(c: Config, e: Option<Entry>, t: real)
    requires Level(c, e, t) >= 1.0
    ensures Level(c, Some(KeyStep(c, e, t).0), t) == Level(c, e, t) - 1.0
  {
    EarnedSum(c, 0.0, 0.0);
    hide Earned;
  }

  lemma WaitTellsApart(c: Config, p: Option<Entry>, q: Option<Entry>, y: real, z: real, t: real)
    requires c.capacity >= 1.0 && c.rate > 0.0 && z < y < 1.0
    requires Level(c, p, t) == y && Level(c, q, t) == z
    ensures ToldApartAt(c, p, q, [t + (1.0 - y) / c.rate], 0)
  {
    WaitForOne(c, p, t, y);
    WaitForOne(c, q, t, y);
  }

  lemma {:induction false} ProbeTellsApart(c: Config, p: Option<Entry>, q: Option<Entry>, y: real, z: real, t: real)
    requires c.capacity >= 1.0 && (c.rate > 0.0 || z < 1.0 <= y)
    requires Level(c, p, t) == y && Level(c, q, t) == z && z < y
    ensures exists j: nat :: ToldApartAt(c, p, q, Probe(c, y, z, t), j)
    decreases if y < 1.0 then 0 else y.Floor
  {
    hide Level;
    var times := Probe(c, y, z, t);
    if y < 1.0 {
      WaitTellsApart(c, p, q, y, z, t);
      assert ToldApartAt(c, p, q, times, 0);
    } else if z < 1.0 {
      assert ToldApartAt(c, p, q, times, 0);
    } else {
      hide KeyStep;
      var p', q' := Some(KeyStep(c, p, t).0), Some(KeyStep(c, q, t).0);
      SpendOne(c, p, t);
      SpendOne(c, q, t);
      ProbeTellsApart(c, p', q', y - 1.0, z - 1.0, t);
      var rest := Probe(c, y - 1.0, z - 1.0, t);
      var j: nat :| ToldApartAt(c, p', q', rest, j);
      KeyRunShift(c, p, t, rest, j);
      KeyRunShift(c, q, t, rest, j);
      assert times[j + 1] == rest[j];
      assert ToldApartAt(c, p, q, times, j + 1);
    }
  }

  /** While only `key` calls, the limiter and the reference both just run its bucket. */
  lemma {:induction false} OwnStretch(c: Config, calls: seq<Call>, key: string, base: nat, times: seq<real>, j: nat)
    requires j <= |times| && base + |times| <= |calls|
    requires forall i | 0 <= i < |times| :: calls[base + i] == Call(key, times[i])
    ensures Get(StateAt(c, calls, base + j), key) == KeyRun(c, Get(StateAt(c, calls, base), key), times, j)
    ensures KeyState(c, calls, key, base + j) == KeyRun(c, KeyState(c, calls, key, base), times, j)
  {
    hide AllowStep, KeyStep;
    if j > 0 {
      OwnStretch(c, calls, key, base, times, j - 1);
      AllowOnKey(c, StateAt(c, calls, base + j - 1), calls[base + j - 1], key);
    }
  }

  const KEY := "a"
  const OTHER := "b"

  /** Call times that spend the whole capacity, down to zero when tokens do come back. */
  function DrainTimes(c: Config): (times: seq<real>)
    requires c.capacity >= 1.0 && c.rate >= 0.0
    ensures |times| >= 1
  {
    var n := c.capacity.Floor;
    var spent := seq(n, i => 0.0);
    if c.rate > 0.0 then spent + [(1.0 - (c.capacity - n as real)) / c.rate] else spent
  }

  function Drained(c: Config): Entry
    requires c.capacity >= 1.0 && c.rate >= 0.0
  {
    var f := c.capacity - c.capacity.Floor as real;
    if c.rate > 0.0 then Entry(0.0, (1.0 - f) / c.rate) else Entry(f, 0.0)
  }

  lemma {:induction false} SpendBurst(c: Config, times: seq<real>, j: nat)
    requires c.capacity >= 1.0 && 1 <= j <= |times| && j <= c.capacity.Floor
    requires forall i | 0 <= i < j :: times[i] == 0.0
    ensures KeyRun(c, None, times, j) == Some(Entry(c.capacity - j as real, 0.0))
  {
    if j == 1 {
      assert KeyRun(c, None, times, 0) == None;
    } else {
      SpendBurst(c, times, j - 1);
      EarnedSum(c, 0.0, 0.0);
      hide Earned;
      assert 0.0 - 0.0 == 0.0;
    }
  }

  lemma DrainDrains(c: Config)
    requires c.capacity >= 1.0 && c.rate >= 0.0
    ensures KeyRun(c, None, DrainTimes(c), |DrainTimes(c)|) == Some(Drained(c))
  {
    var n, times := c.capacity.Floor, DrainTimes(c);
    var f := c.capacity - n as real;
    SpendBurst(c, times, n);
    if c.rate > 0.0 {
      var e := Some(Entry(f, 0.0));
      assert KeyRun(c, None, times, n) == e;
      EarnedSum(c, 0.0, 0.0);
      hide Earned;
      assert 0.0 - 0.0 == 0.0 && Level(c, e, 0.0) == f;
      WaitForOne(c, e, 0.0, f);
      assert 0.0 + (1.0 - f) / c.rate == (1.0 - f) / c.rate;
      assert Level(c, e, (1.0 - f) / c.rate) == 1.0;
    }
  }

  /** A moment at which the drained key has been idle long enough to be pruned, yet is not full. */
  function PruneTime(c: Config): real
    requires c.capacity >= 1.0 && c.rate >= 0.0
  {
    Drained(c).last + IDLE_TTL + (if c.rate > 0.0 then (c.capacity - Earned(c, IDLE_TTL)) / (2.0 * c.rate) else 1.0)
  }

  lemma StillNotFull(c: Config)
    requires c.capacity >= 1.0 && c.rate >= 0.0 && !RefillsWhileIdle(c)
    ensures PruneTime(c) - Drained(c).last > IDLE_TTL
    ensures
      var z := Level(c, Some(Drained(c)), PruneTime(c));
      z < c.capacity && (c.rate == 0.0 ==> z < 1.0)
  {
    var d := Drained(c);
    var wait := PruneTime(c) - d.last;
    if c.rate > 0.0 {
      var eps := (c.capacity - Earned(c, IDLE_TTL)) / (2.0 * c.rate);
      HalfTheGap(c, eps);
      assert wait == IDLE_TTL + eps;
      EarnedSum(c, IDLE_TTL, eps);
      hide Earned;
    } else {
      assert Earned(c, wait) == 0.0;
      hide Earned;
    }
  }

  lemma HalfTheGap(c: Config, eps: real)
    requires c.rate > 0.0 && !RefillsWhileIdle(c)
    requires eps == (c.capacity - Earned(c, IDLE_TTL)) / (2.0 * c.rate)
    ensures eps > 0.0 && Earned(c, eps) == (c.capacity - Earned(c, IDLE_TTL)) / 2.0
  {
    var gap := c.capacity - Earned(c, IDLE_TTL);
    hide Earned;
    assert eps * (2.0 * c.rate) == gap;
    HalveProduct(c, eps, gap);
    if eps <= 0.0 {
      EarnedMono(c, eps, 0.0);
      EarnedSum(c, 0.0, 0.0);
    }
  }

  lemma HalveProduct(c: Config, eps: real, gap: real)
    requires eps * (2.0 * c.rate) == gap
    ensures Earned(c, eps) == gap / 2.0
  {
    assert eps * (2.0 * c.rate) == 2.0 * (eps * c.rate);
  }

  function OnKey(key: string, times: seq<real>): seq<Call> {
    seq(|times|, i requires 0 <= i < |times| => Call(key, times[i]))
  }

  /** Drain a key, let another key's call prune it, then probe it. */
  function Witness(c: Config): seq<Call>
    requires c.capacity >= 1.0 && c.rate >= 0.0 && !RefillsWhileIdle(c)
  {
    StillNotFull(c);
    var t := PruneTime(c);
    OnKey(KEY, DrainTimes(c)) + [Call(OTHER, t)]
    + OnKey(KEY, Probe(c, c.capacity, Level(c, Some(Drained(c)), t), t))
  }

  ghost predicate NonDecreasing(times: seq<real>) {
    forall i, j | 0 <= i <= j < |times| :: times[i] <= times[j]
  }

  lemma {:induction false} ProbeTimes(c: Config, y: real, z: real, t: real)
    requires c.rate >= 0.0 && (c.rate > 0.0 || z < 1.0 <= y)
    ensures NonDecreasing(Probe(c, y, z, t)) && forall i | 0 <= i < |Probe(c, y, z, t)| :: t <= Probe(c, y, z, t)[i]
    decreases if y < 1.0 then 0 else y.Floor
  {
    if y < 1.0 {
      assert (1.0 - y) / c.rate >= 0.0;
    } else if z >= 1.0 {
      ProbeTimes(c, y - 1.0, z - 1.0, t);
    }
  }

  lemma WitnessMonotone(c: Config)
    requires c.capacity >= 1.0 && c.rate >= 0.0 && !RefillsWhileIdle(c)
    ensures Monotone(Witness(c))
  {
    StillNotFull(c);
    var t := PruneTime(c);
    var drain, probe := DrainTimes(c), Probe(c, c.capacity, Level(c, Some(Drained(c)), t), t);
    ProbeTimes(c, c.capacity, Level(c, Some(Drained(c)), t), t);
    assert c.rate > 0.0 ==> Drained(c).last >= 0.0;
    assert forall i | 0 <= i < |drain| :: drain[i] <= Drained(c).last <= t;
    assert NonDecreasing(drain);
    var w := Witness(c);
    assert forall i | 0 <= i < |drain| :: w[i].now == drain[i];
    assert w[|drain|].now == t;
    assert forall i | 0 <= i < |probe| :: w[|drain| + 1 + i].now == probe[i];
    hide Witness, DrainTimes, Probe, Drained, PruneTime;
    forall i, j | 0 <= i <= j < |w| ensures w[i].now <= w[j].now {
      if |drain| < i {
        assert w[i].now == probe[i - |drain| - 1] && w[j].now == probe[j - |drain| - 1];
      }
    }
  }

  ghost predicate PruningShows(c: Config, calls: seq<Call>, i: nat) {
    Monotone(calls) && i < |calls| && Answer(c, calls, i) != KeyAnswer(c, calls, i)
  }

  /** From `base` on, the calls are the key's own, at these times. */
  ghost predicate CallsFrom(w: seq<Call>, base: nat, times: seq<real>) {
    base + |times| <= |w| && forall i | 0 <= i < |times| :: w[base + i] == Call(KEY, times[i])
  }

  lemma WitnessShape(c: Config)
    requires c.capacity >= 1.0 && c.rate >= 0.0 && !RefillsWhileIdle(c)
    ensures
      var z := Level(c, Some(Drained(c)), PruneTime(c));
      && z < c.capacity && (c.rate > 0.0 || z < 1.0)
      && var probe, n := Probe(c, c.capacity, z, PruneTime(c)), |DrainTimes(c)|;
         && |Witness(c)| == n + 1 + |probe|
         && CallsFrom(Witness(c), 0, DrainTimes(c))
         && Witness(c)[n] == Call(OTHER, PruneTime(c))
         && CallsFrom(Witness(c), n + 1, probe)
  {
    StillNotFull(c);
  }

  lemma RunStart(c: Config, w: seq<Call>)
    ensures Get(StateAt(c, w, 0), KEY) == None == KeyState(c, w, KEY, 0)
  {
  }

  lemma RunStep(c: Config, w: seq<Call>, n: nat)
    requires n < |w|
    ensures StateAt(c, w, n + 1) == AllowStep(c, StateAt(c, w, n), w[n].key, w[n].now).0
    ensures w[n].key != KEY ==> KeyState(c, w, KEY, n + 1) == KeyState(c, w, KEY, n)
  {
    hide AllowStep, KeyStep;
  }

  /** The drain leaves the same bucket in the limiter and in the reference. */
  lemma WitnessDrains(c: Config, n: nat)
    requires c.capacity >= 1.0 && c.rate >= 0.0 && !RefillsWhileIdle(c)
    requires n == |DrainTimes(c)| < |Witness(c)|
    ensures Get(StateAt(c, Witness(c), n), KEY) == KeyState(c, Witness(c), KEY, n) == Some(Drained(c))
  {
    hide Witness, DrainTimes, Drained, PruneTime, StateAt, KeyState, KeyRun, Probe, Level;
    DrainDrains(c);
    WitnessShape(c);
    RunStart(c, Witness(c));
    OwnStretch(c, Witness(c), KEY, 0, DrainTimes(c), n);
  }

  /** After the drain and the other key's call the limiter has forgotten the key, the reference has not. */
  lemma WitnessForgets(c: Config, n: nat)
    requires c.capacity >= 1.0 && c.rate >= 0.0 && !RefillsWhileIdle(c)
    requires n == |DrainTimes(c)| < |Witness(c)|
    ensures Get(StateAt(c, Witness(c), n + 1), KEY) == None
    ensures KeyState(c, Witness(c), KEY, n + 1) == Some(Drained(c))
  {
    hide Witness, DrainTimes, Drained, PruneTime, StateAt, KeyState, AllowStep, Probe, Level, RefillsWhileIdle, CallsFrom;
    StillNotFull(c);
    WitnessShape(c);
    WitnessDrains(c, n);
    var w := Witness(c);
    RunStep(c, w, n);
    AllowOnKey(c, StateAt(c, w, n), w[n], KEY);
  }

  lemma WitnessShows(c: Config)
    requires c.capacity >= 1.0 && c.rate >= 0.0 && !RefillsWhileIdle(c)
    ensures exists i: nat :: PruningShows(c, Witness(c), i)
  {
    assert Level(c, None, PruneTime(c)) == c.capacity;
    hide Witness, DrainTimes, Drained, PruneTime, AllowStep, KeyStep, KeyRun, Probe, Level, Monotone;
    hide StateAt, KeyState, ToldApartAt, PruningShows, RefillsWhileIdle, CallsFrom;
    WitnessMonotone(c);
    WitnessShape(c);
    var w, n, t := Witness(c), |DrainTimes(c)|, PruneTime(c);
    WitnessForgets(c, n);
    var z := Level(c, Some(Drained(c)), t);
    var probe := Probe(c, c.capacity, z, t);
    ProbeTellsApart(c, None, Some(Drained(c)), c.capacity, z, t);
    var j: nat :| ToldApartAt(c, None, Some(Drained(c)), probe, j);
    ProbeShows(c, w, n + 1, probe, None, Some(Drained(c)), j);
  }

  lemma ProbeShows(c: Config, w: seq<Call>, base: nat, probe: seq<real>, p: Option<Entry>, q: Option<Entry>, j: nat)
    requires Monotone(w) && CallsFrom(w, base, probe)
    requires Get(StateAt(c, w, base), KEY) == p && KeyState(c, w, KEY, base) == q
    requires ToldApartAt(c, p, q, probe, j)
    ensures PruningShows(c, w, base + j)
  {
    hide AllowStep, KeyStep, KeyRun, Monotone, StateAt, KeyState;
    OwnStretch(c, w, KEY, base, probe, j);
    AllowOnKey(c, StateAt(c, w, base + j), w[base + j], KEY);
  }

  /**
   The exact condition: pruning can be observed by some callers if and only if the
   capacity admits a call at all and does not refill within the idle time.
   */
  lemma PruningObservableIff(c: Config)
    requires c.rate >= 0.0
    ensures (exists calls, i: nat :: PruningShows(c, calls, i))
            <==> c.capacity >= 1.0 && !RefillsWhileIdle(c)
  {
    if c.capacity >= 1.0 && !RefillsWhileIdle(c) {
      WitnessShows(c);
    } else {
      forall calls, i: nat ensures !PruningShows(c, calls, i) {
        if Monotone(calls) && i < |calls| {
          PruningUnobservable(c, calls, i);
        }
      }
    }
  }

  // ------------------------------------------------------ how much is admitted

  /** Calls of `key` that the limiter admits among calls i..j-1. */
  function Admitted(c: Config, calls: seq<Call>, key: string, i: nat, j: nat): nat
    requires i <= j <= |calls|
  {
    if i == j then 0
    else Admitted(c, calls, key, i, j - 1) + if calls[j - 1].key == key && Answer(c, calls, j - 1) then 1 else 0
  }

  /** What is known of a bucket between calls. */
  ghost predicate InCredit(c: Config, e: Option<Entry>, now: real) {
    && (e.Some? ==> e.value.last <= now && e.value.tokens >= 0.0)
    && Level(c, e, now) >= 0.0
  }

  /** The potential argument on one bucket: what was admitted plus what is left. */
  lemma {:induction false} AdmittedPotential(c: Config, calls: seq<Call>, key: string, i: nat, j: nat)
    requires c.rate >= 0.0 && c.capacity >= 0.0 && (c.capacity < 1.0 || RefillsWhileIdle(c))
    requires Monotone(calls) && i < j <= |calls|
    ensures
      var e, now := KeyState(c, calls, key, j), calls[j - 1].now;
      && InCredit(c, e, now)
      && Admitted(c, calls, key, i, j) as real + Level(c, e, now)
         <= c.capacity + Earned(c, now - calls[i].now)
  {
    var now, start := calls[j - 1].now, calls[i].now;
    var e := KeyState(c, calls, key, j - 1);
    var admitted := Admitted(c, calls, key, i, j - 1);
    PruningUnobservable(c, calls, j - 1);
    if j == i + 1 {
      assert admitted == 0;
      BucketNonNegative(c, calls, key, j - 1);
      LevelNonNegative(c, e, now);
      EarnedSum(c, 0.0, 0.0);
    } else {
      hide Answer, Level, KeyStep, Earned;
      AdmittedPotential(c, calls, key, i, j - 1);
      var before := calls[j - 2].now;
      LevelGain(c, e, before, now);
      LevelNonNegative(c, e, now);
      EarnedSum(c, before - start, now - before);
      assert before - start + (now - before) == now - start;
    }
    hide Answer, Level, KeyStep, Earned;
    assert admitted as real + Level(c, e, now) <= c.capacity + Earned(c, now - start);
    KeyStepLevel(c, e, now);
  }

  lemma {:induction false} BucketNonNegative(c: Config, calls: seq<Call>, key: string, i: nat)
    requires c.rate >= 0.0 && c.capacity >= 0.0 && Monotone(calls) && i < |calls|
    ensures
      var e := KeyState(c, calls, key, i);
      e.Some? ==> e.value.last <= calls[i].now && e.value.tokens >= 0.0
  {
    if i > 0 {
      BucketNonNegative(c, calls, key, i - 1);
      LevelNonNegative(c, KeyState(c, calls, key, i - 1), calls[i - 1].now);
    }
  }

  lemma LevelNonNegative(c: Config, e: Option<Entry>, now: real)
    requires c.rate >= 0.0 && c.capacity >= 0.0
    requires e.Some? ==> e.value.last <= now && e.value.tokens >= 0.0
    ensures Level(c, e, now) >= 0.0
  {
    hide Earned;
    if e.Some? {
      EarnedMono(c, 0.0, now - e.value.last);
      EarnedSum(c, 0.0, 0.0);
    }
  }

  lemma KeyStepLevel(c: Config, e: Option<Entry>, now: real)
    requires c.capacity >= 0.0 && Level(c, e, now) >= 0.0
    ensures
      var r := KeyStep(c, e, now);
      && r.0.tokens >= 0.0 && r.0.last == now && Level(c, Some(r.0), now) >= 0.0
      && Level(c, Some(r.0), now) == Level(c, e, now) - if r.1 then 1.0 else 0.0
  {
    hide Earned;
    EarnedSum(c, 0.0, 0.0);
    assert now - now == 0.0;
  }

  lemma LevelGain(c: Config, e: Option<Entry>, t: real, t': real)
    requires c.rate >= 0.0 && t <= t'
    ensures Level(c, e, t') <= Level(c, e, t) + Earned(c, t' - t)
  {
    hide Earned;
    EarnedMono(c, 0.0, t' - t);
    EarnedSum(c, 0.0, 0.0);
    if e.Some? {
      EarnedSum(c, t - e.value.last, t' - t);
      assert t - e.value.last + (t' - t) == t' - e.value.last;
    }
  }

  /** In any stretch of calls a key gets at most its capacity plus what the rate earns. */
  lemma RateBound(c: Config, calls: seq<Call>, key: string, i: nat, j: nat)
    requires c.rate >= 0.0 && c.capacity >= 0.0 && (c.capacity < 1.0 || RefillsWhileIdle(c))
    requires Monotone(calls) && i < j <= |calls|
    ensures Admitted(c, calls, key, i, j) as real <= c.capacity + Earned(c, calls[j - 1].now - calls[i].now)
  {
    hide Level, Earned, Admitted, KeyState;
    AdmittedPotential(c, calls, key, i, j);
  }

  /** A key's stored bucket is never overdrawn and was written by one of its own earlier calls. */
  lemma {:induction false} StoredBucket(c: Config, calls: seq<Call>, key: string, i: nat)
    requires c.rate >= 0.0 && c.capacity >= 0.0 && Monotone(calls) && i <= |calls|
    ensures
      var e := Get(StateAt(c, calls, i), key);
      e.Some? ==> e.value.tokens >= 0.0 && exists j | 0 <= j < i :: calls[j] == Call(key, e.value.last)
  {
    hide AllowStep;
    if i > 0 {
      StoredBucket(c, calls, key, i - 1);
      var m, call := StateAt(c, calls, i - 1), calls[i - 1];
      AllowOnKey(c, m, call, key);
      if call.key == key {
        LevelNonNegative(c, Get(m, key), call.now);
        KeyStepLevel(c, Get(m, key), call.now);
        assert calls[i - 1] == Call(key, call.now);
      }
    }
  }

  /** A caller that leaves at least 1/rate between its calls is never refused, pruning or not. */
  lemma SpacedCallerNeverRefused(c: Config, calls: seq<Call>, i: nat)
    requires c.rate >= 0.0 && c.capacity >= 1.0 && Monotone(calls) && i < |calls|
    requires forall j | 0 <= j < i && calls[j].key == calls[i].key :: Earned(c, calls[i].now - calls[j].now) >= 1.0
    ensures Answer(c, calls, i)
  {
    hide Earned;
    var key := calls[i].key;
    StoredBucket(c, calls, key, i);
    var e := Get(StateAt(c, calls, i), key);
    if e.Some? {
      var j :| 0 <= j < i && calls[j] == Call(key, e.value.last);
      EarnedOne(c, e.value, calls[i].now);
    }
    assert Level(c, e, calls[i].now) >= 1.0;
    hide Level, AllowStep, StateAt;
    AllowOnKey(c, StateAt(c, calls, i), calls[i], key);
  }

  lemma EarnedOne(c: Config, e: Entry, now: real)
    requires c.capacity >= 1.0 && e.tokens >= 0.0 && Earned(c, now - e.last) >= 1.0
    ensures Level(c, Some(e), now) >= 1.0
  {
    hide Earned;
  }

  // -------------------------------------------- exactly which calls are admitted

  /** Call `m` of another key drops the bucket: every call of `key` is too long ago. */
  ghost predicate Forgets(calls: seq<Call>, key: string, m: nat)
    requires m < |calls|
  {
    calls[m].key != key && forall j | 0 <= j < m && calls[j].key == key :: calls[m].now - calls[j].now > IDLE_TTL
  }

  /** Call `j` of the key is remembered just before call `i`. */
  ghost predicate Remembered(calls: seq<Call>, key: string, j: nat, i: nat) {
    j < i <= |calls| && calls[j].key == key && forall m | j < m < i :: !Forgets(calls, key, m)
  }

  /** What the bound on the stretch from call `j` leaves for call `i` at time `t`. */
  ghost function Left(c: Config, calls: seq<Call>, key: string, j: nat, i: nat, t: real): real
    requires j <= i <= |calls| && j < |calls|
  {
    c.capacity + Earned(c, t - calls[j].now) - Admitted(c, calls, key, j, i) as real
  }

  /** The bucket dates from the key's last call and holds what the tightest stretch leaves. */
  ghost predicate Tracks(c: Config, calls: seq<Call>, key: string, i: nat, e: Option<Entry>)
    requires i <= |calls|
  {
    match e
    case None => forall j: nat :: !Remembered(calls, key, j, i)
    case Some(e) =>
      && (forall j | 0 <= j < i && calls[j].key == key :: calls[j].now <= e.last)
      && (exists j: nat :: Remembered(calls, key, j, i) && calls[j].now == e.last)
      && (forall j: nat | Remembered(calls, key, j, i) :: e.tokens <= Left(c, calls, key, j, i, e.last))
      && (exists j: nat :: Remembered(calls, key, j, i) && e.tokens == Left(c, calls, key, j, i, e.last))
  }

  /** What a stretch leaves is earned and spent like the bucket itself. */
  lemma LeftLater(c: Config, calls: seq<Call>, key: string, j: nat, i: nat, t: real, t': real)
    requires j <= i <= |calls| && j < |calls|
    ensures Left(c, calls, key, j, i, t') == Left(c, calls, key, j, i, t) + Earned(c, t' - t)
  {
    hide Admitted, Earned;
    EarnedSum(c, t - calls[j].now, t' - t);
    assert t - calls[j].now + (t' - t) == t' - calls[j].now;
  }

  lemma LeftStep(c: Config, calls: seq<Call>, key: string, j: nat, i: nat, t: real)
    requires j <= i < |calls|
    ensures Left(c, calls, key, j, i + 1, t) ==
            Left(c, calls, key, j, i, t) - if calls[i].key == key && Answer(c, calls, i) then 1.0 else 0.0
  {
    hide Answer, Earned;
  }

  /** The level is the least that the remembered stretches and the capacity leave. */
  lemma LevelIsLeast(c: Config, calls: seq<Call>, key: string, i: nat, e: Option<Entry>, t: real)
    requires i <= |calls| && Tracks(c, calls, key, i, e)
    ensures forall j: nat | Remembered(calls, key, j, i) :: Level(c, e, t) <= Left(c, calls, key, j, i, t)
    ensures Level(c, e, t) == c.capacity
            || exists j: nat :: Remembered(calls, key, j, i) && Level(c, e, t) == Left(c, calls, key, j, i, t)
  {
    assert forall j: nat | Remembered(calls, key, j, i) :: j < i;
    hide Left, Remembered, Earned;
    if e.Some? {
      forall j: nat | Remembered(calls, key, j, i)
        ensures Level(c, e, t) <= Left(c, calls, key, j, i, t)
      {
        LeftLater(c, calls, key, j, i, e.value.last, t);
      }
      var j: nat :| Remembered(calls, key, j, i) && e.value.tokens == Left(c, calls, key, j, i, e.value.last);
      LeftLater(c, calls, key, j, i, e.value.last, t);
    }
  }

  lemma RememberedStep(calls: seq<Call>, key: string, j: nat, i: nat)
    requires i < |calls|
    ensures Remembered(calls, key, j, i + 1) <==>
            (j == i && calls[i].key == key) || (Remembered(calls, key, j, i) && !Forgets(calls, key, i))
  {
    hide Forgets;
    if Remembered(calls, key, j, i) && !Forgets(calls, key, i) {
      assert forall m | j < m < i + 1 :: !Forgets(calls, key, m);
    }
  }

  lemma TracksOwn(c: Config, calls: seq<Call>, key: string, i: nat, e: Option<Entry>)
    requires i < |calls| && calls[i].key == key && Monotone(calls) && Tracks(c, calls, key, i, e)
    requires KeyStep(c, e, calls[i].now).1 == Answer(c, calls, i)
    ensures Tracks(c, calls, key, i + 1, Some(KeyStep(c, e, calls[i].now).0))
  {
    var now, e', next := calls[i].now, KeyStep(c, e, calls[i].now).0, i + 1;
    LevelIsLeast(c, calls, key, i, e, now);
    EarnedSum(c, 0.0, 0.0);
    assert Left(c, calls, key, i, i, now) == c.capacity;
    assert forall j: nat | Remembered(calls, key, j, i) :: j < i;
    hide Left, Remembered, Level, Answer;
    forall j: nat
      ensures Remembered(calls, key, j, next) <==> j == i || Remembered(calls, key, j, i)
    {
      RememberedStep(calls, key, j, i);
    }
    forall j: nat | Remembered(calls, key, j, next)
      ensures e'.tokens <= Left(c, calls, key, j, next, now)
    {
      LeftStep(c, calls, key, j, i, now);
    }
    var j: nat := i;
    if Level(c, e, now) != c.capacity {
      j :| Remembered(calls, key, j, i) && Level(c, e, now) == Left(c, calls, key, j, i, now);
    }
    LeftStep(c, calls, key, j, i, now);
    assert Remembered(calls, key, j, next) && e'.tokens == Left(c, calls, key, j, next, now);
    assert Remembered(calls, key, i, next);
  }

  lemma TracksOther(c: Config, calls: seq<Call>, key: string, i: nat, e: Option<Entry>)
    requires i < |calls| && calls[i].key != key && Monotone(calls) && Tracks(c, calls, key, i, e)
    ensures Tracks(c, calls, key, i + 1, if e.Some? && calls[i].now - e.value.last > IDLE_TTL then None else e)
  {
    var next := i + 1;
    assert forall j: nat | Remembered(calls, key, j, i) :: j < i && calls[j].key == key;
    hide Left, Remembered;
    forall j: nat
      ensures Remembered(calls, key, j, next) <==> Remembered(calls, key, j, i) && !Forgets(calls, key, i)
    {
      RememberedStep(calls, key, j, i);
    }
    if e.Some? {
      var t := e.value.last;
      var last: nat :| Remembered(calls, key, last, i) && calls[last].now == t;
      assert Forgets(calls, key, i) <==> calls[i].now - t > IDLE_TTL;
      if !Forgets(calls, key, i) {
        hide Forgets;
        forall j: nat | Remembered(calls, key, j, i)
          ensures Left(c, calls, key, j, next, t) == Left(c, calls, key, j, i, t)
        {
          LeftStep(c, calls, key, j, i, t);
        }
        var j: nat :| Remembered(calls, key, j, i) && e.value.tokens == Left(c, calls, key, j, i, t);
        assert Remembered(calls, key, last, next) && Remembered(calls, key, j, next);
        assert e.value.tokens == Left(c, calls, key, j, next, t);
      }
    }
  }

  lemma {:induction false} AlwaysTracks(c: Config, calls: seq<Call>, key: string, i: nat)
    requires Monotone(calls) && i <= |calls|
    ensures Tracks(c, calls, key, i, Get(StateAt(c, calls, i), key))
  {
    if i > 0 {
      hide AllowStep, KeyStep, Tracks, Monotone;
      AlwaysTracks(c, calls, key, i - 1);
      var m, call := StateAt(c, calls, i - 1), calls[i - 1];
      AllowOnKey(c, m, call, key);
      if call.key == key {
        TracksOwn(c, calls, key, i - 1, Get(m, key));
      } else {
        TracksOther(c, calls, key, i - 1, Get(m, key));
      }
    }
  }

  /**
   The limiter refuses only what it must.  For every rate and capacity, pruning or not, a
   call is admitted exactly when one more admission exceeds no bound: at least one token
   of capacity, and capacity plus earnings over every stretch that begins with a
   remembered call of the same key.
   */
  lemma AdmittedIff(c: Config, calls: seq<Call>, i: nat)
    requires Monotone(calls) && i < |calls|
    ensures
      var key, now := calls[i].key, calls[i].now;
      Answer(c, calls, i) <==>
        && 1.0 <= c.capacity
        && forall j: nat | Remembered(calls, key, j, i) ::
             Admitted(c, calls, key, j, i) as real + 1.0 <= c.capacity + (now - calls[j].now) * c.rate
  {
    hide StateAt, Admitted, AllowStep, Tracks, Monotone;
    var key, now := calls[i].key, calls[i].now;
    var e := Get(StateAt(c, calls, i), key);
    AlwaysTracks(c, calls, key, i);
    LevelIsLeast(c, calls, key, i, e, now);
    AllowOnKey(c, StateAt(c, calls, i), calls[i], key);
    hide Remembered, Level;
  }
}
