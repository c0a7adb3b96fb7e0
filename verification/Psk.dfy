/**
 Pre-shared-key authentication of core/auth/psk/psk.go: the nonce cache with lazy
 cleanup, the clock-skew check, and the order in which Authenticate applies them.

 Times are integer nanoseconds.  HMAC and protobuf marshalling are arbitrary
 functions handed in as parameters; the store's reply comes with each attempt.
 */
module Psk {
  import opened Bytes

  const SECOND: int := 1_000_000_000
  const NONCE_LENGTH: nat := 16

  // ----------------------------------------------------------- cache keys

  function HexDigit(n: nat): (c: char)
    requires n < 16
    ensures c != ':'
  {
    "0123456789abcdef"[n]
  }

  lemma HexDigitInjective(m: nat, n: nat)
    requires m < 16 && n < 16 && HexDigit(m) == HexDigit(n)
    ensures m == n
  {
  }

  function Hex(nonce: bytes): (s: string)
    ensures |s| == 2 * |nonce| && ':' !in s
  {
    if nonce == [] then ""
    else
      var b := nonce[0] as nat;
      [HexDigit(b / 16), HexDigit(b % 16)] + Hex(nonce[1..])
  }

  lemma {:induction false} HexInjective(a: bytes, b: bytes)
    requires Hex(a) == Hex(b)
    ensures a == b
  {
    assert |a| == |b|;
    if a != [] {
      var x, y := a[0] as nat, b[0] as nat;
      assert Hex(a)[0] == HexDigit(x / 16) && Hex(a)[1] == HexDigit(x % 16);
      assert Hex(b)[0] == HexDigit(y / 16) && Hex(b)[1] == HexDigit(y % 16);
      HexDigitInjective(x / 16, y / 16);
      HexDigitInjective(x % 16, y % 16);
      assert Hex(a)[2..] == Hex(a[1..]) && Hex(b)[2..] == Hex(b[1..]);
      HexInjective(a[1..], b[1..]);
      assert a == [a[0]] + a[1..] && b == [b[0]] + b[1..];
    }
  }

  function CacheKey(user: string, nonce: bytes): string {
    user + ":" + Hex(nonce)
  }

  /** Different (user, nonce) pairs have different keys, whatever the user id contains. */
  lemma CacheKeyInjective(u: string, m: bytes, v: string, n: bytes)
    requires CacheKey(u, m) == CacheKey(v, n)
    ensures u == v && m == n
  {
    var s := CacheKey(u, m);
    var a, b := |s| - |Hex(m)|, |s| - |Hex(n)|;
    assert s[a - 1] == ':' && s[a..] == Hex(m);
    assert s[b - 1] == ':' && s[b..] == Hex(n);
    assert a == b;  // no ':' occurs in a hex string, so both split at the last one
    HexInjective(m, n);
    assert s[..a - 1] == u && s[..b - 1] == v;
  }

  // ---------------------------------------------------------- nonce cache

  type Seen = map<string, int>

  function Cleaned(seen: Seen, window: int, now: int): Seen {
    map k | k in seen && !(now - seen[k] > window) :: seen[k]
  }

  function AddNonce(seen: Seen, window: int, key: string, now: int): (Seen, bool) {
    var kept := Cleaned(seen, window, now);
    if key in kept then (kept, false) else (kept[key := now], true)
  }

  class MemoryNonceCache {
    const window: int
    var seen: Seen

    constructor (window: int)
      ensures this.window == window && seen == map[]
    {
      this.window, this.seen := window, map[];
    }

    method Add(user: string, nonce: bytes, now: int) returns (fresh': bool)
      modifies this
      ensures (seen, fresh') == AddNonce(old(seen), window, CacheKey(user, nonce), now)
    {
      var key := CacheKey(user, nonce);
      ghost var was := seen;
      var todo := seen.Keys;
      while todo != {}
        invariant todo <= was.Keys
        invariant seen == map k | k in was && (k in todo || !(now - was[k] > window)) :: was[k]
        decreases todo
      {
        var k :| k in todo;
        todo := todo - {k};
        if now - seen[k] > window {
          seen := seen - {k};
        }
      }
      assert seen == Cleaned(was, window, now);
      if key in seen {
        return false;
      }
      seen := seen[key := now];
      return true;
    }
  }

  // --------------------------------------------------------- Authenticate

  datatype Credentials = Credentials(user: string, signedAt: int, nonce: bytes, signature: bytes, body: bytes)

  /** The auth.Credentials handed in: nil, another provider's, or ours. */
  datatype Presented = NoCredentials | OtherKind(kind: string) | Presented(creds: Credentials)

  datatype StoreReply = NotFound | StoreFailure | Record(secret: bytes, revoked: bool)

  datatype Error =
    | WrongKind | NonceShape | TimestampSkew | UnknownUser | StoreError | Revoked | NonceReuse | SignatureInvalid

  datatype Outcome = Accepted(user: string) | Rejected(error: Error)

  datatype Config = Config(window: int, skew: int, hmac: (bytes, bytes) -> bytes)

  /** int64(p.ClockSkew / time.Second): Go's division truncates toward zero. */
  function SkewSeconds(skew: int): int {
    if skew >= 0 then skew / SECOND else -(-skew / SECOND)
  }

  /** now.Unix(): the clock rounded down to whole seconds. */
  function UnixSeconds(now: int): int {
    now / SECOND
  }

  predicate WithinSkew(cfg: Config, signedAt: int, now: int) {
    var delta := UnixSeconds(now) - signedAt;
    (if delta < 0 then -delta else delta) <= SkewSeconds(cfg.skew)
  }

  /**
   The check in plain nanoseconds: the second `u` in which the clock stands is no further
   from `signedAt` than the skew, on either side.  A negative skew counts as zero down to
   a whole second, from which on nothing passes.
   */
  lemma SkewExactly(cfg: Config, signedAt: int, now: int, u: int)
    requires u * SECOND <= now < (u + 1) * SECOND
    ensures WithinSkew(cfg, signedAt, now) <==>
            && cfg.skew > -SECOND
            && var most := if cfg.skew > 0 then cfg.skew else 0;
               (u - signedAt) * SECOND <= most && (signedAt - u) * SECOND <= most
  {
    assert UnixSeconds(now) == u;
  }

  function Verdict(cfg: Config, seen: Seen, p: Presented, reply: StoreReply, now: int): (Seen, Outcome) {
    if !p.Presented? then (seen, Rejected(WrongKind))
    else
      var c := p.creds;
      if |c.nonce| != NONCE_LENGTH then (seen, Rejected(NonceShape))
      else if !WithinSkew(cfg, c.signedAt, now) then (seen, Rejected(TimestampSkew))
      else match reply
        case NotFound => (seen, Rejected(UnknownUser))
        case StoreFailure => (seen, Rejected(StoreError))
        case Record(secret, revoked) =>
          if revoked then (seen, Rejected(Revoked))
          else
            var add := AddNonce(seen, cfg.window, CacheKey(c.user, c.nonce), now);
            if !add.1 then (add.0, Rejected(NonceReuse))
            else if cfg.hmac(secret, c.body) != c.signature then (add.0, Rejected(SignatureInvalid))
            else (add.0, Accepted(c.user))
  }

  /** The request passes everything up to the nonce cache: shape, clocks, and a user not revoked. */
  predicate Reaches(cfg: Config, p: Presented, reply: StoreReply, now: int) {
    && p.Presented? && |p.creds.nonce| == NONCE_LENGTH && WithinSkew(cfg, p.creds.signedAt, now)
    && reply.Record? && !reply.revoked
  }

  /** The signature is the one that the user's secret gives for the body. */
  predicate Signed(cfg: Config, c: Credentials, reply: StoreReply) {
    reply.Record? && cfg.hmac(reply.secret, c.body) == c.signature
  }

  /** The cache holds the nonce with a time not older than the window. */
  predicate Known(seen: Seen, window: int, c: Credentials, now: int) {
    var key := CacheKey(c.user, c.nonce);
    key in seen && now - seen[key] <= window
  }

  /** When each answer is given. */
  predicate Explains(cfg: Config, seen: Seen, p: Presented, reply: StoreReply, now: int, r: Outcome) {
    if !p.Presented? then r == Rejected(WrongKind)
    else
      var c := p.creds;
      var shaped := |c.nonce| == NONCE_LENGTH;
      var timely := shaped && WithinSkew(cfg, c.signedAt, now);
      var reaches := Reaches(cfg, p, reply, now);
      && (r == Rejected(NonceShape) <==> !shaped)
      && (r == Rejected(TimestampSkew) <==> shaped && !timely)
      && (r == Rejected(UnknownUser) <==> timely && reply.NotFound?)
      && (r == Rejected(StoreError) <==> timely && reply.StoreFailure?)
      && (r == Rejected(Revoked) <==> timely && reply.Record? && reply.revoked)
      && (r == Rejected(NonceReuse) <==> reaches && Known(seen, cfg.window, c, now))
      && (r == Rejected(SignatureInvalid) <==>
            reaches && !Known(seen, cfg.window, c, now) && !Signed(cfg, c, reply))
      && (r.Accepted? <==> reaches && !Known(seen, cfg.window, c, now) && Signed(cfg, c, reply))
      && (r.Accepted? ==> r.user == c.user)
  }

  /**
   What a call leaves in the cache: untouched unless it got that far; otherwise
   without what is older than the window, and with its own nonce, at the time at which
   that was first seen within the window, even if its signature turns out wrong.
   */
  ghost predicate CacheAfter(cfg: Config, seen: Seen, p: Presented, reply: StoreReply, now: int, seen': Seen) {
    if !Reaches(cfg, p, reply, now) then seen' == seen
    else
      var key := CacheKey(p.creds.user, p.creds.nonce);
      && key in seen' && seen'[key] == (if Known(seen, cfg.window, p.creds, now) then seen[key] else now)
      && forall k | k != key ::
           && (k in seen' <==> k in seen && now - seen[k] <= cfg.window)
           && (k in seen' ==> seen'[k] == seen[k])
  }

  class Provider {
    const nonces: MemoryNonceCache
    const skew: int
    const hmac: (bytes, bytes) -> bytes

    constructor (window: int, skew: int, hmac: (bytes, bytes) -> bytes)
      ensures fresh(nonces) && nonces.window == window && nonces.seen == map[]
      ensures this.skew == skew && this.hmac == hmac
    {
      this.nonces := new MemoryNonceCache(window);
      this.skew, this.hmac := skew, hmac;
    }

    method Authenticate(p: Presented, reply: StoreReply, now: int) returns (r: Outcome)
      modifies nonces
      ensures (nonces.seen, r) ==
              Verdict(Config(nonces.window, skew, hmac), old(nonces.seen), p, reply, now)
      ensures Explains(Config(nonces.window, skew, hmac), old(nonces.seen), p, reply, now, r)
      ensures CacheAfter(Config(nonces.window, skew, hmac), old(nonces.seen), p, reply, now, nonces.seen)
    {
      if !p.Presented? {
        return Rejected(WrongKind);
      }
      var c := p.creds;
      if |c.nonce| != NONCE_LENGTH {
        return Rejected(NonceShape);
      }
      var delta := UnixSeconds(now) - c.signedAt;
      if delta < 0 {
        delta := -delta;
      }
      if delta > SkewSeconds(skew) {
        return Rejected(TimestampSkew);
      }
      match reply
      case NotFound => return Rejected(UnknownUser);
      case StoreFailure => return Rejected(StoreError);
      case Record(secret, revoked) =>
        if revoked {
          return Rejected(Revoked);
        }
        var ok := nonces.Add(c.user, c.nonce, now);
        if !ok {
          return Rejected(NonceReuse);
        }
        if hmac(secret, c.body) != c.signature {
          return Rejected(SignatureInvalid);
        }
        return Accepted(c.user);
    }
  }

  lemma VerdictExplained(cfg: Config, seen: Seen, p: Presented, reply: StoreReply, now: int)
    ensures
      var v := Verdict(cfg, seen, p, reply, now);
      Explains(cfg, seen, p, reply, now, v.1) && CacheAfter(cfg, seen, p, reply, now, v.0)
  {
  }

  // ------------------------------------------------------------ whole runs

  /**
   One call of Authenticate.  It reads the clock first and takes the cache's lock only
   after the store has replied; other calls may run in between.  A run lists the calls
   in the order in which they take the lock: `now` is the reading, `at` the time of
   the cache section.
   */
  datatype Attempt = Attempt(p: Presented, reply: StoreReply, now: int, at: int)

  /** No call takes longer than `lag` from its clock reading to its cache section. */
  ghost predicate Timely(run: seq<Attempt>, lag: nat) {
    && (forall i | 0 <= i < |run| :: run[i].now <= run[i].at <= run[i].now + lag)
    && (forall i, j | 0 <= i <= j < |run| :: run[i].at <= run[j].at)
  }

  function SeenAt(cfg: Config, run: seq<Attempt>, i: nat): Seen
    requires i <= |run|
  {
    if i == 0 then map[]
    else Verdict(cfg, SeenAt(cfg, run, i - 1), run[i - 1].p, run[i - 1].reply, run[i - 1].now).0
  }

  predicate AcceptedAt(cfg: Config, run: seq<Attempt>, i: nat) {
    i < |run| && Verdict(cfg, SeenAt(cfg, run, i), run[i].p, run[i].reply, run[i].now).1.Accepted?
  }

  /** An acceptance leaves its own time in the cache, and found nothing there before. */
  lemma AcceptanceRecords(cfg: Config, run: seq<Attempt>, i: nat)
    requires AcceptedAt(cfg, run, i)
    ensures run[i].p.Presented? && WithinSkew(cfg, run[i].p.creds.signedAt, run[i].now)
    ensures
      var key := CacheKey(run[i].p.creds.user, run[i].p.creds.nonce);
      && key !in Cleaned(SeenAt(cfg, run, i), cfg.window, run[i].now)
      && key in SeenAt(cfg, run, i + 1) && SeenAt(cfg, run, i + 1)[key] == run[i].now
  {
  }

  /** A recorded nonce stays recorded, with its time, until some call reads a clock beyond the window. */
  lemma {:induction false} NonceStays(cfg: Config, run: seq<Attempt>, key: string, i: nat, j: nat)
    requires i < j < |run|
    requires key in SeenAt(cfg, run, i + 1) && SeenAt(cfg, run, i + 1)[key] == run[i].now
    requires forall k | i < k < j :: run[k].now - run[i].now <= cfg.window
    ensures key in SeenAt(cfg, run, j) && SeenAt(cfg, run, j)[key] == run[i].now
  {
    if i + 1 < j {
      NonceStays(cfg, run, key, i, j - 1);
      hide SeenAt;
      SeenStep(cfg, run, j - 1);
      AttemptKeeps(cfg, SeenAt(cfg, run, j - 1), run[j - 1], key);
    }
  }

  lemma SeenStep(cfg: Config, run: seq<Attempt>, i: nat)
    requires i < |run|
    ensures SeenAt(cfg, run, i + 1) ==
            Verdict(cfg, SeenAt(cfg, run, i), run[i].p, run[i].reply, run[i].now).0
  {
  }

  lemma AttemptKeeps(cfg: Config, seen: Seen, a: Attempt, key: string)
    requires key in seen && a.now - seen[key] <= cfg.window
    ensures
      var seen' := Verdict(cfg, seen, a.p, a.reply, a.now).0;
      key in seen' && seen'[key] == seen[key]
  {
  }

  /** Any two acceptances of one (user, nonce) are more than the window, less the lag, apart. */
  lemma AcceptancesOutsideWindow(cfg: Config, lag: nat, run: seq<Attempt>, i: nat, j: nat)
    requires Timely(run, lag) && i < j && AcceptedAt(cfg, run, i) && AcceptedAt(cfg, run, j)
    requires run[i].p.creds.user == run[j].p.creds.user && run[i].p.creds.nonce == run[j].p.creds.nonce
    ensures run[j].now - run[i].now > cfg.window - lag
  {
    AcceptanceRecords(cfg, run, i);
    AcceptanceRecords(cfg, run, j);
    hide SeenAt, Verdict;
    if run[j].now - run[i].now <= cfg.window - lag {
      forall k | i < k < j
        ensures run[k].now - run[i].now <= cfg.window
      {
        assert run[k].now <= run[k].at <= run[j].at <= run[j].now + lag;
      }
      NonceStays(cfg, run, CacheKey(run[i].p.creds.user, run[i].p.creds.nonce), i, j);
    }
  }

  /** The same signed request is accepted twice, by the calls i and j. */
  ghost predicate Replayed(cfg: Config, lag: nat, run: seq<Attempt>, i: nat, j: nat) {
    && Timely(run, lag) && i < j && AcceptedAt(cfg, run, i) && AcceptedAt(cfg, run, j)
    && var c, d := run[i].p.creds, run[j].p.creds;
       c.user == d.user && c.nonce == d.nonce && c.signedAt == d.signedAt
  }

  /** The longest time between two clock readings that both accept one timestamp. */
  function ReplaySpan(skew: int): int {
    (2 * SkewSeconds(skew) + 1) * SECOND - 1
  }

  lemma SameTimestampSpan(cfg: Config, signedAt: int, t: int, t': int)
    requires WithinSkew(cfg, signedAt, t) && WithinSkew(cfg, signedAt, t')
    ensures t' - t <= ReplaySpan(cfg.skew)
  {
    assert t == UnixSeconds(t) * SECOND + t % SECOND;
    assert t' == UnixSeconds(t') * SECOND + t' % SECOND;
    assert UnixSeconds(t') - UnixSeconds(t) <= 2 * SkewSeconds(cfg.skew);
  }

  /** At most once: with a window covering the span and the lag, no request is accepted twice. */
  lemma AtMostOnce(cfg: Config, lag: nat, run: seq<Attempt>, i: nat, j: nat)
    requires cfg.window >= ReplaySpan(cfg.skew) + lag
    ensures !Replayed(cfg, lag, run, i, j)
  {
    if Replayed(cfg, lag, run, i, j) {
      AcceptancesOutsideWindow(cfg, lag, run, i, j);
      AcceptanceRecords(cfg, run, i);
      AcceptanceRecords(cfg, run, j);
      hide SeenAt, Verdict, AcceptedAt, WithinSkew;
      SameTimestampSpan(cfg, run[i].p.creds.signedAt, run[i].now, run[j].now);
    }
  }

  /** Credentials that are accepted if the clock agrees, with a nonce of equal bytes. */
  function Genuine(cfg: Config, signedAt: int, b: byte): Credentials {
    Credentials("u", signedAt, seq(NONCE_LENGTH, i => b), cfg.hmac([], []), [])
  }

  /**
   One request presented at the two ends of its span, the second time by a call that
   is overtaken, within the lag, by another with a later clock reading.
   */
  function ReplayRun(cfg: Config, lag: nat): seq<Attempt> {
    var span := ReplaySpan(cfg.skew);
    var replayed := Presented(Genuine(cfg, SkewSeconds(cfg.skew), 0));
    var other := Presented(Genuine(cfg, UnixSeconds(span + lag), 1));
    [Attempt(replayed, Record([], false), 0, 0),
     Attempt(other, Record([], false), span + lag, span + lag),
     Attempt(replayed, Record([], false), span, span + lag)]
  }

  lemma GenuineAccepted(cfg: Config, seen: Seen, signedAt: int, b: byte, now: int)
    requires WithinSkew(cfg, signedAt, now)
    requires CacheKey("u", seq(NONCE_LENGTH, i => b)) !in Cleaned(seen, cfg.window, now)
    ensures Verdict(cfg, seen, Presented(Genuine(cfg, signedAt, b)), Record([], false), now) ==
            (Cleaned(seen, cfg.window, now)[CacheKey("u", seq(NONCE_LENGTH, i => b)) := now], Accepted("u"))
  {
    assert Genuine(cfg, signedAt, b).nonce == seq(NONCE_LENGTH, i => b);
  }

  lemma SpanEnds(cfg: Config)
    requires cfg.skew >= 0
    ensures 0 < ReplaySpan(cfg.skew)
    ensures WithinSkew(cfg, SkewSeconds(cfg.skew), 0)
    ensures WithinSkew(cfg, SkewSeconds(cfg.skew), ReplaySpan(cfg.skew))
  {
    var k := SkewSeconds(cfg.skew);
    assert ReplaySpan(cfg.skew) == 2 * k * SECOND + (SECOND - 1);
    assert UnixSeconds(ReplaySpan(cfg.skew)) == 2 * k;
  }

  lemma DistinctKeys()
    ensures CacheKey("u", seq(NONCE_LENGTH, i => 0 as byte)) != CacheKey("u", seq(NONCE_LENGTH, i => 1 as byte))
  {
    var a, b := seq(NONCE_LENGTH, i => 0 as byte), seq(NONCE_LENGTH, i => 1 as byte);
    assert a[0] != b[0];
    if CacheKey("u", a) == CacheKey("u", b) {
      CacheKeyInjective("u", a, "u", b);
    }
  }

  /** The verdicts of the three calls, one after the other. */
  lemma ReplayVerdicts(cfg: Config, lag: nat)
    requires cfg.skew >= 0 && cfg.window < ReplaySpan(cfg.skew) + lag
    ensures
      var run := ReplayRun(cfg, lag);
      var first := Verdict(cfg, map[], run[0].p, run[0].reply, run[0].now);
      var second := Verdict(cfg, first.0, run[1].p, run[1].reply, run[1].now);
      first.1.Accepted? && Verdict(cfg, second.0, run[2].p, run[2].reply, run[2].now).1.Accepted?
  {
    var span := ReplaySpan(cfg.skew);
    SpanEnds(cfg);
    assert WithinSkew(cfg, UnixSeconds(span + lag), span + lag);
    DistinctKeys();
    hide WithinSkew, ReplaySpan, SkewSeconds, UnixSeconds, Verdict, CacheKey, Genuine;
    var key := CacheKey("u", seq(NONCE_LENGTH, i => 0 as byte));
    var key' := CacheKey("u", seq(NONCE_LENGTH, i => 1 as byte));
    GenuineAccepted(cfg, map[], SkewSeconds(cfg.skew), 0, 0);
    assert Cleaned(map[], cfg.window, 0)[key := 0] == map[key := 0];
    GenuineAccepted(cfg, map[key := 0], UnixSeconds(span + lag), 1, span + lag);
    assert Cleaned(map[key := 0], cfg.window, span + lag)[key' := span + lag] == map[key' := span + lag];
    GenuineAccepted(cfg, map[key' := span + lag], SkewSeconds(cfg.skew), 0, span);
  }

  lemma ReplaySucceeds(cfg: Config, lag: nat)
    requires cfg.skew >= 0 && cfg.window < ReplaySpan(cfg.skew) + lag
    ensures Replayed(cfg, lag, ReplayRun(cfg, lag), 0, 2)
  {
    var run := ReplayRun(cfg, lag);
    SpanEnds(cfg);
    ReplayVerdicts(cfg, lag);
    assert SeenAt(cfg, run, 0) == map[];
    hide Verdict, ReplaySpan, SkewSeconds, UnixSeconds, Genuine, SeenAt;
    SeenStep(cfg, run, 0);
    SeenStep(cfg, run, 1);
  }

  /** Exactly when a replay is possible, for every window, skew and lag. */
  lemma ReplayPossibleIff(cfg: Config, lag: nat)
    requires cfg.skew >= 0
    ensures (exists run, i: nat, j: nat :: Replayed(cfg, lag, run, i, j))
            <==> cfg.window < ReplaySpan(cfg.skew) + lag
  {
    if cfg.window < ReplaySpan(cfg.skew) + lag {
      ReplaySucceeds(cfg, lag);
    } else {
      forall run, i: nat, j: nat ensures !Replayed(cfg, lag, run, i, j) {
        AtMostOnce(cfg, lag, run, i, j);
      }
    }
  }

  // ------------------------------------------------ exactly what is accepted

  predicate ReachesAt(cfg: Config, run: seq<Attempt>, i: nat)
    requires i < |run|
  {
    Reaches(cfg, run[i].p, run[i].reply, run[i].now)
  }

  predicate Carries(a: Attempt, user: string, nonce: bytes) {
    a.p.Presented? && a.p.creds.user == user && a.p.creds.nonce == nonce
  }

  /** Call `k` put its nonce into the cache: it got that far, and no earlier record was still there. */
  ghost predicate Records(cfg: Config, run: seq<Attempt>, k: nat)
    requires k < |run|
    decreases k, 0
  {
    && ReachesAt(cfg, run, k)
    && forall j: nat | j < k :: !Remembered(cfg, run, j, k)
  }

  /** Call `i` finds the record of call `k`, of the same nonce, still within the window. */
  ghost predicate Remembered(cfg: Config, run: seq<Attempt>, k: nat, i: nat)
    requires k < i < |run|
    decreases k, 1
  {
    && run[i].p.Presented? && Carries(run[k], run[i].p.creds.user, run[i].p.creds.nonce)
    && Records(cfg, run, k) && Spared(cfg, run, k, i) && run[i].now - run[k].now <= cfg.window
  }

  /** No call between `k` and `i` has read a clock more than the window after that of `k`. */
  ghost predicate Spared(cfg: Config, run: seq<Attempt>, k: nat, i: nat)
    requires i <= |run|
  {
    forall m | k < m < i && ReachesAt(cfg, run, m) :: run[m].now - run[k].now <= cfg.window
  }

  /** The record of call `k` is what the cache holds for this nonce before call `i`. */
  ghost predicate Holds(cfg: Config, run: seq<Attempt>, user: string, nonce: bytes, k: nat, i: nat)
    requires i <= |run|
  {
    k < i && Carries(run[k], user, nonce) && Records(cfg, run, k) && Spared(cfg, run, k, i)
  }

  ghost predicate Held(cfg: Config, run: seq<Attempt>, user: string, nonce: bytes, i: nat)
    requires i <= |run|
  {
    exists k: nat :: Holds(cfg, run, user, nonce, k, i)
  }

  /** The cache before call `i` holds this nonce exactly if some record of it is left, and then with that call's time. */
  ghost predicate CacheFollows(cfg: Config, run: seq<Attempt>, user: string, nonce: bytes, i: nat, seen: Seen)
    requires i <= |run|
  {
    var key := CacheKey(user, nonce);
    && (key in seen <==> Held(cfg, run, user, nonce, i))
    && forall k: nat | Holds(cfg, run, user, nonce, k, i) :: key in seen && seen[key] == run[k].now
  }

  /** One more call, and the records that are left after it. */
  lemma HoldsStep(cfg: Config, run: seq<Attempt>, user: string, nonce: bytes, k: nat, i: nat)
    requires i < |run|
    ensures
      Holds(cfg, run, user, nonce, k, i + 1) <==>
        if k == i then Carries(run[i], user, nonce) && Records(cfg, run, i)
        else Holds(cfg, run, user, nonce, k, i) && (ReachesAt(cfg, run, i) ==> run[i].now - run[k].now <= cfg.window)
  {
    hide Records;
  }

  /** A call that carries the nonce finds a record of it if and only if the cache knows it. */
  lemma KnownIffRemembered(cfg: Config, run: seq<Attempt>, i: nat, seen: Seen)
    requires i < |run| && run[i].p.Presented?
    requires CacheFollows(cfg, run, run[i].p.creds.user, run[i].p.creds.nonce, i, seen)
    ensures Known(seen, cfg.window, run[i].p.creds, run[i].now) <==> exists k: nat | k < i :: Remembered(cfg, run, k, i)
  {
    var c := run[i].p.creds;
    hide Records, Spared, CacheKey;
    forall k: nat | k < i
      ensures Remembered(cfg, run, k, i) <==>
              Holds(cfg, run, c.user, c.nonce, k, i) && run[i].now - run[k].now <= cfg.window
    {
    }
    if Known(seen, cfg.window, c, run[i].now) {
      var k: nat :| Holds(cfg, run, c.user, c.nonce, k, i);
      assert Remembered(cfg, run, k, i);
    }
  }

  /** Call `i` carries the nonce and reaches the cache. */
  lemma OwnCallFollows(cfg: Config, run: seq<Attempt>, i: nat, seen: Seen, seen': Seen)
    requires i < |run| && ReachesAt(cfg, run, i)
    requires CacheFollows(cfg, run, run[i].p.creds.user, run[i].p.creds.nonce, i, seen)
    requires CacheAfter(cfg, seen, run[i].p, run[i].reply, run[i].now, seen')
    ensures CacheFollows(cfg, run, run[i].p.creds.user, run[i].p.creds.nonce, i + 1, seen')
  {
    var c := run[i].p.creds;
    KnownIffRemembered(cfg, run, i, seen);
    assert Records(cfg, run, i) <==> !Known(seen, cfg.window, c, run[i].now);
    hide Records, Remembered, Holds, CacheKey, WithinSkew;
    forall k: nat
      ensures Holds(cfg, run, c.user, c.nonce, k, i + 1) <==>
              if k == i then !Known(seen, cfg.window, c, run[i].now)
              else Holds(cfg, run, c.user, c.nonce, k, i) && run[i].now - run[k].now <= cfg.window
    {
      HoldsStep(cfg, run, c.user, c.nonce, k, i);
    }
    if Known(seen, cfg.window, c, run[i].now) {
      var k: nat :| Holds(cfg, run, c.user, c.nonce, k, i);
      assert Holds(cfg, run, c.user, c.nonce, k, i + 1);
    } else {
      assert Holds(cfg, run, c.user, c.nonce, i, i + 1);
    }
  }

  /** Call `i` carries another nonce, or does not get to the cache. */
  lemma OtherCallFollows(cfg: Config, run: seq<Attempt>, user: string, nonce: bytes, i: nat, seen: Seen, seen': Seen)
    requires i < |run| && !(ReachesAt(cfg, run, i) && Carries(run[i], user, nonce))
    requires CacheFollows(cfg, run, user, nonce, i, seen)
    requires CacheAfter(cfg, seen, run[i].p, run[i].reply, run[i].now, seen')
    ensures CacheFollows(cfg, run, user, nonce, i + 1, seen')
  {
    var reaches := ReachesAt(cfg, run, i);
    if reaches && CacheKey(run[i].p.creds.user, run[i].p.creds.nonce) == CacheKey(user, nonce) {
      CacheKeyInjective(run[i].p.creds.user, run[i].p.creds.nonce, user, nonce);
    }
    assert Records(cfg, run, i) ==> reaches;
    hide Records, Holds, CacheKey, WithinSkew;
    forall k: nat
      ensures Holds(cfg, run, user, nonce, k, i + 1) <==>
              k != i && Holds(cfg, run, user, nonce, k, i) && (reaches ==> run[i].now - run[k].now <= cfg.window)
    {
      HoldsStep(cfg, run, user, nonce, k, i);
    }
    var key := CacheKey(user, nonce);
    if key in seen' {
      var k: nat :| Holds(cfg, run, user, nonce, k, i);
      assert Holds(cfg, run, user, nonce, k, i + 1);
    }
  }

  /** In every run the cache is what the calls so far have recorded and not outlived. */
  lemma {:induction false} CacheIsHistory(cfg: Config, run: seq<Attempt>, user: string, nonce: bytes, i: nat)
    requires i <= |run|
    ensures CacheFollows(cfg, run, user, nonce, i, SeenAt(cfg, run, i))
  {
    if i > 0 {
      var j, seen := i - 1, SeenAt(cfg, run, i - 1);
      CacheIsHistory(cfg, run, user, nonce, j);
      SeenStep(cfg, run, j);
      VerdictExplained(cfg, seen, run[j].p, run[j].reply, run[j].now);
      hide SeenAt, Verdict, CacheFollows, CacheAfter, Explains;
      if ReachesAt(cfg, run, j) && Carries(run[j], user, nonce) {
        OwnCallFollows(cfg, run, j, seen, SeenAt(cfg, run, i));
      } else {
        OtherCallFollows(cfg, run, user, nonce, j, seen, SeenAt(cfg, run, i));
      }
    }
  }

  /**
   Exactly what is accepted, in every run: a request of the right shape, with clocks
   that agree within the skew, of a user with a record that is not revoked, signed with
   that record's secret, whose nonce no earlier call recorded within the window.
   */
  lemma AcceptedIff(cfg: Config, run: seq<Attempt>, i: nat)
    requires i < |run|
    ensures AcceptedAt(cfg, run, i) <==>
      && ReachesAt(cfg, run, i) && Signed(cfg, run[i].p.creds, run[i].reply)
      && forall k: nat | k < i :: !Remembered(cfg, run, k, i)
  {
    VerdictExplained(cfg, SeenAt(cfg, run, i), run[i].p, run[i].reply, run[i].now);
    hide SeenAt, Verdict, CacheFollows, CacheAfter, Remembered;
    if run[i].p.Presented? {
      CacheIsHistory(cfg, run, run[i].p.creds.user, run[i].p.creds.nonce, i);
      KnownIffRemembered(cfg, run, i, SeenAt(cfg, run, i));
    }
  }

  // ------------------------------------------------------- signed Registers

  datatype Register = Register(user: string, device: string, publicKey: bytes, rest: bytes,
                               signedAt: int, nonce: bytes, signature: bytes)

  type Marshal = Register -> Option<bytes>

  function CanonicalBody(marshal: Marshal, reg: Register): Option<bytes> {
    marshal(reg.(signature := []))
  }

  /** SignRegister, with the clock and the random nonce as inputs. */
  function Sign(marshal: Marshal, hmac: (bytes, bytes) -> bytes, secret: bytes, reg: Register,
                nonce: bytes, now: int): Option<Register>
  {
    var r := reg.(signedAt := UnixSeconds(now), nonce := nonce, signature := []);
    match CanonicalBody(marshal, r)
    case None => None
    case Some(body) => Some(r.(signature := hmac(secret, body)))
  }

  function CredentialsFrom(marshal: Marshal, reg: Register): Option<Credentials> {
    match CanonicalBody(marshal, reg)
    case None => None
    case Some(body) => Some(Credentials(reg.user, reg.signedAt, reg.nonce, reg.signature, body))
  }

  /**
   The round trip: a Register signed with the stored secret always yields
   credentials, and they are accepted exactly when the clocks agree within the skew
   and the nonce is not in the cache.
   */
  lemma SignedRegisterAccepted(cfg: Config, marshal: Marshal, secret: bytes, reg: Register, nonce: bytes,
                               signTime: int, seen: Seen, now: int)
    requires |nonce| == NONCE_LENGTH && Sign(marshal, cfg.hmac, secret, reg, nonce, signTime).Some?
    ensures
      var signed := Sign(marshal, cfg.hmac, secret, reg, nonce, signTime).value;
      && CredentialsFrom(marshal, signed).Some?
      && var creds := CredentialsFrom(marshal, signed).value;
         var r := Verdict(cfg, seen, Presented(creds), Record(secret, false), now);
         (r.1 == Accepted(reg.user) <==>
            && WithinSkew(cfg, UnixSeconds(signTime), now)
            && CacheKey(reg.user, nonce) !in Cleaned(seen, cfg.window, now))
  {
    var signed := Sign(marshal, cfg.hmac, secret, reg, nonce, signTime).value;
    assert signed.(signature := []) == reg.(signedAt := UnixSeconds(signTime), nonce := nonce, signature := []);
  }

  /**
   A signature vouches for one Register only: if marshalling and the HMAC have no
   collisions, whatever is accepted with the signature of a signed Register is that
   very Register.
   */
  lemma SignatureBindsRegister(cfg: Config, marshal: Marshal, secret: bytes, reg: Register, nonce: bytes,
                               signTime: int, other: Register, seen: Seen, now: int)
    requires forall a, b :: marshal(a).Some? && marshal(a) == marshal(b) ==> a == b
    requires forall x, y :: cfg.hmac(secret, x) == cfg.hmac(secret, y) ==> x == y
    requires Sign(marshal, cfg.hmac, secret, reg, nonce, signTime).Some? && CredentialsFrom(marshal, other).Some?
    requires
      var creds := CredentialsFrom(marshal, other).value;
      && creds.signature == Sign(marshal, cfg.hmac, secret, reg, nonce, signTime).value.signature
      && Verdict(cfg, seen, Presented(creds), Record(secret, false), now).1.Accepted?
    ensures other == Sign(marshal, cfg.hmac, secret, reg, nonce, signTime).value
  {
    var signed := Sign(marshal, cfg.hmac, secret, reg, nonce, signTime).value;
    VerdictExplained(cfg, seen, Presented(CredentialsFrom(marshal, other).value), Record(secret, false), now);
    hide Verdict;
    assert signed.(signature := []) == reg.(signedAt := UnixSeconds(signTime), nonce := nonce, signature := []);
    assert marshal(signed.(signature := [])) == marshal(other.(signature := []));
  }
}
