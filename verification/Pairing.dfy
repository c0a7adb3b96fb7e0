/**
 Pairing codes of firebase/functions/src/index.ts: a signed-in user mints a six-digit
 code bound to a token, and a host claims it once within five minutes.  Every
 Firestore transaction is one atomic step; times are in milliseconds.
 */
module Pairing {
  import opened Bytes

  const TTL: nat := 300_000
  const CREATE_ATTEMPTS: nat := 16

  // ----------------------------------------------------------------- codes

  predicate Numeric(s: string) {
    forall i | 0 <= i < |s| :: '0' <= s[i] <= '9'
  }

  function Decimal(n: nat): (s: string)
    ensures Numeric(s) && s != []
  {
    var digit := ['0' + (n % 10) as char];
    if n < 10 then digit else Decimal(n / 10) + digit
  }

  function PadStart(s: string, width: nat): string
    decreases width - |s|
  {
    if |s| < width then PadStart("0" + s, width) else s
  }

  /** The code drawn as the number `n`. */
  function PairingCode(n: nat): string {
    PadStart(Decimal(n), 6)
  }

  function ValueOf(s: string): int {
    if s == [] then 0 else 10 * ValueOf(s[..|s| - 1]) + (s[|s| - 1] as int - '0' as int)
  }

  function Power10(width: nat): nat {
    if width == 0 then 1 else 10 * Power10(width - 1)
  }

  lemma {:induction false} DecimalReadsBack(n: nat, width: nat)
    requires 0 < width && n < Power10(width)
    ensures |Decimal(n)| <= width && ValueOf(Decimal(n)) == n
  {
    var s := Decimal(n);
    if n >= 10 {
      DecimalReadsBack(n / 10, width - 1);
      assert s[..|s| - 1] == Decimal(n / 10);
    }
  }

  lemma {:induction false} LeadingZero(s: string)
    ensures ValueOf("0" + s) == ValueOf(s)
  {
    var t := "0" + s;
    if s == [] {
      assert ValueOf(t[..0]) == 0;
    } else {
      LeadingZero(s[..|s| - 1]);
      assert t[..|t| - 1] == "0" + s[..|s| - 1];
    }
  }

  lemma {:induction false} PaddingKeepsValue(s: string, width: nat)
    requires Numeric(s) && |s| <= width
    ensures var t := PadStart(s, width); |t| == width && Numeric(t) && ValueOf(t) == ValueOf(s)
    decreases width - |s|
  {
    if |s| < width {
      LeadingZero(s);
      PaddingKeepsValue("0" + s, width);
    }
  }

  /** Every drawn code has the six digits a claim asks for, and different draws give different codes. */
  lemma CodeReadsBack(n: nat)
    requires n < 1_000_000
    ensures var code := PairingCode(n); |code| == 6 && Numeric(code) && ValueOf(code) == n
  {
    assert Power10(3) == 1000 && Power10(6) == 1_000_000;
    DecimalReadsBack(n, 6);
    PaddingKeepsValue(Decimal(n), 6);
  }

  // ---------------------------------------------------------- transactions

  datatype Doc = Doc(uid: string, token: string, created: int, expires: Option<int>)

  type Docs = map<string, Doc>

  datatype Outcome = Minted | Busy | Claimed(uid: string, token: string) | NotFound | Lapsed

  datatype Event =
    | Mint(code: string, uid: string, token: string, created: int, at: int)
    | Claim(code: string, at: int)

  datatype Next = Next(docs: Docs, outcome: Outcome)

  function Stored(docs: Docs, code: string): Option<Doc> {
    if code in docs then Some(docs[code]) else None
  }

  /** The code can be handed out: unused, or its document has expired. */
  predicate Free(docs: Docs, code: string, now: int) {
    code in docs ==> docs[code].expires.Some? && docs[code].expires.value < now
  }

  predicate Redeemable(docs: Docs, code: string, now: int) {
    code in docs && docs[code].expires.Some? && now <= docs[code].expires.value
  }

  function Step(docs: Docs, e: Event): Next {
    match e
    case Mint(code, uid, token, created, at) =>
      if Free(docs, code, at) then Next(docs[code := Doc(uid, token, created, Some(created + TTL))], Minted)
      else Next(docs, Busy)
    case Claim(code, at) =>
      if code !in docs then Next(docs, NotFound)
      else if Redeemable(docs, code, at) then Next(docs - {code}, Claimed(docs[code].uid, docs[code].token))
      else Next(docs - {code}, Lapsed)
  }

  class PairingCodes {
    var docs: Docs

    constructor ()
      ensures docs == map[]
    {
      docs := map[];
    }

    method TryMint(code: string, uid: string, token: string, created: int, expires: int, now: int)
      returns (ok: bool)
      modifies this
      ensures ok <==> Free(old(docs), code, now)
      ensures docs == if ok then old(docs)[code := Doc(uid, token, created, Some(expires))] else old(docs)
      ensures expires == created + TTL ==>
        Step(old(docs), Mint(code, uid, token, created, now)) == Next(docs, if ok then Minted else Busy)
    {
      if code in docs {
        var existing := docs[code].expires;
        if existing.None? || existing.value >= now {
          return false;
        }
      }
      docs := docs[code := Doc(uid, token, created, Some(expires))];
      return true;
    }

    /**
     Draw codes until one is free: the first free candidate gets the document, and none
     does when all sixteen are in use.  `draws` and `times` are the random numbers and
     the clock readings of the successive transactions.
     */
    method Create(uid: string, token: string, now: int, draws: seq<nat>, times: seq<int>)
      returns (r: Option<string>)
      requires |draws| == |times| == CREATE_ATTEMPTS
      requires forall i | 0 <= i < |draws| :: 1 <= draws[i] < 1_000_000
      modifies this
      ensures r.None? ==>
        && docs == old(docs)
        && forall i | 0 <= i < CREATE_ATTEMPTS :: !Free(old(docs), PairingCode(draws[i]), times[i])
      ensures r.Some? ==>
        && docs == old(docs)[r.value := Doc(uid, token, now, Some(now + TTL))]
        && r.value != PairingCode(0)
        && FirstFree(old(docs), draws, times, r.value)
    {
      for attempt := 0 to CREATE_ATTEMPTS
        invariant docs == old(docs)
        invariant forall i | 0 <= i < attempt :: !Free(docs, PairingCode(draws[i]), times[i])
      {
        var code := PairingCode(draws[attempt]);
        var created := TryMint(code, uid, token, now, now + TTL, times[attempt]);
        if created {
          CodeReadsBack(draws[attempt]);
          CodeReadsBack(0);
          return Some(code);
        }
      }
      return None;
    }

    method Redeem(code: string, now: int) returns (outcome: Outcome)
      modifies this
      ensures Step(old(docs), Claim(code, now)) == Next(docs, outcome)
      ensures code !in docs && forall other | other != code :: Stored(docs, other) == Stored(old(docs), other)
      ensures outcome == match Stored(old(docs), code)
        case None => NotFound
        case Some(doc) => if doc.expires.Some? && now <= doc.expires.value then Claimed(doc.uid, doc.token) else Lapsed
    {
      if code !in docs {
        return NotFound;
      }
      var doc := docs[code];
      docs := docs - {code};
      if doc.expires.None? || doc.expires.value < now {
        return Lapsed;
      }
      return Claimed(doc.uid, doc.token);
    }
  }

  predicate FirstFree(docs: Docs, draws: seq<nat>, times: seq<int>, code: string)
    requires |draws| == |times|
  {
    exists k | 0 <= k < |draws| ::
      && code == PairingCode(draws[k]) && Free(docs, code, times[k])
      && forall i | 0 <= i < k :: !Free(docs, PairingCode(draws[i]), times[i])
  }

  // ------------------------------------------------------------------ runs

  /** The documents before step `k` of a run that starts with the store `docs`. */
  function DocsAt(docs: Docs, es: seq<Event>, k: nat): Docs
    requires k <= |es|
  {
    if k == 0 then docs else Step(DocsAt(docs, es, k - 1), es[k - 1]).docs
  }

  function OutcomeAt(docs: Docs, es: seq<Event>, k: nat): Outcome
    requires k < |es|
  {
    Step(DocsAt(docs, es, k), es[k]).outcome
  }

  predicate Ordered(es: seq<Event>) {
    forall i, j | 0 <= i <= j < |es| :: es[i].at <= es[j].at
  }

  predicate ClaimOf(e: Event, code: string) {
    e.Claim? && e.code == code
  }

  predicate MintedAt(es: seq<Event>, i: nat, code: string)
    requires i < |es|
  {
    es[i].Mint? && es[i].code == code && OutcomeAt(map[], es, i) == Minted
  }

  function DocOf(e: Event): Doc
    requires e.Mint?
  {
    Doc(e.uid, e.token, e.created, Some(e.created + TTL))
  }

  /** The step that minted the document stored for `code` before step `k`. */
  function Holder(es: seq<Event>, k: nat, code: string): (r: Option<nat>)
    requires k <= |es|
    ensures r.Some? ==> r.value < k && MintedAt(es, r.value, code)
  {
    if k == 0 then None
    else if ClaimOf(es[k - 1], code) then None
    else if MintedAt(es, k - 1, code) then Some(k - 1)
    else Holder(es, k - 1, code)
  }

  lemma {:induction false} StoreFollowsHolder(es: seq<Event>, k: nat, code: string)
    requires k <= |es|
    ensures var h := Holder(es, k, code); var docs := DocsAt(map[], es, k);
            if h.Some? then code in docs && docs[code] == DocOf(es[h.value]) else code !in docs
  {
    if k > 0 {
      StoreFollowsHolder(es, k - 1, code);
    }
  }

  lemma {:induction false} HolderIsLatest(es: seq<Event>, k: nat, code: string)
    requires k <= |es| && Holder(es, k, code).Some?
    ensures forall j | Holder(es, k, code).value < j < k :: !ClaimOf(es[j], code) && !MintedAt(es, j, code)
  {
    if Holder(es, k, code).value < k - 1 {
      HolderIsLatest(es, k - 1, code);
    }
  }

  /** Claim `k` comes in time for the mint at `i`, and no claim came between. */
  predicate InTimeFor(es: seq<Event>, i: nat, k: nat) {
    && i < k < |es| && ClaimOf(es[k], es[i].code) && MintedAt(es, i, es[i].code)
    && es[k].at <= es[i].created + TTL
    && forall j | i < j < k :: !ClaimOf(es[j], es[i].code)
  }

  /** While a code can still be claimed, no mint takes it over. */
  lemma {:induction false} HeldUntilClaimed(es: seq<Event>, i: nat, j: nat, k: nat)
    requires Ordered(es) && InTimeFor(es, i, k) && i < j <= k
    ensures Holder(es, j, es[i].code) == Some(i)
    ensures forall m | i < m < j && es[m].code == es[i].code :: OutcomeAt(map[], es, m) == Busy
    decreases j
  {
    hide DocsAt;
    if i + 1 < j {
      HeldUntilClaimed(es, i, j - 1, k);
      StoreFollowsHolder(es, j - 1, es[i].code);
      assert es[j - 1].at <= es[k].at;
    }
  }

  /** A claim succeeds, with the minted uid and token, when some mint is still waiting for it … */
  lemma InTimeSucceeds(es: seq<Event>, i: nat, k: nat)
    requires Ordered(es) && InTimeFor(es, i, k)
    ensures OutcomeAt(map[], es, k) == Claimed(es[i].uid, es[i].token)
    ensures forall m | i < m < k && es[m].code == es[i].code :: OutcomeAt(map[], es, m) == Busy
  {
    HeldUntilClaimed(es, i, k, k);
    StoreFollowsHolder(es, k, es[i].code);
  }

  /** … and only then: its mint is the latest one, made at most the TTL before the claim. */
  lemma SuccessHasMint(es: seq<Event>, k: nat) returns (i: nat)
    requires k < |es| && OutcomeAt(map[], es, k).Claimed?
    ensures InTimeFor(es, i, k) && OutcomeAt(map[], es, k) == Claimed(es[i].uid, es[i].token)
    ensures forall j | i < j < k :: !MintedAt(es, j, es[k].code)
  {
    var code := es[k].code;
    StoreFollowsHolder(es, k, code);
    i := Holder(es, k, code).value;
    HolderIsLatest(es, k, code);
  }

  /** The mint at `i` is the last one of its code before step `k`, and nobody has claimed it. */
  predicate Waits(es: seq<Event>, i: nat, k: nat) {
    && i < k <= |es| && MintedAt(es, i, es[i].code)
    && forall j | i < j < k :: !ClaimOf(es[j], es[i].code) && !MintedAt(es, j, es[i].code)
  }

  lemma HolderWaits(es: seq<Event>, k: nat, code: string, i: nat)
    requires k <= |es| && i < k
    ensures Holder(es, k, code) == Some(i) <==> es[i].code == code && Waits(es, i, k)
  {
    if Holder(es, k, code) == Some(i) {
      HolderIsLatest(es, k, code);
    } else if es[i].code == code && Waits(es, i, k) {
      WaitingHolds(es, k, i);
    }
  }

  lemma {:induction false} WaitingHolds(es: seq<Event>, k: nat, i: nat)
    requires Waits(es, i, k)
    ensures Holder(es, k, es[i].code) == Some(i)
  {
    hide OutcomeAt;
    if i < k - 1 {
      WaitingHolds(es, k - 1, i);
    }
  }

  /**
   A code is handed out exactly when no earlier mint of it is unclaimed and still within
   its TTL, and a claim fails as lapsed exactly when an unclaimed one is past it.
   */
  lemma OutcomeExactly(es: seq<Event>, k: nat)
    requires k < |es|
    ensures
      var code, at := es[k].code, es[k].at;
      && (es[k].Mint? ==>
            (OutcomeAt(map[], es, k) == Minted <==>
             forall i | 0 <= i < k && es[i].code == code && Waits(es, i, k) :: es[i].created + TTL < at))
      && (es[k].Mint? ==> OutcomeAt(map[], es, k).Minted? || OutcomeAt(map[], es, k).Busy?)
      && (es[k].Claim? ==>
            (OutcomeAt(map[], es, k) == Lapsed <==>
             exists i | 0 <= i < k :: es[i].code == code && Waits(es, i, k) && es[i].created + TTL < at))
      && (es[k].Claim? ==>
            (OutcomeAt(map[], es, k) == NotFound <==>
             forall i | 0 <= i < k && es[i].code == code :: !Waits(es, i, k)))
  {
    var code := es[k].code;
    StoreFollowsHolder(es, k, code);
    forall i | 0 <= i < k
      ensures Holder(es, k, code) == Some(i) <==> es[i].code == code && Waits(es, i, k)
    {
      HolderWaits(es, k, code, i);
    }
    hide Waits, Holder, DocsAt;
    if Holder(es, k, code).Some? {
      var i := Holder(es, k, code).value;
      assert es[i].code == code && Waits(es, i, k);
    }
  }

  // ---------------------------------------------------------- conservation

  datatype Mark = Issued | Replaced | Redeemed | Discarded

  /** Step `j` does `m` to the document of `code`. */
  predicate Marked(es: seq<Event>, j: nat, code: string, m: Mark)
    requires j < |es|
  {
    var outcome := OutcomeAt(map[], es, j);
    es[j].code == code &&
    match m
    case Issued => outcome.Minted?
    case Replaced => outcome.Minted? && code in DocsAt(map[], es, j)
    case Redeemed => outcome.Claimed?
    case Discarded => outcome.Lapsed?
  }

  function Tally(es: seq<Event>, k: nat, code: string, m: Mark): nat
    requires k <= |es|
  {
    if k == 0 then 0
    else Tally(es, k - 1, code, m) + if Marked(es, k - 1, code, m) then 1 else 0
  }

  /**
   Every minted document is redeemed, discarded, replaced or still stored, exactly once;
   so a code is never claimed successfully more often than it was minted.
   */
  lemma {:induction false} EveryMintAccountedFor(es: seq<Event>, k: nat, code: string)
    requires k <= |es|
    ensures Tally(es, k, code, Issued) ==
            Tally(es, k, code, Redeemed) + Tally(es, k, code, Discarded) + Tally(es, k, code, Replaced)
            + if code in DocsAt(map[], es, k) then 1 else 0
    ensures Tally(es, k, code, Redeemed) <= Tally(es, k, code, Issued)
  {
    if k > 0 {
      EveryMintAccountedFor(es, k - 1, code);
    }
  }

  // ------------------------------------------------------ stale documents

  /** The part of the store that can still matter at `now`. */
  function View(docs: Docs, code: string, now: int): Option<Doc> {
    if Free(docs, code, now) then None else Some(docs[code])
  }

  ghost predicate SameView(docs: Docs, docs': Docs, now: int) {
    forall code :: View(docs, code, now) == View(docs', code, now)
  }

  /** Outcomes that only differ in how a failed claim is reported. */
  predicate SameOutcome(o: Outcome, o': Outcome) {
    o == o' || ((o.NotFound? || o.Lapsed?) && (o'.NotFound? || o'.Lapsed?))
  }

  lemma StepSameView(docs: Docs, docs': Docs, e: Event)
    requires SameView(docs, docs', e.at)
    ensures SameOutcome(Step(docs, e).outcome, Step(docs', e).outcome)
    ensures SameView(Step(docs, e).docs, Step(docs', e).docs, e.at)
  {
    var next, next' := Step(docs, e).docs, Step(docs', e).docs;
    assert View(docs, e.code, e.at) == View(docs', e.code, e.at);
    forall code
      ensures View(next, code, e.at) == View(next', code, e.at)
    {
      assert View(docs, code, e.at) == View(docs', code, e.at);
    }
  }

  lemma ViewLater(docs: Docs, docs': Docs, now: int, later: int)
    requires SameView(docs, docs', now) && now <= later
    ensures SameView(docs, docs', later)
  {
    forall code
      ensures View(docs, code, later) == View(docs', code, later)
    {
      assert View(docs, code, now) == View(docs', code, now);
    }
  }

  /**
   Expired documents decide nothing: two stores that differ only in those give the same
   mints and the same successful claims in every later run, so what a mint overwrites
   is never a document that a later claim could redeem.
   */
  lemma {:induction false} StaleDocsInvisible(docs: Docs, docs': Docs, now: int, es: seq<Event>, k: nat)
    requires SameView(docs, docs', now) && Ordered(es) && k < |es| && now <= es[0].at
    ensures SameView(DocsAt(docs, es, k), DocsAt(docs', es, k), es[k].at)
    ensures SameOutcome(OutcomeAt(docs, es, k), OutcomeAt(docs', es, k))
  {
    hide Step, View, Free;
    if k == 0 {
      ViewLater(docs, docs', now, es[0].at);
    } else {
      StaleDocsInvisible(docs, docs', now, es, k - 1);
      StepSameView(DocsAt(docs, es, k - 1), DocsAt(docs', es, k - 1), es[k - 1]);
      ViewLater(DocsAt(docs, es, k), DocsAt(docs', es, k), es[k - 1].at, es[k].at);
    }
    StepSameView(DocsAt(docs, es, k), DocsAt(docs', es, k), es[k]);
  }

  /** No run from `now` on tells the two stores apart. */
  ghost predicate Indistinguishable(docs: Docs, docs': Docs, now: int) {
    forall es: seq<Event>, k: nat | Ordered(es) && k < |es| && now <= es[0].at ::
      SameOutcome(OutcomeAt(docs, es, k), OutcomeAt(docs', es, k))
  }

  lemma RemovedStale(docs: Docs, code: string, now: int)
    requires Free(docs, code, now)
    ensures Indistinguishable(docs, docs - {code}, now)
  {
    assert SameView(docs, docs - {code}, now);
    hide SameOutcome, View, Free, OutcomeAt, SameView, Ordered;
    forall es: seq<Event>, k: nat | Ordered(es) && k < |es| && now <= es[0].at
      ensures SameOutcome(OutcomeAt(docs, es, k), OutcomeAt(docs - {code}, es, k))
    {
      StaleDocsInvisible(docs, docs - {code}, now, es, k);
    }
  }

  /**
   A mint takes over a stored code exactly when that document no longer matters: no
   later run of mints and claims could tell whether it was there.
   */
  lemma MintReplacesIffStale(docs: Docs, e: Event)
    requires e.Mint? && e.code in docs
    ensures Step(docs, e).outcome == Minted <==> Indistinguishable(docs, docs - {e.code}, e.at)
  {
    if Free(docs, e.code, e.at) {
      RemovedStale(docs, e.code, e.at);
    } else {
      var probe := if docs[e.code].expires.None? then e else Claim(e.code, e.at);
      assert Ordered([probe]);
      assert OutcomeAt(docs, [probe], 0) == Step(docs, probe).outcome;
      assert OutcomeAt(docs - {e.code}, [probe], 0) == Step(docs - {e.code}, probe).outcome;
      assert !SameOutcome(OutcomeAt(docs, [probe], 0), OutcomeAt(docs - {e.code}, [probe], 0));
    }
  }
}
