/**
 The fixed-window limiter in front of pairing-code claims
 (firebase/functions/src/index.ts): ten attempts per address and sixty-second window,
 the window opening with the first attempt after the previous one ended.
 Times are in milliseconds.
 */
module ClaimLimit {
  const WINDOW: nat := 60_000
  const MAX_ATTEMPTS: nat := 10

  datatype Window = Window(start: int, attempts: nat)

  type Windows = map<string, Window>

  datatype Answer = Answer(allowed: bool, retryAfter: nat)

  datatype Next = Next(windows: Windows, answer: Answer)

  predicate Over(windows: Windows, key: string, now: int) {
    key in windows ==> windows[key].start + WINDOW <= now
  }

  /** Whole seconds from `now` until the window that began at `start` ends, rounded up. */
  function SecondsLeft(start: int, now: int): int {
    (start + WINDOW - now + 999) / 1000
  }

  function Step(windows: Windows, key: string, now: int): Next {
    if Over(windows, key, now) then Next(windows[key := Window(now, 1)], Answer(true, 0))
    else
      var w := windows[key];
      if w.attempts < MAX_ATTEMPTS then Next(windows[key := w.(attempts := w.attempts + 1)], Answer(true, 0))
      else
        var left := SecondsLeft(w.start, now);
        Next(windows, Answer(false, if left > 1 then left else 1))
  }

  class ClaimLimiter {
    var windows: Windows

    constructor ()
      ensures windows == map[]
    {
      windows := map[];
    }

    method Consume(key: string, now: int) returns (answer: Answer)
      modifies this
      ensures Next(windows, answer) == Step(old(windows), key, now)
    {
      if key !in windows || now - windows[key].start >= WINDOW {
        windows := windows[key := Window(now, 1)];
        return Answer(true, 0);
      }
      var w := windows[key];
      if w.attempts >= MAX_ATTEMPTS {
        var left := SecondsLeft(w.start, now);
        return Answer(false, if left > 1 then left else 1);
      }
      windows := windows[key := Window(w.start, w.attempts + 1)];
      return Answer(true, 0);
    }
  }

  // ------------------------------------------------------------------ runs

  datatype Call = Call(key: string, at: int)

  function StateAt(cs: seq<Call>, k: nat): Windows
    requires k <= |cs|
  {
    if k == 0 then map[] else Step(StateAt(cs, k - 1), cs[k - 1].key, cs[k - 1].at).windows
  }

  function AnswerAt(cs: seq<Call>, k: nat): Answer
    requires k < |cs|
  {
    Step(StateAt(cs, k), cs[k].key, cs[k].at).answer
  }

  /**
   The clock is read before the transaction, so attempts need not commit in the order
   of their readings; none commits after one whose reading is more than `lag` later.
   */
  predicate Timely(cs: seq<Call>, lag: nat) {
    forall i, j | 0 <= i <= j < |cs| :: cs[i].at <= cs[j].at + lag
  }

  /** Attempt `j` of `key` falls in the sixty seconds from `a` on and is admitted. */
  predicate AdmittedIn(cs: seq<Call>, j: nat, key: string, a: int)
    requires j < |cs|
  {
    cs[j].key == key && a <= cs[j].at < a + WINDOW && AnswerAt(cs, j).allowed
  }

  function Admitted(cs: seq<Call>, k: nat, key: string, a: int): nat
    requires k <= |cs|
  {
    if k == 0 then 0
    else Admitted(cs, k - 1, key, a) + if AdmittedIn(cs, k - 1, key, a) then 1 else 0
  }

  /** How many windows can open too late for the sixty seconds and still admit attempts from them. */
  function LateWindows(lag: nat): nat {
    if lag <= 1 then 0 else (lag - 2) / WINDOW + 1
  }

  /** The most attempts that sixty seconds can admit. */
  function Most(lag: nat): nat {
    2 * MAX_ATTEMPTS - 1 + (MAX_ATTEMPTS - 1) * LateWindows(lag)
  }

  /** At most so many windows opened before `start` and too late for the sixty seconds from `a` on. */
  function Earlier(start: int, a: int): int {
    (start - (a + WINDOW + 1)) / WINDOW
  }

  /**
   What the stored window says about the attempts admitted with a reading in the sixty
   seconds from `a` on.  A window that opened before `a` spent its first attempt before
   `a`; only one window opens within the sixty seconds; and windows that open after
   them can only admit attempts from them that commit late, and not as their first.
   */
  predicate Covers(windows: Windows, key: string, a: int, n: nat, lag: nat) {
    if key !in windows then n == 0
    else
      var w := windows[key];
      && 1 <= w.attempts <= MAX_ATTEMPTS && n <= Most(lag)
      && (n > 0 ==> a < w.start + WINDOW)
      && n <= if w.start < a then w.attempts - 1
              else if w.start == a then w.attempts
              else if w.start <= a + WINDOW then MAX_ATTEMPTS - 1 + w.attempts
              else 2 * MAX_ATTEMPTS - 2 + w.attempts + (MAX_ATTEMPTS - 1) * Earlier(w.start, a)
  }

  lemma CoversStep(windows: Windows, key: string, c: Call, a: int, n: nat, lag: nat)
    requires Covers(windows, key, a, n, lag)
    requires key in windows ==> windows[key].start <= c.at + lag
    ensures
      var next := Step(windows, c.key, c.at);
      var counted := c.key == key && a <= c.at < a + WINDOW && next.answer.allowed;
      Covers(next.windows, key, a, n + if counted then 1 else 0, lag)
  {
    if c.key == key && key in windows {
      var start := windows[key].start;
      if start > a + WINDOW {
        assert start + WINDOW <= c.at ==> Earlier(start, a) + 1 <= Earlier(c.at, a);
        assert c.at < a + WINDOW ==> Earlier(start, a) + 1 <= LateWindows(lag);
      }
    }
  }

  ghost predicate StartedBefore(cs: seq<Call>, k: nat, key: string)
    requires k <= |cs|
  {
    var windows := StateAt(cs, k);
    key in windows ==> exists j | 0 <= j < k :: cs[j].at == windows[key].start
  }

  lemma {:induction false} AlwaysCovers(cs: seq<Call>, k: nat, key: string, a: int, lag: nat)
    requires Timely(cs, lag) && k <= |cs|
    ensures Covers(StateAt(cs, k), key, a, Admitted(cs, k, key, a), lag)
    ensures StartedBefore(cs, k, key)
  {
    if k > 0 {
      AlwaysCovers(cs, k - 1, key, a, lag);
      var c, windows := cs[k - 1], StateAt(cs, k - 1);
      CoversStep(windows, key, c, a, Admitted(cs, k - 1, key, a), lag);
      hide Covers;
      assert cs[k - 1].at == c.at;
    }
  }

  /**
   Any sixty seconds of clock readings, wherever they begin, admit at most nineteen
   attempts of one address if attempts commit in order, and nine more for every window
   that late commits can fall into.
   */
  lemma AdmissionBound(cs: seq<Call>, key: string, a: int, lag: nat)
    requires Timely(cs, lag)
    ensures Admitted(cs, |cs|, key, a) <= Most(lag)
  {
    AlwaysCovers(cs, |cs|, key, a, lag);
  }

  /** How many late windows opened before attempt `i` of the burst. */
  function Round(i: int): int {
    (i - 2 * MAX_ATTEMPTS) / MAX_ATTEMPTS
  }

  /**
   One attempt, nine more when its window is about to end, ten in the next window; then
   again and again one that opens a window after the sixty seconds and nine late ones.
   */
  function BurstCall(key: string, i: nat): (c: Call)
    ensures c.key == key
  {
    var at :=
      if i == 0 then 1 - WINDOW
      else if i < MAX_ATTEMPTS then 0
      else if i < 2 * MAX_ATTEMPTS then 1
      else if i % MAX_ATTEMPTS == 0 then WINDOW + 1 + WINDOW * Round(i)
      else WINDOW - 1;
    Call(key, at)
  }

  function Burst(key: string, late: nat): (cs: seq<Call>)
    ensures |cs| == (2 + late) * MAX_ATTEMPTS
    ensures forall i | 0 <= i < |cs| :: cs[i] == BurstCall(key, i)
  {
    seq((2 + late) * MAX_ATTEMPTS, (i: nat) => BurstCall(key, i))
  }

  function BurstWindow(k: nat): Window
    requires k > 0
  {
    if k <= MAX_ATTEMPTS then Window(1 - WINDOW, k)
    else if k <= 2 * MAX_ATTEMPTS then Window(1, k - MAX_ATTEMPTS)
    else Window(WINDOW + 1 + WINDOW * Round(k - 1), (k - 1) % MAX_ATTEMPTS + 1)
  }

  function BurstAdmitted(k: nat): int
    requires k > 0
  {
    if k <= 2 * MAX_ATTEMPTS then k - 1 else k - 2 - Round(k - 1)
  }

  /** One attempt of the burst, on its own. */
  lemma BurstStep(key: string, k: nat)
    requires 0 < k
    ensures
      var c := BurstCall(key, k);
      && Step(map[key := BurstWindow(k)], key, c.at) == Next(map[key := BurstWindow(k + 1)], Answer(true, 0))
      && BurstAdmitted(k + 1) == BurstAdmitted(k) + if 0 <= c.at < WINDOW then 1 else 0
  {
    var w, w' := BurstWindow(k), BurstWindow(k + 1);
    assert map[key := w][key := w'] == map[key := w'];
    RoundStep(k);
    hide Round;
  }

  lemma RoundStep(k: nat)
    requires k > 0
    ensures Round(k) == Round(k - 1) + if k % MAX_ATTEMPTS == 0 then 1 else 0
    ensures k % MAX_ATTEMPTS == if k % MAX_ATTEMPTS == 0 then 0 else (k - 1) % MAX_ATTEMPTS + 1
    ensures k % MAX_ATTEMPTS == 0 ==> (k - 1) % MAX_ATTEMPTS == MAX_ATTEMPTS - 1
    ensures Round(2 * MAX_ATTEMPTS) == 0
  {
  }

  lemma BurstTotal(late: nat)
    ensures BurstAdmitted((2 + late) * MAX_ATTEMPTS) == 2 * MAX_ATTEMPTS - 1 + (MAX_ATTEMPTS - 1) * late
  {
    assert Round((2 + late) * MAX_ATTEMPTS - 1) + 1 == late;
  }

  /** One more attempt of a run, in which `cs[k]` finds the windows `windows`. */
  lemma RunStep(cs: seq<Call>, k: nat, key: string, a: int, windows: Windows)
    requires k < |cs| && StateAt(cs, k) == windows
    ensures
      var next := Step(windows, cs[k].key, cs[k].at);
      && StateAt(cs, k + 1) == next.windows
      && Admitted(cs, k + 1, key, a) == Admitted(cs, k, key, a)
           + if cs[k].key == key && a <= cs[k].at < a + WINDOW && next.answer.allowed then 1 else 0
  {
    hide Step;
  }

  lemma {:induction false} BurstState(key: string, late: nat, k: nat)
    requires 1 <= k <= |Burst(key, late)|
    ensures StateAt(Burst(key, late), k) == map[key := BurstWindow(k)]
    ensures Admitted(Burst(key, late), k, key, 0) == BurstAdmitted(k)
  {
    var cs := Burst(key, late);
    if k == 1 {
      hide StateAt, Admitted;
      RunStart(cs, key, 0);
      RunStep(cs, 0, key, 0, map[]);
    } else {
      hide StateAt, Admitted, Step, BurstWindow, BurstAdmitted, BurstCall;
      BurstState(key, late, k - 1);
      BurstStep(key, k - 1);
      RunStep(cs, k - 1, key, 0, map[key := BurstWindow(k - 1)]);
      assert cs[k - 1].key == key;
    }
  }

  lemma RunStart(cs: seq<Call>, key: string, a: int)
    ensures StateAt(cs, 0) == map[] && Admitted(cs, 0, key, a) == 0
  {
  }

  /** The bound is met for every lag. */
  lemma BoundIsTight(key: string, lag: nat)
    ensures
      var cs := Burst(key, LateWindows(lag));
      Timely(cs, lag) && Admitted(cs, |cs|, key, 0) == Most(lag)
  {
    var late := LateWindows(lag);
    var cs := Burst(key, late);
    BurstState(key, late, |cs|);
    BurstTotal(late);
    hide Admitted, StateAt, BurstAdmitted, BurstCall, BurstWindow, LateWindows;
    forall i, j | 0 <= i <= j < |cs|
      ensures cs[i].at <= cs[j].at + lag
    {
      BurstIsTimely(key, i, j, late, lag);
    }
  }

  lemma BurstIsTimely(key: string, i: nat, j: nat, late: nat, lag: nat)
    requires i <= j < (2 + late) * MAX_ATTEMPTS && late == LateWindows(lag)
    ensures BurstCall(key, i).at <= BurstCall(key, j).at + lag
  {
    assert i >= 2 * MAX_ATTEMPTS ==> 0 <= Round(i) <= Round(j) <= late - 1;
  }

  // ------------------------------------------------------------- retrying

  /** A refusal names the wait, and further refused attempts do not move it. */
  lemma {:induction false} WindowStaysPut(cs: seq<Call>, i: nat, k: nat)
    requires i < k <= |cs| && !AnswerAt(cs, i).allowed
    requires forall j | i < j < k && cs[j].key == cs[i].key :: !AnswerAt(cs, j).allowed
    ensures var key := cs[i].key;
            key in StateAt(cs, i) && key in StateAt(cs, k) && StateAt(cs, k)[key] == StateAt(cs, i)[key]
    decreases k
  {
    if i + 1 < k {
      WindowStaysPut(cs, i, k - 1);
    }
  }

  /**
   An attempt made once the announced seconds have passed is admitted, if every
   attempt of that address in between was refused.
   */
  lemma RetryAfterIsEnough(cs: seq<Call>, i: nat, k: nat)
    requires i < k < |cs| && cs[k].key == cs[i].key && !AnswerAt(cs, i).allowed
    requires forall j | i < j < k && cs[j].key == cs[i].key :: !AnswerAt(cs, j).allowed
    requires cs[i].at + 1000 * AnswerAt(cs, i).retryAfter <= cs[k].at
    ensures AnswerAt(cs, k).allowed
  {
    WindowStaysPut(cs, i, k);
  }

  /** Waiting a second less is not enough: every attempt up to then is refused. */
  lemma {:induction false} RetryAfterIsNeeded(cs: seq<Call>, i: nat, k: nat)
    requires i < k < |cs| && cs[k].key == cs[i].key && !AnswerAt(cs, i).allowed
    requires forall j | i < j <= k && cs[j].key == cs[i].key ::
      cs[j].at <= cs[i].at + 1000 * (AnswerAt(cs, i).retryAfter - 1)
    ensures !AnswerAt(cs, k).allowed
    decreases k
  {
    forall j | i < j < k && cs[j].key == cs[i].key
      ensures !AnswerAt(cs, j).allowed
    {
      RetryAfterIsNeeded(cs, i, j);
    }
    WindowStaysPut(cs, i, k);
  }

  // ------------------------------------------------- exactly what is refused

  /** Attempt `j` opens a window: no window of its address covers it. */
  ghost predicate Starts(cs: seq<Call>, j: nat)
    requires j < |cs|
    decreases j, 0
  {
    forall i: nat | i < j :: !Within(cs, i, j)
  }

  /** Attempt `j` falls into the window that attempt `i` of the same address opened, as all between them did. */
  ghost predicate Within(cs: seq<Call>, i: nat, j: nat)
    requires i < j < |cs|
    decreases i, 1
  {
    && cs[i].key == cs[j].key && Starts(cs, i) && cs[j].at < cs[i].at + WINDOW
    && forall m | i < m < j && cs[m].key == cs[i].key :: cs[m].at < cs[i].at + WINDOW
  }

  /** How many attempts of `key` there were from `i` up to `k`. */
  function Attempts(cs: seq<Call>, key: string, i: nat, k: nat): nat
    requires i <= k <= |cs|
  {
    if k == i then 0 else Attempts(cs, key, i, k - 1) + if cs[k - 1].key == key then 1 else 0
  }

  /** The window of `key` before attempt `k` is the one that attempt `i` opened. */
  ghost predicate Current(cs: seq<Call>, key: string, i: nat, k: nat)
    requires k <= |cs|
  {
    && i < k && cs[i].key == key && Starts(cs, i)
    && forall m | i < m < k && cs[m].key == key :: cs[m].at < cs[i].at + WINDOW
  }

  function AtMostTen(n: nat): nat {
    if n <= MAX_ATTEMPTS then n else MAX_ATTEMPTS
  }

  /** The stored window is that of the attempt that opened it, with the attempts since, up to ten. */
  ghost predicate Follows(cs: seq<Call>, key: string, k: nat, windows: Windows)
    requires k <= |cs|
  {
    && (key in windows <==> exists i: nat :: Current(cs, key, i, k))
    && forall i: nat | Current(cs, key, i, k) ::
         key in windows && windows[key] == Window(cs[i].at, AtMostTen(Attempts(cs, key, i, k)))
  }

  lemma CurrentGrows(cs: seq<Call>, key: string, i: nat, k: nat)
    requires k < |cs|
    ensures Current(cs, key, i, k + 1) <==>
            if i == k then cs[k].key == key && Starts(cs, k)
            else Current(cs, key, i, k) && (cs[k].key == key ==> cs[k].at < cs[i].at + WINDOW)
    ensures i <= k ==> Attempts(cs, key, i, k + 1) == Attempts(cs, key, i, k) + if cs[k].key == key then 1 else 0
  {
    hide Starts;
  }

  /** An attempt finds its window over exactly if no window covers it. */
  lemma OverIffStarts(cs: seq<Call>, k: nat, windows: Windows)
    requires k < |cs| && Follows(cs, cs[k].key, k, windows)
    ensures Over(windows, cs[k].key, cs[k].at) <==> Starts(cs, k)
    ensures forall i: nat | i < k ::
      Within(cs, i, k) <==> Current(cs, cs[k].key, i, k) && cs[k].at < cs[i].at + WINDOW
  {
    var key := cs[k].key;
    forall i: nat | i < k
      ensures Within(cs, i, k) <==> Current(cs, key, i, k) && cs[k].at < cs[i].at + WINDOW
    {
    }
    if !Over(windows, key, cs[k].at) {
      var i: nat :| Current(cs, key, i, k);
      assert Within(cs, i, k);
    }
  }

  lemma FollowsStep(cs: seq<Call>, key: string, k: nat, windows: Windows)
    requires k < |cs| && Follows(cs, key, k, windows)
    ensures Follows(cs, key, k + 1, Step(windows, cs[k].key, cs[k].at).windows)
  {
    if cs[k].key == key {
      OverIffStarts(cs, k, windows);
    }
    hide Starts, Current, Attempts, Within;
    forall i: nat
      ensures Current(cs, key, i, k + 1) <==>
              if i == k then cs[k].key == key && Starts(cs, k)
              else Current(cs, key, i, k) && (cs[k].key == key ==> cs[k].at < cs[i].at + WINDOW)
      ensures i <= k ==> Attempts(cs, key, i, k + 1) == Attempts(cs, key, i, k) + if cs[k].key == key then 1 else 0
    {
      CurrentGrows(cs, key, i, k);
    }
    AttemptsNone(cs, key, k);
    if cs[k].key == key && Starts(cs, k) {
      assert Current(cs, key, k, k + 1);
    } else if key in windows {
      var i: nat :| Current(cs, key, i, k);
      assert Current(cs, key, i, k + 1);
    }
  }

  lemma AttemptsNone(cs: seq<Call>, key: string, k: nat)
    requires k <= |cs|
    ensures Attempts(cs, key, k, k) == 0
  {
  }

  lemma {:induction false} WindowIsHistory(cs: seq<Call>, key: string, k: nat)
    requires k <= |cs|
    ensures Follows(cs, key, k, StateAt(cs, k))
  {
    if k > 0 {
      WindowIsHistory(cs, key, k - 1);
      FollowsStep(cs, key, k - 1, StateAt(cs, k - 1));
      hide Follows, Step;
    }
  }

  /**
   Exactly what is refused: an attempt is, if and only if ten or more attempts of the
   same address came before it in the window it falls into.  Other addresses play no part.
   */
  lemma RefusedIff(cs: seq<Call>, k: nat)
    requires k < |cs|
    ensures !AnswerAt(cs, k).allowed <==>
            exists i: nat | i < k :: Within(cs, i, k) && Attempts(cs, cs[k].key, i, k) >= MAX_ATTEMPTS
  {
    var key, windows := cs[k].key, StateAt(cs, k);
    hide StateAt, Step, Attempts, Starts, Within, Current, AnswerAt;
    WindowIsHistory(cs, key, k);
    OverIffStarts(cs, k, windows);
    AnswerRefuses(cs, k);
    if !AnswerAt(cs, k).allowed {
      var i: nat :| Current(cs, key, i, k);
      CurrentIsEarlier(cs, key, i, k);
      assert Within(cs, i, k) && Attempts(cs, key, i, k) >= MAX_ATTEMPTS;
    }
    forall i: nat | i < k && Within(cs, i, k) && Attempts(cs, key, i, k) >= MAX_ATTEMPTS
      ensures !AnswerAt(cs, k).allowed
    {
      assert Current(cs, key, i, k);
    }
  }

  lemma CurrentIsEarlier(cs: seq<Call>, key: string, i: nat, k: nat)
    requires k <= |cs| && Current(cs, key, i, k)
    ensures i < k
  {
  }

  lemma AnswerRefuses(cs: seq<Call>, k: nat)
    requires k < |cs|
    ensures
      var w, key := StateAt(cs, k), cs[k].key;
      !AnswerAt(cs, k).allowed <==> key in w && cs[k].at < w[key].start + WINDOW && w[key].attempts >= MAX_ATTEMPTS
  {
    hide StateAt;
  }
}
