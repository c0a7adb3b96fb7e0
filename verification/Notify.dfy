/**
 The notification state machine of windows/cmd/peershd/notify.go, one per PTY stream.
 Every critical section of its mutex is one step; an output chunk that completes a
 prompt marker leads to a second section, and others may run between the two.
 Times are in nanoseconds.
 */
module Notify {
  import opened Bytes
  import OscTracker

  type uint32 = x: nat | x < 0x1_0000_0000

  const SECOND: nat := 1_000_000_000
  const COOLDOWN: nat := 5 * SECOND
  const DEFAULT_THRESHOLD: nat := 10 * SECOND
  const MAX_DURATION: nat := 0x7fff_ffff_ffff_ffff

  datatype Config = Config(enabled: bool, thresholdSeconds: uint32, idleSeconds: uint32, tabLabel: string, device: string)

  datatype Reason = AtPrompt | AtIdle

  datatype Fire = Fire(device: string, tabLabel: string, reason: Reason, duration: int)

  /** `pending` belongs to the pump: its chunk held a marker and the firing section is still to come. */
  datatype State = State(
    cfg: Option<Config>,
    lastInput: Option<int>,
    lastOutput: Option<int>,
    running: bool,
    lastFired: Option<int>,
    tracker: OscTracker.State,
    pending: bool)

  const INITIAL := State(None, None, None, false, None, OscTracker.INITIAL, false)

  datatype Event =
    | SetConfig(cfg: Option<Config>, at: int)
    | Input(at: int)
    | Output(data: bytes, at: int)
    | Prompt(at: int)
    | Idle(at: int)

  /** Time passed since `past`; since the zero time, the longest duration there is. */
  function Since(past: Option<int>, now: int): int {
    match past
    case None => MAX_DURATION
    case Some(t) => now - t
  }

  function Threshold(cfg: Config): nat {
    if cfg.thresholdSeconds == 0 then DEFAULT_THRESHOLD else cfg.thresholdSeconds * SECOND
  }

  function IdleWindow(cfg: Config): nat {
    cfg.idleSeconds * SECOND
  }

  predicate MayFire(s: State, reason: Reason, now: int) {
    && s.cfg.Some? && s.cfg.value.enabled && s.cfg.value.device != "" && s.running
    && (s.lastFired.Some? ==> now - s.lastFired.value >= COOLDOWN)
    && match reason
       case AtPrompt => Since(s.lastInput, now) >= Threshold(s.cfg.value)
       case AtIdle => IdleWindow(s.cfg.value) > 0 && Since(s.lastOutput, now) >= IdleWindow(s.cfg.value)
  }

  datatype Next = Next(state: State, fire: Option<Fire>)

  function Fired(s: State, reason: Reason, now: int): Next {
    if MayFire(s, reason, now) then
      Next(s.(lastFired := Some(now), running := false),
           Some(Fire(s.cfg.value.device, s.cfg.value.tabLabel, reason, Since(s.lastInput, now))))
    else Next(s, None)
  }

  /** One critical section; a chunk while the pump is still busy, or a firing section it does not owe, is no step. */
  function Step(s: State, e: Event): Next {
    match e
    case SetConfig(cfg, _) => Next(s.(cfg := cfg), None)
    case Input(at) => Next(s.(lastInput := Some(at), running := true), None)
    case Output(data, at) =>
      if s.pending || data == [] then Next(s, None)
      else
        var r := OscTracker.Run(s.tracker, data);
        Next(s.(lastOutput := Some(at), tracker := r.0, pending := r.1 != []), None)
    case Prompt(at) =>
      if s.pending then Fired(s.(pending := false), AtPrompt, at) else Next(s, None)
    case Idle(at) => Fired(s, AtIdle, at)
  }

  class PtyNotifyState {
    var cfg: Option<Config>
    var lastInputAt: Option<int>
    var lastOutputAt: Option<int>
    var commandRunning: bool
    var lastFiredAt: Option<int>
    const tracker: OscTracker.CWDTracker

    function View(pending: bool): State
      reads this, tracker
    {
      State(cfg, lastInputAt, lastOutputAt, commandRunning, lastFiredAt, tracker.View(), pending)
    }

    constructor ()
      ensures View(false) == INITIAL && fresh(tracker)
    {
      cfg, lastInputAt, lastOutputAt, commandRunning, lastFiredAt := None, None, None, false, None;
      tracker := new OscTracker.CWDTracker();
    }

    method Configure(newCfg: Option<Config>, ghost pending: bool, now: int)
      modifies this
      ensures Next(View(pending), None) == Step(old(View(pending)), SetConfig(newCfg, now))
    {
      cfg := newCfg;
    }

    method OnInput(ghost pending: bool, now: int)
      modifies this
      ensures Next(View(pending), None) == Step(old(View(pending)), Input(now))
    {
      lastInputAt := Some(now);
      commandRunning := true;
    }

    /** First section of onOutput; `marker` tells whether the second one follows. */
    method RecordOutput(data: bytes, now: int) returns (marker: bool)
      modifies this, tracker
      ensures Next(View(marker), None) == Step(old(View(false)), Output(data, now))
    {
      if |data| == 0 {
        return false;
      }
      lastOutputAt := Some(now);
      var paths := tracker.Feed(data);
      return |paths| != 0;
    }

    method MaybeFire(reason: Reason, now: int, ghost pending: bool) returns (fire: Option<Fire>)
      modifies this
      ensures Next(View(pending), fire) == Fired(old(View(pending)), reason, now)
    {
      if cfg.None? || !cfg.value.enabled {
        return None;
      }
      if cfg.value.device == "" {
        return None;
      }
      if !commandRunning {
        return None;
      }
      if lastFiredAt.Some? && now - lastFiredAt.value < COOLDOWN {
        return None;
      }
      var threshold := cfg.value.thresholdSeconds * SECOND;
      if threshold == 0 {
        threshold := DEFAULT_THRESHOLD;
      }
      match reason {
        case AtPrompt =>
          if Since(lastInputAt, now) < threshold {
            return None;
          }
        case AtIdle =>
          var window := IdleWindow(cfg.value);
          if window == 0 {
            return None;
          }
          if Since(lastOutputAt, now) < window {
            return None;
          }
      }
      lastFiredAt := Some(now);
      commandRunning := false;
      return Some(Fire(cfg.value.device, cfg.value.tabLabel, reason, Since(lastInputAt, now)));
    }

    /** Both sections of onOutput, with nothing running between them. */
    method OnOutput(data: bytes, now: int, later: int) returns (fire: Option<Fire>)
      modifies this, tracker
      ensures Next(View(false), fire) == Step(Step(old(View(false)), Output(data, now)).state, Prompt(later))
    {
      var marker := RecordOutput(data, now);
      if !marker {
        return None;
      }
      fire := MaybeFire(AtPrompt, later, false);
    }
  }

  // ------------------------------------------------------------------ runs

  function StateAt(es: seq<Event>, k: nat): State
    requires k <= |es|
  {
    if k == 0 then INITIAL else Step(StateAt(es, k - 1), es[k - 1]).state
  }

  function FireAt(es: seq<Event>, k: nat): Option<Fire>
    requires k < |es|
  {
    Step(StateAt(es, k), es[k]).fire
  }

  predicate Ordered(es: seq<Event>) {
    forall i, j | 0 <= i <= j < |es| :: es[i].at <= es[j].at
  }

  /** What a step can be, seen from the outside. */
  datatype Kind = Configures | Types | Prints | Fires

  predicate Is(es: seq<Event>, j: nat, kind: Kind)
    requires j < |es|
  {
    match kind
    case Configures => es[j].SetConfig?
    case Types => es[j].Input?
    case Prints => es[j].Output? && es[j].data != [] && !StateAt(es, j).pending
    case Fires => FireAt(es, j).Some?
  }

  /** The last such step before `k`, or -1. */
  function Last(es: seq<Event>, k: nat, kind: Kind): (j: int)
    requires k <= |es|
    ensures -1 <= j < k
    ensures j >= 0 ==> Is(es, j, kind)
  {
    if k == 0 then -1 else if Is(es, k - 1, kind) then k - 1 else Last(es, k - 1, kind)
  }

  lemma {:induction false} NoneAfterLast(es: seq<Event>, k: nat, kind: Kind, j: nat)
    requires k <= |es| && Last(es, k, kind) < j < k
    ensures !Is(es, j, kind)
  {
    if j < k - 1 {
      NoneAfterLast(es, k - 1, kind, j);
    }
  }

  function TimeOf(es: seq<Event>, j: int): Option<int>
    requires -1 <= j < |es|
  {
    if j < 0 then None else Some(es[j].at)
  }

  /** The fields remember exactly the last step of each kind. */
  ghost predicate Remembers(es: seq<Event>, k: nat)
    requires k <= |es|
  {
    var s := StateAt(es, k);
    && s.cfg == (var j := Last(es, k, Configures); if j < 0 then None else es[j].cfg)
    && s.lastInput == TimeOf(es, Last(es, k, Types))
    && s.lastOutput == TimeOf(es, Last(es, k, Prints))
    && s.lastFired == TimeOf(es, Last(es, k, Fires))
    && (s.running <==> Last(es, k, Fires) < Last(es, k, Types))
  }

  /** How one step moves the remembered fields. */
  lemma FieldStep(s: State, e: Event)
    ensures
      var n := Step(s, e); var t := n.state;
      && t.cfg == (if e.SetConfig? then e.cfg else s.cfg)
      && t.lastInput == (if e.Input? then Some(e.at) else s.lastInput)
      && t.lastOutput == (if e.Output? && e.data != [] && !s.pending then Some(e.at) else s.lastOutput)
      && t.lastFired == (if n.fire.Some? then Some(e.at) else s.lastFired)
      && t.running == (e.Input? || (s.running && n.fire.None?))
      && (n.fire.Some? ==> !e.Input?)
  {
    hide OscTracker.Run, MayFire;
  }

  lemma LastStep(es: seq<Event>, j: nat, kind: Kind)
    requires j < |es|
    ensures Last(es, j + 1, kind) == if Is(es, j, kind) then j else Last(es, j, kind)
  {
  }

  lemma RemembersStep(es: seq<Event>, k: nat)
    requires 0 < k <= |es| && Remembers(es, k - 1)
    ensures Remembers(es, k)
  {
    var j := k - 1;
    FieldStep(StateAt(es, j), es[j]);
    hide Step, Last;
    LastStep(es, j, Configures);
    LastStep(es, j, Types);
    LastStep(es, j, Prints);
    LastStep(es, j, Fires);
  }

  lemma {:induction false} AlwaysRemembers(es: seq<Event>, k: nat)
    requires k <= |es|
    ensures Remembers(es, k)
  {
    if k > 0 {
      AlwaysRemembers(es, k - 1);
      hide *;
      RemembersStep(es, k);
    }
  }

  /** Every step of this kind before `k` is at least `d` older than step `k`. */
  predicate AllOlder(es: seq<Event>, k: nat, kind: Kind, d: int)
    requires k < |es|
  {
    forall j | 0 <= j < k && Is(es, j, kind) :: es[k].at - es[j].at >= d
  }

  lemma OlderIffLastOlder(es: seq<Event>, k: nat, kind: Kind, d: int)
    requires Ordered(es) && k < |es|
    ensures AllOlder(es, k, kind, d) <==>
            (Last(es, k, kind) >= 0 ==> es[k].at - es[Last(es, k, kind)].at >= d)
  {
    hide Is;
    var l := Last(es, k, kind);
    forall j | 0 <= j < k && Is(es, j, kind)
      ensures j <= l && es[j].at <= es[l].at
    {
      if l < j {
        NoneAfterLast(es, k, kind, j);
      }
    }
  }

  /** Input at `m` has not been answered by a notification before step `k`. */
  predicate Unanswered(es: seq<Event>, m: nat, k: nat)
    requires k <= |es|
  {
    m < k && Is(es, m, Types) && forall j | m < j < k :: !Is(es, j, Fires)
  }

  lemma TypesIsNotFires(es: seq<Event>, j: nat)
    requires j < |es| && Is(es, j, Types)
    ensures !Is(es, j, Fires)
  {
  }

  lemma LastUnanswered(es: seq<Event>, k: nat)
    requires k <= |es| && Last(es, k, Fires) < Last(es, k, Types)
    ensures Unanswered(es, Last(es, k, Types), k)
  {
    hide Is;
    var m := Last(es, k, Types);
    forall j | m < j < k
      ensures !Is(es, j, Fires)
    {
      NoneAfterLast(es, k, Fires, j);
    }
  }

  lemma UnansweredIsLater(es: seq<Event>, m: nat, k: nat)
    requires k <= |es| && Unanswered(es, m, k)
    ensures Last(es, k, Fires) < Last(es, k, Types)
  {
    TypesIsNotFires(es, m);
    hide Is;
    if Last(es, k, Types) < m {
      NoneAfterLast(es, k, Types, m);
    }
  }

  // -------------------------------------------------------- prompt markers

  /** The output recorded before step `k`. */
  function Printed(es: seq<Event>, k: nat): bytes
    requires k <= |es|
  {
    if k == 0 then []
    else Printed(es, k - 1) + if Is(es, k - 1, Prints) then es[k - 1].data else []
  }

  /** Chunk `j` completes a prompt marker of the output. */
  predicate Marks(es: seq<Event>, j: nat)
    requires j < |es|
  {
    && Is(es, j, Prints)
    && OscTracker.Run(OscTracker.INITIAL, Printed(es, j) + es[j].data).1 !=
       OscTracker.Run(OscTracker.INITIAL, Printed(es, j)).1
  }

  /** Step `k` is the firing section of an earlier chunk with a marker. */
  predicate Owed(es: seq<Event>, k: nat)
    requires k <= |es|
  {
    exists j | 0 <= j < k :: Marks(es, j) && forall m | j < m < k :: !es[m].Prompt?
  }

  lemma MarksIsOutput(es: seq<Event>, j: nat)
    requires j < |es| && Marks(es, j)
    ensures es[j].Output?
  {
    hide StateAt, Printed, OscTracker.Run;
  }

  lemma OwedStep(es: seq<Event>, j: nat)
    requires j < |es|
    ensures Owed(es, j + 1) <==> Marks(es, j) || (Owed(es, j) && !es[j].Prompt?)
  {
    hide Marks;
    if Marks(es, j) {
      MarksIsOutput(es, j);
    }
    if Owed(es, j) && !es[j].Prompt? {
      var i :| 0 <= i < j && Marks(es, i) && forall m | i < m < j :: !es[m].Prompt?;
      assert Owed(es, j + 1);
    }
  }

  /** How one step moves the pump. */
  lemma PumpStep(s: State, e: Event)
    ensures
      var t := Step(s, e).state;
      if e.Output? && e.data != [] && !s.pending then
        var r := OscTracker.Run(s.tracker, e.data);
        t.tracker == r.0 && (t.pending <==> r.1 != [])
      else t.tracker == s.tracker && (t.pending <==> s.pending && !e.Prompt?)
  {
    hide OscTracker.Run, MayFire;
  }

  lemma {:induction false} PumpFollowsOutput(es: seq<Event>, k: nat)
    requires k <= |es|
    ensures StateAt(es, k).tracker == OscTracker.Run(OscTracker.INITIAL, Printed(es, k)).0
    ensures StateAt(es, k).pending <==> Owed(es, k)
  {
    if k > 0 {
      var j := k - 1;
      PumpFollowsOutput(es, j);
      MarksIffEmits(es, j);
      PumpStep(StateAt(es, j), es[j]);
      OwedStep(es, j);
      assert Is(es, j, Prints) <==> es[j].Output? && es[j].data != [] && !StateAt(es, j).pending;
      hide OscTracker.Run, Marks, MayFire, Printed, Owed, Step, Is;
    }
  }

  lemma MarksIffEmits(es: seq<Event>, j: nat)
    requires j < |es|
    requires StateAt(es, j).tracker == OscTracker.Run(OscTracker.INITIAL, Printed(es, j)).0
    ensures Printed(es, j + 1) == if Is(es, j, Prints) then Printed(es, j) + es[j].data else Printed(es, j)
    ensures Is(es, j, Prints) ==>
      OscTracker.Run(OscTracker.INITIAL, Printed(es, j + 1)).0 == OscTracker.Run(StateAt(es, j).tracker, es[j].data).0
    ensures Marks(es, j) <==> Is(es, j, Prints) && OscTracker.Run(StateAt(es, j).tracker, es[j].data).1 != []
  {
    hide OscTracker.Run;
    if Is(es, j, Prints) {
      OscTracker.RunAppend(OscTracker.INITIAL, Printed(es, j), es[j].data);
    }
  }

  // ---------------------------------------------------------- main results

  /** The configuration in force at step `k`: the one set last. */
  function ConfigAt(es: seq<Event>, k: nat): Option<Config>
    requires k <= |es|
  {
    var j := Last(es, k, Configures);
    if j < 0 then None else es[j].cfg
  }

  /** When the history of the run calls for a notification at step `k`. */
  ghost predicate Due(es: seq<Event>, k: nat)
    requires k < |es|
  {
    && ConfigAt(es, k).Some?
    && var cfg := ConfigAt(es, k).value;
       && cfg.enabled && cfg.device != ""
       && AllOlder(es, k, Fires, 5 * SECOND)
       && (exists m :: Unanswered(es, m, k))
       && ((es[k].Prompt? && Owed(es, k)
            && AllOlder(es, k, Types, (if cfg.thresholdSeconds == 0 then 10 else cfg.thresholdSeconds) * SECOND))
           || (es[k].Idle? && cfg.idleSeconds > 0 && AllOlder(es, k, Prints, cfg.idleSeconds * SECOND)))
  }

  lemma RunningIffUnanswered(es: seq<Event>, k: nat)
    requires k <= |es|
    ensures StateAt(es, k).running <==> exists m :: Unanswered(es, m, k)
  {
    AlwaysRemembers(es, k);
    hide Is, Last, StateAt;
    if StateAt(es, k).running {
      LastUnanswered(es, k);
    } else if m :| Unanswered(es, m, k) {
      UnansweredIsLater(es, m, k);
    }
  }

  /**
   A step notifies exactly when its history calls for it: enabled and addressed by the
   latest configuration, no notification in the last five seconds, an input not yet
   answered, and either a prompt marker with every input at least the configured seconds
   old (ten if none are configured), or every output at least the configured idle
   seconds old, if there are any.
   */
  lemma FiresIffDue(es: seq<Event>, k: nat)
    requires Ordered(es) && k < |es|
    ensures FireAt(es, k).Some? <==> Due(es, k)
  {
    var s := StateAt(es, k);
    StepFires(s, es[k]);
    assert FireAt(es, k) == Step(s, es[k]).fire;
    AlwaysRemembers(es, k);
    RunningIffUnanswered(es, k);
    PumpFollowsOutput(es, k);
    OlderIffLastOlder(es, k, Fires, COOLDOWN);
    hide StateAt, Is, Last, AllOlder, Unanswered, Owed, OscTracker.Run, Step, Ordered, FireAt;
    if s.cfg.Some? {
      OlderIffLastOlder(es, k, Types, Threshold(s.cfg.value));
      OlderIffLastOlder(es, k, Prints, IdleWindow(s.cfg.value));
    }
  }

  lemma StepFires(s: State, e: Event)
    ensures Step(s, e).fire.Some? <==>
            || (e.Prompt? && s.pending && MayFire(s, AtPrompt, e.at))
            || (e.Idle? && MayFire(s, AtIdle, e.at))
  {
  }

  /** What is sent names the configured device and tab, and the time since the last input. */
  lemma FireReportsLastInput(es: seq<Event>, k: nat)
    requires k < |es| && FireAt(es, k).Some?
    ensures ConfigAt(es, k).Some? && Last(es, k, Types) >= 0
    ensures var cfg := ConfigAt(es, k).value;
            FireAt(es, k).value == Fire(cfg.device, cfg.tabLabel, if es[k].Prompt? then AtPrompt else AtIdle,
                                        es[k].at - es[Last(es, k, Types)].at)
  {
    AlwaysRemembers(es, k);
    hide StateAt, Is, OscTracker.Run;
  }

  /** Two notifications are at least five seconds apart, with an input between them. */
  lemma FiresAreSpaced(es: seq<Event>, i: nat, k: nat) returns (m: nat)
    requires Ordered(es) && i < k < |es| && FireAt(es, i).Some? && FireAt(es, k).Some?
    ensures es[k].at - es[i].at >= COOLDOWN
    ensures i < m < k && es[m].Input?
  {
    hide StateAt, FireAt, Ordered, Last, Threshold, IdleWindow, Owed;
    FiresIffDue(es, k);
    assert Is(es, i, Fires);
    m :| Unanswered(es, m, k);
    assert Is(es, m, Types);
    hide AllOlder, Due;
    TypesIsNotFires(es, m);
  }

  function Count(es: seq<Event>, k: nat, kind: Kind): nat
    requires k <= |es|
  {
    if k == 0 then 0 else Count(es, k - 1, kind) + if Is(es, k - 1, kind) then 1 else 0
  }

  /** There are never more notifications than inputs. */
  lemma {:induction false} FiresBoundedByInputs(es: seq<Event>, k: nat)
    requires k <= |es|
    ensures Count(es, k, Fires) + (if StateAt(es, k).running then 1 else 0) <= Count(es, k, Types)
  {
    if k > 0 {
      FiresBoundedByInputs(es, k - 1);
      hide OscTracker.Run;
    }
  }

  /**
   The idle window is measured from the last output alone: before any output, a first
   input is answered by an idle notification at once.
   */
  lemma IdleMayFireAtOnce(cfg: Config, t: int)
    requires cfg.enabled && cfg.device != "" && cfg.idleSeconds > 0
    ensures FireAt([SetConfig(Some(cfg), t), Input(t), Idle(t)], 2) ==
            Some(Fire(cfg.device, cfg.tabLabel, AtIdle, 0))
  {
    var es := [SetConfig(Some(cfg), t), Input(t), Idle(t)];
    assert StateAt(es, 1) == INITIAL.(cfg := Some(cfg));
    assert StateAt(es, 2) == INITIAL.(cfg := Some(cfg), lastInput := Some(t), running := true);
  }
}
