/**
 What the PTY manager remembers, told by the events of a run: which entries there are
 and whose, which of them are listed, what their counts and times are, and what each
 session has put out.
 */
module PtyHistory {
  import opened Bytes
  import opened PtyTable
  import opened PtyStreams
  import opened PtyOwners
  import PtyAccounting
  import S = PtySession

  // ----------------------------------------------------------- one event

  /** `e` makes the entry `h`. */
  predicate Opens(m: Machine, e: Event, h: Handle) {
    e.Register? && e.h == h && e.k !in m.streams && h !in m.table.entries && !m.table.closed
  }

  /** `e` counts a stream of `h` in. */
  predicate CountsIn(m: Machine, e: Event, h: Handle) {
    e.Count? && BoundAt(m, e.k, Sunk) && m.streams[e.k].h == h
  }

  /** `e` counts a stream of `h` out. */
  predicate CountsOut(m: Machine, e: Event, h: Handle) {
    e.Uncount? && BoundAt(m, e.k, Removed) && m.streams[e.k].h == h
  }

  /** `e` takes `h` off the list: its owner drops it, its child has exited, it idled too long, or the manager closes. */
  predicate Unlists(m: Machine, e: Event, h: Handle)
    requires h in m.table.entries
  {
    match e
    case Drop(owner, g) => g == h && m.table.entries[h].owner == owner
    case PumpDone(g) => g == h && h in m.sessions && m.sessions[h].exited
    case Sweep(now) => m.table.entries[h].attachCount == 0 && now - m.table.entries[h].lastSeen > m.table.timeout
    case Close => true
    case _ => false
  }

  /** `e` stamps the entry `h` with its time. */
  predicate Stamps(m: Machine, e: Event, h: Handle) {
    || Opens(m, e, h) || CountsIn(m, e, h)
    || (CountsOut(m, e, h) && h in m.table.entries && m.table.entries[h].attachCount <= 1)
  }

  /** What one event does to the set of entries and to the list. */
  lemma ListStep(m: Machine, e: Event, h: Handle)
    requires Linked(m)
    ensures
      var t, t' := m.table, Step(m, e).table;
      && (h in t'.entries <==> h in t.entries || Opens(m, e, h))
      && (h in t'.listed <==> Opens(m, e, h) || (h in t.listed && !Unlists(m, e, h)))
      && (Opens(m, e, h) ==> t'.entries[h] == Entry(e.k.owner, e.command, 0, e.now))
  {
    hide S.Step, S.Replay;
  }

  /** What one event does to the fields of an entry. */
  lemma FieldStep(m: Machine, e: Event, h: Handle)
    requires Linked(m) && h in m.table.entries
    ensures
      var x := m.table.entries[h];
      && h in Step(m, e).table.entries
      && var x' := Step(m, e).table.entries[h];
         && x'.owner == x.owner && x'.command == x.command
         && (if Stamps(m, e, h) then Some(x'.lastSeen) == PtyAccounting.Stamp(e) else x'.lastSeen == x.lastSeen)
         && x'.attachCount == x.attachCount
              + (if CountsIn(m, e, h) then 1 else 0)
              - (if CountsOut(m, e, h) && x.attachCount > 0 then 1 else 0)
  {
    if !(e.Register? || e.Count? || e.Uncount?) {
      QuietStep(m, e);
      hide Step;
    } else {
      hide S.Step, S.Opened, Sinking, Removing, Pumped;
    }
  }

  /** The other sections leave the entries alone. */
  lemma QuietStep(m: Machine, e: Event)
    requires Linked(m) && !(e.Register? || e.Count? || e.Uncount?)
    ensures Step(m, e).table.entries == m.table.entries
  {
    hide S.Step, S.Replay;
  }

  // ------------------------------------------------------------ whole runs

  /** Event `j` made the entry `h`. */
  ghost predicate OpenedBy(m0: Machine, es: seq<Event>, j: nat, h: Handle, i: nat)
    requires Linked(m0) && i <= |es|
  {
    j < i && Opens(StateAt(m0, es, j), es[j], h)
  }

  ghost predicate Spares(m: Machine, e: Event, h: Handle) {
    h in m.table.entries ==> !Unlists(m, e, h)
  }

  /** Event `j` made the entry, and nothing has taken it off the list since. */
  ghost predicate ListedSince(m0: Machine, es: seq<Event>, j: nat, h: Handle, i: nat)
    requires Linked(m0) && i <= |es|
  {
    && OpenedBy(m0, es, j, h, i)
    && forall k | j < k < i :: Spares(StateAt(m0, es, k), es[k], h)
  }

  ghost predicate StampedAt(m0: Machine, es: seq<Event>, x: nat, h: Handle)
    requires Linked(m0)
  {
    x < |es| && Stamps(StateAt(m0, es, x), es[x], h)
  }

  /** Event `x` is the last that stamped the entry. */
  ghost predicate StampedBy(m0: Machine, es: seq<Event>, x: nat, h: Handle, i: nat)
    requires Linked(m0) && i <= |es|
  {
    && x < i && StampedAt(m0, es, x, h)
    && forall k: nat | x < k < i :: !StampedAt(m0, es, k, h)
  }

  ghost predicate Made(m0: Machine, es: seq<Event>, h: Handle, i: nat)
    requires Linked(m0) && i <= |es|
  {
    exists j: nat :: OpenedBy(m0, es, j, h, i)
  }

  ghost predicate Kept(m0: Machine, es: seq<Event>, h: Handle, i: nat)
    requires Linked(m0) && i <= |es|
  {
    exists j: nat :: ListedSince(m0, es, j, h, i)
  }

  lemma OneMore(m0: Machine, es: seq<Event>, i: nat)
    requires Linked(m0) && i < |es|
    ensures StateAt(m0, es, 0) == m0 && StateAt(m0, es, i + 1) == Step(StateAt(m0, es, i), es[i])
  {
    hide Step, Linked;
  }

  lemma OpenedGrows(m0: Machine, es: seq<Event>, j: nat, h: Handle, i: nat)
    requires Linked(m0) && i < |es|
    ensures OpenedBy(m0, es, j, h, i + 1) <==>
            if j == i then Opens(StateAt(m0, es, i), es[i], h) else OpenedBy(m0, es, j, h, i)
    ensures ListedSince(m0, es, j, h, i + 1) <==>
            if j == i then Opens(StateAt(m0, es, i), es[i], h)
            else ListedSince(m0, es, j, h, i) && Spares(StateAt(m0, es, i), es[i], h)
  {
    hide StateAt, Opens, Spares, Linked, Step;
  }

  lemma MadeGrows(m0: Machine, es: seq<Event>, h: Handle, i: nat)
    requires Linked(m0) && i < |es|
    ensures Made(m0, es, h, i + 1) <==> Opens(StateAt(m0, es, i), es[i], h) || Made(m0, es, h, i)
    ensures Kept(m0, es, h, i + 1) <==>
            || Opens(StateAt(m0, es, i), es[i], h)
            || (Kept(m0, es, h, i) && Spares(StateAt(m0, es, i), es[i], h))
  {
    hide OpenedBy, ListedSince, StateAt, Opens, Spares, Linked, Step;
    OpenedGrows(m0, es, i, h, i);
    if Made(m0, es, h, i) {
      var j: nat :| OpenedBy(m0, es, j, h, i);
      EarlierOpening(m0, es, j, h, i);
      OpenedGrows(m0, es, j, h, i);
    }
    if Kept(m0, es, h, i) {
      var j: nat :| ListedSince(m0, es, j, h, i);
      EarlierOpening(m0, es, j, h, i);
      OpenedGrows(m0, es, j, h, i);
    }
    if Made(m0, es, h, i + 1) {
      var j: nat :| OpenedBy(m0, es, j, h, i + 1);
      OpenedGrows(m0, es, j, h, i);
    }
    if Kept(m0, es, h, i + 1) {
      var j: nat :| ListedSince(m0, es, j, h, i + 1);
      OpenedGrows(m0, es, j, h, i);
    }
  }

  lemma EarlierOpening(m0: Machine, es: seq<Event>, j: nat, h: Handle, i: nat)
    requires Linked(m0) && i <= |es|
    ensures OpenedBy(m0, es, j, h, i) || ListedSince(m0, es, j, h, i) ==> j < i && OpenedBy(m0, es, j, h, i)
  {
  }

  lemma NothingAtStart(m0: Machine, es: seq<Event>, h: Handle)
    requires Linked(m0)
    ensures StateAt(m0, es, 0) == m0 && !Made(m0, es, h, 0) && !Kept(m0, es, h, 0)
  {
  }

  lemma {:induction false} MadeIff(m0: Machine, es: seq<Event>, h: Handle, i: nat)
    requires Linked(m0) && m0.table.entries == map[] && i <= |es|
    ensures h in StateAt(m0, es, i).table.entries <==> Made(m0, es, h, i)
  {
    hide StateAt, Step, Linked, Opens, Made, Kept;
    NothingAtStart(m0, es, h);
    if i > 0 {
      MadeIff(m0, es, h, i - 1);
      OneMore(m0, es, i - 1);
      ListStep(StateAt(m0, es, i - 1), es[i - 1], h);
      MadeGrows(m0, es, h, i - 1);
    }
  }

  /** In every run an entry has the owner and the command it was made with. */
  lemma {:induction false} EntryIs(m0: Machine, es: seq<Event>, j: nat, h: Handle, i: nat)
    requires Linked(m0) && i <= |es| && OpenedBy(m0, es, j, h, i)
    ensures
      var t := StateAt(m0, es, i).table;
      h in t.entries && t.entries[h].owner == es[j].k.owner && t.entries[h].command == es[j].command
  {
    hide StateAt, Step, Linked, Opens, Unlists, CountsIn, CountsOut, Stamps;
    OneMore(m0, es, i - 1);
    ListStep(StateAt(m0, es, i - 1), es[i - 1], h);
    if j < i - 1 {
      EntryIs(m0, es, j, h, i - 1);
      FieldStep(StateAt(m0, es, i - 1), es[i - 1], h);
    }
  }

  /**
   In every run an entry is listed exactly if it was made and since then neither its
   owner dropped it, nor its child exited, nor a sweep found it overdue with a count of
   zero, nor the manager closed.
   */
  lemma {:induction false} ListedIff(m0: Machine, es: seq<Event>, h: Handle, i: nat)
    requires Linked(m0) && m0.table.entries == map[] && i <= |es|
    ensures h in StateAt(m0, es, i).table.listed <==> Kept(m0, es, h, i)
  {
    hide StateAt, Step, Opens, Unlists, Made, Kept;
    NothingAtStart(m0, es, h);
    if i > 0 {
      ListedIff(m0, es, h, i - 1);
      OneMore(m0, es, i - 1);
      ListStep(StateAt(m0, es, i - 1), es[i - 1], h);
      MadeGrows(m0, es, h, i - 1);
    }
  }

  /** Nobody finds the entry: neither Attach, nor Get or Detach, nor List. */
  ghost predicate Unknown(t: Table, h: Handle) {
    && h !in t.listed
    && (forall owner :: Lookup(t, owner, h) != Found && !Owns(t, owner, h))
    && (forall owner, cwds, l | l in Listings(t, owner, cwds) :: l.handle != h)
  }

  lemma {:induction false} StaysUnlisted(m0: Machine, es: seq<Event>, h: Handle, j: nat, i: nat)
    requires Linked(m0) && j <= i <= |es|
    requires h in StateAt(m0, es, j).table.entries && h !in StateAt(m0, es, j).table.listed
    ensures h in StateAt(m0, es, i).table.entries && h !in StateAt(m0, es, i).table.listed
  {
    hide StateAt, Step, Linked, Unlists;
    if j < i {
      StaysUnlisted(m0, es, h, j, i - 1);
      OneMore(m0, es, i - 1);
      ListStep(StateAt(m0, es, i - 1), es[i - 1], h);
    }
  }

  lemma UnlistedIsUnknown(t: Table, h: Handle)
    requires h !in t.listed
    ensures Unknown(t, h)
  {
  }

  /**
   What is taken off the list is gone for good: whoever dropped it, and whether a sweep,
   the child's exit or Close did it, no later call of any owner finds it again.
   */
  lemma UnlistedIsGone(m0: Machine, es: seq<Event>, h: Handle, k: nat, i: nat)
    requires Linked(m0) && k < i <= |es| && h in StateAt(m0, es, k).table.entries
    requires Unlists(StateAt(m0, es, k), es[k], h)
    ensures Unknown(StateAt(m0, es, i).table, h)
  {
    hide StateAt, Step, Linked, Unlists;
    OneMore(m0, es, k);
    ListStep(StateAt(m0, es, k), es[k], h);
    StaysUnlisted(m0, es, h, k + 1, i);
    UnlistedIsUnknown(StateAt(m0, es, i).table, h);
  }

  // --------------------------------------------------------- what List says

  ghost predicate StampFollows(m0: Machine, es: seq<Event>, h: Handle, i: nat, lastSeen: Time)
    requires Linked(m0) && i <= |es|
  {
    exists x: nat :: StampedBy(m0, es, x, h, i) && PtyAccounting.Stamp(es[x]) == Some(lastSeen)
  }

  lemma StampGrows(m0: Machine, es: seq<Event>, h: Handle, i: nat, lastSeen: Time, lastSeen': Time)
    requires Linked(m0) && i < |es|
    requires if StampedAt(m0, es, i, h) then PtyAccounting.Stamp(es[i]) == Some(lastSeen')
             else lastSeen' == lastSeen && StampFollows(m0, es, h, i, lastSeen)
    ensures StampFollows(m0, es, h, i + 1, lastSeen')
  {
    hide StampedAt, Linked, PtyAccounting.Stamp;
    if StampedAt(m0, es, i, h) {
      assert StampedBy(m0, es, i, h, i + 1);
    } else {
      var x: nat :| StampedBy(m0, es, x, h, i) && PtyAccounting.Stamp(es[x]) == Some(lastSeen);
      assert StampedBy(m0, es, x, h, i + 1);
    }
  }

  /** An entry's time is that of the event that made it, last counted a stream in, or counted the last one out. */
  lemma {:induction false} LastSeenIs(m0: Machine, es: seq<Event>, h: Handle, i: nat)
    requires Linked(m0) && m0.table.entries == map[] && i <= |es|
    ensures
      var t := StateAt(m0, es, i).table;
      h in t.entries ==> StampFollows(m0, es, h, i, t.entries[h].lastSeen)
  {
    hide StateAt, Step, Linked, CountsIn, CountsOut, StampFollows;
    NothingAtStart(m0, es, h);
    if i > 0 {
      LastSeenIs(m0, es, h, i - 1);
      OneMore(m0, es, i - 1);
      var m, e := StateAt(m0, es, i - 1), es[i - 1];
      ListStep(m, e, h);
      if h in m.table.entries {
        FieldStep(m, e, h);
        StampGrows(m0, es, h, i - 1, m.table.entries[h].lastSeen, Step(m, e).table.entries[h].lastSeen);
      } else if Opens(m, e, h) {
        StampGrows(m0, es, h, i - 1, e.now, e.now);
      }
    }
  }

  /** How often streams of `h` were counted in, less how often they were counted out. */
  ghost function Attachments(m0: Machine, es: seq<Event>, h: Handle, i: nat): int
    requires Linked(m0) && i <= |es|
  {
    if i == 0 then 0
    else
      var m, e := StateAt(m0, es, i - 1), es[i - 1];
      Attachments(m0, es, h, i - 1) + (if CountsIn(m, e, h) then 1 else 0) - if CountsOut(m, e, h) then 1 else 0
  }

  lemma AttachmentsStep(m0: Machine, es: seq<Event>, h: Handle, i: nat)
    requires Linked(m0) && i <= |es|
    ensures Attachments(m0, es, h, 0) == 0
    ensures i > 0 ==>
      var m, e := StateAt(m0, es, i - 1), es[i - 1];
      Attachments(m0, es, h, i) == Attachments(m0, es, h, i - 1)
        + (if CountsIn(m, e, h) then 1 else 0) - if CountsOut(m, e, h) then 1 else 0
  {
    hide StateAt, CountsIn, CountsOut, Linked;
  }

  lemma CountsAreOnEntries(m: Machine, e: Event, h: Handle)
    requires Linked(m) && (CountsIn(m, e, h) || CountsOut(m, e, h))
    ensures h in m.table.entries
  {
    assert OnEntry(m.streams[e.k], e.k.owner, m.table.entries);
  }

  ghost function CountOf(t: Table, h: Handle): nat {
    if h in t.entries then t.entries[h].attachCount else 0
  }

  lemma CountStep(m: Machine, e: Event, h: Handle)
    requires PtyAccounting.Accounted(m)
    ensures CountOf(Step(m, e).table, h) ==
            CountOf(m.table, h) + (if CountsIn(m, e, h) then 1 else 0) - if CountsOut(m, e, h) then 1 else 0
  {
    ListStep(m, e, h);
    if CountsOut(m, e, h) {
      PtyAccounting.DecrementNeverGuarded(m, e.k);
    }
    if CountsIn(m, e, h) || CountsOut(m, e, h) {
      CountsAreOnEntries(m, e, h);
    }
    if h in m.table.entries {
      FieldStep(m, e, h);
    }
    hide Step, Linked, PtyAccounting.Tokens, PtyAccounting.Totals, Stamps;
  }

  /** An entry's count is the streams counted in less those counted out, none of them in vain. */
  lemma {:induction false} CountIs(timeout: Time, ringSize: nat, es: seq<Event>, h: Handle, i: nat)
    requires PtyAccounting.Disciplined(es) && i <= |es|
    ensures
      var m0 := Start(timeout, ringSize);
      Attachments(m0, es, h, i) == CountOf(StateAt(m0, es, i).table, h)
  {
    var m0 := Start(timeout, ringSize);
    hide StateAt, Step, PtyAccounting.Accounted, PtyAccounting.Disciplined, Attachments, CountsIn, CountsOut;
    NothingAtStart(m0, es, h);
    AttachmentsStep(m0, es, h, i);
    if i > 0 {
      CountIs(timeout, ringSize, es, h, i - 1);
      OneMore(m0, es, i - 1);
      PtyAccounting.AlwaysAccounted(timeout, ringSize, es, i - 1);
      CountStep(StateAt(m0, es, i - 1), es[i - 1], h);
    }
  }

  /** A line of the listing, told by the events that made, stamped and counted the entry. */
  ghost predicate Reported(m0: Machine, es: seq<Event>, owner: Owner, cwds: Cwds, i: nat, l: Listing, j: nat, x: nat)
    requires Linked(m0) && i <= |es|
  {
    && ListedSince(m0, es, j, l.handle, i) && es[j].k.owner == owner && l.command == es[j].command
    && StampedBy(m0, es, x, l.handle, i) && PtyAccounting.Stamp(es[x]).Some?
    && l.lastSeenMs == PtyAccounting.Stamp(es[x]).value / 1_000_000
    && l.attached == Attachments(m0, es, l.handle, i) % 0x1_0000_0000
    && l.cwd == cwds(l.handle)
  }

  /** Only one event can be the last to have stamped an entry. */
  lemma OneLastStamp(m0: Machine, es: seq<Event>, h: Handle, i: nat, x: nat, y: nat)
    requires Linked(m0) && i <= |es| && StampedBy(m0, es, x, h, i) && StampedBy(m0, es, y, h, i)
    ensures x == y
  {
    hide StampedAt;
  }

  /**
   Exactly what List reports: a line for every entry of the owner that was made and not
   taken off the list since, with the command it was made with, the streams counted in
   less those counted out, the session's cwd and the time of the last stamp.
   */
  lemma ListReports(timeout: Time, ringSize: nat, es: seq<Event>, owner: Owner, cwds: Cwds, i: nat, l: Listing)
    requires PtyAccounting.Disciplined(es) && i <= |es|
    ensures
      var m0 := Start(timeout, ringSize);
      l in Listings(StateAt(m0, es, i).table, owner, cwds)
      <==> exists j: nat, x: nat :: Reported(m0, es, owner, cwds, i, l, j, x)
  {
    var m0 := Start(timeout, ringSize);
    var t := StateAt(m0, es, i).table;
    hide StateAt, Attachments, Opens, Stamps, Spares, PtyAccounting.Disciplined;
    ListedIff(m0, es, l.handle, i);
    LastSeenIs(m0, es, l.handle, i);
    CountIs(timeout, ringSize, es, l.handle, i);
    if l in Listings(t, owner, cwds) {
      var j: nat :| ListedSince(m0, es, j, l.handle, i);
      EntryIs(m0, es, j, l.handle, i);
      var x: nat :| StampedBy(m0, es, x, l.handle, i)
        && PtyAccounting.Stamp(es[x]) == Some(t.entries[l.handle].lastSeen);
      assert Reported(m0, es, owner, cwds, i, l, j, x);
    }
    if j: nat, x: nat :| Reported(m0, es, owner, cwds, i, l, j, x) {
      EntryIs(m0, es, j, l.handle, i);
      var y: nat :| StampedBy(m0, es, y, l.handle, i)
        && PtyAccounting.Stamp(es[y]) == Some(t.entries[l.handle].lastSeen);
      OneLastStamp(m0, es, l.handle, i, x, y);
    }
  }

  // -------------------------------------------------------- what Attach gives

  lemma LookedStays(m: Machine, e: Event, k: Key)
    requires Linked(m) && k in m.streams && !m.streams[k].Bound? && e != AddSink(k)
    ensures k in Step(m, e).streams && Step(m, e).streams[k] == m.streams[k]
  {
    hide S.Step, S.Replay;
  }

  lemma {:induction false} AnswerStays(m0: Machine, es: seq<Event>, k: Key, x: nat, y: nat)
    requires Linked(m0) && x <= y <= |es| && forall z | x <= z < y :: es[z] != AddSink(k)
    requires k in StateAt(m0, es, x).streams && !StateAt(m0, es, x).streams[k].Bound?
    ensures k in StateAt(m0, es, y).streams && StateAt(m0, es, y).streams[k] == StateAt(m0, es, x).streams[k]
  {
    hide StateAt, Step, Linked;
    if x < y {
      AnswerStays(m0, es, k, x, y - 1);
      OneMore(m0, es, y - 1);
      LookedStays(StateAt(m0, es, y - 1), es[y - 1], k);
    }
  }

  /** What the sink section does for a stream whose lookup has found the entry `h`. */
  lemma SinkIsInstalled(m: Machine, k: Key, h: Handle)
    requires Linked(m) && k in m.streams && m.streams[k] == Looked(h, true)
    ensures
      var m' := Step(m, AddSink(k));
      && BoundAt(m', k, Sunk) && m'.streams[k].h == h && h in m.sessions && h in m'.sessions
      && m'.streams[k].token == m.sessions[h].next + 1 && m'.streams[k].token in m'.sessions[h].sinks
      && m'.streams[k].replay == m.sessions[h].scrollback
  {
    assert OnEntry(m.streams[k], k.owner, m.table.entries);
  }

  /**
   An Attach by the owner of a listed entry is served: whatever runs between its
   sections, its sink section installs a fresh sink and replays the last bytes the
   session has put out.  Any other Attach is refused for good.
   */
  lemma AttachIsServed(timeout: Time, ringSize: nat, es: seq<Event>, x: nat, y: nat, k: Key, h: Handle)
    requires x < y < |es| && es[x] == Attach(k, h, true) && es[y] == AddSink(k)
    requires k !in StateAt(Start(timeout, ringSize), es, x).streams
    requires forall z | x < z < y :: es[z] != AddSink(k)
    ensures
      var m0 := Start(timeout, ringSize);
      var m, m' := StateAt(m0, es, x), StateAt(m0, es, y + 1);
      && k in m'.streams
      && if !m.table.closed && h in m.table.listed && m.table.entries[h].owner == k.owner then
           var trace := SessionTrace(m0, es, h, y);
           && BoundAt(m', k, Sunk) && m'.streams[k].h == h
           && m'.streams[k].replay == LastN(S.Output(trace, |trace|), ringSize)
           && h in m'.sessions && m'.streams[k].token in m'.sessions[h].sinks
         else m'.streams[k].Refused?
  {
    var m0 := Start(timeout, ringSize);
    var m, trace := StateAt(m0, es, x), SessionTrace(m0, es, h, y);
    assert Step(m, es[x]).streams == m.streams[k := Step(m, es[x]).streams[k]];
    OneMore(m0, es, x);
    hide StateAt, Step, S.Output, S.StateAt;
    AnswerStays(m0, es, k, x + 1, y);
    OneMore(m0, es, y);
    if StateAt(m0, es, y).streams[k].Refused? {
      RefusedStays(StateAt(m0, es, y), k);
    } else {
      SinkIsInstalled(StateAt(m0, es, y), k, h);
      SessionsFollowTraces(timeout, ringSize, es, h, y);
      S.SessionInvariant(ringSize, trace, |trace|);
    }
  }

  lemma RefusedStays(m: Machine, k: Key)
    requires Linked(m) && k in m.streams && m.streams[k].Refused?
    ensures Step(m, AddSink(k)) == m
  {
  }

  // ------------------------------------------------------ what a session says

  /** `e` starts the pump of the session: its opener is counted in, or brought no sink. */
  predicate StartsPump(m: Machine, e: Event, h: Handle) {
    || (CountsIn(m, e, h) && m.streams[e.k].opener)
    || (Opens(m, e, h) && !e.hasSink)
  }

  ghost predicate PumpStarted(m0: Machine, es: seq<Event>, h: Handle, i: nat)
    requires Linked(m0) && i <= |es|
  {
    i > 0 && (PumpStarted(m0, es, h, i - 1) || StartsPump(StateAt(m0, es, i - 1), es[i - 1], h))
  }

  /** The child has exited, and its pump with it. */
  ghost predicate HasExited(m0: Machine, es: seq<Event>, h: Handle, i: nat)
    requires Linked(m0) && i <= |es|
  {
    i > 0 && (HasExited(m0, es, h, i - 1)
              || (es[i - 1].Exited? && es[i - 1].h == h && PumpStarted(m0, es, h, i - 1)))
  }

  /** Everything the pump of `h` has read: the chunks after its start and before the exit. */
  ghost function Said(m0: Machine, es: seq<Event>, h: Handle, i: nat): bytes
    requires Linked(m0) && i <= |es|
  {
    if i == 0 then []
    else
      var e := es[i - 1];
      Said(m0, es, h, i - 1)
      + if e.Chunk? && e.h == h && PumpStarted(m0, es, h, i - 1) && !HasExited(m0, es, h, i - 1) then e.payload else []
  }

  lemma PumpingStep(m: Machine, e: Event, h: Handle)
    requires Linked(m)
    ensures h in Step(m, e).pumping <==> h in m.pumping || StartsPump(m, e, h)
  {
    hide S.Step, S.Replay;
  }

  lemma {:induction false} PumpingIff(m0: Machine, es: seq<Event>, h: Handle, i: nat)
    requires Linked(m0) && m0.pumping == {} && i <= |es|
    ensures h in StateAt(m0, es, i).pumping <==> PumpStarted(m0, es, h, i)
  {
    hide StateAt, Step, Linked, StartsPump;
    NothingAtStart(m0, es, h);
    if i > 0 {
      PumpingIff(m0, es, h, i - 1);
      OneMore(m0, es, i - 1);
      PumpingStep(StateAt(m0, es, i - 1), es[i - 1], h);
    }
  }

  lemma OutputSnoc(trace: seq<S.Event>, x: S.Event)
    ensures
      var t, n := trace + [x], |trace|;
      && S.Output(t, n + 1) == S.Output(trace, n) + (if x.Chunk? && !S.ExitBefore(trace, n) then x.payload else [])
      && (S.ExitBefore(t, n + 1) <==> x.Exited? || S.ExitBefore(trace, n))
  {
    SamePrefix(trace, x, |trace|);
  }

  lemma {:induction false} SamePrefix(trace: seq<S.Event>, x: S.Event, k: nat)
    requires k <= |trace|
    ensures S.Output(trace + [x], k) == S.Output(trace, k)
    ensures S.ExitBefore(trace + [x], k) <==> S.ExitBefore(trace, k)
  {
    if k > 0 {
      SamePrefix(trace, x, k - 1);
    }
  }

  lemma TraceStep(m0: Machine, es: seq<Event>, h: Handle, i: nat)
    requires Linked(m0) && i < |es|
    ensures SessionTrace(m0, es, h, 0) == []
    ensures
      var before, x := SessionTrace(m0, es, h, i), OnSession(StateAt(m0, es, i), es[i], h);
      SessionTrace(m0, es, h, i + 1) == if x.Some? then before + [x.value] else before
  {
    hide StateAt, OnSession;
  }

  lemma SaidStep(m0: Machine, es: seq<Event>, h: Handle, i: nat)
    requires Linked(m0) && i < |es|
    ensures
      var said, e, on := Said(m0, es, h, i), es[i], PumpStarted(m0, es, h, i);
      && Said(m0, es, h, i + 1) ==
           (if e.Chunk? && e.h == h && on && !HasExited(m0, es, h, i) then said + e.payload else said)
      && (HasExited(m0, es, h, i + 1) <==> HasExited(m0, es, h, i) || (e.Exited? && e.h == h && on))
  {
    hide StateAt, PumpStarted;
    assert Said(m0, es, h, i) + [] == Said(m0, es, h, i);
  }

  /** What a trace, its output and its exit become with one more event of the run. */
  lemma TraceSays(m: Machine, e: Event, h: Handle, before: seq<S.Event>)
    ensures
      var x, n := OnSession(m, e, h), |before|;
      var after, on := if x.Some? then before + [x.value] else before, h in m.pumping;
      && S.Output(after, |after|) ==
           (if e.Chunk? && e.h == h && on && !S.ExitBefore(before, n) then S.Output(before, n) + e.payload
            else S.Output(before, n))
      && (S.ExitBefore(after, |after|) <==> S.ExitBefore(before, n) || (e.Exited? && e.h == h && on))
  {
    var x := OnSession(m, e, h);
    hide S.Output, S.ExitBefore;
    if x.Some? {
      OutputSnoc(before, x.value);
    }
    assert S.Output(before, |before|) + [] == S.Output(before, |before|);
  }

  /** The output and the exit that the stream theorem speaks of are those of the run's own events. */
  lemma {:induction false} TraceIsWhatWasSaid(timeout: Time, ringSize: nat, es: seq<Event>, h: Handle, i: nat)
    requires i <= |es|
    ensures
      var m0 := Start(timeout, ringSize);
      var trace := SessionTrace(m0, es, h, i);
      && S.Output(trace, |trace|) == Said(m0, es, h, i)
      && (S.ExitBefore(trace, |trace|) <==> HasExited(m0, es, h, i))
  {
    if i > 0 {
      var m0 := Start(timeout, ringSize);
      var j := i - 1;
      hide StateAt, SessionTrace, Said, HasExited, OnSession, S.Output, S.ExitBefore, PumpStarted;
      TraceIsWhatWasSaid(timeout, ringSize, es, h, j);
      PumpingIff(m0, es, h, j);
      TraceStep(m0, es, h, j);
      SaidStep(m0, es, h, j);
      TraceSays(StateAt(m0, es, j), es[j], h, SessionTrace(m0, es, h, j));
    }
  }
}
