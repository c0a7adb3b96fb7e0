/**
 Client streams over the PTY manager, section by section.

 Register, Attach and Detach (windows/ptyhost/manager.go) each run as several
 critical sections, some under `Manager.mu` and some under the session's `sinkMu`.
 Here each section is one event, so an event list is one interleaving of any number
 of client streams with the pumps, Drop, Sweep and Close.  A stream (one call of
 servePTYStream, windows/cmd/peershd/main.go) attaches once and detaches at most once.
 An event whose section cannot run in the current state does nothing.
 */
module PtyStreams {
  import opened Bytes
  import opened PtyTable
  import S = PtySession

  datatype Key = Key(owner: Owner, id: nat)

  datatype Stage =
    | Sunk        // sink installed, not yet counted
    | Attached
    | Leaving     // Detach has found the entry
    | Removed     // sink removed, count not yet decremented
    | Abandoned   // Detach found no entry: sink and count stay as they are
    | Gone

  datatype Phase =
    | Refused(reason: LookupResult)
    | Opening(h: Handle)                   // Register has inserted the entry
    | Looked(h: Handle, hasSink: bool)     // Attach has found the entry
    | Bound(h: Handle, token: S.SinkToken, replay: bytes, opener: bool, counted: bool, stage: Stage)

  datatype Machine = Machine(
    table: Table,
    sessions: map<Handle, S.State>,
    pumping: set<Handle>,                  // sessions whose pump goroutine has been started
    streams: map<Key, Phase>,
    ringSize: nat)

  datatype Event =
    | Register(k: Key, h: Handle, command: string, hasSink: bool, now: Time)
    | Attach(k: Key, h: Handle, hasSink: bool)
    | AddSink(k: Key)
    | Count(k: Key, now: Time)
    | DetachLookup(k: Key)
    | RemoveSink(k: Key)
    | Uncount(k: Key, now: Time)
    | Drop(owner: Owner, h: Handle)
    | Sweep(now: Time)
    | Close
    | Chunk(h: Handle, payload: bytes)
    | Exited(h: Handle, code: S.int32, error: string)
    | PumpDone(h: Handle)

  function Start(timeout: Time, ringSize: nat): Machine {
    Machine(Table(map[], {}, false, timeout), map[], {}, map[], ringSize)
  }

  predicate OnEntry(p: Phase, owner: Owner, entries: map<Handle, Entry>) {
    p.Refused? || (p.h in entries && entries[p.h].owner == owner)
  }

  /** Every stream works on an entry of its own owner. */
  ghost predicate Linked(m: Machine) {
    && WellFormed(m.table)
    && m.sessions.Keys == m.table.entries.Keys
    && m.pumping <= m.sessions.Keys
    && forall k | k in m.streams :: OnEntry(m.streams[k], k.owner, m.table.entries)
  }

  /** The event, if any, that `e` is for the session of `h`. */
  ghost function OnSession(m: Machine, e: Event, h: Handle): Option<S.Event> {
    match e
    case AddSink(k) =>
      if k in m.streams && m.streams[k] == Opening(h) then Some(S.Add(false))
      else if k in m.streams && m.streams[k] == Looked(h, true) then Some(S.Add(true))
      else None
    case RemoveSink(k) =>
      if k in m.streams && m.streams[k].Bound? && m.streams[k].h == h
         && m.streams[k].stage == Leaving && m.streams[k].token != 0
      then Some(S.Remove(m.streams[k].token)) else None
    case Chunk(g, p) => if g == h && h in m.pumping then Some(S.Chunk(p)) else None
    case Exited(g, c, r) => if g == h && h in m.pumping then Some(S.Exited(c, r)) else None
    case _ => None
  }

  function BoundAt(m: Machine, k: Key, stage: Stage): bool {
    k in m.streams && m.streams[k].Bound? && m.streams[k].stage == stage
  }

  function Registering(m: Machine, e: Event): Machine
    requires e.Register?
  {
    if e.k in m.streams || e.h in m.table.entries then m
    else if m.table.closed then m.(streams := m.streams[e.k := Refused(ManagerClosed)])
    else m.(
      table := Inserted(m.table, e.k.owner, e.h, e.command, e.now),
      sessions := m.sessions[e.h := S.Opened(m.ringSize)],
      pumping := if e.hasSink then m.pumping else m.pumping + {e.h},
      streams := m.streams[e.k := if e.hasSink then Opening(e.h) else Bound(e.h, 0, [], true, false, Attached)])
  }

  function Attaching(m: Machine, k: Key, h: Handle, hasSink: bool): Machine {
    if k in m.streams then m
    else
      var r := Lookup(m.table, k.owner, h);
      m.(streams := m.streams[k := if r == Found then Looked(h, hasSink) else Refused(r)])
  }

  function Sinking(m: Machine, k: Key): Machine
    requires Linked(m)
  {
    if k !in m.streams then m
    else match m.streams[k]
      case Opening(h) =>
        var s := m.sessions[h];
        m.(sessions := m.sessions[h := S.Step(s, S.Add(false))],
           streams := m.streams[k := Bound(h, s.next + 1, S.Replay(s, false), true, false, Sunk)])
      case Looked(h, hasSink) =>
        var s := m.sessions[h];
        if hasSink then
          m.(sessions := m.sessions[h := S.Step(s, S.Add(true))],
             streams := m.streams[k := Bound(h, s.next + 1, S.Replay(s, true), false, false, Sunk)])
        else
          m.(streams := m.streams[k := Bound(h, 0, S.Replay(s, true), false, false, Sunk)])
      case _ => m
  }

  function Counting(m: Machine, k: Key, now: Time): Machine
    requires Linked(m)
  {
    if !BoundAt(m, k, Sunk) then m
    else
      var p := m.streams[k];
      m.(table := Counted(m.table, p.h, now),
         pumping := if p.opener then m.pumping + {p.h} else m.pumping,
         streams := m.streams[k := p.(stage := Attached, counted := true)])
  }

  function Detaching(m: Machine, k: Key): Machine {
    if !BoundAt(m, k, Attached) then m
    else
      var p := m.streams[k];
      var found := Owns(m.table, k.owner, p.h);
      m.(streams := m.streams[k := p.(stage := if found then Leaving else Abandoned)])
  }

  function Removing(m: Machine, k: Key): Machine
    requires Linked(m)
  {
    if !BoundAt(m, k, Leaving) then m
    else
      var p := m.streams[k];
      m.(sessions := if p.token == 0 then m.sessions
                     else m.sessions[p.h := S.Step(m.sessions[p.h], S.Remove(p.token))],
         streams := m.streams[k := p.(stage := Removed)])
  }

  function Uncounting(m: Machine, k: Key, now: Time): Machine
    requires Linked(m)
  {
    if !BoundAt(m, k, Removed) then m
    else
      var p := m.streams[k];
      m.(table := Uncounted(m.table, p.h, now),
         streams := m.streams[k := p.(stage := Gone, counted := false)])
  }

  function Pumped(m: Machine, h: Handle, e: S.Event): Machine
    requires Linked(m)
  {
    if h in m.pumping then m.(sessions := m.sessions[h := S.Step(m.sessions[h], e)]) else m
  }

  function Step(m: Machine, e: Event): (m': Machine)
    requires Linked(m)
    ensures Linked(m')
  {
    match e
    case Register(_, _, _, _, _) => Registering(m, e)
    case Attach(k, h, hasSink) => Attaching(m, k, h, hasSink)
    case AddSink(k) => Sinking(m, k)
    case Count(k, now) => Counting(m, k, now)
    case DetachLookup(k) => Detaching(m, k)
    case RemoveSink(k) => Removing(m, k)
    case Uncount(k, now) => Uncounting(m, k, now)
    case Drop(owner, h) => m.(table := Dropped(m.table, owner, h))
    case Sweep(now) => m.(table := Swept(m.table, now))
    case Close => m.(table := Closed(m.table))
    case Chunk(h, p) => Pumped(m, h, S.Chunk(p))
    case Exited(h, c, r) => Pumped(m, h, S.Exited(c, r))
    case PumpDone(h) =>
      if h in m.sessions && m.sessions[h].exited then m.(table := Ended(m.table, h)) else m
  }

  function StateAt(m: Machine, es: seq<Event>, i: nat): (m': Machine)
    requires Linked(m) && i <= |es|
    ensures Linked(m')
  {
    if i == 0 then m else Step(StateAt(m, es, i - 1), es[i - 1])
  }
}
