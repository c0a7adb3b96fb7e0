/**
 From signaling to QUIC: who can pass the authorization check of a host.

 The system is the signaling server (server/ws/handler.go and server/room), a host
 in signaling mode (runSignaling and handleWakeBatch, then serveConn, in
 windows/cmd/peershd/main.go) with its one-shot grants (windows/peerauth), and any
 number of other clients.  Each event is one step of one of them, in any order.  A
 forwarded Connect is identified by the index of the event that sent it.
 */
module Admission {
  import opened Bytes
  import opened Rooms
  import PeerAuth

  datatype Host = Host(user: string, device: string, ttl: int)

  datatype Phase =
    | Fresh                 // upgraded, not yet authenticated
    | Ready(c: Conn)        // handshake done: user and device are fixed
    | Live(c: Conn)         // in the registry, reading frames
    | Closed

  /** A Connect on its way to connection `to`, with the sender the server stamped on it. */
  datatype Message = Message(to: nat, from: string)

  datatype Grant = Grant(expiry: int, tag: nat)

  datatype Sys = Sys(
    registry: Devices,
    conns: map<nat, Phase>,
    hostConns: set<nat>,              // the connections this host has dialed itself
    wire: map<nat, Message>,          // forwarded Connects not yet received, by tag
    pending: map<string, Grant>)      // the host's Authz, each grant with the Connect it came from

  datatype Event =
    | Dial(id: nat, byHost: bool)
    | Handshake(id: nat, user: string, device: string)   // a handshake the server accepts
    | Join(id: nat)                                      // Registry.Register
    | Send(id: nat, target: string, delivered: bool)     // dispatch of a Connect frame
    | Exit(id: nat)                                      // the deferred Unregister
    | Recv(tag: nat, now: int)                           // the host receives a Connect and calls Allow
    | Accept(peer: string, now: int)                     // serveConn's check of a QUIC peer
    | Sweep(now: int)

  const START := Sys(map[], map[], {}, map[], map[])

  function PhaseOf(s: Sys, id: nat): Phase {
    if id in s.conns then s.conns[id] else Closed
  }

  function Sending(s: Sys, id: nat, target: string, delivered: bool, i: nat): Sys {
    if !PhaseOf(s, id).Live? then s
    else
      var f := Forwarded(s.registry, PhaseOf(s, id).c, Connect(target, "", []));
      if f.Deliver? && delivered then s.(wire := s.wire[i := Message(f.to.id, f.msg.from)]) else s
  }

  function Receiving(h: Host, s: Sys, tag: nat, now: int): Sys {
    if tag !in s.wire || s.wire[tag].to !in s.hostConns then s
    else
      var from := s.wire[tag].from;
      s.(wire := s.wire - {tag},
         pending := if from == "" then s.pending else s.pending[from := Grant(now + h.ttl, tag)])
  }

  /** The grant that admits `peer`, if serveConn lets it in. */
  function Admits(s: Sys, peer: string, now: int): Option<Grant> {
    if peer != "" && peer in s.pending && now <= s.pending[peer].expiry then Some(s.pending[peer]) else None
  }

  /** One step; `i` is the index of the event. */
  function Step(h: Host, s: Sys, e: Event, i: nat): Sys {
    match e
    case Dial(id, byHost) =>
      if id in s.conns then s
      else s.(conns := s.conns[id := Fresh], hostConns := if byHost then s.hostConns + {id} else s.hostConns)
    case Handshake(id, user, device) =>
      if !PhaseOf(s, id).Fresh? || (id in s.hostConns && (user != h.user || device != h.device)) then s
      else s.(conns := s.conns[id := Ready(Conn(id, user, device))])
    case Join(id) =>
      if !PhaseOf(s, id).Ready? then s
      else
        var c := PhaseOf(s, id).c;
        s.(conns := s.conns[id := Live(c)], registry := Registered(s.registry, c))
    case Send(id, target, delivered) => Sending(s, id, target, delivered, i)
    case Exit(id) =>
      if id !in s.conns then s
      else
        var p := s.conns[id];
        s.(conns := s.conns[id := Closed],
           registry := if p.Live? then Unregistered(s.registry, p.c) else s.registry)
    case Recv(tag, now) => Receiving(h, s, tag, now)
    case Accept(peer, _) => s.(pending := s.pending - {peer})
    case Sweep(now) => s.(pending := map d | d in s.pending && !(now > s.pending[d].expiry) :: s.pending[d])
  }

  function StateAt(h: Host, es: seq<Event>, i: nat): Sys
    requires i <= |es|
  {
    if i == 0 then START else Step(h, StateAt(h, es, i - 1), es[i - 1], i - 1)
  }

  /** The host's grants are those of peerauth.Authz, step for step. */
  function Expiries(p: map<string, Grant>): PeerAuth.Pending {
    map d | d in p :: p[d].expiry
  }

  lemma GrantsAreAuthz(h: Host, s: Sys, e: Event, i: nat)
    requires "" !in s.pending
    ensures "" !in Step(h, s, e, i).pending
    ensures
      var p, p' := Expiries(s.pending), Expiries(Step(h, s, e, i).pending);
      match e
      case Recv(tag, now) =>
        p' == if tag in s.wire && s.wire[tag].to in s.hostConns
              then PeerAuth.Allowed(p, h.ttl, s.wire[tag].from, now) else p
      case Accept(peer, now) =>
        (p', Admits(s, peer, now).Some?) == PeerAuth.Checked(p, peer, now)
      case Sweep(now) => p' == PeerAuth.Swept(p, now)
      case _ => p' == p
  {
    if e.Accept? {
      var p := Expiries(s.pending);
      assert Expiries(s.pending - {e.peer}) == p - {e.peer};
      assert e.peer !in s.pending ==> p - {e.peer} == p;
    }
  }

  // ------------------------------------------------------------- invariants

  /** Connections keep the identity their handshake gave them; the host's carry the host's. */
  ghost predicate ConnsOk(h: Host, s: Sys) {
    && (forall id | id in s.conns && (s.conns[id].Ready? || s.conns[id].Live?) ::
          && s.conns[id].c.id == id
          && (id in s.hostConns ==> s.conns[id].c.user == h.user && s.conns[id].c.device == h.device))
    && s.hostConns <= s.conns.Keys
  }

  /** Exactly the live connections are in the registry, each under its own identity. */
  ghost predicate RegistryOk(s: Sys) {
    && Sound(s.registry)
    && forall u, d | Lookup(s.registry, u, d).Some? ::
         var c := Lookup(s.registry, u, d).value;
         c.id in s.conns && s.conns[c.id] == Live(c)
  }

  /**
   The server forwarded the Connect sent by event `tag`: it came, at that moment, from a
   live connection of `user` and device `from`, and the registry held connection `to`
   for the device `target` of the same user, a connection of the host.
   */
  ghost predicate SentBy(h: Host, es: seq<Event>, tag: nat, user: string, from: string, target: string, to: nat) {
    && tag < |es| && es[tag].Send? && es[tag].delivered && es[tag].target == target && from != target
    && var s := StateAt(h, es, tag);
       && PhaseOf(s, es[tag].id).Live? && PhaseOf(s, es[tag].id).c == Conn(es[tag].id, user, from)
       && Lookup(s.registry, user, target) == Some(Conn(to, user, target)) && to in s.hostConns
  }

  /** A message under way to a host connection was forwarded from a device of the host's user, to the host. */
  ghost predicate WireOk(h: Host, es: seq<Event>, s: Sys, i: nat) {
    forall tag | tag in s.wire ::
      && tag < i
      && (s.wire[tag].to in s.hostConns ==>
            SentBy(h, es, tag, h.user, s.wire[tag].from, h.device, s.wire[tag].to))
  }

  /** In event `r` the host receives, on a connection of its own, the Connect `tag` stamped with `device`. */
  ghost predicate Receives(h: Host, es: seq<Event>, r: nat, tag: nat, device: string) {
    && r < |es| && es[r].Recv? && es[r].tag == tag && device != ""
    && var s := StateAt(h, es, r);
       tag in s.wire && s.wire[tag].from == device && s.wire[tag].to in s.hostConns
  }

  /** Where a grant came from: a Connect forwarded to the host and received by it in event `r`. */
  ghost predicate GrantedBy(h: Host, es: seq<Event>, device: string, g: Grant, r: nat, i: nat) {
    && g.tag < r < i <= |es|
    && Receives(h, es, r, g.tag, device)
    && SentBy(h, es, g.tag, h.user, device, h.device, StateAt(h, es, r).wire[g.tag].to)
    && g.expiry == es[r].now + h.ttl
  }

  ghost predicate Granted(h: Host, es: seq<Event>, device: string, g: Grant, i: nat) {
    exists r: nat :: GrantedBy(h, es, device, g, r, i)
  }

  ghost predicate PendingOk(h: Host, es: seq<Event>, s: Sys, i: nat) {
    && "" !in s.pending
    && (forall d | d in s.pending ::
          s.pending[d].tag !in s.wire && Granted(h, es, d, s.pending[d], i))
    && (forall d, e | d in s.pending && e in s.pending && d != e :: s.pending[d].tag != s.pending[e].tag)
  }

  ghost predicate Inv(h: Host, es: seq<Event>, s: Sys, i: nat) {
    ConnsOk(h, s) && RegistryOk(s) && WireOk(h, es, s, i) && PendingOk(h, es, s, i)
  }

  lemma ServerStep(h: Host, s: Sys, e: Event, i: nat)
    requires ConnsOk(h, s) && RegistryOk(s)
    ensures ConnsOk(h, Step(h, s, e, i)) && RegistryOk(Step(h, s, e, i))
  {
    if e.Join? && PhaseOf(s, e.id).Ready? {
      JoinKeepsRegistry(h, s, e.id, i);
    } else if e.Exit? && e.id in s.conns {
      ExitKeepsRegistry(h, s, e.id, i);
    } else {
      assert Step(h, s, e, i).registry == s.registry;
    }
  }

  lemma JoinKeepsRegistry(h: Host, s: Sys, id: nat, i: nat)
    requires ConnsOk(h, s) && RegistryOk(s) && PhaseOf(s, id).Ready?
    ensures ConnsOk(h, Step(h, s, Join(id), i)) && RegistryOk(Step(h, s, Join(id), i))
  {
    var c, s' := PhaseOf(s, id).c, Step(h, s, Join(id), i);
    StepSound(s.registry, Register(c));
    forall u, d | Lookup(s'.registry, u, d).Some?
      ensures
        var x := Lookup(s'.registry, u, d).value;
        x.id in s'.conns && s'.conns[x.id] == Live(x)
    {
      StepLookup(s.registry, Register(c), u, d);
    }
  }

  lemma ExitKeepsRegistry(h: Host, s: Sys, id: nat, i: nat)
    requires ConnsOk(h, s) && RegistryOk(s) && id in s.conns
    ensures ConnsOk(h, Step(h, s, Exit(id), i)) && RegistryOk(Step(h, s, Exit(id), i))
  {
    var p, s' := s.conns[id], Step(h, s, Exit(id), i);
    if p.Live? {
      StepSound(s.registry, Unregister(p.c));
    }
    forall u, d | Lookup(s'.registry, u, d).Some?
      ensures
        var x := Lookup(s'.registry, u, d).value;
        x.id in s'.conns && s'.conns[x.id] == Live(x)
    {
      if p.Live? {
        StepLookup(s.registry, Unregister(p.c), u, d);
        assert Lookup(s.registry, u, d).Some?;
        SoundLookup(s.registry, u, d);
      }
      assert Lookup(s.registry, u, d) == Lookup(s'.registry, u, d);
    }
  }

  lemma SoundLookup(r: Devices, u: string, d: string)
    requires Sound(r) && Lookup(r, u, d).Some?
    ensures Lookup(r, u, d).value.user == u && Lookup(r, u, d).value.device == d
  {
  }

  lemma SendWire(h: Host, es: seq<Event>, s: Sys, i: nat)
    requires i < |es| && s == StateAt(h, es, i) && Inv(h, es, s, i) && es[i].Send?
    ensures WireOk(h, es, Step(h, s, es[i], i), i + 1)
  {
    var e, s' := es[i], Step(h, s, es[i], i);
    hide StateAt, PendingOk;
    if s'.wire != s.wire && s'.wire[i].to in s.hostConns {
      var from := PhaseOf(s, e.id).c;
      SoundLookup(s.registry, from.user, e.target);
      var to := Lookup(s.registry, from.user, e.target).value;
      assert s.conns[to.id] == Live(to);
      assert s.conns[e.id] == Live(from) && from.id == e.id;
      assert SentBy(h, es, i, h.user, from.device, h.device, to.id);
    }
    hide SentBy;
    assert forall tag | tag in s'.wire && tag != i :: tag in s.wire && s'.wire[tag] == s.wire[tag];
  }

  lemma DialWire(h: Host, es: seq<Event>, s: Sys, i: nat)
    requires i < |es| && s == StateAt(h, es, i) && WireOk(h, es, s, i) && es[i].Dial?
    ensures WireOk(h, es, Step(h, s, es[i], i), i + 1)
  {
    DialIsFresh(h, es, i);
    hide StateAt, WireOk;
    WireKept(h, es, s, Step(h, s, es[i], i), i);
  }

  /** Every other step leaves the host's connections and adds no message. */
  lemma OtherWire(h: Host, es: seq<Event>, s: Sys, i: nat)
    requires i < |es| && WireOk(h, es, s, i) && !es[i].Dial? && !es[i].Send?
    ensures WireOk(h, es, Step(h, s, es[i], i), i + 1)
  {
    hide WireOk, Registered, Unregistered;
    WireKept(h, es, s, Step(h, s, es[i], i), i);
  }

  lemma WireStep(h: Host, es: seq<Event>, s: Sys, i: nat)
    requires i < |es| && s == StateAt(h, es, i) && Inv(h, es, s, i)
    ensures WireOk(h, es, Step(h, s, es[i], i), i + 1)
  {
    hide StateAt, Step, WireOk, PendingOk, RegistryOk, ConnsOk;
    if es[i].Send? {
      SendWire(h, es, s, i);
    } else if es[i].Dial? {
      DialWire(h, es, s, i);
    } else {
      OtherWire(h, es, s, i);
    }
  }

  lemma WireKept(h: Host, es: seq<Event>, s: Sys, s': Sys, i: nat)
    requires WireOk(h, es, s, i)
    requires forall tag | tag in s'.wire :: tag in s.wire && s'.wire[tag] == s.wire[tag]
    requires forall tag | tag in s'.wire :: s'.wire[tag].to in s'.hostConns ==> s'.wire[tag].to in s.hostConns
    ensures WireOk(h, es, s', i + 1)
  {
    hide SentBy;
  }

  /** A message already under way is never addressed to a connection yet to be dialed. */
  lemma {:induction false} WireTargetsExist(h: Host, es: seq<Event>, i: nat, tag: nat)
    requires i <= |es|
    ensures Inv0(h, StateAt(h, es, i))
    ensures tag in StateAt(h, es, i).wire ==> StateAt(h, es, i).wire[tag].to in StateAt(h, es, i).conns
  {
    if i > 0 {
      WireTargetsExist(h, es, i - 1, tag);
      var s, e := StateAt(h, es, i - 1), es[i - 1];
      ServerStep(h, s, e, i - 1);
      WireTargetStep(h, s, e, i - 1, tag);
      hide Step, Inv0;
    }
  }

  lemma WireTargetStep(h: Host, s: Sys, e: Event, i: nat, tag: nat)
    requires RegistryOk(s) && (tag in s.wire ==> s.wire[tag].to in s.conns)
    ensures
      var s' := Step(h, s, e, i);
      tag in s'.wire ==> s'.wire[tag].to in s'.conns
  {
    if e.Send? && PhaseOf(s, e.id).Live? && Lookup(s.registry, PhaseOf(s, e.id).c.user, e.target).Some? {
      assert Lookup(s.registry, PhaseOf(s, e.id).c.user, e.target).value.id in s.conns;
    }
  }

  ghost predicate Inv0(h: Host, s: Sys) {
    ConnsOk(h, s) && RegistryOk(s)
  }

  lemma DialIsFresh(h: Host, es: seq<Event>, i: nat)
    requires i < |es| && es[i].Dial?
    ensures forall tag | tag in StateAt(h, es, i).wire ::
      es[i].id !in StateAt(h, es, i).conns ==> StateAt(h, es, i).wire[tag].to != es[i].id
  {
    forall tag | tag in StateAt(h, es, i).wire
      ensures es[i].id !in StateAt(h, es, i).conns ==> StateAt(h, es, i).wire[tag].to != es[i].id
    {
      WireTargetsExist(h, es, i, tag);
    }
  }

  lemma GrantedLater(h: Host, es: seq<Event>, d: string, g: Grant, i: nat)
    requires i < |es| && Granted(h, es, d, g, i)
    ensures Granted(h, es, d, g, i + 1) && g.tag < i
  {
    hide SentBy;
    var r: nat :| GrantedBy(h, es, d, g, r, i);
    assert GrantedBy(h, es, d, g, r, i + 1);
  }

  /** Grants that stay stay justified, as long as no older Connect is put on the wire. */
  lemma PendingKept(h: Host, es: seq<Event>, s: Sys, s': Sys, i: nat)
    requires i < |es| && PendingOk(h, es, s, i)
    requires forall d | d in s'.pending :: d in s.pending && s'.pending[d] == s.pending[d]
    requires s'.wire.Keys <= s.wire.Keys + {i}
    ensures PendingOk(h, es, s', i + 1)
  {
    hide Granted;
    forall d | d in s'.pending ensures s'.pending[d].tag !in s'.wire && Granted(h, es, d, s'.pending[d], i + 1) {
      GrantedLater(h, es, d, s.pending[d], i);
    }
  }

  /** An effective receipt justifies the grant it records. */
  lemma ReceiptGrants(h: Host, es: seq<Event>, s: Sys, i: nat)
    requires i < |es| && s == StateAt(h, es, i) && es[i].Recv? && WireOk(h, es, s, i)
    requires es[i].tag in s.wire && s.wire[es[i].tag].to in s.hostConns && s.wire[es[i].tag].from != ""
    ensures Granted(h, es, s.wire[es[i].tag].from, Grant(es[i].now + h.ttl, es[i].tag), i + 1)
  {
    var from, tag := s.wire[es[i].tag].from, es[i].tag;
    assert SentBy(h, es, tag, h.user, from, h.device, s.wire[tag].to);
    assert Receives(h, es, i, tag, from);
    hide SentBy, StateAt, Receives;
    assert GrantedBy(h, es, from, Grant(es[i].now + h.ttl, tag), i, i + 1);
  }

  lemma RecvPending(h: Host, es: seq<Event>, s: Sys, i: nat)
    requires i < |es| && s == StateAt(h, es, i) && es[i].Recv?
    requires WireOk(h, es, s, i) && PendingOk(h, es, s, i)
    ensures PendingOk(h, es, Receiving(h, s, es[i].tag, es[i].now), i + 1)
  {
    hide StateAt, WireOk, Granted;
    var s', tag := Receiving(h, s, es[i].tag, es[i].now), es[i].tag;
    if s'.pending == s.pending {
      PendingKept(h, es, s, s', i);
    } else {
      ReceiptGrants(h, es, s, i);
      forall d | d in s.pending
        ensures Granted(h, es, d, s.pending[d], i + 1)
      {
        GrantedLater(h, es, d, s.pending[d], i);
      }
    }
  }

  lemma PendingStep(h: Host, es: seq<Event>, s: Sys, i: nat)
    requires i < |es| && s == StateAt(h, es, i) && Inv(h, es, s, i)
    ensures PendingOk(h, es, Step(h, s, es[i], i), i + 1)
  {
    hide StateAt, ConnsOk, RegistryOk, WireOk, PendingOk;
    if es[i].Recv? {
      RecvPending(h, es, s, i);
    } else {
      PendingKept(h, es, s, Step(h, s, es[i], i), i);
    }
  }

  lemma {:induction false} AlwaysInv(h: Host, es: seq<Event>, i: nat)
    requires i <= |es|
    ensures Inv(h, es, StateAt(h, es, i), i)
  {
    if i == 0 {
      hide Step, SentBy, Granted;
    } else {
      hide Step, ConnsOk, RegistryOk, WireOk, PendingOk;
      AlwaysInv(h, es, i - 1);
      var s := StateAt(h, es, i - 1);
      ServerStep(h, s, es[i - 1], i - 1);
      WireStep(h, es, s, i - 1);
      PendingStep(h, es, s, i - 1);
    }
  }

  // ---------------------------------------------------------------- theorems

  /**
   Whoever passes serveConn's check at event `a` has the device id that the server
   stamped on a Connect, sent over a live connection of the host's own user and
   forwarded to the connection the registry held for the host, on which the host
   received it at most `ttl` before.
   */
  lemma AdmissionIsGranted(h: Host, es: seq<Event>, a: nat)
    requires a < |es| && es[a].Accept? && Admits(StateAt(h, es, a), es[a].peer, es[a].now).Some?
    ensures
      var g := Admits(StateAt(h, es, a), es[a].peer, es[a].now).value;
      exists r: nat ::
        && GrantedBy(h, es, es[a].peer, g, r, a)
        && es[a].now <= es[r].now + h.ttl
  {
    AlwaysInv(h, es, a);
    hide StateAt, SentBy, ConnsOk, RegistryOk, WireOk;
    var g := Admits(StateAt(h, es, a), es[a].peer, es[a].now).value;
    assert Granted(h, es, es[a].peer, g, a);
    var r: nat :| GrantedBy(h, es, es[a].peer, g, r, a);
    assert es[a].now <= es[r].now + h.ttl;
  }

  /** A Connect that is neither under way nor granted any more can never be granted again. */
  ghost predicate Spent(s: Sys, tag: nat) {
    tag !in s.wire && forall d | d in s.pending :: s.pending[d].tag != tag
  }

  lemma {:induction false} SpentStays(h: Host, es: seq<Event>, tag: nat, j: nat, i: nat)
    requires tag < j <= i <= |es| && Spent(StateAt(h, es, j), tag)
    ensures Spent(StateAt(h, es, i), tag)
  {
    if j < i {
      hide Step, Spent;
      SpentStays(h, es, tag, j, i - 1);
      SpentStep(h, StateAt(h, es, i - 1), es[i - 1], i - 1, tag);
    }
  }

  lemma SpentStep(h: Host, s: Sys, e: Event, i: nat, tag: nat)
    requires Spent(s, tag) && tag < i
    ensures Spent(Step(h, s, e, i), tag)
  {
  }

  /** No grant admits two connections: different admissions use different Connects. */
  lemma AdmissionsAreInjective(h: Host, es: seq<Event>, a: nat, b: nat)
    requires a < b < |es| && es[a].Accept? && es[b].Accept?
    requires Admits(StateAt(h, es, a), es[a].peer, es[a].now).Some?
    requires Admits(StateAt(h, es, b), es[b].peer, es[b].now).Some?
    ensures Admits(StateAt(h, es, a), es[a].peer, es[a].now).value.tag
         != Admits(StateAt(h, es, b), es[b].peer, es[b].now).value.tag
  {
    hide StateAt, ConnsOk, RegistryOk, WireOk, PendingOk, Step;
    AlwaysInv(h, es, a);
    var s := StateAt(h, es, a);
    var tag := s.pending[es[a].peer].tag;
    OneMore(h, es, a);
    AcceptSpends(h, es, s, a);
    SpentStays(h, es, tag, a + 1, b);
  }

  lemma OneMore(h: Host, es: seq<Event>, i: nat)
    requires i < |es|
    ensures StateAt(h, es, i + 1) == Step(h, StateAt(h, es, i), es[i], i)
  {
    hide Step;
  }

  lemma AcceptSpends(h: Host, es: seq<Event>, s: Sys, a: nat)
    requires a < |es| && es[a].Accept? && PendingOk(h, es, s, a) && es[a].peer in s.pending
    ensures s.pending[es[a].peer].tag < a && Spent(Step(h, s, es[a], a), s.pending[es[a].peer].tag)
  {
    hide Granted;
    GrantedLater(h, es, es[a].peer, s.pending[es[a].peer], a);
  }

  // ------------------------------------------------------- exactly who gets in

  function Stamp(e: Event): Option<int> {
    match e
    case Recv(_, now) => Some(now)
    case Accept(_, now) => Some(now)
    case Sweep(now) => Some(now)
    case _ => None
  }

  /** The host's clock never goes back. */
  ghost predicate Ordered(es: seq<Event>) {
    forall i, j | 0 <= i <= j < |es| && Stamp(es[i]).Some? && Stamp(es[j]).Some? ::
      Stamp(es[i]).value <= Stamp(es[j]).value
  }

  /** The event that received the latest Connect from `peer` since its last Accept, or -1. */
  ghost function LastReceipt(h: Host, es: seq<Event>, peer: string, i: nat): (r: int)
    requires i <= |es|
    ensures -1 <= r < i
    ensures r >= 0 ==> es[r].Recv? && Receives(h, es, r, es[r].tag, peer)
  {
    if i == 0 then -1
    else
      var e := es[i - 1];
      if AcceptOf(e, peer) then -1
      else if e.Recv? && Receives(h, es, i - 1, e.tag, peer) then i - 1
      else LastReceipt(h, es, peer, i - 1)
  }

  predicate AcceptOf(e: Event, peer: string) {
    e.Accept? && e.peer == peer
  }

  /** The receipt at `r` is the latest from `peer` before event `i`, and `peer` was not checked since. */
  ghost predicate Stands(h: Host, es: seq<Event>, peer: string, r: nat, i: nat)
    requires i <= |es|
  {
    && r < i && es[r].Recv? && Receives(h, es, r, es[r].tag, peer)
    && forall j | r < j < i :: !AcceptOf(es[j], peer) && !(es[j].Recv? && Receives(h, es, j, es[j].tag, peer))
  }

  lemma {:induction false} LastStands(h: Host, es: seq<Event>, peer: string, r: nat, i: nat)
    requires i <= |es|
    ensures Stands(h, es, peer, r, i) <==> LastReceipt(h, es, peer, i) == r
  {
    hide Receives;
    if i > 0 {
      LastStands(h, es, peer, r, i - 1);
    }
  }

  /** What the host remembers of `peer` at a time `t` not before any event so far. */
  ghost predicate Remembers(h: Host, es: seq<Event>, s: Sys, peer: string, r: int, t: int)
    requires -1 <= r < |es| && (r >= 0 ==> es[r].Recv?)
  {
    if r < 0 then peer !in s.pending
    else if peer in s.pending then s.pending[peer] == Grant(es[r].now + h.ttl, es[r].tag)
    else es[r].now + h.ttl < t
  }

  /** How one step changes the grant of `peer`. */
  lemma GrantStep(h: Host, s: Sys, e: Event, i: nat, peer: string)
    ensures
      var p, p' := s.pending, Step(h, s, e, i).pending;
      if AcceptOf(e, peer) then peer !in p'
      else if e.Recv? && e.tag in s.wire && s.wire[e.tag].from == peer && peer != "" && s.wire[e.tag].to in s.hostConns
      then peer in p' && p'[peer] == Grant(e.now + h.ttl, e.tag)
      else
        && (peer in p' ==> peer in p && p'[peer] == p[peer])
        && (peer in p && peer !in p' ==> e.Sweep? && p[peer].expiry < e.now)
  {
    hide Registered, Unregistered, Forwarded;
  }

  lemma LastReceiptStep(h: Host, es: seq<Event>, peer: string, i: nat)
    requires i < |es|
    ensures LastReceipt(h, es, peer, i + 1) ==
            if AcceptOf(es[i], peer) then -1
            else if es[i].Recv? && Receives(h, es, i, es[i].tag, peer) then i
            else LastReceipt(h, es, peer, i)
  {
    hide Receives;
  }

  lemma RemembersStep(h: Host, es: seq<Event>, peer: string, i: nat, t: int)
    requires i < |es| && Remembers(h, es, StateAt(h, es, i), peer, LastReceipt(h, es, peer, i), t)
    requires Stamp(es[i]).Some? ==> t <= Stamp(es[i]).value
    ensures Remembers(h, es, StateAt(h, es, i + 1), peer, LastReceipt(h, es, peer, i + 1),
                      if Stamp(es[i]).Some? then Stamp(es[i]).value else t)
  {
    hide StateAt, LastReceipt, Step;
    GrantStep(h, StateAt(h, es, i), es[i], i, peer);
    LastReceiptStep(h, es, peer, i);
    OneMore(h, es, i);
  }

  lemma {:induction false} AlwaysRemembers(h: Host, es: seq<Event>, peer: string, i: nat, t: int)
    requires Ordered(es) && i <= |es|
    requires forall j | 0 <= j < i && Stamp(es[j]).Some? :: Stamp(es[j]).value <= t
    ensures Remembers(h, es, StateAt(h, es, i), peer, LastReceipt(h, es, peer, i), t)
  {
    if i > 0 {
      var e := es[i - 1];
      var t' := if Stamp(e).Some? then Stamp(e).value else t;
      AlwaysRemembers(h, es, peer, i - 1, t');
      hide StateAt, LastReceipt;
      RemembersStep(h, es, peer, i - 1, t');
    }
  }

  /**
   A peer is let in exactly when the latest Connect from it that the host received since
   the peer's last check was received at most `ttl` before; and it is that Connect's
   grant that lets it in.
   */
  lemma AdmittedByReceipt(h: Host, es: seq<Event>, a: nat)
    requires Ordered(es) && a < |es| && es[a].Accept?
    ensures
      var g := Admits(StateAt(h, es, a), es[a].peer, es[a].now);
      && (g.Some? <==> exists r: nat :: Stands(h, es, es[a].peer, r, a) && es[a].now <= es[r].now + h.ttl)
      && (forall r: nat | g.Some? && Stands(h, es, es[a].peer, r, a) :: g.value.tag == es[r].tag)
  {
    var peer, r := es[a].peer, LastReceipt(h, es, es[a].peer, a);
    forall j | 0 <= j < a && Stamp(es[j]).Some?
      ensures Stamp(es[j]).value <= es[a].now
    {
      assert Stamp(es[a]).Some?;
    }
    AlwaysRemembers(h, es, peer, a, es[a].now);
    forall q: nat
      ensures Stands(h, es, peer, q, a) <==> r == q
    {
      LastStands(h, es, peer, q, a);
    }
    assert r >= 0 ==> peer != "";
    hide StateAt, LastReceipt, Stands;
    if r >= 0 {
      assert Stands(h, es, peer, r, a);
    }
  }

  /** The Connect `tag` is off the wire, and only `peer` can hold its grant. */
  ghost predicate OnlyFor(s: Sys, tag: nat, peer: string) {
    tag !in s.wire && forall d | d in s.pending && s.pending[d].tag == tag :: d == peer
  }

  lemma OnlyForStep(h: Host, s: Sys, e: Event, i: nat, tag: nat, peer: string)
    requires OnlyFor(s, tag, peer) && tag < i
    ensures OnlyFor(Step(h, s, e, i), tag, peer)
  {
    hide Registered, Unregistered;
  }

  lemma {:induction false} OnlyForStays(h: Host, es: seq<Event>, tag: nat, peer: string, j: nat, i: nat)
    requires tag < j <= i <= |es| && OnlyFor(StateAt(h, es, j), tag, peer)
    ensures OnlyFor(StateAt(h, es, i), tag, peer)
  {
    if j < i {
      hide Step, OnlyFor;
      OnlyForStays(h, es, tag, peer, j, i - 1);
      OnlyForStep(h, StateAt(h, es, i - 1), es[i - 1], i - 1, tag, peer);
    }
  }

  /** Receiving a Connect leaves its grant with the stamped device only. */
  lemma ReceiptIsOnlyFor(h: Host, es: seq<Event>, s: Sys, q: nat)
    requires q < |es| && es[q].Recv? && PendingOk(h, es, s, q) && es[q].tag in s.wire
    requires s.wire[es[q].tag].to in s.hostConns
    ensures OnlyFor(Step(h, s, es[q], q), es[q].tag, s.wire[es[q].tag].from)
  {
    hide Granted;
  }

  /** Receiving another one from the same device replaces it. */
  lemma ReceiptReplaces(h: Host, s: Sys, e: Event, r: nat, tag: nat, peer: string)
    requires OnlyFor(s, tag, peer) && e.Recv? && e.tag in s.wire && peer != ""
    requires s.wire[e.tag].to in s.hostConns && s.wire[e.tag].from == peer
    ensures Spent(Step(h, s, e, r), tag)
  {
  }

  /** Connects of one device collapse: once a later one is received, the earlier one can admit nobody. */
  lemma ConnectsCollapse(h: Host, es: seq<Event>, q: nat, r: nat, peer: string)
    requires q < r < |es| && es[q].Recv? && es[r].Recv?
    requires Receives(h, es, q, es[q].tag, peer) && Receives(h, es, r, es[r].tag, peer)
    ensures forall i | r < i <= |es| :: Spent(StateAt(h, es, i), es[q].tag)
  {
    var tag := es[q].tag;
    AlwaysInv(h, es, q);
    var s, t := StateAt(h, es, q), StateAt(h, es, r);
    OneMore(h, es, q);
    OneMore(h, es, r);
    assert tag < q;
    hide StateAt, Step, ConnsOk, RegistryOk, WireOk, PendingOk, OnlyFor, Spent;
    ReceiptIsOnlyFor(h, es, s, q);
    OnlyForStays(h, es, tag, peer, q + 1, r);
    ReceiptReplaces(h, t, es[r], r, tag, peer);
    forall i | r < i <= |es|
      ensures Spent(StateAt(h, es, i), tag)
    {
      SpentStays(h, es, tag, r + 1, i);
    }
  }
}
