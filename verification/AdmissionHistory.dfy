/**
 Who gets in, told by the events of a run alone: dials, handshakes, joins, sends,
 receipts, exits and checks, without the state of the server or of the host.

 Each phase of a connection, and the room it is listed in, is first described by the
 events that led to it and proved to be what the state says; the admission theorem
 then speaks of events only.
 */
module AdmissionHistory {
  import opened Bytes
  import Rooms
  import opened Admission

  // -------------------------------------------- the life of one connection

  predicate DialOf(e: Event, id: nat) {
    e.Dial? && e.id == id
  }

  predicate Dialed(es: seq<Event>, id: nat, i: nat)
    requires i <= |es|
  {
    exists k | 0 <= k < i :: DialOf(es[k], id)
  }

  /** The connection was dialed by event `d`: dialing an id again is nothing new. */
  predicate DialedBy(es: seq<Event>, id: nat, d: nat, i: nat)
    requires i <= |es|
  {
    d < i && DialOf(es[d], id) && !Dialed(es, id, d)
  }

  /** A handshake the server accepts; the host's own connections only ever use the host's identity. */
  predicate Accepts(h: Host, byHost: bool, e: Event, id: nat) {
    e.Handshake? && e.id == id && (byHost ==> e.user == h.user && e.device == h.device)
  }

  /** Dialed by event `d`, and neither greeted nor closed since. */
  ghost predicate Waiting(h: Host, es: seq<Event>, id: nat, d: nat, i: nat)
    requires i <= |es|
  {
    && DialedBy(es, id, d, i)
    && forall k | d < k < i :: !Accepts(h, es[d].byHost, es[k], id) && es[k] != Exit(id)
  }

  /** Event `a` is the handshake that makes a waiting connection `c`. */
  ghost predicate Greets(h: Host, es: seq<Event>, c: Rooms.Conn, a: nat) {
    && a < |es| && es[a].Handshake? && es[a].user == c.user && es[a].device == c.device
    && exists d: nat :: Waiting(h, es, c.id, d, a) && Accepts(h, es[d].byHost, es[a], c.id)
  }

  ghost predicate GreetedBy(h: Host, es: seq<Event>, c: Rooms.Conn, a: nat, i: nat)
    requires i <= |es|
  {
    a < i && Greets(h, es, c, a) && forall k | a < k < i :: es[k] != Join(c.id) && es[k] != Exit(c.id)
  }

  /** Event `j` registers the connection `c`. */
  ghost predicate Joins(h: Host, es: seq<Event>, c: Rooms.Conn, j: nat) {
    j < |es| && es[j] == Join(c.id) && exists a: nat :: GreetedBy(h, es, c, a, j)
  }

  ghost predicate LivesSince(h: Host, es: seq<Event>, c: Rooms.Conn, j: nat, i: nat)
    requires i <= |es|
  {
    j < i && Joins(h, es, c, j) && forall k | j < k < i :: es[k] != Exit(c.id)
  }

  /** `c` has joined and not left. */
  ghost predicate Lives(h: Host, es: seq<Event>, c: Rooms.Conn, i: nat)
    requires i <= |es|
  {
    exists j: nat :: LivesSince(h, es, c, j, i)
  }

  /** Event `k` registers a connection under the user and device of `c`. */
  ghost predicate Supplants(h: Host, es: seq<Event>, c: Rooms.Conn, k: nat) {
    exists x: Rooms.Conn :: x.user == c.user && x.device == c.device && Joins(h, es, x, k)
  }

  ghost predicate ListedSince(h: Host, es: seq<Event>, c: Rooms.Conn, j: nat, i: nat)
    requires i <= |es|
  {
    j < i && Joins(h, es, c, j) && forall k | j < k < i :: es[k] != Exit(c.id) && !Supplants(h, es, c, k)
  }

  /** `c` is the latest connection that joined for its user and device, and has not left. */
  ghost predicate Listed(h: Host, es: seq<Event>, c: Rooms.Conn, i: nat)
    requires i <= |es|
  {
    exists j: nat :: ListedSince(h, es, c, j, i)
  }

  /** How one event moves a connection. */
  lemma PhaseStep(h: Host, s: Sys, e: Event, i: nat, id: nat)
    requires s.hostConns <= s.conns.Keys
    ensures
      var s', p := Step(h, s, e, i), PhaseOf(s, id);
      && (id in s'.conns <==> id in s.conns || DialOf(e, id))
      && (id in s'.hostConns <==> id in s.hostConns || (DialOf(e, id) && id !in s.conns && e.byHost))
      && PhaseOf(s', id) ==
           if DialOf(e, id) && id !in s.conns then Fresh
           else if p.Fresh? && Accepts(h, id in s.hostConns, e, id) then Ready(Rooms.Conn(id, e.user, e.device))
           else if p.Ready? && e == Join(id) then Live(p.c)
           else if e == Exit(id) then Closed
           else p
  {
    hide Rooms.Registered, Rooms.Unregistered, Rooms.Forwarded;
  }

  lemma HostConnsExist(h: Host, es: seq<Event>, i: nat)
    requires i <= |es|
    ensures StateAt(h, es, i).hostConns <= StateAt(h, es, i).conns.Keys
    ensures ConnsOk(h, StateAt(h, es, i)) && RegistryOk(StateAt(h, es, i))
  {
    AlwaysInv(h, es, i);
  }

  lemma AtStart(h: Host, es: seq<Event>, c: Rooms.Conn)
    ensures StateAt(h, es, 0) == START && PhaseOf(START, c.id) == Closed
    ensures Rooms.Lookup(START.registry, c.user, c.device) == None
    ensures !Greeted(h, es, c, 0) && !Lives(h, es, c, 0) && !Listed(h, es, c, 0)
  {
  }

  /** Which ids are known, and whose they are. */
  lemma {:induction false} DialIff(h: Host, es: seq<Event>, id: nat, i: nat)
    requires i <= |es|
    ensures id in StateAt(h, es, i).conns <==> Dialed(es, id, i)
    ensures forall d: nat | DialedBy(es, id, d, i) :: id in StateAt(h, es, i).hostConns <==> es[d].byHost
  {
    if i > 0 {
      DialIff(h, es, id, i - 1);
      HostConnsExist(h, es, i - 1);
      OneMore(h, es, i - 1);
      PhaseStep(h, StateAt(h, es, i - 1), es[i - 1], i - 1, id);
      hide StateAt, Step, ConnsOk, RegistryOk;
    }
  }

  /** One more event, and the state and history it starts from. */
  lemma Before(h: Host, es: seq<Event>, id: nat, i: nat)
    requires i < |es|
    ensures
      var s, s', p, e := StateAt(h, es, i), StateAt(h, es, i + 1), PhaseOf(StateAt(h, es, i), id), es[i];
      && (id in s.conns <==> Dialed(es, id, i))
      && (forall d: nat | DialedBy(es, id, d, i) :: id in s.hostConns <==> es[d].byHost)
      && PhaseOf(s', id) ==
           if DialOf(e, id) && id !in s.conns then Fresh
           else if p.Fresh? && Accepts(h, id in s.hostConns, e, id) then Ready(Rooms.Conn(id, e.user, e.device))
           else if p.Ready? && e == Join(id) then Live(p.c)
           else if e == Exit(id) then Closed
           else p
  {
    HostConnsExist(h, es, i);
    DialIff(h, es, id, i);
    OneMore(h, es, i);
    PhaseStep(h, StateAt(h, es, i), es[i], i, id);
    hide StateAt, Step, ConnsOk, RegistryOk;
  }

  ghost predicate Awaits(h: Host, es: seq<Event>, id: nat, i: nat)
    requires i <= |es|
  {
    exists d: nat :: Waiting(h, es, id, d, i)
  }

  lemma {:induction false} WaitingIff(h: Host, es: seq<Event>, id: nat, i: nat)
    requires i <= |es|
    ensures PhaseOf(StateAt(h, es, i), id).Fresh? <==> Awaits(h, es, id, i)
  {
    if i > 0 {
      WaitingIff(h, es, id, i - 1);
      Before(h, es, id, i - 1);
      hide StateAt, Dialed;
      forall d: nat
        ensures Waiting(h, es, id, d, i) <==>
                if d == i - 1 then DialOf(es[d], id) && !Dialed(es, id, d)
                else Waiting(h, es, id, d, i - 1) && !Accepts(h, es[d].byHost, es[i - 1], id) && es[i - 1] != Exit(id)
      {
      }
      if Awaits(h, es, id, i - 1) {
        var d: nat :| Waiting(h, es, id, d, i - 1);
        assert Waiting(h, es, id, d, i) || Accepts(h, es[d].byHost, es[i - 1], id) || es[i - 1] == Exit(id);
      }
      if DialOf(es[i - 1], id) && !Dialed(es, id, i - 1) {
        assert Waiting(h, es, id, i - 1, i);
      }
    }
  }

  ghost predicate Greeted(h: Host, es: seq<Event>, c: Rooms.Conn, i: nat)
    requires i <= |es|
  {
    exists a: nat :: GreetedBy(h, es, c, a, i)
  }

  lemma GreetsIff(h: Host, es: seq<Event>, c: Rooms.Conn, a: nat)
    requires a < |es|
    ensures Greets(h, es, c, a) <==>
      && es[a].Handshake? && es[a].user == c.user && es[a].device == c.device
      && PhaseOf(StateAt(h, es, a), c.id).Fresh?
      && Accepts(h, c.id in StateAt(h, es, a).hostConns, es[a], c.id)
  {
    WaitingIff(h, es, c.id, a);
    Before(h, es, c.id, a);
    hide StateAt, Dialed;
    if Awaits(h, es, c.id, a) {
      var d: nat :| Waiting(h, es, c.id, d, a);
    }
  }

  lemma GreetedGrows(h: Host, es: seq<Event>, c: Rooms.Conn, i: nat)
    requires i < |es|
    ensures Greeted(h, es, c, i + 1) <==>
            Greets(h, es, c, i) || (Greeted(h, es, c, i) && es[i] != Join(c.id) && es[i] != Exit(c.id))
  {
    hide Greets;
    forall a: nat
      ensures GreetedBy(h, es, c, a, i + 1) <==>
              if a == i then Greets(h, es, c, a)
              else GreetedBy(h, es, c, a, i) && es[i] != Join(c.id) && es[i] != Exit(c.id)
    {
    }
    if Greets(h, es, c, i) {
      assert GreetedBy(h, es, c, i, i + 1);
    }
    if a: nat :| GreetedBy(h, es, c, a, i) {
      assert GreetedBy(h, es, c, a, i + 1) || es[i] == Join(c.id) || es[i] == Exit(c.id);
    }
  }

  lemma {:induction false} GreetedIff(h: Host, es: seq<Event>, c: Rooms.Conn, i: nat)
    requires i <= |es|
    ensures PhaseOf(StateAt(h, es, i), c.id) == Ready(c) <==> Greeted(h, es, c, i)
  {
    hide StateAt, Dialed, Greets, Greeted;
    if i == 0 {
      AtStart(h, es, c);
    } else {
      GreetedIff(h, es, c, i - 1);
      GreetsIff(h, es, c, i - 1);
      Before(h, es, c.id, i - 1);
      GreetedGrows(h, es, c, i - 1);
    }
  }

  lemma JoinsIff(h: Host, es: seq<Event>, c: Rooms.Conn, j: nat)
    requires j < |es|
    ensures Joins(h, es, c, j) <==> es[j] == Join(c.id) && PhaseOf(StateAt(h, es, j), c.id) == Ready(c)
  {
    GreetedIff(h, es, c, j);
    hide StateAt, GreetedBy;
  }

  lemma LivesGrows(h: Host, es: seq<Event>, c: Rooms.Conn, i: nat)
    requires i < |es|
    ensures Lives(h, es, c, i + 1) <==> Joins(h, es, c, i) || (Lives(h, es, c, i) && es[i] != Exit(c.id))
  {
    hide Joins;
    forall j: nat
      ensures LivesSince(h, es, c, j, i + 1) <==>
              if j == i then Joins(h, es, c, j) else LivesSince(h, es, c, j, i) && es[i] != Exit(c.id)
    {
    }
    if Joins(h, es, c, i) {
      assert LivesSince(h, es, c, i, i + 1);
    }
    if j: nat :| LivesSince(h, es, c, j, i) {
      assert LivesSince(h, es, c, j, i + 1) || es[i] == Exit(c.id);
    }
  }

  lemma {:induction false} LivesIff(h: Host, es: seq<Event>, c: Rooms.Conn, i: nat)
    requires i <= |es|
    ensures PhaseOf(StateAt(h, es, i), c.id) == Live(c) <==> Lives(h, es, c, i)
  {
    hide StateAt, Dialed, Joins, Lives;
    if i == 0 {
      AtStart(h, es, c);
    } else {
      LivesIff(h, es, c, i - 1);
      JoinsIff(h, es, c, i - 1);
      Before(h, es, c.id, i - 1);
      LivesGrows(h, es, c, i - 1);
    }
  }

  // ---------------------------------------------------------------- the room

  /** How one event moves the connection listed for the user and device of `c`. */
  lemma ListingStep(h: Host, es: seq<Event>, c: Rooms.Conn, i: nat)
    requires i < |es|
    ensures
      var l, l' := Rooms.Lookup(StateAt(h, es, i).registry, c.user, c.device),
                   Rooms.Lookup(StateAt(h, es, i + 1).registry, c.user, c.device);
      l' == Some(c) <==> Joins(h, es, c, i) || (l == Some(c) && es[i] != Exit(c.id) && !Supplants(h, es, c, i))
  {
    var s, e := StateAt(h, es, i), es[i];
    HostConnsExist(h, es, i);
    OneMore(h, es, i);
    forall x: Rooms.Conn
      ensures Joins(h, es, x, i) <==> e == Join(x.id) && PhaseOf(s, x.id) == Ready(x)
    {
      JoinsIff(h, es, x, i);
    }
    hide StateAt, Joins, Rooms.Lookup;
    if e.Join? && PhaseOf(s, e.id).Ready? {
      var x := PhaseOf(s, e.id).c;
      assert x.id == e.id;
      Rooms.StepLookup(s.registry, Rooms.Register(x), c.user, c.device);
      assert Joins(h, es, x, i);
    } else if e.Exit? && e.id in s.conns && s.conns[e.id].Live? {
      Rooms.StepLookup(s.registry, Rooms.Unregister(s.conns[e.id].c), c.user, c.device);
    } else {
      assert Step(h, s, e, i).registry == s.registry;
    }
  }

  lemma ListedGrows(h: Host, es: seq<Event>, c: Rooms.Conn, i: nat)
    requires i < |es|
    ensures Listed(h, es, c, i + 1) <==>
            Joins(h, es, c, i) || (Listed(h, es, c, i) && es[i] != Exit(c.id) && !Supplants(h, es, c, i))
  {
    hide Joins, Supplants;
    forall j: nat
      ensures ListedSince(h, es, c, j, i + 1) <==>
              if j == i then Joins(h, es, c, j)
              else ListedSince(h, es, c, j, i) && es[i] != Exit(c.id) && !Supplants(h, es, c, i)
    {
    }
    if Joins(h, es, c, i) {
      assert ListedSince(h, es, c, i, i + 1);
    }
    if j: nat :| ListedSince(h, es, c, j, i) {
      assert ListedSince(h, es, c, j, i + 1) || es[i] == Exit(c.id) || Supplants(h, es, c, i);
    }
  }

  /** In every run a connection is in the room exactly if it is the latest to have joined and has not left. */
  lemma {:induction false} ListedIff(h: Host, es: seq<Event>, c: Rooms.Conn, i: nat)
    requires i <= |es|
    ensures Rooms.Lookup(StateAt(h, es, i).registry, c.user, c.device) == Some(c) <==> Listed(h, es, c, i)
  {
    hide StateAt, Joins, Supplants, Listed, Rooms.Lookup;
    if i == 0 {
      AtStart(h, es, c);
    } else {
      ListedIff(h, es, c, i - 1);
      ListingStep(h, es, c, i - 1);
      ListedGrows(h, es, c, i - 1);
    }
  }

  // ------------------------------------------------------------ a Connect's way

  /**
   Event `i` sends a Connect that the server forwards: from a live connection of `user`
   and device `from`, to the connection `to` listed for the user's device `target`.
   */
  ghost predicate Sent(h: Host, es: seq<Event>, i: nat, user: string, from: string, target: string, to: nat) {
    && i < |es| && es[i].Send? && es[i].delivered && es[i].target == target && from != target
    && Lives(h, es, Rooms.Conn(es[i].id, user, from), i) && Listed(h, es, Rooms.Conn(to, user, target), i)
  }

  predicate RecvOf(e: Event, tag: nat) {
    e.Recv? && e.tag == tag
  }

  lemma SendStep(h: Host, es: seq<Event>, i: nat, user: string, from: string, target: string, to: nat)
    requires Sent(h, es, i, user, from, target, to)
    ensures i in StateAt(h, es, i + 1).wire && StateAt(h, es, i + 1).wire[i] == Message(to, from)
  {
    LivesIff(h, es, Rooms.Conn(es[i].id, user, from), i);
    ListedIff(h, es, Rooms.Conn(to, user, target), i);
    OneMore(h, es, i);
    hide StateAt, Lives, Listed;
  }

  lemma WireStays(h: Host, s: Sys, e: Event, k: nat, tag: nat)
    requires tag < k
    ensures
      var s' := Step(h, s, e, k);
      if tag !in s.wire || (RecvOf(e, tag) && s.wire[tag].to in s.hostConns) then tag !in s'.wire
      else tag in s'.wire && s'.wire[tag] == s.wire[tag]
  {
    hide Rooms.Registered, Rooms.Unregistered, Rooms.Forwarded;
  }

  /**
   Nothing the server has agreed to forward gets lost: from the event that sent it up to
   the first receipt of it, the Connect is under way to that connection, stamped with
   the sender's device.
   */
  lemma {:induction false} SentIsUnderWay(h: Host, es: seq<Event>, i: nat, user: string, from: string,
                                          target: string, to: nat, k: nat)
    requires Sent(h, es, i, user, from, target, to) && i < k <= |es|
    requires forall r | i < r < k :: !RecvOf(es[r], i)
    ensures i in StateAt(h, es, k).wire && StateAt(h, es, k).wire[i] == Message(to, from)
  {
    hide StateAt, Step, Sent;
    if k == i + 1 {
      SendStep(h, es, i, user, from, target, to);
    } else {
      SentIsUnderWay(h, es, i, user, from, target, to, k - 1);
      OneMore(h, es, k - 1);
      WireStays(h, StateAt(h, es, k - 1), es[k - 1], k - 1, i);
    }
  }

  /** The connection was dialed by the host itself. */
  ghost predicate HostOwned(es: seq<Event>, id: nat, i: nat)
    requires i <= |es|
  {
    exists d: nat :: DialedBy(es, id, d, i) && es[d].byHost
  }

  lemma HostOwnedIff(h: Host, es: seq<Event>, id: nat, i: nat)
    requires i <= |es|
    ensures id in StateAt(h, es, i).hostConns <==> HostOwned(es, id, i)
  {
    DialIff(h, es, id, i);
    HostConnsExist(h, es, i);
    hide StateAt, ConnsOk, RegistryOk;
    if id in StateAt(h, es, i).hostConns {
      var d := FirstDial(es, id, i);
    }
  }

  lemma {:induction false} FirstDial(es: seq<Event>, id: nat, i: nat) returns (d: nat)
    requires i <= |es| && Dialed(es, id, i)
    ensures DialedBy(es, id, d, i)
  {
    if Dialed(es, id, i - 1) {
      d := FirstDial(es, id, i - 1);
    } else {
      d := i - 1;
    }
  }

  /** Event `r` is where the host gets, for the first time, the Connect that event `i` sent from device `from`. */
  ghost predicate Arrives(h: Host, es: seq<Event>, i: nat, r: nat, from: string) {
    && i < r < |es| && RecvOf(es[r], i) && (forall k | i < k < r :: !RecvOf(es[k], i))
    && exists to: nat :: Sent(h, es, i, h.user, from, h.device, to) && HostOwned(es, to, i)
  }

  lemma SentByIff(h: Host, es: seq<Event>, i: nat, from: string, to: nat)
    requires i < |es|
    ensures SentBy(h, es, i, h.user, from, h.device, to) <==>
            Sent(h, es, i, h.user, from, h.device, to) && HostOwned(es, to, i)
  {
    if es[i].Send? {
      LivesIff(h, es, Rooms.Conn(es[i].id, h.user, from), i);
      ListedIff(h, es, Rooms.Conn(to, h.user, h.device), i);
      HostOwnedIff(h, es, to, i);
    }
    hide StateAt, Lives, Listed, HostOwned;
  }

  lemma {:induction false} OffWireStays(h: Host, es: seq<Event>, tag: nat, j: nat, i: nat)
    requires tag < j <= i <= |es| && tag !in StateAt(h, es, j).wire
    ensures tag !in StateAt(h, es, i).wire
  {
    if j < i {
      OffWireStays(h, es, tag, j, i - 1);
      OneMore(h, es, i - 1);
      WireStays(h, StateAt(h, es, i - 1), es[i - 1], i - 1, tag);
      hide StateAt, Step;
    }
  }

  lemma HostStaysOwner(es: seq<Event>, id: nat, i: nat, k: nat)
    requires i <= k <= |es| && HostOwned(es, id, i)
    ensures HostOwned(es, id, k)
  {
    var d: nat :| DialedBy(es, id, d, i) && es[d].byHost;
    assert DialedBy(es, id, d, k);
  }

  /** A Connect still under way has not been received. */
  lemma {:induction false} NotReceivedYet(h: Host, es: seq<Event>, i: nat, from: string, to: nat, k: nat, r: nat)
    requires Sent(h, es, i, h.user, from, h.device, to) && HostOwned(es, to, i)
    requires i < k <= r <= |es| && i in StateAt(h, es, r).wire
    ensures forall q | i < q < k :: !RecvOf(es[q], i)
  {
    hide StateAt, Step, Sent, HostOwned;
    if i + 1 < k {
      NotReceivedYet(h, es, i, from, to, k - 1, r);
      SentIsUnderWay(h, es, i, h.user, from, h.device, to, k - 1);
      HostStaysOwner(es, to, i, k - 1);
      HostOwnedIff(h, es, to, k - 1);
      OneMore(h, es, k - 1);
      WireStays(h, StateAt(h, es, k - 1), es[k - 1], k - 1, i);
      if RecvOf(es[k - 1], i) {
        OffWireStays(h, es, i, k, r);
      }
    }
  }

  /** What the host receives is what arrives, seen from the events. */
  lemma ReceivesIff(h: Host, es: seq<Event>, r: nat, tag: nat, device: string)
    requires r < |es|
    ensures Receives(h, es, r, tag, device) <==> device != "" && Arrives(h, es, tag, r, device)
  {
    if Receives(h, es, r, tag, device) {
      AlwaysInv(h, es, r);
      var to := StateAt(h, es, r).wire[tag].to;
      hide StateAt, SentBy, Sent, HostOwned, PendingOk, ConnsOk, RegistryOk;
      SentByIff(h, es, tag, device, to);
      NotReceivedYet(h, es, tag, device, to, r, r);
    }
    if device != "" && Arrives(h, es, tag, r, device) {
      hide StateAt, Sent, HostOwned;
      var to: nat :| Sent(h, es, tag, h.user, device, h.device, to) && HostOwned(es, to, tag);
      SentIsUnderWay(h, es, tag, h.user, device, h.device, to, r);
      HostStaysOwner(es, to, tag, r);
      HostOwnedIff(h, es, to, r);
    }
  }

  // -------------------------------------------------------------- who gets in

  /**
   The Connect that `peer` sent in event `i` reached the host in event `r`, and up to
   event `a` no later one from `peer` did and `peer` was not checked.
   */
  ghost predicate Invited(h: Host, es: seq<Event>, peer: string, i: nat, r: nat, a: nat)
    requires a <= |es|
  {
    && r < a && peer != "" && Arrives(h, es, i, r, peer)
    && forall k | r < k < a :: !AcceptOf(es[k], peer) && !(es[k].Recv? && Arrives(h, es, es[k].tag, k, peer))
  }

  lemma InvitedIff(h: Host, es: seq<Event>, peer: string, r: nat, a: nat)
    requires a <= |es|
    ensures Stands(h, es, peer, r, a) <==> r < a && es[r].Recv? && Invited(h, es, peer, es[r].tag, r, a)
  {
    forall k: nat | k < a && es[k].Recv?
      ensures Receives(h, es, k, es[k].tag, peer) <==> peer != "" && Arrives(h, es, es[k].tag, k, peer)
    {
      ReceivesIff(h, es, k, es[k].tag, peer);
    }
    hide Receives, Arrives;
  }

  /**
   Exactly who gets in, on the events alone.  A peer passes serveConn's check if and only
   if a live connection of the host's own user and of the peer's device sent a Connect
   while a connection that the host had dialed was the one listed for the host's device,
   the host received it at most `ttl` before the check, and nothing from that peer was
   received or checked in between.  That Connect's grant is the one used.
   */
  lemma AdmittedIff(h: Host, es: seq<Event>, a: nat)
    requires Ordered(es) && a < |es| && es[a].Accept?
    ensures
      var g := Admits(StateAt(h, es, a), es[a].peer, es[a].now);
      && (g.Some? <==> exists i: nat, r: nat ::
            Invited(h, es, es[a].peer, i, r, a) && es[a].now <= es[r].now + h.ttl)
      && (forall i: nat, r: nat | g.Some? && Invited(h, es, es[a].peer, i, r, a) :: g.value.tag == i)
  {
    var peer := es[a].peer;
    AdmittedByReceipt(h, es, a);
    forall r: nat
      ensures Stands(h, es, peer, r, a) <==> r < a && es[r].Recv? && Invited(h, es, peer, es[r].tag, r, a)
    {
      InvitedIff(h, es, peer, r, a);
    }
    forall i: nat, r: nat | Invited(h, es, peer, i, r, a)
      ensures r < a && es[r].Recv? && es[r].tag == i
    {
    }
    hide StateAt, Stands, Invited, Ordered;
  }
}
