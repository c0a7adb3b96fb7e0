/**
 The room registry of server/room/registry.go: live signaling connections by user
 and device, and the forwarding of Connect frames between devices of one user.
 */
module Rooms {
  import opened Bytes

  /** A connection after its handshake; `id` is its identity, as a Go pointer would be. */
  datatype Conn = Conn(id: nat, user: string, device: string)

  type Devices = map<string, map<string, Conn>>

  datatype Connect = Connect(target: string, from: string, candidates: seq<string>)

  datatype Forwarding = SenderEqualsTarget | TargetUnknown | CrossUserForbidden | Deliver(to: Conn, msg: Connect)

  function Lookup(r: Devices, user: string, device: string): Option<Conn> {
    if user in r && device in r[user] then Some(r[user][device]) else None
  }

  function DevicesOf(r: Devices, user: string): set<string> {
    if user in r then r[user].Keys else {}
  }

  function Registered(r: Devices, c: Conn): Devices {
    r[c.user := (if c.user in r then r[c.user] else map[])[c.device := c]]
  }

  function Unregistered(r: Devices, c: Conn): Devices {
    if Lookup(r, c.user, c.device) != Some(c) then r
    else if r[c.user] - {c.device} == map[] then r - {c.user}
    else r[c.user := r[c.user] - {c.device}]
  }

  function Forwarded(r: Devices, from: Conn, msg: Connect): Forwarding {
    if from.device == msg.target then SenderEqualsTarget
    else match Lookup(r, from.user, msg.target)
      case None => TargetUnknown
      case Some(to) =>
        if to.user != from.user then CrossUserForbidden
        else Deliver(to, Connect(msg.target, from.device, msg.candidates))
  }

  /** Every connection is stored under its own user and device, and no inner map is empty. */
  ghost predicate Sound(r: Devices) {
    forall u | u in r :: r[u] != map[] && forall d | d in r[u] :: r[u][d].user == u && r[u][d].device == d
  }

  class Registry {
    var devices: Devices

    constructor ()
      ensures devices == map[]
    {
      devices := map[];
    }

    method Register(c: Conn) returns (replaced: Option<Conn>)
      modifies this
      ensures devices == Registered(old(devices), c)
      ensures replaced == Lookup(old(devices), c.user, c.device)
      ensures old(Sound(devices)) ==> Sound(devices)
    {
      var inner := map[];
      if c.user in devices {
        inner := devices[c.user];
      }
      replaced := None;
      if c.device in inner {
        replaced := Some(inner[c.device]);
      }
      inner := inner[c.device := c];
      assert c.device in inner;
      devices := devices[c.user := inner];
    }

    method Unregister(c: Conn)
      modifies this
      ensures devices == Unregistered(old(devices), c)
      ensures old(Sound(devices)) ==> Sound(devices)
    {
      if c.user !in devices {
        return;
      }
      var inner := devices[c.user];
      if c.device in inner && inner[c.device] == c {
        inner := inner - {c.device};
        if |inner| == 0 {
          devices := devices - {c.user};
        } else {
          devices := devices[c.user := inner];
        }
      }
    }

    /** Forward never meets a connection of another user and always stamps the sender. */
    method Forward(from: Conn, msg: Connect) returns (r: Forwarding)
      requires Sound(devices)
      ensures r == Forwarded(devices, from, msg) && r != CrossUserForbidden
      ensures r.Deliver? <==> from.device != msg.target && Lookup(devices, from.user, msg.target).Some?
      ensures r.Deliver? ==>
        && r.to.user == from.user && r.to.device == msg.target
        && r.msg.from == from.device && r.msg.target == msg.target && r.msg.candidates == msg.candidates
    {
      if from.device == msg.target {
        return SenderEqualsTarget;
      }
      if from.user !in devices {
        return TargetUnknown;
      }
      if msg.target !in devices[from.user] {
        return TargetUnknown;
      }
      var target := devices[from.user][msg.target];
      if target.user != from.user {
        assert false;  // the source's own remark: the lookup is scoped to the sender's user
      }
      return Deliver(target, Connect(msg.target, from.device, msg.candidates));
    }

    method CountByUser(user: string) returns (n: nat)
      requires Sound(devices)
      ensures n == |DevicesOf(devices, user)|
      ensures forall d :: d in DevicesOf(devices, user) <==> Lookup(devices, user, d).Some?
      ensures n == 0 <==> user !in devices
    {
      if user !in devices {
        return 0;
      }
      n := |devices[user]|;
    }
  }

  // ------------------------------------------------------------ whole runs

  /** What connection goroutines do to the registry, in lock order. */
  datatype Event = Register(c: Conn) | Unregister(c: Conn)

  function Step(r: Devices, e: Event): Devices {
    match e
    case Register(c) => Registered(r, c)
    case Unregister(c) => Unregistered(r, c)
  }

  function StateAt(es: seq<Event>, i: nat): Devices
    requires i <= |es|
  {
    if i == 0 then map[] else Step(StateAt(es, i - 1), es[i - 1])
  }

  /** The connection of the last Register for (user, device), if it has not unregistered since. */
  function Latest(es: seq<Event>, user: string, device: string, i: nat): Option<Conn>
    requires i <= |es|
  {
    if i == 0 then None
    else
      var e := es[i - 1];
      if e.c.user != user || e.c.device != device then Latest(es, user, device, i - 1)
      else if e.Register? then Some(e.c)
      else if Latest(es, user, device, i - 1) == Some(e.c) then None
      else Latest(es, user, device, i - 1)
  }

  lemma StepLookup(r: Devices, e: Event, u: string, d: string)
    ensures Lookup(Step(r, e), u, d) ==
      if e.c.user != u || e.c.device != d then Lookup(r, u, d)
      else if e.Register? then Some(e.c)
      else if Lookup(r, u, d) == Some(e.c) then None
      else Lookup(r, u, d)
  {
    if u in r && d in r[u] && d != e.c.device {
      assert d in r[u] - {e.c.device};
    }
  }

  lemma StepSound(r: Devices, e: Event)
    requires Sound(r)
    ensures Sound(Step(r, e))
  {
    if e.Register? {
      assert e.c.device in Registered(r, e.c)[e.c.user];
    }
  }

  /**
   In every interleaving of connection lifecycles the registry holds, under each
   user and device, exactly the latest registration that has not unregistered; so a
   replaced connection's exit never removes its successor.
   */
  lemma {:induction false} RegistryIsLatest(es: seq<Event>, i: nat, user: string, device: string)
    requires i <= |es|
    ensures Sound(StateAt(es, i))
    ensures Lookup(StateAt(es, i), user, device) == Latest(es, user, device, i)
  {
    if i > 0 {
      RegistryIsLatest(es, i - 1, user, device);
      StepSound(StateAt(es, i - 1), es[i - 1]);
      StepLookup(StateAt(es, i - 1), es[i - 1], user, device);
    }
  }

  /** What `Latest` means, read forwards: registered at j, and from then on neither replaced nor unregistered. */
  ghost predicate LiveSince(es: seq<Event>, c: Conn, j: nat, i: nat) {
    && j < i <= |es| && es[j] == Register(c)
    && forall k | j < k < i ::
         es[k] != Unregister(c) && !(es[k].Register? && es[k].c.user == c.user && es[k].c.device == c.device)
  }

  lemma {:induction false} LatestMeaning(es: seq<Event>, user: string, device: string, i: nat, c: Conn)
    requires i <= |es|
    ensures Latest(es, user, device, i) == Some(c)
      <==> c.user == user && c.device == device && exists j: nat :: LiveSince(es, c, j, i)
  {
    if i > 0 {
      LatestMeaning(es, user, device, i - 1, c);
      var e := es[i - 1];
      if Latest(es, user, device, i) == Some(c) {
        if e == Register(c) {
          assert LiveSince(es, c, i - 1, i);
        } else {
          var j: nat :| LiveSince(es, c, j, i - 1);
          assert LiveSince(es, c, j, i);
        }
      }
      if c.user == user && c.device == device && exists j: nat :: LiveSince(es, c, j, i) {
        var j: nat :| LiveSince(es, c, j, i);
        if j < i - 1 {
          assert LiveSince(es, c, j, i - 1);
        }
      }
    }
  }
}
