/**
 One-shot, time-limited dial grants: windows/peerauth/peerauth.go.  Times are
 integers in one unit, nondecreasing along a run.
 */
module PeerAuth {
  type Pending = map<string, int>  // device id to expiry

  function Allowed(p: Pending, ttl: int, device: string, now: int): Pending {
    if device == "" then p else p[device := now + ttl]
  }

  function Checked(p: Pending, device: string, now: int): (Pending, bool) {
    if device == "" || device !in p then (p, false) else (p - {device}, now <= p[device])
  }

  function Swept(p: Pending, now: int): Pending {
    map d | d in p && !(now > p[d]) :: p[d]
  }

  class Authz {
    const ttl: int
    var pending: Pending

    constructor (ttl: int)
      ensures this.ttl == ttl && pending == map[]
    {
      this.ttl, this.pending := ttl, map[];
    }

    method Allow(device: string, now: int)
      modifies this
      ensures pending == Allowed(old(pending), ttl, device, now)
    {
      if device == "" {
        return;
      }
      pending := pending[device := now + ttl];
    }

    method Check(device: string, now: int) returns (ok: bool)
      modifies this
      ensures (pending, ok) == Checked(old(pending), device, now)
    {
      if device == "" {
        return false;
      }
      if device !in pending {
        return false;
      }
      if now > pending[device] {
        pending := pending - {device};
        return false;
      }
      pending := pending - {device};
      return true;
    }

    method Sweep(now: int)
      modifies this
      ensures pending == Swept(old(pending), now)
    {
      ghost var was := pending;
      var todo := pending.Keys;
      while todo != {}
        invariant todo <= was.Keys
        invariant pending == map d | d in was && (d in todo || !(now > was[d])) :: was[d]
        decreases todo
      {
        var d :| d in todo;
        todo := todo - {d};
        if now > pending[d] {
          pending := pending - {d};
        }
      }
    }
  }

  // --------------------------------------------------- sweeping does not show

  datatype Event = Allow(device: string, now: int) | Check(device: string, now: int) | Sweep(now: int)

  function Step(p: Pending, ttl: int, e: Event): Pending {
    match e
    case Allow(d, now) => Allowed(p, ttl, d, now)
    case Check(d, now) => Checked(p, d, now).0
    case Sweep(now) => Swept(p, now)
  }

  function StateAt(ttl: int, es: seq<Event>, i: nat): Pending
    requires i <= |es|
  {
    if i == 0 then map[] else Step(StateAt(ttl, es, i - 1), ttl, es[i - 1])
  }

  /** The same run with every Sweep left out. */
  function UnsweptAt(ttl: int, es: seq<Event>, i: nat): Pending
    requires i <= |es|
  {
    if i == 0 then map[]
    else if es[i - 1].Sweep? then UnsweptAt(ttl, es, i - 1)
    else Step(UnsweptAt(ttl, es, i - 1), ttl, es[i - 1])
  }

  /** The grant that event `j` made is still open before event `i`: not renewed, used or swept away as expired. */
  ghost predicate Open(ttl: int, es: seq<Event>, device: string, j: nat, i: nat)
    requires i <= |es|
  {
    && j < i && es[j].Allow? && es[j].device == device && device != ""
    && forall k | j < k < i ::
         if es[k].Sweep? then es[k].now <= es[j].now + ttl else es[k].device != device
  }

  /** In every run exactly the open grants are kept, each with its own expiry. */
  lemma {:induction false} KeptIffOpen(ttl: int, es: seq<Event>, device: string, i: nat)
    requires i <= |es|
    ensures device in StateAt(ttl, es, i) <==> exists j: nat :: Open(ttl, es, device, j, i)
    ensures forall j: nat | Open(ttl, es, device, j, i) ::
      device in StateAt(ttl, es, i) && StateAt(ttl, es, i)[device] == es[j].now + ttl
  {
    if i > 0 {
      KeptIffOpen(ttl, es, device, i - 1);
      forall j: nat
        ensures Open(ttl, es, device, j, i) <==>
          var e := es[i - 1];
          if j == i - 1 then e.Allow? && e.device == device && device != ""
          else Open(ttl, es, device, j, i - 1) && if e.Sweep? then e.now <= es[j].now + ttl else e.device != device
      {
      }
      if device in StateAt(ttl, es, i) {
        if es[i - 1].Allow? && es[i - 1].device == device {
          assert Open(ttl, es, device, i - 1, i);
        } else {
          var j: nat :| Open(ttl, es, device, j, i - 1);
          assert Open(ttl, es, device, j, i);
        }
      }
    }
  }

  /** A Check succeeds exactly when an open grant of its device has not expired. */
  lemma ChecksIffOpen(ttl: int, es: seq<Event>, i: nat)
    requires i < |es| && es[i].Check?
    ensures Checked(StateAt(ttl, es, i), es[i].device, es[i].now).1
            <==> exists j: nat :: Open(ttl, es, es[i].device, j, i) && es[i].now <= es[j].now + ttl
  {
    KeptIffOpen(ttl, es, es[i].device, i);
  }

  ghost predicate Monotone(es: seq<Event>) {
    forall i, j | 0 <= i <= j < |es| :: es[i].now <= es[j].now
  }

  /** `p` is `q` without some entries that have expired by time `t`. */
  ghost predicate UpToExpired(p: Pending, q: Pending, t: int) {
    && (forall d | d in p :: d in q && q[d] == p[d])
    && (forall d | d in q && d !in p :: q[d] < t)
  }

  lemma {:induction false} SweptRunLags(ttl: int, es: seq<Event>, i: nat, t: int)
    requires Monotone(es) && i <= |es| && (i > 0 ==> es[i - 1].now <= t)
    ensures UpToExpired(StateAt(ttl, es, i), UnsweptAt(ttl, es, i), t)
  {
    if i > 0 {
      SweptRunLags(ttl, es, i - 1, es[i - 1].now);
    }
  }

  /** Inserting or deleting sweeps anywhere changes no Check result. */
  lemma SweepTransparent(ttl: int, es: seq<Event>, i: nat)
    requires Monotone(es) && i < |es| && es[i].Check?
    ensures Checked(StateAt(ttl, es, i), es[i].device, es[i].now).1
         == Checked(UnsweptAt(ttl, es, i), es[i].device, es[i].now).1
  {
    SweptRunLags(ttl, es, i, es[i].now);
  }
}
