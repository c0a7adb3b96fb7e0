/**
 The state that windows/ptyhost/manager.go keeps under `Manager.mu`: the entries,
 which of them the map still lists, and the closed flag.

 Each function is one critical section on values; `PtyManager` is the object with
 those fields, and its methods are proved to perform exactly these updates.  An
 entry outlives its removal from the map, because callers in the middle of Attach
 or Detach still hold it; `entries` therefore keeps every entry ever made, by its
 handle, and `listed` says which handles the map contains.
 */
module PtyTable {
  import opened Bytes

  type Handle = string
  type Owner = string
  type Time = int  // nanoseconds

  datatype Entry = Entry(owner: Owner, command: string, attachCount: nat, lastSeen: Time)

  datatype Table = Table(entries: map<Handle, Entry>, listed: set<Handle>, closed: bool, timeout: Time)

  datatype LookupResult = Found | UnknownHandle | ManagerClosed

  ghost predicate WellFormed(t: Table) {
    t.listed <= t.entries.Keys && (t.closed ==> t.listed == {})
  }

  predicate Owns(t: Table, owner: Owner, h: Handle) {
    h in t.listed && h in t.entries && t.entries[h].owner == owner
  }

  /** The first section of Attach. */
  function Lookup(t: Table, owner: Owner, h: Handle): LookupResult {
    if t.closed then ManagerClosed else if Owns(t, owner, h) then Found else UnknownHandle
  }

  /** The first section of Register, for a handle never used before. */
  function Inserted(t: Table, owner: Owner, h: Handle, command: string, now: Time): Table {
    if t.closed then t
    else t.(entries := t.entries[h := Entry(owner, command, 0, now)], listed := t.listed + {h})
  }

  /** The last section of Attach and Register. */
  function Counted(t: Table, h: Handle, now: Time): Table
    requires h in t.entries
  {
    var e := t.entries[h];
    t.(entries := t.entries[h := e.(attachCount := e.attachCount + 1, lastSeen := now)])
  }

  /** The last section of Detach. */
  function Uncounted(t: Table, h: Handle, now: Time): Table
    requires h in t.entries
  {
    var e := t.entries[h];
    var count := if e.attachCount > 0 then e.attachCount - 1 else 0;
    var seen := if count == 0 then now else e.lastSeen;
    t.(entries := t.entries[h := e.(attachCount := count, lastSeen := seen)])
  }

  function Dropped(t: Table, owner: Owner, h: Handle): Table {
    if Owns(t, owner, h) then t.(listed := t.listed - {h}) else t
  }

  predicate Expired(t: Table, h: Handle, now: Time) {
    && h in t.listed && h in t.entries
    && t.entries[h].attachCount == 0 && now - t.entries[h].lastSeen > t.timeout
  }

  function Swept(t: Table, now: Time): Table {
    t.(listed := set h | h in t.listed && !Expired(t, h, now))
  }

  function Closed(t: Table): Table {
    t.(closed := true, listed := {})
  }

  /** The removal Register's goroutine performs after Pump has returned. */
  function Ended(t: Table, h: Handle): Table {
    t.(listed := t.listed - {h})
  }

  // ----------------------------------------------------------------- List

  /** The working directory that each session reports. */
  type Cwds = Handle -> bytes

  datatype Listing = Listing(handle: Handle, command: string, attached: nat, cwd: bytes, lastSeenMs: int)

  /** The count is reported as a uint32. */
  function ListingOf(h: Handle, e: Entry, cwds: Cwds): Listing {
    Listing(h, e.command, e.attachCount % 0x1_0000_0000, cwds(h), e.lastSeen / 1_000_000)
  }

  /** What List must report for `owner`, in no particular order. */
  function Listings(t: Table, owner: Owner, cwds: Cwds): set<Listing> {
    set h | h in t.listed && Owns(t, owner, h) :: ListingOf(h, t.entries[h], cwds)
  }

  predicate MostRecentFirst(s: seq<Listing>) {
    forall i, j | 0 <= i < j < |s| :: s[i].lastSeenMs >= s[j].lastSeenMs
  }

  predicate NoDuplicates(s: seq<Listing>) {
    forall i, j | 0 <= i < j < |s| :: s[i].handle != s[j].handle
  }

  function Swapped(s: seq<Listing>, i: nat, j: nat): (r: seq<Listing>)
    requires i < j < |s|
    ensures |r| == |s|
  {
    s[i := s[j]][j := s[i]]
  }

  lemma SwapPermutes(s: seq<Listing>, i: nat, j: nat)
    requires i < j < |s|
    ensures multiset(Swapped(s, i, j)) == multiset(s)
  {
  }

  /** Nothing from position `i` on is more recent than anything before `i`. */
  ghost predicate SortedUpTo(s: seq<Listing>, i: nat) {
    forall a, b | 0 <= a < b < |s| && a < i :: s[a].lastSeenMs >= s[b].lastSeenMs
  }

  /** The exchange sort at the end of List. */
  method SortByRecency(listings: seq<Listing>) returns (out: seq<Listing>)
    ensures MostRecentFirst(out) && multiset(out) == multiset(listings)
  {
    out := listings;
    for i := 0 to |out|
      invariant |out| == |listings| && multiset(out) == multiset(listings)
      invariant SortedUpTo(out, i)
    {
      for j := i + 1 to |out|
        invariant |out| == |listings| && multiset(out) == multiset(listings)
        invariant SortedUpTo(out, i)
        invariant forall b | i < b < j :: out[i].lastSeenMs >= out[b].lastSeenMs
      {
        if out[j].lastSeenMs > out[i].lastSeenMs {
          SwapPermutes(out, i, j);
          out := Swapped(out, i, j);
        }
      }
    }
  }

  class PtyManager {
    var entries: map<Handle, Entry>
    var listed: set<Handle>
    var closed: bool
    const timeout: Time

    ghost function View(): Table
      reads this
    {
      Table(entries, listed, closed, timeout)
    }

    ghost predicate Valid()
      reads this
    {
      WellFormed(View())
    }

    constructor (timeout: Time)
      ensures Valid() && View() == Table(map[], {}, false, timeout)
    {
      this.entries, this.listed, this.closed, this.timeout := map[], {}, false, timeout;
    }

    method RegisterInsert(owner: Owner, h: Handle, command: string, now: Time) returns (ok: bool)
      requires Valid() && h !in entries
      modifies this
      ensures Valid() && View() == Inserted(old(View()), owner, h, command, now)
      ensures ok == !old(closed) && closed == old(closed)
      ensures entries == if ok then old(entries)[h := Entry(owner, command, 0, now)] else old(entries)
      ensures listed == if ok then old(listed) + {h} else old(listed)
    {
      if closed {
        return false;
      }
      entries := entries[h := Entry(owner, command, 0, now)];
      listed := listed + {h};
      return true;
    }

    method AttachLookup(owner: Owner, h: Handle) returns (r: LookupResult)
      requires Valid()
      ensures r == Lookup(View(), owner, h)
      ensures r == ManagerClosed <==> closed
      ensures r == Found <==> h in listed && entries[h].owner == owner
    {
      if closed {
        return ManagerClosed;
      }
      if h !in listed || entries[h].owner != owner {
        return UnknownHandle;
      }
      return Found;
    }

    method AttachCount(h: Handle, now: Time)
      requires Valid() && h in entries
      modifies this
      ensures Valid() && View() == Counted(old(View()), h, now)
      ensures entries.Keys == old(entries.Keys) && listed == old(listed) && closed == old(closed)
      ensures entries[h].attachCount == old(entries[h].attachCount) + 1 && entries[h].lastSeen == now
      ensures forall g | g in entries && g != h :: entries[g] == old(entries[g])
    {
      var e := entries[h];
      entries := entries[h := e.(attachCount := e.attachCount + 1, lastSeen := now)];
    }

    method DetachLookup(owner: Owner, h: Handle) returns (ok: bool)
      requires Valid()
      ensures ok == Owns(View(), owner, h)
      ensures ok <==> h in listed && entries[h].owner == owner
    {
      ok := h in listed && entries[h].owner == owner;
    }

    method DetachUncount(h: Handle, now: Time)
      requires Valid() && h in entries
      modifies this
      ensures Valid() && View() == Uncounted(old(View()), h, now)
      ensures entries.Keys == old(entries.Keys) && listed == old(listed) && closed == old(closed)
      ensures old(entries[h].attachCount) > 0 ==> entries[h].attachCount == old(entries[h].attachCount) - 1
      ensures entries[h].lastSeen == if entries[h].attachCount == 0 then now else old(entries[h].lastSeen)
      ensures forall g | g in entries && g != h :: entries[g] == old(entries[g])
    {
      var e := entries[h];
      if e.attachCount > 0 {
        e := e.(attachCount := e.attachCount - 1);
      }
      if e.attachCount == 0 {
        e := e.(lastSeen := now);
      }
      entries := entries[h := e];
    }

    method Drop(owner: Owner, h: Handle) returns (ok: bool)
      requires Valid()
      modifies this
      ensures Valid() && View() == Dropped(old(View()), owner, h)
      ensures ok <==> h in old(listed) && old(entries)[h].owner == owner
      ensures listed == if ok then old(listed) - {h} else old(listed)
      ensures entries == old(entries) && closed == old(closed)
    {
      ok := h in listed && entries[h].owner == owner;
      if ok {
        listed := listed - {h};
      }
    }

    method Sweep(now: Time) returns (expired: set<Handle>)
      requires Valid()
      modifies this
      ensures Valid() && View() == Swept(old(View()), now)
      ensures expired == set h | h in old(listed) && entries[h].attachCount == 0 && now - entries[h].lastSeen > timeout
      ensures listed == old(listed) - expired && entries == old(entries) && closed == old(closed)
    {
      ghost var t := View();
      expired := {};
      var todo := listed;
      while todo != {}
        invariant todo <= t.listed
        invariant View() == t.(listed := set h | h in t.listed && (h in todo || !Expired(t, h, now)))
        invariant expired == set h | h in t.listed && h !in todo && Expired(t, h, now)
        decreases todo
      {
        var h :| h in todo;
        todo := todo - {h};
        if entries[h].attachCount == 0 && now - entries[h].lastSeen > timeout {
          expired := expired + {h};
          listed := listed - {h};
        }
      }
    }

    method Close()
      requires Valid()
      modifies this
      ensures Valid() && View() == Closed(old(View()))
      ensures closed && listed == {} && entries == old(entries)
    {
      if closed {
        return;
      }
      closed := true;
      listed := {};
    }

    method PumpEnded(h: Handle)
      requires Valid()
      modifies this
      ensures Valid() && View() == Ended(old(View()), h)
      ensures listed == old(listed) - {h} && entries == old(entries) && closed == old(closed)
    {
      if h in listed {
        listed := listed - {h};
      }
    }

    method Get(owner: Owner, h: Handle) returns (ok: bool)
      requires Valid()
      ensures ok == Owns(View(), owner, h)
      ensures ok <==> h in listed && entries[h].owner == owner
    {
      ok := h in listed && entries[h].owner == owner;
    }

    method List(owner: Owner, cwds: Cwds) returns (out: seq<Listing>)
      requires Valid()
      ensures MostRecentFirst(out) && NoDuplicates(out)
      ensures (set l | l in out) == Listings(View(), owner, cwds)
      ensures (set l | l in out :: l.handle) == set h | h in listed && entries[h].owner == owner
      ensures forall l | l in out ::
        && l.handle in entries && l.command == entries[l.handle].command && l.cwd == cwds(l.handle)
        && (entries[l.handle].attachCount < 0x1_0000_0000 ==> l.attached == entries[l.handle].attachCount)
        && l.lastSeenMs * 1_000_000 <= entries[l.handle].lastSeen < (l.lastSeenMs + 1) * 1_000_000
    {
      var found: seq<Listing> := [];
      var todo := listed;
      while todo != {}
        invariant todo <= listed && NoDuplicates(found)
        invariant forall l | l in found :: ListedFrom(View(), owner, cwds, l) && l.handle !in todo
        invariant forall h | h in listed && h !in todo && Owns(View(), owner, h) ::
          ListingOf(h, entries[h], cwds) in found
        decreases todo
      {
        var h :| h in todo;
        todo := todo - {h};
        if entries[h].owner == owner {
          var l := ListingOf(h, entries[h], cwds);
          assert forall x | x in found :: x.handle != h;
          found := found + [l];
        }
      }
      out := SortByRecency(found);
      SortedCopy(found, out);
    }
  }

  ghost predicate ListedFrom(t: Table, owner: Owner, cwds: Cwds, l: Listing) {
    Owns(t, owner, l.handle) && l == ListingOf(l.handle, t.entries[l.handle], cwds)
  }

  /** A permutation of a duplicate-free sequence has the same elements and no duplicates. */
  lemma SortedCopy(s: seq<Listing>, r: seq<Listing>)
    requires multiset(s) == multiset(r) && NoDuplicates(s)
    requires forall a, b | a in s && b in s && a.handle == b.handle :: a == b
    ensures NoDuplicates(r)
    ensures forall l :: l in s <==> l in r
  {
    forall l ensures l in s <==> l in r {
      assert l in multiset(s) <==> l in multiset(r);
    }
    forall i, j | 0 <= i < j < |r| ensures r[i].handle != r[j].handle {
      if r[i].handle == r[j].handle {
        assert r[i] in s && r[j] in s;
        TwiceInMultiset(r, i, j);
        OnceInMultiset(s, r[i]);
      }
    }
  }

  lemma TwiceInMultiset(r: seq<Listing>, i: nat, j: nat)
    requires i < j < |r| && r[i] == r[j]
    ensures multiset(r)[r[i]] >= 2
  {
    assert r == r[..j] + [r[j]] + r[j + 1..];
    assert r[i] in r[..j];
    assert r[i] in multiset(r[..j]);
  }

  lemma {:induction false} OnceInMultiset(s: seq<Listing>, l: Listing)
    requires NoDuplicates(s)
    ensures multiset(s)[l] <= 1
  {
    if s != [] {
      var n := |s| - 1;
      OnceInMultiset(s[..n], l);
      assert s == s[..n] + [s[n]];
      if s[n] == l {
        assert forall x | x in s[..n] :: x.handle != l.handle;
        assert l !in multiset(s[..n]);
      }
    }
  }
}
