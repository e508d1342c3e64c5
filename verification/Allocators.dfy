/** The id allocators: cyclic scans for process, system-call and packet ids, and the
    lowest-free scan for file descriptors. */
module Allocators {
  import opened Options

  const MAX_FD: nat := 65536
  const MAX_PID: nat := 65536
  const UUID_RANGE: nat := 0x1_0000_0000_0000_0000

  // ----- Cyclic scans -----

  /** The k-th id visited by a scan that begins at `start`: start + k modulo `range`. */
  function Slot(start: nat, k: nat, range: nat): nat
    requires start < range && k <= range
  {
    if start + k < range then start + k else start + k - range
  }

  /** Searching upward from `start` and on from 0, `j` comes before `id`. */
  predicate Sooner(start: nat, j: nat, id: nat) {
    if start <= id then start <= j < id else start <= j || j < id
  }

  /** The first free id at or after `start` in cyclic order, or nothing. */
  ghost predicate IsFirstFree(start: nat, range: nat, used: set<nat>, r: Option<nat>) {
    match r
    case Some(id) => id < range && id !in used && forall j :: 0 <= j < range && Sooner(start, j, id) ==> j in used
    case None => forall id :: 0 <= id < range ==> id in used
  }

  /** What comes sooner was visited before. */
  lemma SoonerIsVisited(start: nat, range: nat, k: nat, j: nat)
    requires start < range && k < range && j < range && Sooner(start, j, Slot(start, k, range))
    ensures exists i :: 0 <= i < k && Slot(start, i, range) == j
  {
    var i := if j >= start then j - start else j + range - start;
    assert i < k && Slot(start, i, range) == j;
  }

  /** Every id of the range is met within one round. */
  lemma RoundCoversAll(start: nat, range: nat, id: nat)
    requires start < range && id < range
    ensures exists k :: 0 <= k < range && Slot(start, k, range) == id
  {
    assert Slot(start, if id >= start then id - start else id + range - start, range) == id;
  }

  lemma SuccessorMod(x: nat, range: nat)
    requires x < range
    ensures (x + 1) % range == if x + 1 == range then 0 else x + 1
  {
    if x + 1 < range {
      assert (x + 1) / range == 0;
    }
  }

  /** The do/while scan of registerProcess, of the system-call branch of
      Host::messageReceived and of allocatePacketUUID: it stops within one round, with
      the first free id, and fails only when every id is taken. */
  method CyclicScan(start: nat, range: nat, used: set<nat>) returns (r: Option<nat>)
    requires start < range
    ensures IsFirstFree(start, range, used, r)
    ensures r.Some? ==> r.value < range
  {
    var current := start;
    ghost var k := 0;
    while true
      invariant k < range && current == Slot(start, k, range)
      invariant forall j :: 0 <= j < k ==> Slot(start, j, range) in used
      decreases range - k
    {
      if current !in used {
        forall j | 0 <= j < range && Sooner(start, j, current) ensures j in used {
          SoonerIsVisited(start, range, k, j);
        }
        return Some(current);
      }
      SuccessorMod(current, range);
      current := (current + 1) % range;
      k := k + 1;
      if current == start {
        break;
      }
    }
    forall id | 0 <= id < range ensures id in used {
      RoundCoversAll(start, range, id);
    }
    r := None;
  }

  // ----- Packet ids -----

  /** One call: a packet is made, or some Packet object carrying `id` (an original or a
      copy sharing the id) is destroyed. */
  datatype IdEvent = Make | Destroy(id: nat)

  class PacketIds {
    var packetUUIDStart: nat
    var packetUUIDSet: set<nat>

    ghost predicate Valid()
      reads this
    {
      packetUUIDStart < UUID_RANGE
    }

    constructor ()
      ensures Valid() && packetUUIDStart == 0 && packetUUIDSet == {}
    {
      packetUUIDStart, packetUUIDSet := 0, {};
    }

    method AllocatePacketUUID() returns (r: Option<nat>)
      requires Valid()
      modifies this
      ensures Valid() && IsFirstFree(old(packetUUIDStart), 0x1_0000_0000_0000_0000, old(packetUUIDSet), r)
      ensures r.Some? ==> packetUUIDStart == (r.value + 1) % UUID_RANGE && packetUUIDSet == old(packetUUIDSet) + {r.value}
      ensures r.None? ==> packetUUIDStart == old(packetUUIDStart) && packetUUIDSet == old(packetUUIDSet)
    {
      r := CyclicScan(packetUUIDStart, UUID_RANGE, packetUUIDSet);
      if r.Some? {
        packetUUIDStart := (r.value + 1) % UUID_RANGE;
        packetUUIDSet := packetUUIDSet + {r.value};
      }
    }

    method FreePacketUUID(uuid: nat)
      requires Valid()
      modifies this
      ensures Valid() && packetUUIDStart == old(packetUUIDStart) && packetUUIDSet == old(packetUUIDSet) - {uuid}
    {
      packetUUIDSet := packetUUIDSet - {uuid};
    }

    /** Any history of at most 2^64 - 1 allocations, interleaved with any destructions:
        the n-th packet made gets exactly the id n (counting from 0), so no id repeats,
        although destroying a copy frees the id its siblings still carry. */
    method Replay(events: seq<IdEvent>) returns (ids: seq<nat>)
      requires Valid() && packetUUIDStart == 0 && packetUUIDSet == {}
      requires Makes(events) < 0x1_0000_0000_0000_0000
      modifies this
      ensures |ids| == Makes(events)
      ensures forall n :: 0 <= n < |ids| ==> ids[n] == n
    {
      ids := [];
      var i := 0;
      assert events[..|events|] == events;
      while i < |events|
        invariant i <= |events| && Valid()
        invariant packetUUIDStart == |ids| == Makes(events[..i])
        invariant forall id :: id in packetUUIDSet ==> id < packetUUIDStart
        invariant forall n :: 0 <= n < |ids| ==> ids[n] == n
      {
        MakesExtend(events, i);
        match events[i] {
          case Make =>
            ghost var free, used := packetUUIDStart, packetUUIDSet;
            var r := AllocatePacketUUID();
            StartIsFree(free, used, r);
            SuccessorMod(free, UUID_RANGE);
            ids := ids + [r.value];
          case Destroy(id) =>
            FreePacketUUID(id);
        }
        i := i + 1;
      }
    }
  }

  function Makes(events: seq<IdEvent>): nat {
    if events == [] then 0 else Makes(events[..|events| - 1]) + if events[|events| - 1].Make? then 1 else 0
  }

  lemma MakesExtend(events: seq<IdEvent>, i: nat)
    requires i < |events|
    ensures Makes(events[..i + 1]) == Makes(events[..i]) + if events[i].Make? then 1 else 0
    ensures Makes(events[..i + 1]) <= Makes(events)
    decreases |events|
  {
    assert events[..i + 1][..i] == events[..i];
    if i + 1 < |events| {
      var init := events[..|events| - 1];
      assert init[..i + 1] == events[..i + 1] && init[..i] == events[..i];
      MakesExtend(init, i);
    } else {
      assert events[..i + 1] == events;
    }
  }

  lemma StartIsFree(start: nat, used: set<nat>, r: Option<nat>)
    requires start < UUID_RANGE && start !in used
    requires IsFirstFree(start, UUID_RANGE, used, r)
    ensures r == Some(start)
  {
    assert r.Some? && r.value != start ==> Sooner(start, start, r.value);
  }

  // ----- File descriptors -----

  datatype Namespace = Namespace(domain: int, protocol: int)

  /** std::map<int, Namespace>: entries in key order. */
  datatype FdEntry = FdEntry(fd: nat, ns: Namespace)

  ghost predicate FdTable(t: seq<FdEntry>) {
    && (forall i, j :: 0 <= i < j < |t| ==> t[i].fd < t[j].fd)
    && (forall i :: 0 <= i < |t| ==> 3 <= t[i].fd < MAX_FD)
  }

  ghost predicate Holds(t: seq<FdEntry>, fd: nat) {
    exists i :: 0 <= i < |t| && t[i].fd == fd
  }

  /** The descriptor createFileDescriptor must return. */
  ghost predicate IsLowestFree(t: seq<FdEntry>, fd: nat) {
    3 <= fd < MAX_FD && !Holds(t, fd) && forall k :: 3 <= k < fd ==> Holds(t, k)
  }

  lemma {:induction false} KeysAtLeast(t: seq<FdEntry>, i: nat)
    requires FdTable(t) && i < |t|
    ensures t[i].fd >= i + 3
  {
    if i > 0 {
      KeysAtLeast(t, i - 1);
    }
  }

  method CreateFileDescriptor(t: seq<FdEntry>, ns: Namespace) returns (r: Option<nat>, t': seq<FdEntry>)
    requires FdTable(t)
    ensures FdTable(t')
    ensures r.None? <==> forall fd :: 3 <= fd < 65536 ==> Holds(t, fd)
    ensures r.None? ==> t' == t
    ensures r.Some? ==> IsLowestFree(t, r.value) && FdEntry(r.value, ns) in t'
    ensures r.Some? ==> forall e :: e in t' <==> e in t || e == FdEntry(r.value, ns)
  {
    var current := 3;
    var it := 0;
    while it < |t| && t[it].fd == current
      invariant it <= |t| && current == it + 3
      invariant forall i :: 0 <= i < it ==> t[i].fd == i + 3
    {
      current := current + 1;
      it := it + 1;
    }
    GapFound(t, it);
    if current >= MAX_FD {
      return None, t;
    }
    var e := FdEntry(current, ns);
    t' := t[..it] + [e] + t[it..];
    InsertedInOrder(t, it, e, t');
    r := Some(current);
  }

  /** The scan stops at the first descriptor that is not in the table. */
  lemma GapFound(t: seq<FdEntry>, it: nat)
    requires FdTable(t) && it <= |t| && forall i :: 0 <= i < it ==> t[i].fd == i + 3
    requires it < |t| ==> t[it].fd != it + 3
    ensures !Holds(t, it + 3) && forall k :: 3 <= k < it + 3 ==> Holds(t, k)
    ensures it < |t| ==> t[it].fd > it + 3
  {
    if it < |t| {
      KeysAtLeast(t, it);
    }
    forall k | 3 <= k < it + 3 ensures Holds(t, k) {
      assert t[k - 3].fd == k;
    }
  }

  lemma InsertedInOrder(t: seq<FdEntry>, it: nat, e: FdEntry, t': seq<FdEntry>)
    requires FdTable(t) && it <= |t| && t' == t[..it] + [e] + t[it..] && 3 <= e.fd < MAX_FD
    requires (forall i :: 0 <= i < it ==> t[i].fd < e.fd) && (it < |t| ==> t[it].fd > e.fd)
    ensures FdTable(t') && forall x :: x in t' <==> x in t || x == e
  {
    assert t == t[..it] + t[it..];
    assert t'[it] == e;
  }

  /** std::map::erase by key. */
  method RemoveFileDescriptor(t: seq<FdEntry>, fd: nat) returns (t': seq<FdEntry>)
    requires FdTable(t)
    ensures FdTable(t') && !Holds(t', fd)
    ensures forall e :: e in t' <==> e in t && e.fd != fd
  {
    var i := 0;
    while i < |t| && t[i].fd != fd
      invariant i <= |t|
      invariant forall k :: 0 <= k < i ==> t[k].fd != fd
    {
      i := i + 1;
    }
    if i == |t| {
      return t;
    }
    t' := t[..i] + t[i + 1..];
    assert t == t[..i] + [t[i]] + t[i + 1..];
  }

  /** Closing the descriptor just opened and opening again gives the same one. */
  method ReopenGetsSameDescriptor(t: seq<FdEntry>, ns: Namespace) returns (a: Option<nat>, b: Option<nat>)
    requires FdTable(t)
    ensures a == b
  {
    var t1;
    a, t1 := CreateFileDescriptor(t, ns);
    if a.Some? {
      var t2 := RemoveFileDescriptor(t1, a.value);
      assert forall e :: e in t2 <==> e in t;
      var t3;
      b, t3 := CreateFileDescriptor(t2, ns);
      SameKeys(t, t2, ns);
    } else {
      b := a;
    }
  }

  lemma SameKeys(t: seq<FdEntry>, u: seq<FdEntry>, ns: Namespace)
    requires forall e :: e in t <==> e in u
    ensures forall fd :: Holds(t, fd) <==> Holds(u, fd)
  {
    forall fd ensures Holds(t, fd) <==> Holds(u, fd) {
      if Holds(t, fd) {
        var i :| 0 <= i < |t| && t[i].fd == fd;
        assert t[i] in u;
      }
      if Holds(u, fd) {
        var i :| 0 <= i < |u| && u[i].fd == fd;
        assert u[i] in t;
      }
    }
  }
}
