/** The recycling allocator of workspace_pool.cc, as the source writes it: lists updated in place by backward scans
    and shifts.  Each method is tied to the function of module WorkspaceSpec it computes. */
module Workspace {
  import opened WorkspaceSpec

  /** The device interface: addresses in use and the calls made so far. */
  class DeviceApi {
    var live: set<Addr>
    var log: seq<Call>

    constructor ()
      ensures State() == Device({}, [])
    {
      live, log := {}, [];
    }

    function State(): Device
      reads this
    {
      Device(live, log)
    }

    /** Some address not in use. */
    method AllocDataSpace(size: nat) returns (data: Addr)
      modifies this
      ensures data != NULL && data !in old(live)
      ensures State() == Device(old(live) + {data}, old(log) + [DevAlloc(data, size)])
    {
      data := 1;
      var rest := live;
      while rest != {}
        invariant rest <= live && data >= 1
        invariant forall a :: a in live && a !in rest ==> a < data
        decreases rest
      {
        var a :| a in rest;
        if a >= data {
          data := a + 1;
        }
        rest := rest - {a};
      }
      live, log := live + {data}, log + [DevAlloc(data, size)];
    }

    method FreeDataSpace(data: Addr)
      requires data in live
      modifies this
      ensures State() == Device(old(live) - {data}, old(log) + [DevFree(data)])
    {
      live, log := live - {data}, log + [DevFree(data)];
    }
  }

  class Pool {
    var freeList: seq<Entry>
    var handedOut: seq<Entry>

    constructor ()
      ensures State() == EMPTY
    {
      freeList, handedOut := [HEADER], [HEADER];
    }

    function State(): WorkspaceSpec.Pool
      reads this
    {
      WorkspaceSpec.Pool(freeList, handedOut)
    }

    /** Serve a request: the block and the calls made to the device are those of `AllocPool` and `AllocDevice` for
        the rounded size, with the address returned as the device's answer. */
    method Alloc(device: DeviceApi, nbytes: nat, ghost others: set<Addr>) returns (data: Addr)
      requires Good(System(State(), device.State()), others)
      modifies this, device
      ensures MayAnswer(old(State()), old(device.State()), Rounded(nbytes), data)
      ensures State() == AllocPool(old(State()), Rounded(nbytes), data)
      ensures device.State() == AllocDevice(old(State()), old(device.State()), Rounded(nbytes), data)
      ensures data == Last(handedOut).data
      ensures Good(System(State(), device.State()), others)
    {
      hide Rounded, FirstFit, NoRepeats, Backs;
      var n := Rounded(nbytes);
      ghost var p, d := State(), device.State();
      var e: Entry;
      if |freeList| == 2 {
        OnlyOneFits(freeList, n);
        if Last(freeList).size < n {
          e := Grow(device, n, others);
        } else {
          e := Last(freeList);
          freeList := freeList[..|freeList| - 1];
          assert freeList == Remove(p.free, 1);
        }
      } else if |freeList| == 1 {
        var answer := device.AllocDataSpace(n);
        e := Entry(answer, n);
      } else {
        if Last(freeList).size >= n {
          e := TakeSmallestFit(n);
        } else {
          e := Grow(device, n, others);
        }
      }
      handedOut := handedOut + [e];
      data := e.data;
      AllocKeepsInv(p, d, n, data, others);
    }

    /** Resize: the largest free block goes back to the device and one of the size asked for is made. */
    method Grow(device: DeviceApi, n: nat, ghost others: set<Addr>) returns (e: Entry)
      requires Good(System(State(), device.State()), others) && |freeList| >= 2
      modifies `freeList, device
      ensures freeList == old(freeList)[..|old(freeList)| - 1] && e.size == n
      ensures var given := Last(old(freeList)).data;
              && e.data != NULL && e.data !in old(device.live) - {given}
              && device.State() == Device(old(device.live) - {given} + {e.data},
                                          old(device.log) + [DevFree(given), DevAlloc(e.data, n)])
    {
      e := Last(freeList);
      LastIsLive(State(), device.State(), others);
      freeList := freeList[..|freeList| - 1];
      device.FreeDataSpace(e.data);
      var answer := device.AllocDataSpace(n);
      e := Entry(answer, n);
      assert old(device.log) + [DevFree(Last(old(freeList)).data)] + [DevAlloc(answer, n)] ==
             old(device.log) + [DevFree(Last(old(freeList)).data), DevAlloc(answer, n)];
    }

    /** Scan down from the large end to the last block that is large enough, and take it. */
    method TakeSmallestFit(n: nat) returns (e: Entry)
      requires FormOk(State()) && |freeList| >= 2 && n > 0 && Last(freeList).size >= n
      modifies `freeList
      ensures var k := FirstFit(old(freeList), 0, n);
              k < |old(freeList)| && e == old(freeList)[k] && freeList == Remove(old(freeList), k)
    {
      var it := |freeList| - 2;
      while freeList[it].size >= n
        invariant 0 <= it <= |freeList| - 2 && freeList == old(freeList)
        invariant freeList[it + 1].size >= n
        decreases it
      {
        it := it - 1;
      }
      FitAfter(freeList, it, n);
      e := freeList[it + 1];
      freeList := Remove(freeList, it + 1);
    }

    /** Take a block back; false when the address is not handed out (the check of the source fails). */
    method Free(data: Addr) returns (ok: bool)
      requires Inv(State())
      modifies this
      ensures ok == FreeAccepts(old(State()), data)
      ensures State() == FreePool(old(State()), data)
    {
      ghost var p := State();
      var e: Entry;
      if Last(handedOut).data == data {
        e := Last(handedOut);
        handedOut := handedOut[..|handedOut| - 1];
        assert handedOut == Remove(p.handed, |p.handed| - 1);
      } else {
        var index := FindEntry(data);
        if index <= 0 {
          return false;
        }
        e := handedOut[index];
        handedOut := Remove(handedOut, index);
      }
      ok := true;
      InsertEntry(e);
    }

    /** Scan the entries below the last one for an address, down to the header. */
    method FindEntry(data: Addr) returns (index: int)
      requires |handedOut| >= 1
      ensures -1 <= index <= |handedOut| - 2
      ensures if |handedOut| == 1 then index == -1 else index == FindLast(handedOut, |handedOut| - 2, data)
    {
      index := |handedOut| - 2;
      while index > 0 && handedOut[index].data != data
        invariant -1 <= index <= |handedOut| - 2 && (index == -1 <==> |handedOut| == 1)
        invariant index >= 0 ==> FindLast(handedOut, |handedOut| - 2, data) == FindLast(handedOut, index, data)
      {
        index := index - 1;
      }
    }

    /** Put an entry into the free list, by the three cases of the source. */
    method InsertEntry(e: Entry)
      requires |freeList| >= 1 && SortedBySize(freeList) && freeList[0] == HEADER
      modifies `freeList
      ensures freeList == Insert(old(freeList), e)
    {
      ghost var was := freeList;
      PlaceBounds(was, e.size);
      if Last(freeList).size < e.size {
        freeList := freeList + [e];
      } else if |freeList| == 2 {
        freeList := freeList + [Last(freeList)];
        freeList := freeList[1 := e];
      } else {
        ShiftIn(e);
      }
    }

    /** Make room behind every block that is not larger, shifting the larger ones up one by one. */
    method ShiftIn(e: Entry)
      requires |freeList| >= 1 && freeList[0] == HEADER
      modifies `freeList
      ensures var i := Place(old(freeList), |old(freeList)|, e.size);
              freeList == old(freeList)[..i] + [e] + old(freeList)[i..]
    {
      ghost var was := freeList;
      var i := |freeList| - 1;
      freeList := freeList + [HEADER];
      while e.size < freeList[i].size
        invariant 0 <= i < |was| && |freeList| == |was| + 1
        invariant forall j :: 0 <= j <= i ==> freeList[j] == was[j]
        invariant forall j :: i < j < |was| ==> freeList[j + 1] == was[j] && e.size < was[j].size
        decreases i
      {
        freeList := freeList[i + 1 := freeList[i]];
        i := i - 1;
      }
      freeList := freeList[i + 1 := e];
      assert Place(was, |was|, e.size) == i + 1;
    }

    /** Give every free block back to the device; refused while blocks are handed out. */
    method Release(device: DeviceApi, ghost others: set<Addr>) returns (ok: bool)
      requires Good(System(State(), device.State()), others)
      modifies this, device
      ensures ok == (Outstanding(old(State())) == 0)
      ensures !ok ==> State() == old(State()) && device.State() == old(device.State())
      ensures ok ==> freeList == [] && device.State() == ReleaseDevice(old(State()), old(device.State()))
      ensures ok ==> device.live == others
    {
      if |handedOut| != 1 {
        return false;
      }
      hide Inv, Backs, ReleaseDevice;
      AllReleased(State(), device.State(), others);
      FreeBlocks(device, others);
      freeList := [];
      ok := true;
    }

    /** Give every free block back, in the order of the list. */
    method FreeBlocks(device: DeviceApi, ghost others: set<Addr>)
      requires Good(System(State(), device.State()), others)
      modifies device
      ensures device.State() == ReleaseDevice(State(), old(device.State()))
    {
      hide Inv, Backs, ReleaseDevice;
      ghost var p, d := State(), device.State();
      NothingReleased(p, d);
      var i := 1;
      while i < |freeList|
        invariant 1 <= i <= |freeList|
        invariant device.State() == ReleaseDevice(p.(free := p.free[..i]), d)
      {
        ReleaseNext(p, d, others, i);
        device.FreeDataSpace(freeList[i].data);
        i := i + 1;
      }
      assert p.free[..i] == p.free;
    }
  }

  // ----- One pool a device -----

  function OwnedSet(p: WorkspaceSpec.Pool): (r: set<Addr>)
    requires HasHeaders(p)
    ensures forall a :: a in r <==> a in Owned(p)
  {
    set a | a in Owned(p)
  }

  predicate AllHaveHeaders(states: seq<WorkspaceSpec.Pool>) {
    forall i :: 0 <= i < |states| ==> HasHeaders(states[i])
  }

  function OwnedSets(states: seq<WorkspaceSpec.Pool>): (r: seq<set<Addr>>)
    requires AllHaveHeaders(states)
    ensures |r| == |states| && forall i :: 0 <= i < |r| ==> r[i] == OwnedSet(states[i])
  {
    seq(|states|, i requires 0 <= i < |states| => OwnedSet(states[i]))
  }

  ghost predicate InSome(sets: seq<set<Addr>>, a: Addr) {
    exists i :: 0 <= i < |sets| && a in sets[i]
  }

  /** The sets and `others` are the addresses in use, each in one of them only. */
  ghost predicate Partition(sets: seq<set<Addr>>, live: set<Addr>, others: set<Addr>) {
    && (forall i :: 0 <= i < |sets| ==> sets[i] <= live - others)
    && (forall i, j :: 0 <= i < j < |sets| ==> sets[i] !! sets[j])
    && others <= live
    && (forall a :: a in live && a !in others ==> InSome(sets, a))
  }

  /** The pools of all devices: each well formed, no block in two of them, and together with `others` just what the
      device interface has in use. */
  ghost predicate TableOk(states: seq<WorkspaceSpec.Pool>, d: Device, others: set<Addr>) {
    && AllHaveHeaders(states)
    && (forall i :: 0 <= i < |states| ==> Inv(states[i]))
    && Partition(OwnedSets(states), d.live, others)
  }

  lemma TableGood(states: seq<WorkspaceSpec.Pool>, d: Device, others: set<Addr>, i: nat)
    requires TableOk(states, d, others) && i < |states|
    ensures HasHeaders(states[i]) && Good(System(states[i], d), d.live - OwnedSet(states[i]))
  {
    assert OwnedSets(states)[i] == OwnedSet(states[i]);
  }

  lemma PartitionStep(sets: seq<set<Addr>>, live: set<Addr>, others: set<Addr>, i: nat, s: set<Addr>, live': set<Addr>)
    requires Partition(sets, live, others) && i < |sets|
    requires live' == live - sets[i] + s && s !! live - sets[i]
    ensures Partition(sets[i := s], live', others)
  {
    var sets' := sets[i := s];
    forall a | a in live' && a !in others
      ensures InSome(sets', a)
    {
      if a in s {
        assert a in sets'[i];
      } else {
        assert InSome(sets, a);
        var j :| 0 <= j < |sets| && a in sets[j];
        assert a in sets'[j];
      }
    }
  }

  lemma PartitionGrows(sets: seq<set<Addr>>, live: set<Addr>, others: set<Addr>, more: seq<set<Addr>>)
    requires Partition(sets, live, others) && forall i :: 0 <= i < |more| ==> more[i] == {}
    ensures Partition(sets + more, live, others)
  {
    forall a | a in live && a !in others
      ensures InSome(sets + more, a)
    {
      assert InSome(sets, a);
      var j :| 0 <= j < |sets| && a in sets[j];
      assert a in (sets + more)[j];
    }
  }

  lemma GoodLive(s: System, others: set<Addr>)
    requires Good(s, others)
    ensures s.device.live == others + OwnedSet(s.pool) && OwnedSet(s.pool) !! others && Inv(s.pool)
  {
  }

  /** A step of one pool that leaves what is not its own alone keeps the table. */
  lemma TableStep(states: seq<WorkspaceSpec.Pool>, d: Device, others: set<Addr>, i: nat, p: WorkspaceSpec.Pool,
                  d': Device)
    requires TableOk(states, d, others) && i < |states|
    requires Good(System(p, d'), d.live - OwnedSet(states[i]))
    ensures TableOk(states[i := p], d', others)
  {
    GoodLive(System(p, d'), d.live - OwnedSet(states[i]));
    OwnedSetsUpdate(states, i, p);
    hide Good, Inv, Owned, Partition, OwnedSet, OwnedSets;
    PartitionStep(OwnedSets(states), d.live, others, i, OwnedSet(p), d'.live);
  }

  lemma OwnedSetsUpdate(states: seq<WorkspaceSpec.Pool>, i: nat, p: WorkspaceSpec.Pool)
    requires AllHaveHeaders(states) && i < |states| && HasHeaders(p)
    ensures AllHaveHeaders(states[i := p])
    ensures OwnedSets(states[i := p]) == OwnedSets(states)[i := OwnedSet(p)]
  {
  }

  lemma TableGrows(states: seq<WorkspaceSpec.Pool>, d: Device, others: set<Addr>, more: seq<WorkspaceSpec.Pool>)
    requires TableOk(states, d, others) && |states| <= |more|
    requires forall i :: 0 <= i < |more| ==> more[i] == if i < |states| then states[i] else EMPTY
    ensures TableOk(more, d, others)
  {
    var rest := more[|states|..];
    assert more == states + rest;
    EmptyIsGood(d);
    assert OwnedSet(EMPTY) == {};
    hide Good, Inv, Owned, Partition;
    assert AllHaveHeaders(rest);
    PartitionGrows(OwnedSets(states), d.live, others, OwnedSets(rest));
    assert OwnedSets(more) == OwnedSets(states) + OwnedSets(rest);
  }

  /** The pools of one device type, one for each device id that has been used, over one device interface. */
  class WorkspacePool {
    var pools: seq<Pool?>
    const device: DeviceApi
    ghost const others: set<Addr>

    /** The state of every pool; one not used yet is empty. */
    ghost function States(): (s: seq<WorkspaceSpec.Pool>)
      reads this, set p: Pool | p in pools
      ensures |s| == |pools|
      ensures forall i :: 0 <= i < |s| ==> s[i] == if pools[i] == null then EMPTY else pools[i].State()
    {
      seq(|pools|, i requires 0 <= i < |pools| reads this, set p: Pool | p in pools =>
        if pools[i] == null then EMPTY else pools[i].State())
    }

    ghost predicate Valid()
      reads this, device, set p: Pool | p in pools
    {
      && (forall i, j :: 0 <= i < j < |pools| && pools[i] != null ==> pools[i] != pools[j])
      && TableOk(States(), device.State(), others)
    }

    constructor (device: DeviceApi)
      ensures Valid() && pools == [] && this.device == device && others == device.live
    {
      this.device, pools, others := device, [], device.live;
    }

    function StateOf(id: nat): WorkspaceSpec.Pool
      reads this, set p: Pool | p in pools
    {
      if id < |pools| && pools[id] != null then pools[id].State() else EMPTY
    }

    /** Make the table long enough for a device id, and the pool for it if it has none. */
    method PoolFor(id: nat) returns (p: Pool)
      requires Valid()
      modifies `pools
      ensures Valid() && id < |pools| && pools[id] == p
      ensures |pools| == if id < |old(pools)| then |old(pools)| else id + 1
      ensures forall j :: 0 <= j < |pools| && j != id ==> pools[j] == if j < |old(pools)| then old(pools)[j] else null
      ensures id < |old(pools)| && old(pools)[id] != null ==> p == old(pools)[id]
      ensures !(id < |old(pools)| && old(pools)[id] != null) ==> fresh(p) && p.State() == EMPTY
    {
      hide TableOk;
      ghost var states := States();
      if id >= |pools| {
        pools := pools + seq(id + 1 - |pools|, _ => null);
      }
      if pools[id] == null {
        var q := new Pool();
        pools := pools[id := q];
      }
      assert forall j :: 0 <= j < |states| ==> States()[j] == states[j];
      TableGrows(states, device.State(), others, States());
      p := pools[id];
    }

    /** Allocate from the pool of a device id; no other device's pool is touched. */
    method AllocWorkspace(id: nat, size: nat) returns (data: Addr)
      requires Valid()
      modifies this, device, set p: Pool | p in pools
      ensures Valid()
      ensures MayAnswer(old(StateOf(id)), old(device.State()), Rounded(size), data)
      ensures StateOf(id) == AllocPool(old(StateOf(id)), Rounded(size), data)
      ensures device.State() == AllocDevice(old(StateOf(id)), old(device.State()), Rounded(size), data)
      ensures forall j: nat :: j != id ==> StateOf(j) == old(StateOf(j))
    {
      hide TableOk, Good, Inv, AllocPool, AllocDevice, MayAnswer, Rounded, OwnedSet;
      var p := PoolFor(id);
      ghost var states, d := States(), device.State();
      TableGood(states, d, others, id);
      data := p.Alloc(device, size, d.live - OwnedSet(states[id]));
      TableStep(states, d, others, id, p.State(), device.State());
      assert States() == states[id := p.State()];
    }

    /** Return a block to the pool of a device id; refused when that device has no pool or has not handed it out. */
    method FreeWorkspace(id: nat, data: Addr) returns (ok: bool)
      requires Valid() && (id < |pools| && pools[id] != null ==> !(data == NULL && Outstanding(StateOf(id)) == 0))
      modifies if id < |pools| && pools[id] != null then {pools[id]} else {}
      ensures Valid()
      ensures ok == (id < |pools| && pools[id] != null && FreeAccepts(old(StateOf(id)), data))
      ensures StateOf(id) ==
              if id < |pools| && pools[id] != null then FreePool(old(StateOf(id)), data) else old(StateOf(id))
      ensures forall j: nat :: j != id ==> StateOf(j) == old(StateOf(j))
    {
      hide TableOk, Inv, FreeAccepts, FreePool, Outstanding;
      if id < |pools| && pools[id] != null {
        ghost var states := States();
        FreeKeepsTable(states, device.State(), others, id, data);
        ok := pools[id].Free(data);
        assert States() == states[id := FreePool(states[id], data)];
      } else {
        ok := false;
      }
    }

    /** The destructor: release the pool of every device.  It goes through when nothing is handed out any more, and
        then the device has in use just what it had when the table was made. */
    method Destroy() returns (ok: bool)
      requires Valid()
      modifies device, set p: Pool | p in pools
      ensures ok <==> forall i: nat :: Outstanding(old(StateOf(i))) == 0
      ensures ok ==> device.live == others
    {
      hide TableOk, Good, Inv, OwnedSet, Outstanding;
      ghost var states := States();
      assert forall j: nat :: StateOf(j) == if j < |states| then states[j] else EMPTY;
      NothingOutstanding();
      var i := 0;
      while i < |pools|
        invariant 0 <= i <= |pools| == |states|
        invariant forall j :: i <= j < |pools| ==> states[j] == if pools[j] == null then EMPTY else pools[j].State()
        invariant forall j :: 0 <= j < i ==> Outstanding(states[j]) == 0
        invariant TableOk(states[i..], device.State(), others)
      {
        TableGood(states[i..], device.State(), others, 0);
        ghost var d := device.State();
        if pools[i] != null {
          var released := pools[i].Release(device, device.live - OwnedSet(states[i]));
          if !released {
            return false;
          }
        }
        TableDrop(states[i..], d, others, device.State());
        assert states[i..][1..] == states[i + 1..];
        i := i + 1;
      }
      TableIsEmpty(states[i..], device.State(), others);
      ok := true;
    }
  }

  lemma NothingOutstanding()
    ensures Outstanding(EMPTY) == 0
  {
  }

  /** Without the pool of the first device, and without what that pool owned. */
  lemma TableDrop(states: seq<WorkspaceSpec.Pool>, d: Device, others: set<Addr>, d': Device)
    requires TableOk(states, d, others) && |states| > 0
    requires d'.live == d.live - OwnedSet(states[0]) || (states[0] == EMPTY && d' == d)
    ensures TableOk(states[1..], d', others)
  {
    hide Inv, Owned, Partition, OwnedSet, OwnedSets;
    EmptyOwnsNothing();
    OwnedSetsTail(states);
    PartitionDrop(OwnedSets(states), d.live, others, d'.live);
  }

  lemma OwnedSetsTail(states: seq<WorkspaceSpec.Pool>)
    requires AllHaveHeaders(states) && |states| > 0
    ensures AllHaveHeaders(states[1..]) && OwnedSets(states[1..]) == OwnedSets(states)[1..]
  {
    hide OwnedSet, OwnedSets;
  }

  lemma EmptyOwnsNothing()
    ensures OwnedSet(EMPTY) == {}
  {
  }

  lemma PartitionDrop(sets: seq<set<Addr>>, live: set<Addr>, others: set<Addr>, live': set<Addr>)
    requires Partition(sets, live, others) && |sets| > 0 && live' == live - sets[0]
    ensures Partition(sets[1..], live', others)
  {
    var rest := sets[1..];
    forall a | a in live' && a !in others
      ensures InSome(rest, a)
    {
      assert InSome(sets, a);
      var j :| 0 <= j < |sets| && a in sets[j];
      assert a in rest[j - 1];
    }
  }

  lemma TableIsEmpty(states: seq<WorkspaceSpec.Pool>, d: Device, others: set<Addr>)
    requires TableOk(states, d, others) && states == []
    ensures d.live == others
  {
    assert forall a :: !InSome(OwnedSets(states), a);
  }

  lemma FreeKeepsTable(states: seq<WorkspaceSpec.Pool>, d: Device, others: set<Addr>, id: nat, data: Addr)
    requires TableOk(states, d, others) && id < |states| && !(data == NULL && Outstanding(states[id]) == 0)
    ensures HasHeaders(states[id]) && Inv(states[id]) && TableOk(states[id := FreePool(states[id], data)], d, others)
  {
    TableGood(states, d, others, id);
    var s, rest := System(states[id], d), d.live - OwnedSet(states[id]);
    GoodLive(s, rest);
    StepKeepsGood(s, WorkspaceSpec.Free(data), rest);
    hide Good, TableOk, FreePool, FreeAccepts, Owned, Inv, OwnedSet;
    TableStep(states, d, others, id, Step(s, WorkspaceSpec.Free(data)).pool, d);
  }

  lemma OnlyOneFits(free: seq<Entry>, n: nat)
    requires |free| == 2 && free[0] == HEADER && n > 0
    ensures FirstFit(free, 0, n) == if free[1].size >= n then 1 else 2
  {
    assert FirstFit(free, 0, n) == FirstFit(free, 1, n);
  }

  /** In a sorted list the first block that fits follows one that does not. */
  lemma FitAfter(free: seq<Entry>, it: nat, n: nat)
    requires SortedBySize(free) && it + 1 < |free| && free[it].size < n <= free[it + 1].size
    ensures FirstFit(free, 0, n) == it + 1
  {
  }

  lemma LastIsLive(p: WorkspaceSpec.Pool, d: Device, others: set<Addr>)
    requires Good(System(p, d), others) && |p.free| >= 2
    ensures Last(p.free).data in d.live
  {
    AddrsMember(p.free[1..], |p.free| - 2);
  }

  lemma PlaceBounds(free: seq<Entry>, size: nat)
    requires |free| >= 1 && SortedBySize(free) && free[0] == HEADER
    ensures 1 <= Place(free, |free|, size)
    ensures Last(free).size <= size ==> Place(free, |free|, size) == |free|
  {
  }

  lemma {:induction false} CallsAppend(s: seq<Entry>, e: Entry)
    ensures ReleaseCalls(s + [e]) == ReleaseCalls(s) + [DevFree(e.data)]
  {
    if s != [] {
      assert (s + [e])[1..] == s[1..] + [e];
      CallsAppend(s[1..], e);
    }
  }

  lemma NothingReleased(p: WorkspaceSpec.Pool, d: Device)
    requires |p.free| >= 1
    ensures ReleaseDevice(p.(free := p.free[..1]), d) == d
  {
    assert p.free[..1][1..] == [];
  }

  /** What is left in use is what others use. */
  lemma AllReleased(p: WorkspaceSpec.Pool, d: Device, others: set<Addr>)
    requires Good(System(p, d), others) && Outstanding(p) == 0
    ensures ReleaseDevice(p, d).live == others
  {
    assert p.handed[1..] == [];
    assert Owned(p) == Addrs(p.free[1..]);
  }

  lemma ReleaseNext(p: WorkspaceSpec.Pool, d: Device, others: set<Addr>, i: nat)
    requires Good(System(p, d), others) && 1 <= i < |p.free|
    ensures var before := ReleaseDevice(p.(free := p.free[..i]), d);
            && p.free[i].data in before.live
            && ReleaseDevice(p.(free := p.free[..i + 1]), d) ==
               Device(before.live - {p.free[i].data}, before.log + [DevFree(p.free[i].data)])
  {
    var s := p.free[..i][1..];
    assert p.free[..i + 1][1..] == s + [p.free[i]];
    CallsAppend(s, p.free[i]);
    AddrsAppend(s, p.free[i]);
    AddrsMember(p.free[1..], i - 1);
    assert Owned(p)[p.free[i].data] <= 1;
    if p.free[i].data in Addrs(s) {
      var j :| 0 <= j < |Datas(s)| && Datas(s)[j] == p.free[i].data;
      AddrsTwice(p.free[1..], j, i - 1);
    }
  }
}
