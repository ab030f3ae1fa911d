/** What the recycling allocator of workspace_pool.cc does, as functions on values, and what follows over all runs.

    Blocks the pool owns are either free, in a list sorted by size behind a header entry of size zero, or handed
    out, in a list behind a header of its own.  The device is a source of addresses that are not in use, with a log
    of the calls made to it; a function that may ask the device takes the address it would answer. */
module WorkspaceSpec {

  type Addr = nat

  const NULL: Addr := 0
  const PAGE: nat := 4096
  const WORD: nat := 0x1_0000_0000_0000_0000

  datatype Entry = Entry(data: Addr, size: nat)

  const HEADER := Entry(NULL, 0)

  datatype Call = DevAlloc(data: Addr, size: nat) | DevFree(data: Addr)

  datatype Device = Device(live: set<Addr>, log: seq<Call>)

  datatype Pool = Pool(free: seq<Entry>, handed: seq<Entry>)

  /** The requested size in whole pages, in 64-bit arithmetic; at least one page. */
  function Rounded(nbytes: nat): (r: nat)
    ensures r >= PAGE && r % PAGE == 0
  {
    var pages := (nbytes + (PAGE - 1)) % WORD / PAGE;
    if pages * PAGE == 0 then PAGE else pages * PAGE
  }

  /** A block of the rounded size holds the request exactly when the addition does not wrap. */
  lemma RoundedHoldsRequest(nbytes: nat)
    requires nbytes < WORD
    ensures Rounded(nbytes) >= nbytes <==> nbytes <= 0xFFFF_FFFF_FFFF_F000
  {
    if nbytes <= WORD - PAGE {
      assert (nbytes + (PAGE - 1)) % WORD == nbytes + (PAGE - 1);
    } else {
      assert (nbytes + (PAGE - 1)) % WORD == nbytes + (PAGE - 1) - WORD;
    }
  }

  /** As long as nothing wraps it is the smallest number of whole pages, at least one, that holds the request. */
  lemma RoundedIsLeast(nbytes: nat, pages: nat)
    requires nbytes <= WORD - PAGE && pages >= 1 && pages * 4096 >= nbytes
    ensures Rounded(nbytes) <= pages * 4096 && Rounded(nbytes) % 4096 == 0 && Rounded(nbytes) >= nbytes
  {
    RoundedHoldsRequest(nbytes);
    assert (nbytes + (PAGE - 1)) % WORD == nbytes + (PAGE - 1);
  }

  // ----- The operations -----

  function Remove<T>(s: seq<T>, i: nat): seq<T>
    requires i < |s|
  {
    s[..i] + s[i + 1..]
  }

  function Last(s: seq<Entry>): Entry
    requires |s| > 0
  {
    s[|s| - 1]
  }

  /** The first entry from position `i` on that is large enough. */
  function FirstFit(free: seq<Entry>, i: nat, n: nat): (k: nat)
    requires i <= |free|
    ensures i <= k <= |free|
    ensures forall j :: i <= j < k ==> free[j].size < n
    ensures k < |free| ==> free[k].size >= n
    decreases |free| - i
  {
    if i == |free| || free[i].size >= n then i else FirstFit(free, i + 1, n)
  }

  /** The device is asked when no free block is large enough. */
  predicate AsksDevice(p: Pool, n: nat)
    requires |p.free| >= 1
  {
    |p.free| == 1 || Last(p.free).size < n
  }

  /** The block that serves a request of rounded size `n`: the smallest free block that is large enough; if there
      is none the largest free block is replaced by one of size `n`, and if none is free one of size `n` is made. */
  function AllocPool(p: Pool, n: nat, answer: Addr): Pool
    requires |p.free| >= 1
  {
    if |p.free| == 1 then p.(handed := p.handed + [Entry(answer, n)])
    else if Last(p.free).size < n then
      Pool(p.free[..|p.free| - 1], p.handed + [Entry(answer, n)])
    else
      var k := FirstFit(p.free, 0, n);
      Pool(Remove(p.free, k), p.handed + [p.free[k]])
  }

  function AllocDevice(p: Pool, d: Device, n: nat, answer: Addr): Device
    requires |p.free| >= 1
  {
    if |p.free| == 1 then Device(d.live + {answer}, d.log + [DevAlloc(answer, n)])
    else if Last(p.free).size < n then
      Device(d.live - {Last(p.free).data} + {answer}, d.log + [DevFree(Last(p.free).data), DevAlloc(answer, n)])
    else d
  }

  /** What the device may answer: an address that is not null and, once the block given up for it is returned, not
      in use. */
  predicate MayAnswer(p: Pool, d: Device, n: nat, answer: Addr)
    requires |p.free| >= 1
  {
    AsksDevice(p, n) ==>
      && answer != NULL
      && answer !in (if |p.free| == 1 then d.live else d.live - {Last(p.free).data})
  }

  /** The last handed-out entry with this address, if it is not the header's position. */
  function FindLast(s: seq<Entry>, n: nat, data: Addr): (i: nat)
    requires n < |s|
    ensures i <= n
    ensures i > 0 ==> s[i].data == data
    ensures forall j :: i < j <= n ==> s[j].data != data
  {
    if n == 0 || s[n].data == data then n else FindLast(s, n - 1, data)
  }

  /** Where a returned block goes: behind every block that is not larger. */
  function Place(free: seq<Entry>, n: nat, size: nat): (i: nat)
    requires n <= |free|
    ensures i <= n
    ensures forall j :: i <= j < n ==> size < free[j].size
    ensures i > 0 ==> free[i - 1].size <= size
  {
    if n == 0 || free[n - 1].size <= size then n else Place(free, n - 1, size)
  }

  function Insert(free: seq<Entry>, e: Entry): seq<Entry>
    requires |free| >= 1
  {
    if |free| == 2 && e.size == free[1].size then [free[0], e, free[1]]
    else
      var i := Place(free, |free|, e.size);
      free[..i] + [e] + free[i..]
  }

  /** The entry `Free` takes out, or 0 when the address was never handed out.  The entry handed out last is taken
      without looking at its position, which for an empty list is the header. */
  function FreeIndex(p: Pool, data: Addr): nat
    requires |p.handed| >= 1
  {
    if Last(p.handed).data == data then |p.handed| - 1
    else if |p.handed| == 1 then 0
    else FindLast(p.handed, |p.handed| - 2, data)
  }

  predicate FreeAccepts(p: Pool, data: Addr)
    requires |p.handed| >= 1
  {
    Last(p.handed).data == data || FreeIndex(p, data) > 0
  }

  function FreePool(p: Pool, data: Addr): Pool
    requires |p.free| >= 1 && |p.handed| >= 1
  {
    if !FreeAccepts(p, data) then p
    else
      var i := FreeIndex(p, data);
      Pool(Insert(p.free, p.handed[i]), Remove(p.handed, i))
  }

  // ----- The invariant -----

  function Datas(s: seq<Entry>): (r: seq<Addr>)
    ensures |r| == |s| && forall i :: 0 <= i < |s| ==> r[i] == s[i].data
  {
    seq(|s|, i requires 0 <= i < |s| => s[i].data)
  }

  function Addrs(s: seq<Entry>): multiset<Addr> {
    multiset(Datas(s))
  }

  /** The blocks the pool owns, as often as they are listed. */
  function Owned(p: Pool): multiset<Addr>
    requires |p.free| >= 1 && |p.handed| >= 1
  {
    Addrs(p.free[1..]) + Addrs(p.handed[1..])
  }

  predicate SortedBySize(s: seq<Entry>) {
    forall i, j :: 0 <= i < j < |s| ==> s[i].size <= s[j].size
  }

  predicate FormOk(p: Pool) {
    && |p.free| >= 1 && p.free[0] == HEADER
    && |p.handed| >= 1 && p.handed[0] == HEADER
    && SortedBySize(p.free)
    && (forall i :: 1 <= i < |p.free| ==> p.free[i].size > 0)
    && (forall i :: 1 <= i < |p.handed| ==> p.handed[i].size > 0)
  }

  ghost predicate NoRepeats(m: multiset<Addr>) {
    NULL !in m && forall a :: m[a] <= 1
  }

  ghost predicate Inv(p: Pool) {
    FormOk(p) && NoRepeats(Owned(p))
  }

  function Outstanding(p: Pool): int {
    |p.handed| - 1
  }

  function OwnedCount(p: Pool): int {
    |p.free| - 1 + |p.handed| - 1
  }

  const EMPTY := Pool([HEADER], [HEADER])

  // ----- Address multisets -----

  lemma AddrsAround(a: seq<Entry>, e: Entry, b: seq<Entry>)
    ensures Addrs(a + [e] + b) == Addrs(a + b) + multiset{e.data}
  {
    assert Datas(a + [e] + b) == Datas(a) + [e.data] + Datas(b);
    assert Datas(a + b) == Datas(a) + Datas(b);
  }

  lemma AddrsAppend(s: seq<Entry>, e: Entry)
    ensures Addrs(s + [e]) == Addrs(s) + multiset{e.data}
  {
    assert Datas(s + [e]) == Datas(s) + [e.data];
  }

  lemma AddrsFirst(s: seq<Entry>)
    requires s != []
    ensures Addrs(s) == multiset{s[0].data} + Addrs(s[1..])
  {
    assert Datas(s) == [s[0].data] + Datas(s[1..]);
  }

  lemma EmptyHasNone()
    ensures Addrs([]) == multiset{}
  {
  }

  lemma AddrsRemove(s: seq<Entry>, i: nat)
    requires i < |s|
    ensures Addrs(s) == Addrs(Remove(s, i)) + multiset{s[i].data}
  {
    AddrsAround(s[..i], s[i], s[i + 1..]);
    assert s == s[..i] + [s[i]] + s[i + 1..];
  }

  lemma AddrsInsert(s: seq<Entry>, i: nat, e: Entry)
    requires i <= |s|
    ensures Addrs(s[..i] + [e] + s[i..]) == Addrs(s) + multiset{e.data}
  {
    AddrsAround(s[..i], e, s[i..]);
    assert s == s[..i] + s[i..];
  }

  lemma AddrsMember(s: seq<Entry>, i: nat)
    requires i < |s|
    ensures s[i].data in Addrs(s)
  {
    assert Datas(s)[i] in Datas(s);
  }

  // ----- Alloc keeps the invariant -----

  lemma RemoveTail(s: seq<Entry>, i: nat)
    requires 1 <= i < |s|
    ensures Remove(s, i)[1..] == Remove(s[1..], i - 1)
  {
  }

  lemma MoveKeepsOwned(p: Pool, k: nat)
    requires FormOk(p) && 1 <= k < |p.free|
    ensures Owned(Pool(Remove(p.free, k), p.handed + [p.free[k]])) == Owned(p)
  {
    var e := p.free[k];
    RemoveTail(p.free, k);
    AddrsRemove(p.free[1..], k - 1);
    assert (p.handed + [e])[1..] == p.handed[1..] + [e];
    AddrsAppend(p.handed[1..], e);
  }

  /** A block moves from the free list to the list of those handed out. */
  lemma MoveKeepsInv(p: Pool, k: nat)
    requires Inv(p) && 1 <= k < |p.free|
    ensures Inv(Pool(Remove(p.free, k), p.handed + [p.free[k]]))
    ensures Owned(Pool(Remove(p.free, k), p.handed + [p.free[k]])) == Owned(p)
  {
    MoveKeepsOwned(p, k);
    assert FormOk(Pool(Remove(p.free, k), p.handed + [p.free[k]]));
  }

  /** A new block is handed out. */
  lemma HandOutNew(p: Pool, e: Entry)
    requires Inv(p) && e.size > 0 && e.data != NULL && e.data !in Owned(p)
    ensures var p' := p.(handed := p.handed + [e]); Inv(p') && Owned(p') == Owned(p) + multiset{e.data}
  {
    var p' := p.(handed := p.handed + [e]);
    assert p'.handed[1..] == p.handed[1..] + [e];
    AddrsAppend(p.handed[1..], e);
    assert Owned(p') == Owned(p) + multiset{e.data};
    forall a
      ensures Owned(p')[a] <= 1
    {
      assert Owned(p)[a] <= 1;
    }
  }

  /** The largest free block is given up. */
  lemma DropLargest(p: Pool)
    requires Inv(p) && |p.free| >= 2
    ensures var p' := p.(free := p.free[..|p.free| - 1]);
            Inv(p') && Owned(p) == Owned(p') + multiset{Last(p.free).data}
  {
    var n := |p.free|;
    var p' := p.(free := p.free[..n - 1]);
    assert p'.free[1..] == p.free[1..][..n - 2];
    assert p.free[1..] == p'.free[1..] + [Last(p.free)];
    AddrsAppend(p'.free[1..], Last(p.free));
    assert Owned(p) == Owned(p') + multiset{Last(p.free).data};
    forall a
      ensures Owned(p')[a] <= 1
    {
      assert Owned(p)[a] <= 1;
    }
  }

  lemma FitIsBehindHeader(p: Pool, n: nat)
    requires Inv(p) && n > 0 && !AsksDevice(p, n)
    ensures 1 <= FirstFit(p.free, 0, n) < |p.free|
  {
  }

  /** The largest free block is exchanged for a new one. */
  lemma GrowLargest(p: Pool, d: Device, n: nat, answer: Addr, others: set<Addr>)
    requires Good(System(p, d), others) && n > 0 && |p.free| >= 2 && Last(p.free).size < n
    requires MayAnswer(p, d, n, answer)
    ensures Good(System(AllocPool(p, n, answer), AllocDevice(p, d, n, answer)), others)
  {
    var q := p.(free := p.free[..|p.free| - 1]);
    var given := Last(p.free).data;
    DropLargest(p);
    assert Owned(p)[given] <= 1;
    assert given !in Owned(q);
    HandOutNew(q, Entry(answer, n));
    var s' := System(AllocPool(p, n, answer), AllocDevice(p, d, n, answer));
    assert s'.pool == q.(handed := q.handed + [Entry(answer, n)]);
    assert s'.device.live == d.live - {given} + {answer};
    assert Owned(s'.pool) == Owned(q) + multiset{answer};
  }

  /** Every allocation keeps the pool well formed: sorted behind its headers, no block listed twice; and the device
      has in use what others use and the pool's blocks, nothing else. */
  lemma AllocKeepsInv(p: Pool, d: Device, n: nat, answer: Addr, others: set<Addr>)
    requires Good(System(p, d), others) && n > 0 && MayAnswer(p, d, n, answer)
    ensures Good(System(AllocPool(p, n, answer), AllocDevice(p, d, n, answer)), others)
  {
    if |p.free| == 1 {
      HandOutNew(p, Entry(answer, n));
    } else if Last(p.free).size < n {
      GrowLargest(p, d, n, answer, others);
    } else {
      FitIsBehindHeader(p, n);
      MoveKeepsInv(p, FirstFit(p.free, 0, n));
    }
  }

  /** What an allocation hands out is large enough, and when a free block is large enough it is a smallest one; if
      no free block is large enough the device makes one of exactly the size asked for. */
  lemma AllocIsBestFit(p: Pool, n: nat, answer: Addr)
    requires Inv(p) && n > 0
    ensures var e := Last(AllocPool(p, n, answer).handed);
            && e.size >= n
            && (AsksDevice(p, n) <==> forall j :: 0 <= j < |p.free| ==> p.free[j].size < n)
            && (AsksDevice(p, n) ==> e == Entry(answer, n))
            && (!AsksDevice(p, n) ==>
                  e in p.free[1..] && forall j :: 0 <= j < |p.free| && p.free[j].size >= n ==> p.free[j].size >= e.size)
  {
    if !AsksDevice(p, n) {
      FitIsBehindHeader(p, n);
      var k := FirstFit(p.free, 0, n);
      assert p.free[1..][k - 1] == p.free[k];
    }
  }

  // ----- Free keeps the invariant -----

  lemma InsertKeepsSorted(free: seq<Entry>, e: Entry)
    requires |free| >= 1 && SortedBySize(free) && free[0].size <= e.size
    ensures SortedBySize(Insert(free, e)) && Insert(free, e)[0] == free[0]
    ensures |Insert(free, e)| == |free| + 1
    ensures exists i :: 1 <= i <= |free| && Insert(free, e) == free[..i] + [e] + free[i..]
  {
    if |free| == 2 && e.size == free[1].size {
      assert Insert(free, e) == free[..1] + [e] + free[1..];
    } else {
      var i := Place(free, |free|, e.size);
      assert Insert(free, e) == free[..i] + [e] + free[i..];
    }
  }

  lemma InsertedTail(s: seq<Entry>, k: nat, e: Entry)
    requires 1 <= k <= |s|
    ensures (s[..k] + [e] + s[k..])[1..] == s[1..][..k - 1] + [e] + s[1..][k - 1..]
  {
  }

  lemma InsertAddrs(free: seq<Entry>, e: Entry)
    requires |free| >= 1 && SortedBySize(free) && free[0].size <= e.size
    ensures |Insert(free, e)| >= 1 && Addrs(Insert(free, e)[1..]) == Addrs(free[1..]) + multiset{e.data}
  {
    hide Insert, Place, Addrs, Datas;
    InsertKeepsSorted(free, e);
    var k :| 1 <= k <= |free| && Insert(free, e) == free[..k] + [e] + free[k..];
    InsertedTail(free, k, e);
    AddrsInsert(free[1..], k - 1, e);
  }

  lemma RemoveAddrs(s: seq<Entry>, i: nat)
    requires 1 <= i < |s|
    ensures Addrs(s[1..]) == Addrs(Remove(s, i)[1..]) + multiset{s[i].data}
  {
    RemoveTail(s, i);
    AddrsRemove(s[1..], i - 1);
  }

  lemma InsertKeepsForm(p: Pool, i: nat)
    requires FormOk(p) && 1 <= i < |p.handed|
    ensures FormOk(Pool(Insert(p.free, p.handed[i]), Remove(p.handed, i)))
  {
    InsertKeepsSorted(p.free, p.handed[i]);
  }

  lemma TakeBackKeepsInv(p: Pool, i: nat)
    requires Inv(p) && 1 <= i < |p.handed|
    ensures var p' := Pool(Insert(p.free, p.handed[i]), Remove(p.handed, i)); Inv(p') && Owned(p') == Owned(p)
  {
    InsertKeepsForm(p, i);
    InsertAddrs(p.free, p.handed[i]);
    RemoveAddrs(p.handed, i);
    assert Owned(Pool(Insert(p.free, p.handed[i]), Remove(p.handed, i))) == Owned(p);
  }

  lemma AddrsTwice(s: seq<Entry>, i: nat, j: nat)
    requires i < |s| && j < |s| && i != j && s[i].data == s[j].data
    ensures Addrs(s)[s[i].data] >= 2
  {
    AddrsRemove(s, i);
    var k := if j < i then j else j - 1;
    assert Remove(s, i)[k] == s[j];
    AddrsMember(Remove(s, i), k);
  }

  lemma HandedAddress(p: Pool, i: nat)
    requires Inv(p) && 1 <= i < |p.handed|
    ensures p.handed[i].data != NULL && p.handed[i].data in Owned(p)
    ensures forall j :: 1 <= j < |p.handed| && p.handed[j].data == p.handed[i].data ==> j == i
  {
    AddrsMember(p.handed[1..], i - 1);
    assert Owned(p)[p.handed[i].data] <= 1;
    forall j | 1 <= j < |p.handed| && p.handed[j].data == p.handed[i].data
      ensures j == i
    {
      if j != i {
        AddrsTwice(p.handed[1..], i - 1, j - 1);
      }
    }
  }

  /** `Free` takes out the one entry with that address, and refuses an address that is not handed out. */
  lemma FreeFindsTheBlock(p: Pool, data: Addr)
    requires Inv(p) && !(data == NULL && Outstanding(p) == 0)
    ensures FreeAccepts(p, data) <==> exists i :: 1 <= i < |p.handed| && p.handed[i].data == data
    ensures FreeAccepts(p, data) ==> 1 <= FreeIndex(p, data) < |p.handed| && p.handed[FreeIndex(p, data)].data == data
  {
    if |p.handed| >= 2 {
      HandedAddress(p, |p.handed| - 1);
    }
  }

  /** `Free` keeps the pool well formed for every address, handed out or not, with one exception: the null address
      when nothing is handed out takes the header off the list. */
  lemma FreeKeepsInvExactly(p: Pool, data: Addr)
    requires Inv(p)
    ensures Inv(FreePool(p, data)) <==> !(data == NULL && Outstanding(p) == 0)
    ensures !(data == NULL && Outstanding(p) == 0) ==> Owned(FreePool(p, data)) == Owned(p)
  {
    if data == NULL && Outstanding(p) == 0 {
      assert |FreePool(p, data).handed| == 0;
    } else {
      FreeFindsTheBlock(p, data);
      if FreeAccepts(p, data) {
        TakeBackKeepsInv(p, FreeIndex(p, data));
      }
    }
  }

  // ----- Runs: the memory bound -----

  datatype System = System(pool: Pool, device: Device)

  /** A call made to the pool; an allocation carries the address the device would answer. */
  datatype Op = Alloc(nbytes: nat, answer: Addr) | Free(data: Addr)

  predicate HasHeaders(p: Pool) {
    |p.free| >= 1 && |p.handed| >= 1
  }

  function Step(s: System, op: Op): System
    requires HasHeaders(s.pool)
  {
    match op
    case Alloc(nbytes, answer) =>
      System(AllocPool(s.pool, Rounded(nbytes), answer), AllocDevice(s.pool, s.device, Rounded(nbytes), answer))
    case Free(data) => s.(pool := FreePool(s.pool, data))
  }

  /** The device answers with an address that is not in use, and nobody frees null when nothing is handed out. */
  predicate Proper(s: System, op: Op)
    requires HasHeaders(s.pool)
  {
    match op
    case Alloc(nbytes, answer) => MayAnswer(s.pool, s.device, Rounded(nbytes), answer)
    case Free(data) => !(data == NULL && Outstanding(s.pool) == 0)
  }

  /** Every call of the run is proper in the state it is made in. */
  predicate ProperRun(s: System, ops: seq<Op>)
    decreases |ops|
  {
    HasHeaders(s.pool) && (ops == [] || (Proper(s, ops[0]) && ProperRun(Step(s, ops[0]), ops[1..])))
  }

  function Run(s: System, ops: seq<Op>): System
    requires ProperRun(s, ops)
    decreases |ops|
  {
    if ops == [] then s else Run(Step(s, ops[0]), ops[1..])
  }

  /** Besides what others use, the device has exactly the pool's blocks in use. */
  ghost predicate Backs(s: System, others: set<Addr>)
    requires HasHeaders(s.pool)
  {
    forall a :: && (a in s.device.live <==> a in others || a in Owned(s.pool))
                && !(a in others && a in Owned(s.pool))
  }

  ghost predicate Good(s: System, others: set<Addr>) {
    HasHeaders(s.pool) && Inv(s.pool) && Backs(s, others)
  }

  lemma StepKeepsGood(s: System, op: Op, others: set<Addr>)
    requires Good(s, others) && Proper(s, op)
    ensures Good(Step(s, op), others)
  {
    match op
    case Alloc(nbytes, answer) => AllocKeepsInv(s.pool, s.device, Rounded(nbytes), answer, others);
    case Free(data) => FreeKeepsInvExactly(s.pool, data);
  }

  lemma {:induction false} RunKeepsGood(s: System, ops: seq<Op>, others: set<Addr>)
    requires Good(s, others) && ProperRun(s, ops)
    ensures Good(Run(s, ops), others)
    decreases |ops|
  {
    if ops != [] {
      StepKeepsGood(s, ops[0], others);
      RunKeepsGood(Step(s, ops[0]), ops[1..], others);
    }
  }

  function Max(a: int, b: int): int {
    if a > b then a else b
  }

  /** The largest number of blocks handed out at the same time in the course of the run. */
  function Peak(s: System, ops: seq<Op>): int
    requires ProperRun(s, ops)
    decreases |ops|
  {
    if ops == [] then Outstanding(s.pool) else Max(Outstanding(s.pool), Peak(Step(s, ops[0]), ops[1..]))
  }

  lemma StepCounts(s: System, op: Op, others: set<Addr>)
    requires Good(s, others) && Proper(s, op)
    ensures OwnedCount(Step(s, op).pool) == Max(OwnedCount(s.pool), Outstanding(Step(s, op).pool))
  {
    var p := s.pool;
    match op
    case Alloc(nbytes, answer) =>
      if !AsksDevice(p, Rounded(nbytes)) {
        FitIsBehindHeader(p, Rounded(nbytes));
      }
    case Free(data) =>
      FreeFindsTheBlock(p, data);
      if FreeAccepts(p, data) {
        InsertKeepsSorted(p.free, p.handed[FreeIndex(p, data)]);
      }
  }

  lemma {:induction false} OwnedFollowsPeak(s: System, ops: seq<Op>, others: set<Addr>)
    requires Good(s, others) && ProperRun(s, ops)
    ensures OwnedCount(Run(s, ops).pool) == Max(OwnedCount(s.pool), Peak(s, ops))
    decreases |ops|
  {
    if ops != [] {
      StepKeepsGood(s, ops[0], others);
      StepCounts(s, ops[0], others);
      OwnedFollowsPeak(Step(s, ops[0]), ops[1..], others);
    }
  }

  lemma EmptyIsGood(d: Device)
    ensures Good(System(EMPTY, d), d.live)
  {
    assert Owned(EMPTY) == multiset{};
  }

  /** Exact memory bound: after any run from an empty pool the pool owns exactly as many device blocks as were ever
      handed out at the same time. */
  lemma OwnedIsPeak(d: Device, ops: seq<Op>)
    requires ProperRun(System(EMPTY, d), ops)
    ensures OwnedCount(Run(System(EMPTY, d), ops).pool) == Peak(System(EMPTY, d), ops)
  {
    EmptyIsGood(d);
    OwnedFollowsPeak(System(EMPTY, d), ops, d.live);
  }

  // ----- What the device is told -----

  /** What is in use after these calls. */
  function LiveAfter(live: set<Addr>, calls: seq<Call>): set<Addr> {
    if calls == [] then live
    else
      var before := LiveAfter(live, calls[..|calls| - 1]);
      match calls[|calls| - 1]
      case DevAlloc(data, _) => before + {data}
      case DevFree(data) => before - {data}
  }

  /** Nothing is freed that is not in use, and nothing handed out that is. */
  predicate CallsOk(live: set<Addr>, calls: seq<Call>) {
    calls == [] || (
      var n := |calls| - 1;
      && CallsOk(live, calls[..n])
      && match calls[n]
         case DevAlloc(data, _) => data !in LiveAfter(live, calls[..n])
         case DevFree(data) => data in LiveAfter(live, calls[..n]))
  }

  /** The size the block at this address was made with. */
  function MadeWith(calls: seq<Call>, data: Addr): nat {
    if calls == [] then 0
    else
      match calls[|calls| - 1]
      case DevAlloc(a, size) => if a == data then size else MadeWith(calls[..|calls| - 1], data)
      case DevFree(a) => if a == data then 0 else MadeWith(calls[..|calls| - 1], data)
  }

  /** The calls made so far explain what is in use and how large the pool's blocks are. */
  ghost predicate Explained(s: System, live: set<Addr>, calls: seq<Call>) {
    && CallsOk(live, calls) && LiveAfter(live, calls) == s.device.live
    && (forall i :: 1 <= i < |s.pool.free| ==> MadeWith(calls, s.pool.free[i].data) == s.pool.free[i].size)
    && (forall i :: 1 <= i < |s.pool.handed| ==> MadeWith(calls, s.pool.handed[i].data) == s.pool.handed[i].size)
  }

  lemma OneCallMore(live: set<Addr>, calls: seq<Call>, call: Call, data: Addr)
    ensures var after := calls + [call];
            && LiveAfter(live, after) ==
               (if call.DevAlloc? then LiveAfter(live, calls) + {call.data} else LiveAfter(live, calls) - {call.data})
            && (CallsOk(live, after) <==>
                  CallsOk(live, calls) && (call.data in LiveAfter(live, calls) <==> call.DevFree?))
            && MadeWith(after, data) ==
               if call.data != data then MadeWith(calls, data) else if call.DevAlloc? then call.size else 0
  {
    assert (calls + [call])[..|calls|] == calls;
  }

  /** The calls an operation makes. */
  function CallsOf(s: System, op: Op): seq<Call>
    requires HasHeaders(s.pool)
  {
    match op
    case Free(_) => []
    case Alloc(nbytes, answer) =>
      var n := Rounded(nbytes);
      if !AsksDevice(s.pool, n) then []
      else (if |s.pool.free| == 1 then [] else [DevFree(Last(s.pool.free).data)]) + [DevAlloc(answer, n)]
  }

  lemma FreeExplained(s: System, data: Addr, others: set<Addr>, live: set<Addr>, calls: seq<Call>)
    requires Good(s, others) && Explained(s, live, calls) && Proper(s, Free(data))
    ensures Explained(Step(s, Free(data)), live, calls)
  {
    hide NoRepeats, Backs, MadeWith, CallsOk, LiveAfter, FreeAccepts, FreeIndex, Insert, Outstanding;
    FreeFindsTheBlock(s.pool, data);
    if FreeAccepts(s.pool, data) {
      var e := s.pool.handed[FreeIndex(s.pool, data)];
      InsertKeepsSorted(s.pool.free, e);
      var k :| 1 <= k <= |s.pool.free| && Insert(s.pool.free, e) == s.pool.free[..k] + [e] + s.pool.free[k..];
    }
  }

  lemma ServedExplained(s: System, nbytes: nat, answer: Addr, others: set<Addr>, live: set<Addr>, calls: seq<Call>)
    requires Good(s, others) && Explained(s, live, calls) && !AsksDevice(s.pool, Rounded(nbytes))
    ensures Explained(Step(s, Alloc(nbytes, answer)), live, calls)
  {
    hide NoRepeats, Backs, MadeWith, CallsOk, LiveAfter, Rounded;
    FitIsBehindHeader(s.pool, Rounded(nbytes));
  }

  lemma MadeExplained(s: System, nbytes: nat, answer: Addr, others: set<Addr>, live: set<Addr>, calls: seq<Call>)
    requires Good(s, others) && Explained(s, live, calls) && AsksDevice(s.pool, Rounded(nbytes))
    requires Proper(s, Alloc(nbytes, answer))
    ensures Explained(Step(s, Alloc(nbytes, answer)), live, calls + CallsOf(s, Alloc(nbytes, answer)))
  {
    hide NoRepeats, MadeWith, CallsOk, LiveAfter, Rounded;
    var n := Rounded(nbytes);
    var s' := Step(s, Alloc(nbytes, answer));
    var p := s.pool;
    var middle := calls;
    if |p.free| > 1 {
      middle := calls + [DevFree(Last(p.free).data)];
      LastIsOwned(s, others);
    }
    assert calls + CallsOf(s, Alloc(nbytes, answer)) == middle + [DevAlloc(answer, n)];
    forall data
      ensures && LiveAfter(live, middle)
                 == (if |p.free| > 1 then s.device.live - {Last(p.free).data} else s.device.live)
              && CallsOk(live, middle)
              && MadeWith(middle + [DevAlloc(answer, n)], data) ==
                 if data == answer then n
                 else if |p.free| > 1 && data == Last(p.free).data then 0 else MadeWith(calls, data)
    {
      OneCallMore(live, calls, DevFree(Last(p.free).data), data);
      OneCallMore(live, middle, DevAlloc(answer, n), data);
    }
    OneCallMore(live, middle, DevAlloc(answer, n), answer);
    OthersKeepTheirData(s, others, answer);
  }

  lemma LastIsOwned(s: System, others: set<Addr>)
    requires Good(s, others) && |s.pool.free| > 1
    ensures Last(s.pool.free).data in s.device.live
  {
    AddrsMember(s.pool.free[1..], |s.pool.free| - 2);
  }

  /** The other blocks are neither the one given up nor the one made. */
  lemma OthersKeepTheirData(s: System, others: set<Addr>, answer: Addr)
    requires Good(s, others)
    requires answer !in (if |s.pool.free| == 1 then s.device.live else s.device.live - {Last(s.pool.free).data})
    ensures forall i :: 1 <= i < |s.pool.free| - 1 ==>
              s.pool.free[i].data != Last(s.pool.free).data && s.pool.free[i].data != answer
    ensures forall i :: 1 <= i < |s.pool.handed| ==>
              (|s.pool.free| > 1 ==> s.pool.handed[i].data != Last(s.pool.free).data) && s.pool.handed[i].data != answer
  {
    var p := s.pool;
    var n := |p.free|;
    forall i | 1 <= i < n - 1
      ensures p.free[i].data != Last(p.free).data && p.free[i].data != answer
    {
      assert Owned(p)[p.free[i].data] <= 1;
      AddrsMember(p.free[1..], i - 1);
      if p.free[i].data == Last(p.free).data {
        AddrsTwice(p.free[1..], i - 1, n - 2);
      }
    }
    forall i | 1 <= i < |p.handed|
      ensures (n > 1 ==> p.handed[i].data != Last(p.free).data) && p.handed[i].data != answer
    {
      assert Owned(p)[p.handed[i].data] <= 1;
      AddrsMember(p.handed[1..], i - 1);
      if n > 1 {
        AddrsMember(p.free[1..], n - 2);
      }
    }
  }

  lemma {:induction false} CallsExplain(s: System, ops: seq<Op>, others: set<Addr>, live: set<Addr>, calls: seq<Call>)
      returns (more: seq<Call>)
    requires Good(s, others) && ProperRun(s, ops) && Explained(s, live, calls)
    ensures Run(s, ops).device.log == s.device.log + more && Explained(Run(s, ops), live, calls + more)
    decreases |ops|
  {
    hide Good, Explained, Step, Proper, CallsOf;
    if ops == [] {
      more := [];
      assert calls + more == calls && s.device.log + more == s.device.log;
    } else {
      var own := CallsOf(s, ops[0]);
      StepIsTold(s, ops[0], others, live, calls);
      StepKeepsGood(s, ops[0], others);
      var rest := CallsExplain(Step(s, ops[0]), ops[1..], others, live, calls + own);
      more := own + rest;
      assert calls + own + rest == calls + more && s.device.log + own + rest == s.device.log + more;
    }
  }

  lemma StepIsTold(s: System, op: Op, others: set<Addr>, live: set<Addr>, calls: seq<Call>)
    requires Good(s, others) && Proper(s, op) && Explained(s, live, calls)
    ensures Step(s, op).device.log == s.device.log + CallsOf(s, op)
    ensures Explained(Step(s, op), live, calls + CallsOf(s, op))
  {
    hide Inv, Backs, Explained, Rounded;
    match op
    case Free(data) =>
      FreeExplained(s, data, others, live, calls);
      assert calls + [] == calls && s.device.log + [] == s.device.log;
    case Alloc(nbytes, answer) =>
      if AsksDevice(s.pool, Rounded(nbytes)) {
        MadeExplained(s, nbytes, answer, others, live, calls);
      } else {
        ServedExplained(s, nbytes, answer, others, live, calls);
        assert calls + [] == calls && s.device.log + [] == s.device.log;
      }
  }

  /** Over any run from an empty pool the calls on the device explain everything: none frees what is not in use or gets
      what is, together they leave in use what is in use, and every block of the pool is as large as it was made. */
  lemma DeviceIsTold(d: Device, ops: seq<Op>) returns (calls: seq<Call>)
    requires ProperRun(System(EMPTY, d), ops)
    ensures var s := Run(System(EMPTY, d), ops);
            && s.device.log == d.log + calls && CallsOk(d.live, calls) && LiveAfter(d.live, calls) == s.device.live
            && (forall i :: 1 <= i < |s.pool.free| ==> MadeWith(calls, s.pool.free[i].data) == s.pool.free[i].size)
            && (forall i :: 1 <= i < |s.pool.handed| ==>
                    MadeWith(calls, s.pool.handed[i].data) == s.pool.handed[i].size)
  {
    hide Run, CallsOk, LiveAfter, MadeWith, Good;
    EmptyIsGood(d);
    NothingToExplain(d);
    calls := CallsExplain(System(EMPTY, d), ops, d.live, d.live, []);
    assert [] + calls == calls;
  }

  lemma NothingToExplain(d: Device)
    ensures Explained(System(EMPTY, d), d.live, [])
  {
  }

  // ----- Release -----

  function ReleaseCalls(s: seq<Entry>): seq<Call> {
    if s == [] then [] else [DevFree(s[0].data)] + ReleaseCalls(s[1..])
  }

  function FreedBy(calls: seq<Call>): multiset<Addr> {
    if calls == [] then multiset{}
    else (if calls[0].DevFree? then multiset{calls[0].data} else multiset{}) + FreedBy(calls[1..])
  }

  /** All free blocks go back to the device; nothing may be handed out. */
  function ReleaseDevice(p: Pool, d: Device): Device
    requires |p.free| >= 1
  {
    Device(d.live - (set a | a in Addrs(p.free[1..])), d.log + ReleaseCalls(p.free[1..]))
  }

  lemma {:induction false} ReleaseFreesEach(s: seq<Entry>)
    ensures FreedBy(ReleaseCalls(s)) == Addrs(s)
  {
    hide Addrs;
    if s == [] {
      EmptyHasNone();
    } else {
      ReleaseFreesEach(s[1..]);
      AddrsFirst(s);
      assert ReleaseCalls(s)[0] == DevFree(s[0].data) && ReleaseCalls(s)[1..] == ReleaseCalls(s[1..]);
    }
  }

  /** No leak and no double free: when everything handed out over a run has come back, releasing the pool returns
      every block it owns to the device exactly once, and leaves in use just what others were using at the start. */
  lemma ReleaseReturnsEverything(d: Device, ops: seq<Op>)
    requires ProperRun(System(EMPTY, d), ops)
    requires Outstanding(Run(System(EMPTY, d), ops).pool) == 0
    ensures var s := Run(System(EMPTY, d), ops);
            && HasHeaders(s.pool)
            && ReleaseDevice(s.pool, s.device).live == d.live
            && FreedBy(ReleaseCalls(s.pool.free[1..])) == Owned(s.pool)
            && (forall a :: FreedBy(ReleaseCalls(s.pool.free[1..]))[a] <= 1)
            && (forall a :: a in FreedBy(ReleaseCalls(s.pool.free[1..])) ==> a in s.device.live && a !in d.live)
  {
    EmptyIsGood(d);
    RunKeepsGood(System(EMPTY, d), ops, d.live);
    var s := Run(System(EMPTY, d), ops);
    ReleaseFreesEach(s.pool.free[1..]);
    assert s.pool.handed[1..] == [];
    assert Owned(s.pool) == Addrs(s.pool.free[1..]);
  }

  // ----- Replay needs no device -----

  function Sizes(s: seq<Entry>): (r: seq<nat>)
    ensures |r| == |s| && forall i :: 0 <= i < |s| ==> r[i] == s[i].size
  {
    seq(|s|, i requires 0 <= i < |s| => s[i].size)
  }

  /** How many of the sizes are at least `t`. */
  function CountGe(s: seq<nat>, t: nat): nat {
    if s == [] then 0 else (if s[0] >= t then 1 else 0) + CountGe(s[1..], t)
  }

  /** For every threshold the free list has at least as many blocks of that size as there are requests. */
  ghost predicate Dominates(free: seq<Entry>, requests: seq<nat>) {
    forall t :: t >= 1 ==> CountGe(Sizes(free), t) >= CountGe(requests, t)
  }

  lemma {:induction false} CountConcat(a: seq<nat>, b: seq<nat>, t: nat)
    ensures CountGe(a + b, t) == CountGe(a, t) + CountGe(b, t)
  {
    if a == [] {
      assert a + b == b;
    } else {
      assert (a + b)[1..] == a[1..] + b;
      CountConcat(a[1..], b, t);
    }
  }

  lemma CountAround(a: seq<nat>, x: nat, b: seq<nat>, t: nat)
    ensures CountGe(a + [x] + b, t) == CountGe(a + b, t) + if x >= t then 1 else 0
  {
    CountConcat(a + [x], b, t);
    CountConcat(a, [x], t);
    CountConcat(a, b, t);
  }

  lemma {:induction false} CountPositive(s: seq<nat>, t: nat) returns (i: nat)
    requires CountGe(s, t) > 0
    ensures i < |s| && s[i] >= t
  {
    if s[0] >= t {
      i := 0;
    } else {
      i := CountPositive(s[1..], t);
      i := i + 1;
    }
  }

  lemma {:induction false} CountAgree(s: seq<nat>, t: nat, u: nat)
    requires forall i :: 0 <= i < |s| ==> (s[i] >= t <==> s[i] >= u)
    ensures CountGe(s, t) == CountGe(s, u)
  {
    if s != [] {
      CountAgree(s[1..], t, u);
    }
  }

  lemma {:induction false} CountMonotone(s: seq<nat>, t: nat, u: nat)
    requires t <= u
    ensures CountGe(s, t) >= CountGe(s, u)
  {
    if s != [] {
      CountMonotone(s[1..], t, u);
    }
  }

  lemma SizesAround(a: seq<Entry>, e: Entry, b: seq<Entry>, t: nat)
    ensures CountGe(Sizes(a + [e] + b), t) == CountGe(Sizes(a + b), t) + if e.size >= t then 1 else 0
  {
    assert Sizes(a + [e] + b) == Sizes(a) + [e.size] + Sizes(b);
    assert Sizes(a + b) == Sizes(a) + Sizes(b);
    CountAround(Sizes(a), e.size, Sizes(b), t);
  }

  lemma WithoutOne(free: seq<Entry>, k: nat, t: nat)
    requires k < |free|
    ensures CountGe(Sizes(Remove(free, k)), t) == CountGe(Sizes(free), t) - if free[k].size >= t then 1 else 0
  {
    assert free == free[..k] + [free[k]] + free[k + 1..];
    SizesAround(free[..k], free[k], free[k + 1..], t);
  }

  /** Between the request and the block taken for it there is no other size. */
  lemma NoneBetween(free: seq<Entry>, n: nat, t: nat)
    requires SortedBySize(free) && FirstFit(free, 0, n) < |free|
    requires n <= t <= free[FirstFit(free, 0, n)].size
    ensures CountGe(Sizes(free), t) == CountGe(Sizes(free), n)
  {
    CountAgree(Sizes(free), n, t);
  }

  /** The heart of the matter: taking a smallest sufficient block for one request leaves enough for the others. */
  lemma ServeOne(p: Pool, n: nat, rest: seq<nat>, answer: Addr)
    requires Inv(p) && n > 0 && Dominates(p.free, [n] + rest)
    ensures !AsksDevice(p, n) && Dominates(AllocPool(p, n, answer).free, rest)
  {
    CountConcat([n], rest, n);
    var j := CountPositive(Sizes(p.free), n);
    FitIsBehindHeader(p, n);
    var k := FirstFit(p.free, 0, n);
    forall t | t >= 1
      ensures CountGe(Sizes(Remove(p.free, k)), t) >= CountGe(rest, t)
    {
      CountConcat([n], rest, t);
      WithoutOne(p.free, k, t);
      if n < t <= p.free[k].size {
        NoneBetween(p.free, n, t);
        CountMonotone(rest, n, t);
      }
    }
  }

  lemma InsertDominates(free: seq<Entry>, e: Entry, requests: seq<nat>)
    requires |free| >= 1 && SortedBySize(free) && free[0].size <= e.size && Dominates(free, requests)
    ensures Dominates(Insert(free, e), requests)
  {
    InsertKeepsSorted(free, e);
    var i :| 1 <= i <= |free| && Insert(free, e) == free[..i] + [e] + free[i..];
    assert free == free[..i] + free[i..];
    forall t | t >= 1
      ensures CountGe(Sizes(Insert(free, e)), t) >= CountGe(requests, t)
    {
      SizesAround(free[..i], e, free[i..], t);
    }
  }

  /** The rounded sizes of the allocations of a run. */
  function Requests(ops: seq<Op>): seq<nat> {
    if ops == [] then []
    else (if ops[0].Alloc? then [Rounded(ops[0].nbytes)] else []) + Requests(ops[1..])
  }

  /** A run whose requests are dominated by the free list makes no device call, in whatever order the requests come
      and whatever is freed in between. */
  lemma {:induction false} DominatedNeedsNoDevice(s: System, ops: seq<Op>, others: set<Addr>)
    requires Good(s, others) && ProperRun(s, ops) && Dominates(s.pool.free, Requests(ops))
    ensures Run(s, ops).device == s.device
    decreases |ops|
  {
    if ops != [] {
      StepKeepsGood(s, ops[0], others);
      match ops[0] {
        case Alloc(nbytes, answer) =>
          ServeOne(s.pool, Rounded(nbytes), Requests(ops[1..]), answer);
        case Free(data) =>
          assert Requests(ops) == Requests(ops[1..]);
          FreeFindsTheBlock(s.pool, data);
          if FreeAccepts(s.pool, data) {
            InsertDominates(s.pool.free, s.pool.handed[FreeIndex(s.pool, data)], Requests(ops));
          }
      }
      DominatedNeedsNoDevice(Step(s, ops[0]), ops[1..], others);
    }
  }

  /** The first element of `a` can be cut out of both sequences. */
  lemma CutOut<T>(a: seq<T>, b: seq<T>) returns (i: nat)
    requires a != [] && multiset(a) <= multiset(b)
    ensures i < |b| && b[i] == a[0] && multiset(a[1..]) <= multiset(b[..i] + b[i + 1..])
  {
    assert a[0] in multiset(a);
    i :| 0 <= i < |b| && b[i] == a[0];
    assert a == [a[0]] + a[1..];
    assert b == b[..i] + [b[i]] + b[i + 1..];
    assert multiset(a) == multiset{a[0]} + multiset(a[1..]);
    var b' := b[..i] + b[i + 1..];
    assert multiset(b) == multiset(b') + multiset{b[i]};
    SmallerBoth(a[0], multiset(a[1..]), multiset(b'));
  }

  lemma SmallerBoth<T>(x: T, a: multiset<T>, b: multiset<T>)
    requires multiset{x} + a <= b + multiset{x}
    ensures a <= b
  {
    assert a == multiset{x} + a - multiset{x};
    assert b == b + multiset{x} - multiset{x};
  }

  lemma {:induction false} FewerSizes(a: seq<nat>, b: seq<nat>, t: nat)
    requires multiset(a) <= multiset(b)
    ensures CountGe(a, t) <= CountGe(b, t)
  {
    if a != [] {
      var i := CutOut(a, b);
      CountAround(b[..i], b[i], b[i + 1..], t);
      assert b == b[..i] + [b[i]] + b[i + 1..];
      FewerSizes(a[1..], b[..i] + b[i + 1..], t);
    }
  }

  lemma {:induction false} FewerEntries(a: seq<Entry>, b: seq<Entry>, t: nat)
    requires multiset(a) <= multiset(b)
    ensures CountGe(Sizes(a), t) <= CountGe(Sizes(b), t)
  {
    if a != [] {
      var i := CutOut(a, b);
      WithoutOne(b, i, t);
      WithoutOne(a, 0, t);
      assert Remove(a, 0) == a[1..];
      FewerEntries(a[1..], Remove(b, i), t);
    }
  }

  predicate AllAllocs(ops: seq<Op>) {
    forall i :: 0 <= i < |ops| ==> ops[i].Alloc?
  }

  predicate AllFrees(ops: seq<Op>) {
    forall i :: 0 <= i < |ops| ==> ops[i].Free?
  }

  predicate AtLeast(a: seq<nat>, b: seq<nat>) {
    |a| == |b| && forall i :: 0 <= i < |a| ==> a[i] >= b[i]
  }

  lemma {:induction false} CountAtLeast(a: seq<nat>, b: seq<nat>, t: nat)
    requires AtLeast(a, b)
    ensures CountGe(a, t) >= CountGe(b, t)
  {
    if a != [] {
      CountAtLeast(a[1..], b[1..], t);
    }
  }

  /** A run of allocations hands out one block for each request, each large enough, on top of what was handed out. */
  lemma {:induction false} AllocsHandOut(s: System, ops: seq<Op>, others: set<Addr>) returns (blocks: seq<Entry>)
    requires Good(s, others) && AllAllocs(ops) && ProperRun(s, ops)
    ensures Run(s, ops).pool.handed == s.pool.handed + blocks
    ensures AtLeast(Sizes(blocks), Requests(ops))
    decreases |ops|
  {
    if ops == [] {
      blocks := [];
    } else {
      var e := HandsOutOne(s, ops[0], others);
      StepKeepsGood(s, ops[0], others);
      var rest := AllocsHandOut(Step(s, ops[0]), ops[1..], others);
      blocks := [e] + rest;
      AppendTwice(s.pool.handed, e, rest);
      AtLeastCons(e, rest, ops);
    }
  }

  lemma AppendTwice(a: seq<Entry>, e: Entry, b: seq<Entry>)
    ensures (a + [e]) + b == a + ([e] + b)
  {
  }

  lemma AtLeastCons(e: Entry, rest: seq<Entry>, ops: seq<Op>)
    requires ops != [] && ops[0].Alloc? && e.size >= Rounded(ops[0].nbytes)
    requires AtLeast(Sizes(rest), Requests(ops[1..]))
    ensures AtLeast(Sizes([e] + rest), Requests(ops))
  {
  }

  lemma HandsOutOne(s: System, op: Op, others: set<Addr>) returns (e: Entry)
    requires Good(s, others) && op.Alloc?
    ensures Step(s, op).pool.handed == s.pool.handed + [e] && e.size >= Rounded(op.nbytes)
  {
    AllocIsBestFit(s.pool, Rounded(op.nbytes), op.answer);
    e := Last(Step(s, op).pool.handed);
  }

  lemma InsertContains(free: seq<Entry>, e: Entry, x: Entry)
    requires |free| >= 1 && SortedBySize(free) && free[0].size <= e.size && (x == e || x in free)
    ensures x in Insert(free, e)
  {
    hide Insert;
    InsertKeepsSorted(free, e);
    var i :| 1 <= i <= |free| && Insert(free, e) == free[..i] + [e] + free[i..];
    assert free == free[..i] + free[i..];
  }

  /** A block that is handed out and whose address is among those freed ends up free, and stays so. */
  lemma {:induction false} FreesReturn(s: System, ops: seq<Op>, others: set<Addr>, e: Entry)
    requires Good(s, others) && AllFrees(ops) && ProperRun(s, ops)
    requires e in s.pool.free || (e in s.pool.handed[1..] && Free(e.data) in ops)
    ensures e in Run(s, ops).pool.free
    decreases |ops|
  {
    if ops != [] {
      StepKeepsGood(s, ops[0], others);
      FreeMoves(s.pool, ops[0].data, e);
      FreesReturn(Step(s, ops[0]), ops[1..], others, e);
    }
  }

  lemma FreeMoves(p: Pool, data: Addr, e: Entry)
    requires Inv(p) && !(data == NULL && Outstanding(p) == 0)
    ensures e in p.free ==> e in FreePool(p, data).free
    ensures e in p.handed[1..] ==>
              if e.data == data then e in FreePool(p, data).free else e in FreePool(p, data).handed[1..]
  {
    hide NoRepeats, FreeAccepts, FreeIndex, Insert, Outstanding;
    FreeFindsTheBlock(p, data);
    if e in p.handed[1..] {
      var j :| 0 <= j < |p.handed[1..]| && p.handed[1..][j] == e;
      HandedMoves(p, data, j + 1);
    }
    if FreeAccepts(p, data) && e in p.free {
      InsertContains(p.free, p.handed[FreeIndex(p, data)], e);
    }
  }

  lemma HandedMoves(p: Pool, data: Addr, j: nat)
    requires Inv(p) && !(data == NULL && Outstanding(p) == 0) && 1 <= j < |p.handed|
    ensures var e := p.handed[j];
            if e.data == data then e in FreePool(p, data).free else e in FreePool(p, data).handed[1..]
  {
    hide NoRepeats, FreeAccepts, FreeIndex, Insert, Outstanding;
    FreeFindsTheBlock(p, data);
    HandedAddress(p, j);
    if FreeAccepts(p, data) {
      var i := FreeIndex(p, data);
      if j == i {
        InsertContains(p.free, p.handed[i], p.handed[i]);
      } else {
        assert Remove(p.handed, i)[1..][if j < i then j - 1 else j - 2] == p.handed[j];
      }
    }
  }

  lemma {:induction false} DistinctInside(a: seq<Entry>, b: seq<Entry>)
    requires forall i :: 0 <= i < |a| ==> a[i] in b
    requires forall i, j :: 0 <= i < j < |a| ==> a[i] != a[j]
    ensures multiset(a) <= multiset(b)
  {
    if a != [] {
      var n := |a| - 1;
      var i :| 0 <= i < |b| && b[i] == a[n];
      var b' := b[..i] + b[i + 1..];
      forall k | 0 <= k < n
        ensures a[..n][k] in b'
      {
        var j :| 0 <= j < |b| && b[j] == a[k];
        assert b'[if j < i then j else j - 1] == a[k];
      }
      DistinctInside(a[..n], b');
      assert b == b[..i] + [b[i]] + b[i + 1..];
      assert a == a[..n] + [a[n]];
      assert multiset(b) == multiset(b') + multiset{a[n]};
    }
  }

  lemma {:induction false} RunConcat(s: System, a: seq<Op>, b: seq<Op>)
    requires ProperRun(s, a) && ProperRun(Run(s, a), b)
    ensures ProperRun(s, a + b) && Run(s, a + b) == Run(Run(s, a), b)
    decreases |a|
  {
    hide Step, Proper;
    if a == [] {
      assert a + b == b;
    } else {
      assert (a + b)[0] == a[0] && (a + b)[1..] == a[1..] + b;
      RunConcat(Step(s, a[0]), a[1..], b);
    }
  }

  /** Replay needs no device.  From any well-formed state: make some allocations, then free what they handed out, in
      any order and possibly among other things; a later phase whose requests are, in any order, among those of the
      first phase is served from the free list alone, frees in between or not. */
  lemma ReplayNeedsNoDevice(s: System, first: seq<Op>, frees: seq<Op>, second: seq<Op>, others: set<Addr>)
    requires Good(s, others)
    requires AllAllocs(first) && ProperRun(s, first)
    requires AllFrees(frees) && ProperRun(Run(s, first), frees)
    requires forall i :: |s.pool.handed| <= i < |Run(s, first).pool.handed| ==>
               Free(Run(s, first).pool.handed[i].data) in frees
    requires ProperRun(Run(Run(s, first), frees), second)
    requires multiset(Requests(second)) <= multiset(Requests(first))
    ensures Run(Run(Run(s, first), frees), second).device == Run(Run(s, first), frees).device
  {
    var s1 := Run(s, first);
    var s2 := Run(s1, frees);
    var blocks := AllocsHandOut(s, first, others);
    RunKeepsGood(s, first, others);
    RunKeepsGood(s1, frees, others);
    BlocksAreBack(s1, |s.pool.handed|, frees, others);
    assert s1.pool.handed[|s.pool.handed|..] == blocks;
    forall t | t >= 1
      ensures CountGe(Sizes(s2.pool.free), t) >= CountGe(Requests(second), t)
    {
      FewerEntries(blocks, s2.pool.free, t);
      CountAtLeast(Sizes(blocks), Requests(first), t);
      FewerSizes(Requests(second), Requests(first), t);
    }
    DominatedNeedsNoDevice(s2, second, others);
  }

  lemma HandedDiffer(p: Pool, i: nat, j: nat)
    requires Inv(p) && 1 <= i < j < |p.handed|
    ensures p.handed[i] != p.handed[j]
  {
    HandedAddress(p, i);
  }

  lemma BlockIsBack(s: System, i: nat, frees: seq<Op>, others: set<Addr>)
    requires Good(s, others) && AllFrees(frees) && ProperRun(s, frees)
    requires 1 <= i < |s.pool.handed| && Free(s.pool.handed[i].data) in frees
    ensures s.pool.handed[i] in Run(s, frees).pool.free
  {
    assert s.pool.handed[1..][i - 1] == s.pool.handed[i];
    FreesReturn(s, frees, others, s.pool.handed[i]);
  }

  lemma BlocksAreBack(s: System, from: nat, frees: seq<Op>, others: set<Addr>)
    requires Good(s, others) && AllFrees(frees) && ProperRun(s, frees)
    requires 1 <= from <= |s.pool.handed|
    requires forall i :: from <= i < |s.pool.handed| ==> Free(s.pool.handed[i].data) in frees
    ensures multiset(s.pool.handed[from..]) <= multiset(Run(s, frees).pool.free)
  {
    hide Inv, Backs, ProperRun, Run, AllFrees;
    var blocks := s.pool.handed[from..];
    forall i | 0 <= i < |blocks|
      ensures blocks[i] in Run(s, frees).pool.free
    {
      BlockIsBack(s, from + i, frees, others);
    }
    BlocksDiffer(s.pool, from);
    DistinctInside(blocks, Run(s, frees).pool.free);
  }

  lemma BlocksDiffer(p: Pool, from: nat)
    requires Inv(p) && 1 <= from <= |p.handed|
    ensures forall i, j :: 0 <= i < j < |p.handed[from..]| ==> p.handed[from..][i] != p.handed[from..][j]
  {
    forall i, j | 0 <= i < j < |p.handed[from..]|
      ensures p.handed[from..][i] != p.handed[from..][j]
    {
      HandedDiffer(p, from + i, from + j);
    }
  }
}
