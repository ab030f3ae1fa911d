/** The operations of ndarray.h and ndarray.cc, statement by statement, on the objects of module NDArraySpec.  A
    reference counts as given up when its counter goes down, although the pointer is cleared only after the deleters
    that this starts have run. */
module NDArray {
  import opened NDArraySpec
  import opened Wrappers

  datatype DType = DType(code: nat, bits: nat, lanes: nat)

  const UINT_CODE: nat := 1

  /** `VerifyDataType`: whole bytes and a power of two, or the one-bit unsigned integer that stands for bool. */
  predicate ValidType(t: DType) {
    t.lanes >= 1 && (t.bits in {0, 8, 16, 32, 64, 128} || (t.bits == 1 && t.code == UINT_CODE))
  }

  function Product(shape: seq<int>): int {
    if shape == [] then 1 else Product(shape[..|shape| - 1]) * shape[|shape| - 1]
  }

  /** The number of bytes that the elements take. */
  function Extent(shape: seq<int>, t: DType): int {
    Product(shape) * ((t.bits * t.lanes + 7) / 8)
  }

  /** That number in 64 bits. */
  function Bytes(shape: seq<int>, t: DType): Word {
    Extent(shape, t) % ADDRESSES
  }

  lemma ModProduct(a: int, b: int)
    ensures ((a % ADDRESSES) * b) % ADDRESSES == (a * b) % ADDRESSES
    ensures (a * (b % ADDRESSES)) % ADDRESSES == (a * b) % ADDRESSES
  {
    ModOfSum((a % ADDRESSES) * b, (a / ADDRESSES) * b);
    assert (a % ADDRESSES) * b + ADDRESSES * ((a / ADDRESSES) * b) == (a % ADDRESSES + ADDRESSES * (a / ADDRESSES)) * b;
    ModOfSum(a * (b % ADDRESSES), a * (b / ADDRESSES));
    assert a * (b % ADDRESSES) + ADDRESSES * (a * (b / ADDRESSES)) == a * (b % ADDRESSES + ADDRESSES * (b / ADDRESSES));
  }

  lemma ModOfSum(x: int, k: int)
    ensures (x + ADDRESSES * k) % ADDRESSES == x % ADDRESSES
  {
  }

  /** Every factor, a negative one too, is converted to 64 bits and every product wraps around; the result is the
      product of all of them, wrapped around once. */
  method GetDataSize(shape: seq<int>, t: DType) returns (size: Word)
    ensures size == Bytes(shape, t)
  {
    size := 1;
    var i := 0;
    while i < |shape|
      invariant 0 <= i <= |shape| && size == Product(shape[..i]) % ADDRESSES
    {
      assert shape[..i + 1][..i] == shape[..i];
      ModProduct(Product(shape[..i]), shape[i] % ADDRESSES);
      ModProduct(Product(shape[..i]), shape[i]);
      size := size * (shape[i] % ADDRESSES) % ADDRESSES;
      i := i + 1;
    }
    assert shape[..i] == shape;
    ModProduct(Product(shape), (t.bits * t.lanes + 7) / 8);
    size := size * ((t.bits * t.lanes + 7) / 8) % ADDRESSES;
  }

  lemma {:induction false} ProductOfParts(a: seq<int>, b: seq<int>, n: int)
    ensures Product(a + b) == Product(a) * Product(b) && Product([n]) == n
    decreases |b|
  {
    if b == [] {
      assert a + b == a;
    } else {
      var m := |b| - 1;
      assert (a + b)[..|a| + m] == a + b[..m];
      ProductOfParts(a, b[..m], n);
      assert Product(a) * Product(b[..m]) * b[m] == Product(a) * (Product(b[..m]) * b[m]);
    }
    assert [n][..0] == [];
  }

  /** As many bits as all elements have, in whole bytes; a bool takes one. */
  lemma ExtentInBits(shape: seq<int>, t: DType)
    ensures (t.bits * t.lanes) % 8 == 0 ==> Extent(shape, t) * 8 == Product(shape) * (t.bits * t.lanes)
    ensures t.bits == 1 && t.lanes == 1 ==> Extent(shape, t) == Product(shape)
  {
    var bits := t.bits * t.lanes;
    if bits % 8 == 0 {
      assert (bits + 7) / 8 * 8 == bits;
      assert Product(shape) * ((bits + 7) / 8) * 8 == Product(shape) * ((bits + 7) / 8 * 8);
    }
  }

  predicate PowerOfTwo(n: nat) {
    n == 1 || (n > 1 && n % 2 == 0 && PowerOfTwo(n / 2))
  }

  /** The types in the terms of the source: the flag for bool, or whole bytes of a power of two (or of none). */
  lemma ValidTypeExactly(t: DType)
    requires t.bits < 256
    ensures ValidType(t) <==>
            t.lanes >= 1 &&
            ((t.code == 1 && t.bits == 1) || (t.bits % 8 == 0 && (t.bits == 0 || PowerOfTwo(t.bits))))
  {
    if t.bits % 8 == 0 {
      assert PowerOfTwo(8) && PowerOfTwo(16) && PowerOfTwo(32) && PowerOfTwo(64) && PowerOfTwo(128) by {
        assert PowerOfTwo(1) && PowerOfTwo(2) && PowerOfTwo(4);
      }
      if t.bits !in {0, 8, 16, 32, 64, 128} {
        NotPowerOfTwo(t.bits);
      }
    }
  }

  /** A power of two below 256 is one of these. */
  lemma {:induction false} NotPowerOfTwo(n: nat)
    requires n < 256 && n !in {1, 2, 4, 8, 16, 32, 64, 128}
    ensures !PowerOfTwo(n)
  {
    if n > 1 && n % 2 == 0 {
      NotPowerOfTwo(n / 2);
    }
  }

  /** A shape whose size wraps around: so many 64-bit floats take 2^64 + 8 bytes, and count as 8.  `CreateView` and
      `CreateOffsetView` accept it for an array of 16. */
  lemma ShapeWraps()
    ensures var shape, t := [0x2000_0000_0000_0001], DType(2, 64, 1);
            ValidType(t) && Extent(shape, t) == ADDRESSES + 8 && Bytes(shape, t) == 8
  {
    var shape := [0x2000_0000_0000_0001];
    assert shape[..0] == [];
    assert Product(shape) == Product(shape[..0]) * shape[0];
  }

  function Allocated(c: nat, extent: int): Container {
    Container(NoManager, Layout(Device(c), 0, 0, extent, false))
  }

  /** The links of what is being deleted. */
  ghost function LinksOf(dying: set<nat>, closing: set<nat>): set<Link> {
    (set c | c in dying :: ParentOf(c)) + set t | t in closing :: SourceOf(t)
  }

  lemma LessNothing<K, V>(m: map<K, V>)
    ensures m - {} == m
  {
  }

  lemma NoSuchKey<K, V>(m: map<K, V>, k: K)
    requires k !in m
    ensures m - {k} == m
  {
  }

  lemma AddedAndTaken(s: set<nat>, x: nat)
    requires x !in s
    ensures s + {x} - {x} == s
  {
  }

  lemma LessTwice<K, V>(m: map<K, V>, a: set<K>, b: set<K>)
    ensures m - a - b == m - (a + b) == m - (b + a)
  {
  }

  lemma OneMoreLink(dying: set<nat>, closing: set<nat>, c: set<nat>, t: set<nat>)
    ensures LinksOf(dying + c, closing + t) == LinksOf(dying, closing) + LinksOf(c, t)
    ensures c != {} && t == {} ==> forall x :: c == {x} ==> LinksOf(c, t) == {ParentOf(x)}
    ensures c == {} && t != {} ==> forall x :: t == {x} ==> LinksOf(c, t) == {SourceOf(x)}
    ensures dying + {} == dying && closing + {} == closing
  {
  }

  class Arrays {
    var next: nat
    var containers: map<nat, Container>
    var refs: map<nat, int>
    var data: map<Name, nat>
    var links: map<Link, nat>
    var handles: map<Name, int>
    var tensors: map<nat, Tensor>
    var blocks: set<nat>
    var released: seq<Block>
    /** Containers and tensors whose deleters are running: nothing refers to them any more, but they still exist. */
    ghost var dying: set<nat>
    ghost var closing: set<nat>
    /** Arrays whose reference is being given up. */
    ghost var clearing: set<Name>

    /** The heap without what is being deleted. */
    ghost function State(): Heap
      reads this
    {
      if dying == {} && closing == {} && clearing == {} then
        Heap(next, containers, refs, data, links, handles, tensors, blocks, released)
      else Remaining()
    }

    ghost function Remaining(): Heap
      reads this
    {
      Heap(next, containers - dying, refs - dying, data - clearing, links - LinksOf(dying, closing), handles,
           tensors - closing, blocks, released)
    }

    lemma StateRemains()
      ensures State() == Remaining()
    {
      assert dying == {} && closing == {} ==> LinksOf(dying, closing) == {};
      LessNothing(containers);
      LessNothing(data);
      LessNothing(refs);
      LessNothing(links);
      LessNothing(tensors);
    }

    ghost predicate Valid()
      reads this
    {
      Good(State(), None) && Settled()
    }

    /** No deleter is running. */
    ghost predicate Settled()
      reads this
    {
      dying == {} && closing == {} && clearing == {}
    }

    constructor ()
      ensures Valid() && State() == EMPTY
    {
      next, containers, refs, data, links, handles := 0, map[], map[], map[], map[], map[];
      tensors, blocks, released, dying, closing, clearing := map[], {}, [], {}, {}, {};
    }

    // ----- Containers -----

    method IncRef(c: nat)
      requires c in refs
      modifies `refs
      ensures refs == old(refs)[c := old(refs)[c] + 1]
    {
      refs := refs[c := refs[c] + 1];
    }

    method DecRef(c: nat)
      requires Good(State(), Some(c)) && c in State().containers
      modifies this
      ensures Good(State(), None) && State() == Unref(old(State()), c) && SameMarks()
      decreases c, 1
    {
      hide Good;
      GoodKeys(State(), Some(c));
      UnrefIsGood(State(), c);
      ghost var before := State();
      refs := refs[c := refs[c] - 1];
      assert State().refs == before.refs[c := refs[c]];
      if refs[c] == 0 {
        assert before.refs == State().refs[c := 1];
        if containers[c].manager.Imported? {
          DLPackDeleter(c);
        } else {
          DefaultDeleter(c);
        }
      }
    }

    twostate predicate SameMarks()
      reads this
    {
      dying == old(dying) && closing == old(closing) && clearing == old(clearing)
    }

    /** The state before the last reference to container `c` was given up. */
    ghost function Before(c: nat): Heap
      reads this
    {
      State().(refs := State().refs[c := 1])
    }

    ghost predicate MayDelete(c: nat)
      reads this
    {
      && c !in dying && c in State().containers && c in State().refs && refs[c] == 0 && Good(Before(c), Some(c))
    }

    /** Lets go of the array a container is a view of, or gives its memory back, and deletes it. */
    method DefaultDeleter(c: nat)
      requires MayDelete(c) && !containers[c].manager.Imported?
      modifies this
      ensures State() == Unref(old(Before(c)), c) && SameMarks()
      decreases c, 0
    {
      hide Good, State, Unref;
      StateRemains();
      ghost var before := Before(c);
      UnrefLast(before, c);
      if containers[c].manager == Parent {
        ViewGone(before, c);
        Mark(c);
        assert State() == WithoutView(before, c);
        StateRemains();
        DecRef(links[ParentOf(c)]);
      } else {
        RootGone(before, c);
        LastReference(before, c);
        if containers[c].layout.block != NoData {
          FreeDataSpace(containers[c].layout.block);
        }
        Mark(c);
        NoSuchKey(before.links, ParentOf(c));
        assert State() == WithoutRoot(before, c);
      }
      Delete(c);
      AddedAndTaken(old(dying), c);
    }

    method FreeDataSpace(block: Block)
      modifies `released
      ensures State() == old(State()).(released := old(State()).released + [block])
    {
      released := released + [block];
    }

    /** Has the tensor a container was made from deleted by whoever it belongs to, and deletes the container. */
    method DLPackDeleter(c: nat)
      requires MayDelete(c) && containers[c].manager.Imported?
      modifies this
      ensures State() == Unref(old(Before(c)), c) && SameMarks()
      decreases c, 0
    {
      hide Good, State, Unref;
      StateRemains();
      ghost var before := Before(c);
      UnrefLast(before, c);
      var t := containers[c].manager.tensor;
      ImportedTensor(before, c, t);
      LastReference(before, c);
      Mark(c);
      StateRemains();
      NoSuchKey(before.links, ParentOf(c));
      match tensors[t].deleter
      case NoDeleter =>
        Delete(c);
      case External =>
        CallExternal(t);
        Delete(c);
      case Own =>
        ImportGone(before, c, t);
        assert WithoutTensor(State(), t) == WithoutImport(before, c, t);
        NDArrayDLPackDeleter(t);
        Delete(c);
      AddedAndTaken(old(dying), c);
    }

    /** The owner of a tensor deletes it. */
    method CallExternal(t: nat)
      modifies `released, `tensors
      ensures State() == old(State()).(tensors := old(State()).tensors - {t},
                                       released := old(State()).released + [Foreign(t)])
    {
      hide State;
      StateRemains();
      released := released + [Foreign(t)];
      tensors := tensors - {t};
      StateRemains();
      LessTwice(old(tensors), {t}, closing);
    }

    /** The deleter of an exported tensor: lets go of the container and deletes the tensor. */
    method NDArrayDLPackDeleter(t: nat)
      requires t !in closing && t in State().tensors
      requires SourceOf(t) in State().links && State().links[SourceOf(t)] in State().containers
      requires Good(WithoutTensor(State(), t), Some(State().links[SourceOf(t)]))
      modifies this
      ensures Good(State(), None) && SameMarks()
      ensures State() == Unref(WithoutTensor(old(State()), t), old(State().links[SourceOf(t)]))
      decreases State().links[SourceOf(t)], 2
    {
      hide Good;
      CloseTensor(t);
      DecRef(links[SourceOf(t)]);
      DeleteTensor(t);
    }

    ghost method CloseTensor(t: nat)
      requires t !in closing
      modifies `closing
      ensures closing == old(closing) + {t} && State() == WithoutTensor(old(State()), t)
    {
      hide State, LinksOf;
      StateRemains();
      closing := closing + {t};
      StateRemains();
      OneMoreLink(dying, old(closing), {}, {t});
      LessTwice(links, LinksOf(dying, old(closing)), {SourceOf(t)});
      LessTwice(tensors, old(closing), {t});
    }

    /** `delete tensor`. */
    method DeleteTensor(t: nat)
      requires t in closing
      modifies `tensors, `links, `closing
      ensures closing == old(closing) - {t} && State() == old(State())
    {
      hide State, LinksOf;
      StateRemains();
      tensors, links, closing := tensors - {t}, links - {SourceOf(t)}, closing - {t};
      StateRemains();
      OneMoreLink(dying, closing, {}, {t});
      assert closing + {t} == old(closing);
      LessTwice(old(links), {SourceOf(t)}, LinksOf(dying, closing));
      LessTwice(old(tensors), {t}, closing);
    }

    /** From now on the container counts as gone. */
    ghost method Mark(c: nat)
      requires c !in dying
      modifies `dying
      ensures dying == old(dying) + {c}
      ensures State() == old(State()).(containers := old(State()).containers - {c}, refs := old(State()).refs - {c},
                                       links := old(State()).links - {ParentOf(c)})
    {
      hide State, LinksOf;
      StateRemains();
      dying := dying + {c};
      StateRemains();
      OneMoreLink(old(dying), closing, {c}, {});
      LessTwice(links, LinksOf(old(dying), closing), {ParentOf(c)});
      LessTwice(containers, old(dying), {c});
      LessTwice(refs, old(dying), {c});
    }

    /** `delete ptr`. */
    method Delete(c: nat)
      requires c in dying
      modifies `containers, `refs, `links, `dying
      ensures dying == old(dying) - {c} && State() == old(State())
    {
      hide State, LinksOf;
      StateRemains();
      containers, refs, links, dying := containers - {c}, refs - {c}, links - {ParentOf(c)}, dying - {c};
      StateRemains();
      OneMoreLink(dying, closing, {c}, {});
      assert dying + {c} == old(dying);
      LessTwice(old(links), {ParentOf(c)}, LinksOf(dying, closing));
      LessTwice(old(containers), {c}, dying);
      LessTwice(old(refs), {c}, dying);
    }

    // ----- Arrays -----

    /** `reset`: the array refers to nothing afterwards; every other array refers to what it did. */
    method ResetArray(v: Name)
      requires Valid() && v in handles
      modifies this
      ensures Valid() && State() == Reset(old(State()), v)
      ensures data == old(data) - {v} && handles == old(handles) && Untouched(old(State()).(data := data), State())
    {
      hide Good;
      ResetIsGood(State(), v);
      if v in data {
        DataLess(State(), v);
        ghost var before := State();
        clearing := {v};
        assert State() == before.(data := before.data - {v}) by {
          StateRemains();
          LessNothing(containers);
          LessNothing(refs);
          LessNothing(links);
          LessNothing(tensors);
        }
        DecRef(data[v]);
        data, clearing := data - {v}, {};
        StateRemains();
        LessNothing(data);
      }
      assert old(data) - {v} == data;
    }

    /** The destructor. */
    method Destroy(v: Name)
      requires Valid() && v in handles
      modifies this
      ensures Valid() && handles == old(handles) - {v} && data == old(data) - {v}
      ensures var h := Reset(old(State()), v); State() == h.(handles := h.handles - {v})
      ensures old(released) <= released && blocks == old(blocks)
    {
      ResetArray(v);
      handles := handles - {v};
      HandleGone(State().(handles := old(handles)), v);
    }

    /** The default constructor. */
    method Declare(v: Name)
      requires Valid() && v !in handles
      modifies `handles
      ensures Valid() && handles == old(handles)[v := -1]
    {
      handles := handles[v := -1];
    }

    method CopyConstruct(v: Name, u: Name)
      requires Valid() && u in handles && v !in handles
      modifies this
      ensures Valid() && State() == Copied(old(State()), v, u)
      ensures handles == old(handles)[v := old(handles)[u]]
      ensures data == if u in old(data) then old(data)[v := old(data)[u]] else old(data)
    {
      hide Good;
      CopiedIsGood(State(), v, u);
      ArrayFacts(State(), u);
      handles := handles[v := handles[u]];
      if u in data {
        data := data[v := data[u]];
        IncRef(data[v]);
      }
    }

    method MoveConstruct(v: Name, u: Name)
      requires Valid() && u in handles && v !in handles
      modifies this
      ensures Valid() && State() == Moved(old(State()), v, u)
      ensures handles == old(handles)[v := old(handles)[u]] && Held(State(), v) == old(Held(State(), u)) && u !in data
      ensures forall w :: w != v && w != u ==> Held(State(), w) == old(Held(State(), w))
    {
      hide Good;
      MovedIsGood(State(), v, u);
      ArrayFacts(State(), v);
      handles := handles[v := handles[u]];
      if u in data {
        data := (data - {u})[v := data[u]];
      }
    }

    method Swap(v: Name, u: Name)
      requires Valid() && v in handles && u in handles
      modifies `data, `handles
      ensures Valid() && State() == Swapped(old(State()), v, u)
      ensures handles == old(handles)[u := old(handles)[v]][v := old(handles)[u]]
      ensures Held(State(), v) == old(Held(State(), u)) && Held(State(), u) == old(Held(State(), v))
      ensures forall w :: w != v && w != u ==> Held(State(), w) == old(Held(State(), w))
    {
      hide Good;
      SwappedIsGood(State(), v, u);
      var rest := data - {u, v};
      var first := if u in data then rest[v := data[u]] else rest;
      data := if v in data then first[u := data[v]] else first;
      handles := handles[u := handles[v]][v := handles[u]];
    }

    /** Copy assignment by way of a temporary: afterwards both arrays refer to what `u` did, everything else refers to
        what it did, and what `v` referred to has lost one reference.  Assigning an array to itself is no exception. */
    method CopyAssign(v: Name, u: Name, temp: Name)
      requires Valid() && v in handles && u in handles && temp !in handles
      modifies this
      ensures Valid() && handles == old(handles)[v := old(handles)[u]]
      ensures Held(State(), v) == old(Held(State(), u))
      ensures forall w :: w != v ==> Held(State(), w) == old(Held(State(), w))
    {
      hide Good;
      ArrayFacts(State(), temp);
      CopyConstruct(temp, u);
      Swap(temp, v);
      Destroy(temp);
    }

    /** Move assignment: `v` gets what `u` referred to, and `u`, unless it is the same array, refers to nothing. */
    method MoveAssign(v: Name, u: Name, temp: Name)
      requires Valid() && v in handles && u in handles && temp !in handles
      modifies this
      ensures Valid() && handles == old(handles)[v := old(handles)[u]]
      ensures Held(State(), v) == old(Held(State(), u)) && (u != v ==> Held(State(), u) == None)
      ensures forall w :: w != v && w != u ==> Held(State(), w) == old(Held(State(), w))
    {
      hide Good;
      hide Moved, Swapped;
      ArrayFacts(State(), temp);
      MoveConstruct(temp, u);
      assert Held(State(), u) == None;
      Swap(temp, v);
      Destroy(temp);
    }

    /** `Create`: a container without memory for the new array `v`. */
    method Create(v: Name)
      requires Valid() && v !in handles
      modifies this
      ensures Valid() && State() == Created(old(State()), v, Container(NoManager, PLAIN))
    {
      hide Good;
      CreatedIsGood(State(), v, Container(NoManager, PLAIN));
      containers, refs := containers[next := Container(NoManager, PLAIN)], refs[next := 1];
      handles, data := handles[v := -1], data[v := next];
      next := next + 1;
    }

    /** `Empty`: a new array with memory of its own, of the size its shape and type ask for. */
    method Empty(v: Name, shape: seq<int>, t: DType) returns (ok: bool)
      requires Valid() && v !in handles
      modifies this
      ensures Valid() && ok == ValidType(t)
      ensures ok ==> State() == Created(old(State()), v, Allocated(old(next), Extent(shape, t)))
      ensures !ok ==> State() == old(State())
    {
      hide Good;
      if !ValidType(t) {
        return false;
      }
      CreatedIsGood(State(), v, Allocated(next, Extent(shape, t)));
      NextIsNew(State());
      Create(v);
      var c := data[v];
      var size := GetDataSize(shape, t);
      containers := containers[c := Allocated(c, Extent(shape, t))];
      blocks := blocks + {c};
      assert containers[c].layout.Size() == size;
      assert containers == old(containers)[c := Allocated(c, Extent(shape, t))];
      ok := true;
    }

    /** The tests of both kinds of view. */
    predicate MayBeViewed(u: Name, t: DType)
      reads this
    {
      u in data && data[u] in containers && !containers[data[u]].layout.strided && ValidType(t)
    }

    /** `CreateView`: a new array `v` that shares the memory of `u`; refused, with everything left as it was, when `u`
        refers to nothing, is not compact, or is too small. */
    method CreateView(v: Name, u: Name, shape: seq<int>, t: DType) returns (ok: bool)
      requires Valid() && v !in handles
      modifies this
      ensures Valid()
      ensures ok <==> old(MayBeViewed(u, t)) && Bytes(shape, t) <= old(containers[data[u]].layout.Size())
      ensures ok ==>
                && old(data[u] in refs)
                && State() == ViewOf(old(State()), v, old(data[u]),
                                     old(containers[data[u]].layout).(extent := Extent(shape, t), strided := false))
      ensures ok ==> var k := old(containers[data[u]].layout); PlacedAt(State(), v, k, k.offset, Extent(shape, t))
      ensures !ok ==> State() == old(State()).(next := next)
    {
      hide Good, Created, Viewed, ViewOf, MayView, PlacedAt, OthersStay;
      ArrayFacts(State(), u);
      if u !in data || containers[data[u]].layout.strided || !ValidType(t) {
        return false;
      }
      var parent := containers[data[u]].layout;
      NothingLeft(State(), v);
      var layout := parent.(extent := Extent(shape, t), strided := false);
      NewView(State(), v, u, layout);
      ViewOfIsPlaced(State(), v, data[u], layout);
      Create(v);
      var size := GetDataSize(shape, t);
      if size > parent.Size() {
        Discard(v);
        return false;
      }
      BecomeView(v, data[u], layout);
      SameMemory(State(), v, layout, parent, layout.offset, layout.extent);
      ok := true;
    }

    /** `CreateOffsetView`: the same from `offset` on, and the offset moved behind the view. */
    method CreateOffsetView(v: Name, u: Name, shape: seq<int>, t: DType, offset: Word)
      returns (ok: bool, offset': Word)
      requires Valid() && v !in handles
      modifies this
      ensures Valid()
      ensures ok <==> old(MayBeViewed(u, t)) && OffsetAccepted(old(containers[data[u]].layout), Bytes(shape, t), offset)
      ensures ok ==>
                && old(data[u] in refs)
                && State() == ViewOf(old(State()), v, old(data[u]),
                                     OffsetLayout(old(containers[data[u]].layout), Extent(shape, t), offset))
      ensures ok ==>
                var k := old(containers[data[u]].layout);
                PlacedAt(State(), v, k, (k.offset + offset) % ADDRESSES, Extent(shape, t))
      ensures !ok ==> State() == old(State()).(next := next)
      ensures offset' == if ok then (offset + Bytes(shape, t)) % ADDRESSES else offset
    {
      hide Good, Created, Viewed, ViewOf, MayView, PlacedAt, OthersStay;
      offset' := offset;
      ArrayFacts(State(), u);
      if u !in data || containers[data[u]].layout.strided || !ValidType(t) {
        ok := false;
        return;
      }
      var parent := containers[data[u]].layout;
      NothingLeft(State(), v);
      ghost var layout := OffsetLayout(parent, Extent(shape, t), offset);
      NewView(State(), v, u, layout);
      ViewOfIsPlaced(State(), v, data[u], layout);
      Create(v);
      var size := GetDataSize(shape, t);
      if (size + offset) % ADDRESSES > parent.Size() {
        Discard(v);
        ok := false;
        return;
      }
      BecomeView(v, data[u], OffsetLayout(parent, Extent(shape, t), offset));
      SameMemory(State(), v, layout, parent, layout.offset, layout.extent);
      offset' := (offset + size) % ADDRESSES;
      ok := true;
    }

    /** A result that is not returned because a check has failed: its destructor runs. */
    method Discard(v: Name)
      requires Valid() && v in data && data[v] in containers && data[v] in refs && refs[data[v]] == 1
      requires containers[data[v]] == Container(NoManager, PLAIN)
      modifies this
      ensures Valid()
      ensures State() == old(State().(containers := containers - {data[v]}, refs := refs - {data[v]},
                                      data := data - {v}, handles := handles - {v}))
    {
      hide Good;
      ArrayFacts(State(), v);
      ResetArray(v);
      handles := handles - {v};
      HandleGone(State().(handles := old(handles)), v);
      assert released == old(released) + [];
    }

    /** The new array `v` becomes a view of container `c`. */
    method BecomeView(v: Name, c: nat, layout: Layout)
      requires Valid() && v in data && MayView(State(), data[v], c, layout)
      modifies `containers, `refs, `links
      ensures Valid() && old(c in refs) && State() == Viewed(old(State()), data[v], c, layout)
    {
      hide Good;
      ViewedIsGood(State(), data[v], c, layout);
      IncRef(c);
      containers, links := containers[data[v] := Container(Parent, layout)], links[ParentOf(data[v]) := c];
    }

    // ----- Exchange with other frameworks -----

    /** `ToDLPack`: a tensor over the same memory that counts as a reference until its deleter is called. */
    method ToDLPack(u: Name) returns (t: nat)
      requires Valid() && u in data
      modifies this
      ensures Valid() && t == old(next) && old(data[u] in containers && data[u] in refs)
      ensures State() == Exported(old(State()), old(data[u]))
    {
      hide Good;
      ArrayFacts(State(), u);
      ExportedIsGood(State(), data[u]);
      t := next;
      tensors, links := tensors[t := Tensor(Own, containers[data[u]].layout)], links[SourceOf(t) := data[u]];
      next := next + 1;
      IncRef(data[u]);
    }

    /** Somebody else's tensor arrives, with or without a deleter. */
    method Receive(layout: Layout, deleter: Deleter) returns (t: nat)
      requires Valid() && deleter != Own
      modifies `tensors, `next
      ensures Valid() && t == old(next) && State() == Received(old(State()), layout, deleter)
    {
      hide Good;
      ReceivedIsGood(State(), layout, deleter);
      t := next;
      tensors, next := tensors[t := Tensor(deleter, layout.(block := Foreign(t)))], next + 1;
    }

    /** `FromDLPack`: a new array made from a tensor, which it deletes when it goes. */
    method FromDLPack(v: Name, t: nat)
      requires Valid() && v !in handles && Outstanding(State(), t)
      modifies this
      ensures Valid() && State() == Created(old(State()), v, Container(Imported(t), old(tensors)[t].layout))
    {
      hide Good;
      var k := Container(Imported(t), tensors[t].layout);
      CreatedIsGood(State(), v, k);
      containers, refs := containers[next := k], refs[next := 1];
      handles, data := handles[v := -1], data[v := next];
      next := next + 1;
    }

    /** Whoever has a tensor that nobody has imported calls its deleter. */
    method CallDeleter(t: nat)
      requires Valid() && Outstanding(State(), t) && tensors[t].deleter != NoDeleter
      modifies this
      ensures Valid() && State() == Released(old(State()), t)
    {
      hide Good;
      ReleasedIsGood(State(), t);
      TensorFacts(State(), t);
      if tensors[t].deleter == External {
        released := released + [Foreign(t)];
        tensors := tensors - {t};
      } else {
        ExportReleased(State(), t);
        NDArrayDLPackDeleter(t);
      }
    }

    // ----- Runs -----

    /** The operations that runs are made of are the methods above, on arrays of bytes: each does to the objects what
        `Do` says, but for the addresses used up by a view that is refused. */
    method Apply(op: Op)
      requires Valid() && Allowed(State(), op)
      modifies this
      ensures Valid() && State() == Do(old(State()), op).(next := next)
      ensures !op.View? && !op.OffsetView? ==> State() == Do(old(State()), op)
    {
      hide Good, Created, ViewOf, Copied, Moved, Swapped, Reset, Exported, Received, Released, Unref;
      ArrayFacts(State(),
                  match op case View(_, u, _) => u case OffsetView(_, u, _, _) => u case Export(u) => u case _ => 0);
      match op {
        case Make(v, extent) =>
          BytesOf(extent);
          var _ := Empty(v, [extent], BYTE);
        case View(v, u, extent) =>
          BytesOf(extent);
          var _ := CreateView(v, u, [extent], BYTE);
        case OffsetView(v, u, extent, offset) =>
          BytesOf(extent);
          var _, _ := CreateOffsetView(v, u, [extent], BYTE, offset);
        case Copy(v, u) => CopyConstruct(v, u);
        case Move(v, u) => MoveConstruct(v, u);
        case Swap(v, u) => Swap(v, u);
        case Drop(v) => ResetArray(v);
        case Destroy(v) => Destroy(v);
        case Export(u) => var _ := ToDLPack(u);
        case Receive(layout, external) => var _ := Receive(layout, if external then External else NoDeleter);
        case Import(v, t) => FromDLPack(v, t);
        case Delete(t) =>
          if tensors[t].deleter != NoDeleter {
            CallDeleter(t);
          } else {
            KeptForGood(State(), t);
          }
      }
    }
  }

  lemma KeptForGood(h: Heap, t: nat)
    requires t in h.tensors && h.tensors[t].deleter == NoDeleter
    ensures Released(h, t) == h
  {
  }

  const BYTE: DType := DType(1, 8, 1)

  /** An array of so many bytes. */
  lemma BytesOf(extent: int)
    ensures ValidType(BYTE) && Extent([extent], BYTE) == extent
  {
    ProductOfParts([], [], extent);
  }

  /** The heap without an exported tensor and its link. */
  function WithoutTensor(h: Heap, t: nat): Heap {
    h.(tensors := h.tensors - {t}, links := h.links - {SourceOf(t)})
  }
}
