/** Arrays that share memory: reference-counted containers, views of other arrays, and tensors exported to and
    imported from other frameworks.

    An object is named by its address, and what has been deleted is in no map any more, so a pointer that could lead
    to it would not verify.  The pointers that are counted are kept in two maps: `data` has the `data_` of every
    array that refers to something, `links` the `manager_ctx` of every view and of every exported tensor. */
module NDArraySpec {
  import opened Sequences
  import opened Wrappers

  const ADDRESSES: nat := 0x1_0000_0000_0000_0000

  /** A 64-bit number. */
  type Word = n: nat | n < ADDRESSES

  type Name = int

  /** Memory: none, the block allocated for a container, or that of somebody else's tensor. */
  datatype Block = NoData | Device(owner: nat) | Foreign(tensor: nat)

  /** The part of a DLTensor that says where its bytes are.  `extent` is how many bytes its shape and type ask for. */
  datatype Layout = Layout(block: Block, offset: Word, byteOffset: Word, extent: int, strided: bool) {
    /** That number in 64 bits, as it is computed and compared. */
    function Size(): Word {
      extent % ADDRESSES
    }

    /** No product of the shape has wrapped around, and it has no negative number of bytes. */
    predicate Unwrapped() {
      0 <= extent < ADDRESSES
    }
  }

  /** `manager_ctx` of a container: nothing, the array it is a view of, or the tensor it was made from. */
  datatype Manager = NoManager | Parent | Imported(tensor: nat)

  datatype Container = Container(manager: Manager, layout: Layout)

  /** Who deletes a DLManagedTensor: `NDArrayDLPackDeleter`, somebody else, or nobody. */
  datatype Deleter = Own | External | NoDeleter

  datatype Tensor = Tensor(deleter: Deleter, layout: Layout)

  datatype Link = ParentOf(container: nat) | SourceOf(tensor: nat)

  /** `handles` are the NDArray objects with their pts.  `blocks` are the owners of all the blocks ever allocated,
      `released` the blocks and tensors given back, in order.  Every address in use is below `next`. */
  datatype Heap = Heap(
    next: nat, containers: map<nat, Container>, refs: map<nat, int>, data: map<Name, nat>, links: map<Link, nat>,
    handles: map<Name, int>, tensors: map<nat, Tensor>, blocks: set<nat>, released: seq<Block>)

  const EMPTY: Heap := Heap(0, map[], map[], map[], map[], map[], map[], {}, [])

  /** The container an array refers to. */
  function Held(h: Heap, v: Name): Option<nat> {
    if v in h.data then Some(h.data[v]) else None
  }

  // ----- Giving up a reference -----

  /** The container goes, its memory is given back. */
  function WithoutRoot(h: Heap, c: nat): Heap
    requires c in h.containers
  {
    h.(containers := h.containers - {c}, refs := h.refs - {c},
       released := h.released + if h.containers[c].layout.block == NoData then [] else [h.containers[c].layout.block])
  }

  function WithoutView(h: Heap, c: nat): Heap {
    h.(containers := h.containers - {c}, refs := h.refs - {c}, links := h.links - {ParentOf(c)})
  }

  /** The container goes and with it the exported tensor it was made from. */
  function WithoutImport(h: Heap, c: nat, t: nat): Heap {
    h.(containers := h.containers - {c}, refs := h.refs - {c}, links := h.links - {SourceOf(t)},
       tensors := h.tensors - {t})
  }

  /** The container goes, and somebody else's tensor is given back. */
  function WithoutForeign(h: Heap, c: nat, t: nat, deleter: Deleter): Heap {
    if deleter == External then
      h.(containers := h.containers - {c}, refs := h.refs - {c}, tensors := h.tensors - {t},
         released := h.released + [Foreign(t)])
    else
      h.(containers := h.containers - {c}, refs := h.refs - {c})
  }

  /** `DecRef`: with the last reference the container goes, and with it its reference to what it depends on. */
  function Unref(h: Heap, c: nat): Heap
    decreases c
  {
    if c !in h.containers || c !in h.refs then h
    else if h.refs[c] != 1 then h.(refs := h.refs[c := h.refs[c] - 1])
    else
      match h.containers[c].manager
      case NoManager => WithoutRoot(h, c)
      case Parent =>
        if ParentOf(c) !in h.links || h.links[ParentOf(c)] >= c then h
        else Unref(WithoutView(h, c), h.links[ParentOf(c)])
      case Imported(t) =>
        if t !in h.tensors then h
        else if h.tensors[t].deleter != Own then WithoutForeign(h, c, t, h.tensors[t].deleter)
        else if SourceOf(t) !in h.links || h.links[SourceOf(t)] >= c then h
        else Unref(WithoutImport(h, c, t), h.links[SourceOf(t)])
  }

  // ----- The invariant -----

  /** The keys under which `m` has `c`. */
  ghost function Keys<K>(m: map<K, nat>, c: nat): set<K> {
    set k | k in m && m[k] == c
  }

  /** Every count is the number of arrays, views and exported tensors that refer to the container, plus one for a
      reference about to be given up. */
  ghost predicate Counted(refs: map<nat, int>, data: map<Name, nat>, links: map<Link, nat>, owed: Option<nat>) {
    forall c :: c in refs ==>
      refs[c] >= 1 && refs[c] == |Keys(data, c)| + |Keys(links, c)| + (if owed == Some(c) then 1 else 0)
  }

  ghost predicate DataOk(data: map<Name, nat>, handles: map<Name, int>, live: set<nat>) {
    forall v :: v in data ==> v in handles && data[v] in live
  }

  ghost predicate LinksOk(links: map<Link, nat>, containers: map<nat, Container>, tensors: map<nat, Tensor>) {
    forall f :: f in links ==>
      && links[f] in containers
      && match f
         case ParentOf(c) => c in containers && containers[c].manager == Parent
         case SourceOf(t) => t in tensors && tensors[t].deleter == Own
  }

  ghost predicate ContainerOk(next: nat, containers: map<nat, Container>, links: map<Link, nat>,
                              tensors: map<nat, Tensor>, blocks: set<nat>, c: nat)
    requires c in containers
  {
    var k := containers[c];
    && c < next
    && match k.manager
       case NoManager => k.layout.offset == 0 && k.layout.block == if c in blocks then Device(c) else NoData
       case Parent =>
         && c !in blocks && ParentOf(c) in links && links[ParentOf(c)] < c
         && links[ParentOf(c)] in containers && containers[links[ParentOf(c)]].layout.block == k.layout.block
       case Imported(t) =>
         && c !in blocks && t in tensors && tensors[t].layout == k.layout
         && (tensors[t].deleter == Own ==> SourceOf(t) in links && links[SourceOf(t)] < c)
  }

  ghost predicate TensorOk(next: nat, containers: map<nat, Container>, links: map<Link, nat>,
                           tensors: map<nat, Tensor>, t: nat)
    requires t in tensors
  {
    && t < next
    && if tensors[t].deleter == Own then
         && SourceOf(t) in links && links[SourceOf(t)] in containers
         && containers[links[SourceOf(t)]].layout == tensors[t].layout
       else tensors[t].layout.block == Foreign(t)
  }

  /** Every container and every tensor is in order. */
  ghost predicate ObjectsOk(next: nat, containers: map<nat, Container>, links: map<Link, nat>,
                            tensors: map<nat, Tensor>, blocks: set<nat>) {
    && (forall c :: c in containers ==> ContainerOk(next, containers, links, tensors, blocks, c))
    && (forall t :: t in tensors ==> TensorOk(next, containers, links, tensors, t))
  }

  /** A tensor belongs to one importer. */
  ghost predicate ImportsOk(containers: map<nat, Container>) {
    forall c, d :: c in containers && d in containers && c != d && containers[c].manager.Imported? ==>
      containers[c].manager != containers[d].manager
  }

  /** Nothing is given back twice, or while it is in use, and nothing is lost. */
  ghost predicate ReleasedOk(next: nat, live: set<nat>, tensors: set<nat>, blocks: set<nat>, released: seq<Block>) {
    && Distinct(released)
    && (forall b :: b in released ==>
          match b
          case NoData => false
          case Device(c) => c in blocks && c !in live
          case Foreign(t) => t < next && t !in tensors)
    && (forall c :: c in blocks ==> c < next && (c in live || Device(c) in released))
  }

  /** The invariant of a heap; one reference to the container `owed` may be about to be given up. */
  ghost predicate Good(h: Heap, owed: Option<nat>) {
    && h.refs.Keys == h.containers.Keys
    && Counted(h.refs, h.data, h.links, owed)
    && DataOk(h.data, h.handles, h.containers.Keys)
    && LinksOk(h.links, h.containers, h.tensors)
    && ObjectsOk(h.next, h.containers, h.links, h.tensors, h.blocks)
    && ImportsOk(h.containers)
    && ReleasedOk(h.next, h.containers.Keys, h.tensors.Keys, h.blocks, h.released)
  }

  // ----- DecRef keeps the invariant -----

  lemma WithoutKey<K>(m: map<K, nat>, k: K, c: nat)
    ensures |Keys(m - {k}, c)| == |Keys(m, c)| - if k in m && m[k] == c then 1 else 0
  {
    assert Keys(m - {k}, c) == Keys(m, c) - {k};
  }

  lemma WithKey<K>(m: map<K, nat>, k: K, c: nat, d: nat)
    requires k !in m
    ensures |Keys(m[k := c], d)| == |Keys(m, d)| + if c == d then 1 else 0
  {
    assert Keys(m[k := c], d) == Keys(m, d) + if c == d then {k} else {};
  }

  lemma NoKeys<K>(m: map<K, nat>, c: nat)
    ensures |Keys(m, c)| == 0 <==> forall k :: k in m ==> m[k] != c
  {
    if k :| k in m && m[k] == c {
      assert k in Keys(m, c);
    } else {
      assert Keys(m, c) == {};
    }
  }

  /** What is known of a container when its last reference goes. */
  lemma LastReference(h: Heap, c: nat)
    requires Good(h, Some(c)) && c in h.containers && h.refs[c] == 1
    ensures (forall v :: v in h.data ==> h.data[v] != c) && (forall f :: f in h.links ==> h.links[f] != c)
    ensures ContainerOk(h.next, h.containers, h.links, h.tensors, h.blocks, c)
    ensures h.containers[c].manager != Parent ==> ParentOf(c) !in h.links
  {
    NoKeys(h.data, c);
    NoKeys(h.links, c);
  }

  lemma ImportedTensor(h: Heap, c: nat, t: nat)
    requires Good(h, Some(c)) && c in h.containers && h.containers[c].manager == Imported(t)
    ensures t in h.tensors && t < h.next
    ensures SourceOf(t) in h.links <==> h.tensors[t].deleter == Own
    ensures h.tensors[t].deleter == Own ==> h.links[SourceOf(t)] < c && h.links[SourceOf(t)] in h.containers
  {
    hide ReleasedOk, Counted, DataOk;
    assert ContainerOk(h.next, h.containers, h.links, h.tensors, h.blocks, c);
    assert TensorOk(h.next, h.containers, h.links, h.tensors, t);
  }

  /** What is left when a container nobody points to goes, with its own link and the tensor it has imported. */
  ghost predicate Removed(h: Heap, h': Heap, c: nat, gone: set<nat>) {
    && c in h.containers
    && (forall v :: v in h.data ==> h.data[v] != c) && (forall f :: f in h.links ==> h.links[f] != c)
    && (forall t :: t in gone ==> h.containers[c].manager == Imported(t) && t in h.tensors && t < h.next)
    && h'.containers == h.containers - {c} && h'.refs == h.refs - {c} && h'.tensors == h.tensors - gone
    && h'.next == h.next && h'.blocks == h.blocks && h'.handles == h.handles && h'.data == h.data
    && h'.links == h.links - {ParentOf(c)} - set t | t in gone :: SourceOf(t)
  }

  lemma RemovedKeepsObjects(h: Heap, h': Heap, c: nat, gone: set<nat>)
    requires Removed(h, h', c, gone) && ImportsOk(h.containers)
    requires ObjectsOk(h.next, h.containers, h.links, h.tensors, h.blocks)
    ensures ObjectsOk(h'.next, h'.containers, h'.links, h'.tensors, h'.blocks)
  {
    forall d | d in h'.containers
      ensures ContainerOk(h'.next, h'.containers, h'.links, h'.tensors, h'.blocks, d)
    {
      assert ContainerOk(h.next, h.containers, h.links, h.tensors, h.blocks, d);
      assert forall t :: t in gone ==> h.containers[d].manager != Imported(t);
    }
    forall t | t in h'.tensors
      ensures TensorOk(h'.next, h'.containers, h'.links, h'.tensors, t)
    {
      assert TensorOk(h.next, h.containers, h.links, h.tensors, t);
    }
  }

  lemma RemovedKeepsTables(h: Heap, h': Heap, c: nat, gone: set<nat>)
    requires Removed(h, h', c, gone) && ImportsOk(h.containers)
    requires LinksOk(h.links, h.containers, h.tensors) && DataOk(h.data, h.handles, h.containers.Keys)
    ensures LinksOk(h'.links, h'.containers, h'.tensors) && DataOk(h'.data, h'.handles, h'.containers.Keys)
    ensures ImportsOk(h'.containers) && (h.refs.Keys == h.containers.Keys ==> h'.refs.Keys == h'.containers.Keys)
  {
  }

  /** Giving back nothing, or something that has just been removed. */
  lemma RemovedKeepsReleased(h: Heap, h': Heap, c: nat, gone: set<nat>, more: seq<Block>)
    requires Removed(h, h', c, gone) && h'.released == h.released + more
    requires ReleasedOk(h.next, h.containers.Keys, h.tensors.Keys, h.blocks, h.released)
    requires if c in h.blocks then more == [Device(c)]
             else more == [] || (|more| == 1 && more[0].Foreign? && more[0].tensor in gone)
    ensures ReleasedOk(h'.next, h'.containers.Keys, h'.tensors.Keys, h'.blocks, h'.released)
  {
    forall i, j | 0 <= i < j < |h'.released|
      ensures h'.released[i] != h'.released[j]
    {
      if j == |h.released| {
        assert h'.released[j] == more[0] && h.released[i] in h.released;
      }
    }
    assert c in h.blocks ==> h'.released[|h.released|] == Device(c);
    assert forall b :: b in h.released ==> b in h'.released;
  }

  /** The link the container had is given up with it. */
  lemma RemovedKeepsCounts(h: Heap, h': Heap, c: nat, gone: set<nat>, owed: Option<nat>)
    requires Removed(h, h', c, gone) && Counted(h.refs, h.data, h.links, Some(c))
    requires match owed
             case None => h'.links == h.links
             case Some(d) => exists f :: f in h.links && h.links[f] == d && h'.links == h.links - {f}
    ensures Counted(h'.refs, h'.data, h'.links, owed)
  {
    if owed.Some? {
      var f :| f in h.links && h.links[f] == owed.value && h'.links == h.links - {f};
      forall d | d in h'.refs
        ensures |Keys(h'.links, d)| == |Keys(h.links, d)| - if d == owed.value then 1 else 0
      {
        WithoutKey(h.links, f, d);
      }
    }
  }

  lemma RemovedIsGood(h: Heap, h': Heap, c: nat, gone: set<nat>, more: seq<Block>, owed: Option<nat>)
    requires Good(h, Some(c)) && Removed(h, h', c, gone) && h'.released == h.released + more
    requires if c in h.blocks then more == [Device(c)]
             else more == [] || (|more| == 1 && more[0].Foreign? && more[0].tensor in gone)
    requires match owed
             case None => h'.links == h.links
             case Some(d) => exists f :: f in h.links && h.links[f] == d && h'.links == h.links - {f}
    ensures Good(h', owed)
  {
    hide Counted, DataOk, LinksOk, ObjectsOk, ImportsOk, ReleasedOk, Removed;
    RemovedKeepsObjects(h, h', c, gone);
    RemovedKeepsTables(h, h', c, gone);
    RemovedKeepsReleased(h, h', c, gone, more);
    RemovedKeepsCounts(h, h', c, gone, owed);
  }

  lemma RootGone(h: Heap, c: nat)
    requires Good(h, Some(c)) && c in h.containers && h.refs[c] == 1 && h.containers[c].manager == NoManager
    ensures Good(WithoutRoot(h, c), None)
  {
    hide Counted, DataOk, LinksOk, ObjectsOk, ImportsOk, ReleasedOk;
    LastReference(h, c);
    assert h.links == h.links - {ParentOf(c)};
    RemovedIsGood(h, WithoutRoot(h, c), c, {}, if c in h.blocks then [Device(c)] else [], None);
  }

  lemma ViewGone(h: Heap, c: nat)
    requires Good(h, Some(c)) && c in h.containers && h.refs[c] == 1 && h.containers[c].manager == Parent
    ensures ParentOf(c) in h.links && h.links[ParentOf(c)] < c && h.links[ParentOf(c)] in h.containers
    ensures h.links[ParentOf(c)] != c && Good(WithoutView(h, c), Some(h.links[ParentOf(c)]))
  {
    hide Counted, DataOk, LinksOk, ObjectsOk, ImportsOk, ReleasedOk;
    LastReference(h, c);
    RemovedIsGood(h, WithoutView(h, c), c, {}, [], Some(h.links[ParentOf(c)]));
  }

  lemma ImportGone(h: Heap, c: nat, t: nat)
    requires Good(h, Some(c)) && c in h.containers && h.refs[c] == 1 && h.containers[c].manager == Imported(t)
    requires t in h.tensors && h.tensors[t].deleter == Own
    ensures SourceOf(t) in h.links && h.links[SourceOf(t)] < c && h.links[SourceOf(t)] in h.containers
    ensures Good(WithoutImport(h, c, t), Some(h.links[SourceOf(t)]))
  {
    hide Counted, DataOk, LinksOk, ObjectsOk, ImportsOk, ReleasedOk;
    LastReference(h, c);
    ImportedTensor(h, c, t);
    assert h.links == h.links - {ParentOf(c)};
    assert h.links - {SourceOf(t)} == h.links - set u | u in {t} :: SourceOf(u);
    RemovedIsGood(h, WithoutImport(h, c, t), c, {t}, [], Some(h.links[SourceOf(t)]));
  }

  lemma ForeignGone(h: Heap, c: nat, t: nat)
    requires Good(h, Some(c)) && c in h.containers && h.refs[c] == 1 && h.containers[c].manager == Imported(t)
    requires t in h.tensors && h.tensors[t].deleter != Own
    ensures Good(WithoutForeign(h, c, t, h.tensors[t].deleter), None)
  {
    hide Counted, DataOk, LinksOk, ObjectsOk, ImportsOk, ReleasedOk;
    LastReference(h, c);
    ImportedTensor(h, c, t);
    var gone := if h.tensors[t].deleter == External then {t} else {};
    assert h.links == h.links - {ParentOf(c)} - set u | u in gone :: SourceOf(u);
    RemovedIsGood(h, WithoutForeign(h, c, t, h.tensors[t].deleter), c, gone,
                  if gone == {} then [] else [Foreign(t)], None);
  }

  /** What the last reference takes with it, one container at a time. */
  lemma UnrefLast(h: Heap, c: nat)
    requires Good(h, Some(c)) && c in h.containers && c in h.refs && h.refs[c] == 1
    ensures match h.containers[c].manager
            case NoManager => Unref(h, c) == WithoutRoot(h, c)
            case Parent =>
              ParentOf(c) in h.links && Unref(h, c) == Unref(WithoutView(h, c), h.links[ParentOf(c)])
            case Imported(t) =>
              t in h.tensors &&
              if h.tensors[t].deleter != Own then Unref(h, c) == WithoutForeign(h, c, t, h.tensors[t].deleter)
              else SourceOf(t) in h.links && Unref(h, c) == Unref(WithoutImport(h, c, t), h.links[SourceOf(t)])
  {
    hide Good;
    match h.containers[c].manager
    case NoManager =>
    case Parent => ViewGone(h, c);
    case Imported(t) =>
      ImportedTensor(h, c, t);
      if h.tensors[t].deleter == Own {
        ImportGone(h, c, t);
      }
  }

  lemma OneLessIsGood(h: Heap, c: nat)
    requires Good(h, Some(c)) && c in h.containers && h.refs[c] != 1
    ensures Good(h.(refs := h.refs[c := h.refs[c] - 1]), None)
  {
    hide DataOk, LinksOk, ObjectsOk, ImportsOk, ReleasedOk, Keys;
  }

  lemma {:induction false} UnrefIsGood(h: Heap, c: nat)
    requires Good(h, Some(c)) && c in h.containers
    ensures Good(Unref(h, c), None)
    decreases c
  {
    hide Good;
    assert c in h.refs by {
      GoodKeys(h, Some(c));
    }
    if h.refs[c] != 1 {
      OneLessIsGood(h, c);
    } else {
      match h.containers[c].manager
      case NoManager => RootGone(h, c);
      case Parent =>
        ViewGone(h, c);
        UnrefIsGood(WithoutView(h, c), h.links[ParentOf(c)]);
      case Imported(t) =>
        ImportedTensor(h, c, t);
        if h.tensors[t].deleter != Own {
          ForeignGone(h, c, t);
        } else {
          ImportGone(h, c, t);
          UnrefIsGood(WithoutImport(h, c, t), h.links[SourceOf(t)]);
        }
    }
  }

  lemma GoodKeys(h: Heap, owed: Option<nat>)
    requires Good(h, owed)
    ensures h.refs.Keys == h.containers.Keys
  {
  }

  /** What giving up a reference leaves alone: the arrays, what they refer to, and every tensor that nobody has
      imported; what is left of the rest is as it was. */
  ghost predicate Untouched(h: Heap, h': Heap) {
    && h'.next == h.next && h'.handles == h.handles && h'.data == h.data && h'.blocks == h.blocks
    && h.released <= h'.released
    && (forall c :: c in h'.containers ==> c in h.containers && h'.containers[c] == h.containers[c])
    && (forall f :: f in h'.links ==> f in h.links && h'.links[f] == h.links[f])
    && (forall t :: t in h'.tensors ==> t in h.tensors && h'.tensors[t] == h.tensors[t])
    && (forall t :: t in h.tensors && t !in h'.tensors ==>
          exists c :: c in h.containers && h.containers[c].manager == Imported(t))
  }

  lemma {:induction false} UnrefLeavesAlone(h: Heap, c: nat)
    requires Good(h, Some(c)) && c in h.containers
    ensures Untouched(h, Unref(h, c))
    decreases c
  {
    hide Good;
    GoodKeys(h, Some(c));
    if h.refs[c] == 1 {
      match h.containers[c].manager
      case NoManager =>
      case Parent =>
        ViewGone(h, c);
        UnrefLeavesAlone(WithoutView(h, c), h.links[ParentOf(c)]);
      case Imported(t) =>
        ImportedTensor(h, c, t);
        if h.tensors[t].deleter == Own {
          ImportGone(h, c, t);
          UnrefLeavesAlone(WithoutImport(h, c, t), h.links[SourceOf(t)]);
        }
    }
  }

  // ----- The operations -----

  /** Resetting an array, or the last thing its destructor does. */
  function Reset(h: Heap, v: Name): Heap {
    if v in h.data then Unref(h.(data := h.data - {v}), h.data[v]) else h
  }

  lemma ResetIsGood(h: Heap, v: Name)
    requires Good(h, None)
    ensures var h' := Reset(h, v); Good(h', None) && Untouched(h.(data := h.data - {v}), h')
  {
    if v in h.data {
      hide Good, Untouched;
      DataLess(h, v);
      UnrefIsGood(h.(data := h.data - {v}), h.data[v]);
      UnrefLeavesAlone(h.(data := h.data - {v}), h.data[v]);
    } else {
      assert h.data - {v} == h.data;
    }
  }

  lemma DataLess(h: Heap, v: Name)
    requires Good(h, None) && v in h.data
    ensures h.data[v] in h.containers && Good(h.(data := h.data - {v}), Some(h.data[v]))
  {
    hide LinksOk, ObjectsOk, ImportsOk, ReleasedOk, Keys;
    assert h.data[v] in h.containers.Keys;
    forall d | d in h.refs
      ensures |Keys(h.data - {v}, d)| == |Keys(h.data, d)| - if h.data[v] == d then 1 else 0
    {
      WithoutKey(h.data, v, d);
    }
  }

  /** Releasing an exported tensor that nobody has imported: `NDArrayDLPackDeleter`, or the deleter of its owner. */
  function Released(h: Heap, t: nat): Heap {
    if t !in h.tensors then h
    else if h.tensors[t].deleter == NoDeleter then h
    else if h.tensors[t].deleter == External then
      h.(tensors := h.tensors - {t}, released := h.released + [Foreign(t)])
    else if SourceOf(t) !in h.links then h
    else Unref(h.(tensors := h.tensors - {t}, links := h.links - {SourceOf(t)}), h.links[SourceOf(t)])
  }

  /** No container was made from the tensor. */
  predicate Outstanding(h: Heap, t: nat) {
    t in h.tensors && forall c :: c in h.containers ==> h.containers[c].manager != Imported(t)
  }

  lemma ReleasedIsGood(h: Heap, t: nat)
    requires Good(h, None) && Outstanding(h, t)
    ensures Good(Released(h, t), None)
  {
    hide Good;
    TensorFacts(h, t);
    match h.tensors[t].deleter
    case NoDeleter =>
    case External => ForeignReleased(h, t);
    case Own =>
      ExportReleased(h, t);
      UnrefIsGood(h.(tensors := h.tensors - {t}, links := h.links - {SourceOf(t)}), h.links[SourceOf(t)]);
  }

  lemma ForeignReleased(h: Heap, t: nat)
    requires Good(h, None) && Outstanding(h, t) && h.tensors[t].deleter == External
    ensures Good(h.(tensors := h.tensors - {t}, released := h.released + [Foreign(t)]), None)
  {
    hide Counted, DataOk, ObjectsOk, ImportsOk, LinksOk, ReleasedOk;
    TensorFacts(h, t);
    TensorsLess(h, h.(tensors := h.tensors - {t}), t);
    LinksWithoutTensor(h, t);
    ReleasedWithout(h, t);
    assert h.links - {SourceOf(t)} == h.links;
  }

  lemma ExportReleased(h: Heap, t: nat)
    requires Good(h, None) && Outstanding(h, t) && h.tensors[t].deleter == Own && SourceOf(t) in h.links
    ensures Good(h.(tensors := h.tensors - {t}, links := h.links - {SourceOf(t)}), Some(h.links[SourceOf(t)]))
  {
    hide Counted, DataOk, ObjectsOk, ImportsOk, LinksOk, ReleasedOk;
    TensorFacts(h, t);
    TensorsLess(h, h.(tensors := h.tensors - {t}, links := h.links - {SourceOf(t)}), t);
    LinksLess(h, SourceOf(t));
    LinksWithoutTensor(h, t);
    ReleasedWithout(h, t);
  }

  lemma LinksWithoutTensor(h: Heap, t: nat)
    requires LinksOk(h.links, h.containers, h.tensors)
    ensures LinksOk(h.links - {SourceOf(t)}, h.containers, h.tensors - {t})
  {
  }

  lemma ReleasedWithout(h: Heap, t: nat)
    requires ReleasedOk(h.next, h.containers.Keys, h.tensors.Keys, h.blocks, h.released) && t in h.tensors && t < h.next
    ensures ReleasedOk(h.next, h.containers.Keys, (h.tensors - {t}).Keys, h.blocks, h.released)
    ensures ReleasedOk(h.next, h.containers.Keys, (h.tensors - {t}).Keys, h.blocks, h.released + [Foreign(t)])
  {
    assert Foreign(t) !in h.released;
  }

  lemma TensorFacts(h: Heap, t: nat)
    requires Good(h, None) && t in h.tensors
    ensures t < h.next
    ensures SourceOf(t) in h.links <==> h.tensors[t].deleter == Own
    ensures h.tensors[t].deleter == Own ==> h.links[SourceOf(t)] in h.containers && h.links[SourceOf(t)] < h.next
  {
    assert TensorOk(h.next, h.containers, h.links, h.tensors, t);
    assert h.tensors[t].deleter == Own ==>
             ContainerOk(h.next, h.containers, h.links, h.tensors, h.blocks, h.links[SourceOf(t)]);
  }

  lemma LinksLess(h: Heap, f: Link)
    requires Counted(h.refs, h.data, h.links, None) && f in h.links
    ensures Counted(h.refs, h.data, h.links - {f}, Some(h.links[f]))
  {
    forall d | d in h.refs
      ensures |Keys(h.links - {f}, d)| == |Keys(h.links, d)| - if h.links[f] == d then 1 else 0
    {
      WithoutKey(h.links, f, d);
    }
  }

  lemma TensorsLess(h: Heap, h': Heap, t: nat)
    requires ObjectsOk(h.next, h.containers, h.links, h.tensors, h.blocks) && Outstanding(h, t)
    requires h'.tensors == h.tensors - {t}
    requires h'.containers == h.containers && h'.blocks == h.blocks && h'.next == h.next
    requires h'.links == h.links || h'.links == h.links - {SourceOf(t)}
    ensures ObjectsOk(h'.next, h'.containers, h'.links, h'.tensors, h'.blocks)
  {
    forall d | d in h'.containers
      ensures ContainerOk(h'.next, h'.containers, h'.links, h'.tensors, h'.blocks, d)
    {
      assert ContainerOk(h.next, h.containers, h.links, h.tensors, h.blocks, d);
    }
    forall u | u in h'.tensors
      ensures TensorOk(h'.next, h'.containers, h'.links, h'.tensors, u)
    {
      assert TensorOk(h.next, h.containers, h.links, h.tensors, u);
    }
  }

  // ----- New objects and new references -----

  /** Nothing that objects depend on has gone or changed. */
  ghost predicate Extends(h: Heap, h': Heap) {
    && h.next <= h'.next && (forall c :: c in h.containers ==> (c in h.blocks <==> c in h'.blocks))
    && (forall c :: c in h.containers ==> c in h'.containers && h'.containers[c] == h.containers[c])
    && (forall f :: f in h.links ==> f in h'.links && h'.links[f] == h.links[f])
    && (forall t :: t in h.tensors ==> t in h'.tensors && h'.tensors[t] == h.tensors[t])
  }

  lemma ExtendsKeepsObjects(h: Heap, h': Heap)
    requires Extends(h, h') && ObjectsOk(h.next, h.containers, h.links, h.tensors, h.blocks)
    requires forall c :: c in h'.containers && c !in h.containers ==>
               ContainerOk(h'.next, h'.containers, h'.links, h'.tensors, h'.blocks, c)
    requires forall t :: t in h'.tensors && t !in h.tensors ==>
               TensorOk(h'.next, h'.containers, h'.links, h'.tensors, t)
    ensures ObjectsOk(h'.next, h'.containers, h'.links, h'.tensors, h'.blocks)
  {
    forall c | c in h'.containers
      ensures ContainerOk(h'.next, h'.containers, h'.links, h'.tensors, h'.blocks, c)
    {
      if c in h.containers {
        assert ContainerOk(h.next, h.containers, h.links, h.tensors, h.blocks, c);
      }
    }
    forall t | t in h'.tensors
      ensures TensorOk(h'.next, h'.containers, h'.links, h'.tensors, t)
    {
      if t in h.tensors {
        assert TensorOk(h.next, h.containers, h.links, h.tensors, t);
      }
    }
  }

  /** The next address is not in use. */
  lemma NextIsNew(h: Heap)
    requires Good(h, None)
    ensures h.next !in h.containers && h.next !in h.refs && h.next !in h.tensors && h.next !in h.blocks
    ensures ParentOf(h.next) !in h.links && SourceOf(h.next) !in h.links
    ensures |Keys(h.data, h.next)| == 0 && |Keys(h.links, h.next)| == 0
    ensures Device(h.next) !in h.released && Foreign(h.next) !in h.released
    ensures forall c :: c in h.containers ==> c < h.next && h.containers[c].manager != Imported(h.next)
    ensures forall f :: f in h.links ==> h.links[f] != h.next
  {
    assert h.next in h.containers ==> ContainerOk(h.next, h.containers, h.links, h.tensors, h.blocks, h.next);
    assert h.next in h.tensors ==> TensorOk(h.next, h.containers, h.links, h.tensors, h.next);
    assert h.next !in h.containers.Keys;
    assert forall v :: v in h.data ==> h.data[v] in h.containers.Keys;
    NoKeys(h.data, h.next);
    NoKeys(h.links, h.next);
  }

  /** `Create`, with the memory `Empty` adds to it: a container with one reference, that of the new array `v`. */
  function Created(h: Heap, v: Name, k: Container): Heap {
    h.(next := h.next + 1, containers := h.containers[h.next := k], refs := h.refs[h.next := 1],
       data := h.data[v := h.next], handles := h.handles[v := -1],
       blocks := if k.manager == NoManager && k.layout.block != NoData then h.blocks + {h.next} else h.blocks)
  }

  /** A container that depends on nothing, or one made from an outstanding tensor. */
  ghost predicate MayCreate(h: Heap, k: Container) {
    match k.manager
    case NoManager => k.layout.offset == 0 && (k.layout.block == NoData || k.layout.block == Device(h.next))
    case Parent => false
    case Imported(t) => Outstanding(h, t) && k.layout == h.tensors[t].layout
  }

  lemma CreatedIsGood(h: Heap, v: Name, k: Container)
    requires Good(h, None) && v !in h.handles && MayCreate(h, k)
    ensures Good(Created(h, v, k), None)
  {
    hide Counted, ObjectsOk, LinksOk, DataOk, ReleasedOk, ImportsOk, MayCreate, Keys;
    CreatedCounts(h, v, k);
    CreatedTables(h, v, k);
    CreatedReleased(h, v, k);
    CreatedObjects(h, v, k);
  }

  lemma CreatedCounts(h: Heap, v: Name, k: Container)
    requires Good(h, None) && v !in h.handles
    ensures var h' := Created(h, v, k); Counted(h'.refs, h'.data, h'.links, None)
  {
    NextIsNew(h);
    assert v !in h.data;
    CountsWithArray(h.refs, h.data, h.links, v, h.next);
  }

  /** A first array for a new container, or another one for an old container. */
  lemma CountsWithArray(refs: map<nat, int>, data: map<Name, nat>, links: map<Link, nat>, v: Name, c: nat)
    requires Counted(refs, data, links, None) && v !in data
    requires c in refs || (|Keys(data, c)| == 0 && |Keys(links, c)| == 0)
    ensures Counted(refs[c := if c in refs then refs[c] + 1 else 1], data[v := c], links, None)
  {
    hide Keys;
    forall d
      ensures |Keys(data[v := c], d)| == |Keys(data, d)| + if d == c then 1 else 0
    {
      WithKey(data, v, c, d);
    }
  }

  lemma CreatedTables(h: Heap, v: Name, k: Container)
    requires Good(h, None) && v !in h.handles && MayCreate(h, k)
    ensures var h' := Created(h, v, k);
            && h'.refs.Keys == h'.containers.Keys && DataOk(h'.data, h'.handles, h'.containers.Keys)
            && LinksOk(h'.links, h'.containers, h'.tensors) && ImportsOk(h'.containers)
  {
    hide Counted, ObjectsOk, ReleasedOk, ImportsOk, LinksOk;
    CreatedImports(h, v, k);
    CreatedLinks(h, v, k);
  }

  lemma CreatedLinks(h: Heap, v: Name, k: Container)
    requires Good(h, None)
    ensures var h' := Created(h, v, k); LinksOk(h'.links, h'.containers, h'.tensors)
  {
    NextIsNew(h);
    hide Good, Counted, ObjectsOk, ReleasedOk, ImportsOk, DataOk;
    LinksFacts(h);
  }

  lemma LinksFacts(h: Heap)
    requires Good(h, None)
    ensures LinksOk(h.links, h.containers, h.tensors)
  {
  }

  lemma CreatedImports(h: Heap, v: Name, k: Container)
    requires ImportsOk(h.containers) && MayCreate(h, k)
    ensures ImportsOk(Created(h, v, k).containers)
  {
  }

  lemma CreatedReleased(h: Heap, v: Name, k: Container)
    requires Good(h, None)
    ensures var h' := Created(h, v, k);
            ReleasedOk(h'.next, h'.containers.Keys, h'.tensors.Keys, h'.blocks, h'.released)
  {
    hide Counted, ObjectsOk, LinksOk, ImportsOk, DataOk;
    NextIsNew(h);
  }

  lemma CreatedObjects(h: Heap, v: Name, k: Container)
    requires Good(h, None) && v !in h.handles && MayCreate(h, k)
    ensures var h' := Created(h, v, k); ObjectsOk(h'.next, h'.containers, h'.links, h'.tensors, h'.blocks)
  {
    hide ObjectsOk, Counted, ReleasedOk, DataOk, LinksOk, TensorOk, ImportsOk;
    NextIsNew(h);
    if k.manager.Imported? {
      TensorFacts(h, k.manager.tensor);
    }
    ExtendsKeepsObjects(h, Created(h, v, k));
  }

  /** The second half of `CreateView`: container `n` becomes a view of `c`. */
  function Viewed(h: Heap, n: nat, c: nat, layout: Layout): Heap
    requires c in h.refs
  {
    h.(containers := h.containers[n := Container(Parent, layout)], refs := h.refs[c := h.refs[c] + 1],
       links := h.links[ParentOf(n) := c])
  }

  ghost predicate MayView(h: Heap, n: nat, c: nat, layout: Layout) {
    && n in h.containers && c in h.containers && c < n
    && h.containers[n].manager == NoManager && h.containers[n].layout.block == NoData
    && layout.block == h.containers[c].layout.block
    && (forall f :: f in h.links ==> h.links[f] != n)
  }

  lemma ViewedIsGood(h: Heap, n: nat, c: nat, layout: Layout)
    requires Good(h, None) && MayView(h, n, c, layout)
    ensures c in h.refs && Good(Viewed(h, n, c, layout), None)
  {
    hide Counted, ObjectsOk, LinksOk, DataOk, ReleasedOk, ImportsOk, MayView, Keys;
    ViewedTables(h, n, c, layout);
    CountsWithLink(h.refs, h.data, h.links, ParentOf(n), c);
    ViewedObjects(h, n, c, layout);
  }

  lemma CountsWithLink(refs: map<nat, int>, data: map<Name, nat>, links: map<Link, nat>, f: Link, c: nat)
    requires Counted(refs, data, links, None) && f !in links && c in refs
    ensures Counted(refs[c := refs[c] + 1], data, links[f := c], None)
  {
    hide Keys;
    forall d
      ensures |Keys(links[f := c], d)| == |Keys(links, d)| + if d == c then 1 else 0
    {
      WithKey(links, f, c, d);
    }
  }

  lemma ViewedTables(h: Heap, n: nat, c: nat, layout: Layout)
    requires Good(h, None) && MayView(h, n, c, layout)
    ensures c in h.refs && ParentOf(n) !in h.links
    ensures var h' := Viewed(h, n, c, layout);
            && h'.refs.Keys == h'.containers.Keys && h'.containers.Keys == h.containers.Keys
            && LinksOk(h'.links, h'.containers, h'.tensors) && ImportsOk(h'.containers)
  {
    hide Counted, ObjectsOk, ReleasedOk, DataOk, ImportsOk;
    ViewedImports(h, n, c, layout);
  }

  lemma ViewedImports(h: Heap, n: nat, c: nat, layout: Layout)
    requires ImportsOk(h.containers) && c in h.refs
    ensures ImportsOk(Viewed(h, n, c, layout).containers)
  {
  }

  lemma ViewedObjects(h: Heap, n: nat, c: nat, layout: Layout)
    requires MayView(h, n, c, layout) && c in h.refs && ParentOf(n) !in h.links
    requires ObjectsOk(h.next, h.containers, h.links, h.tensors, h.blocks)
    ensures var h' := Viewed(h, n, c, layout); ObjectsOk(h'.next, h'.containers, h'.links, h'.tensors, h'.blocks)
  {
    var h' := Viewed(h, n, c, layout);
    forall d | d in h'.containers
      ensures ContainerOk(h'.next, h'.containers, h'.links, h'.tensors, h'.blocks, d)
    {
      assert ContainerOk(h.next, h.containers, h.links, h.tensors, h.blocks, d);
    }
    forall t | t in h'.tensors
      ensures TensorOk(h'.next, h'.containers, h'.links, h'.tensors, t)
    {
      assert TensorOk(h.next, h.containers, h.links, h.tensors, t);
    }
  }

  /** The copy constructor: a new array `v` that refers to what `u` refers to. */
  function Copied(h: Heap, v: Name, u: Name): Heap
    requires u in h.handles
  {
    var h' := h.(handles := h.handles[v := h.handles[u]]);
    if u !in h.data || h.data[u] !in h.refs then h'
    else h'.(data := h.data[v := h.data[u]], refs := h.refs[h.data[u] := h.refs[h.data[u]] + 1])
  }

  lemma CopiedIsGood(h: Heap, v: Name, u: Name)
    requires Good(h, None) && u in h.handles && v !in h.handles
    ensures Good(Copied(h, v, u), None)
  {
    hide ObjectsOk, LinksOk, ReleasedOk, ImportsOk, Counted, Keys;
    ArrayFacts(h, u);
    ArrayFacts(h, v);
    if u in h.data {
      CountsWithArray(h.refs, h.data, h.links, v, h.data[u]);
    }
  }

  lemma ArrayFacts(h: Heap, v: Name)
    requires Good(h, None)
    ensures v in h.data ==> v in h.handles && h.data[v] in h.containers && h.data[v] in h.refs
  {
    hide ObjectsOk, LinksOk, ReleasedOk, ImportsOk, Counted;
    assert v in h.data ==> h.data[v] in h.containers.Keys;
  }

  /** The move constructor: a new array `v` takes what `u` refers to. */
  function Moved(h: Heap, v: Name, u: Name): Heap
    requires u in h.handles
  {
    var h' := h.(handles := h.handles[v := h.handles[u]]);
    if u in h.data then h'.(data := (h.data - {u})[v := h.data[u]]) else h'
  }

  /** `swap`, of two different arrays or of one with itself. */
  function Swapped(h: Heap, v: Name, u: Name): Heap
    requires u in h.handles && v in h.handles
  {
    var rest := h.data - {u, v};
    var data1 := if u in h.data then rest[v := h.data[u]] else rest;
    var data2 := if v in h.data then data1[u := h.data[v]] else data1;
    h.(data := data2, handles := h.handles[u := h.handles[v]][v := h.handles[u]])
  }

  /** Taking an array's reference away and giving it to another that has none. */
  lemma KeysRenamed(data: map<Name, nat>, v: Name, u: Name, c: nat)
    requires u in data && (v !in data || v == u)
    ensures |Keys((data - {u})[v := data[u]], c)| == |Keys(data, c)|
  {
    WithoutKey(data, u, c);
    WithKey(data - {u}, v, data[u], c);
  }

  lemma MovedIsGood(h: Heap, v: Name, u: Name)
    requires Good(h, None) && u in h.handles && v !in h.handles
    ensures Good(Moved(h, v, u), None)
  {
    hide ObjectsOk, LinksOk, ReleasedOk, ImportsOk, Counted, Keys;
    ArrayFacts(h, u);
    ArrayFacts(h, v);
    if u in h.data {
      forall c
        ensures |Keys((h.data - {u})[v := h.data[u]], c)| == |Keys(h.data, c)|
      {
        KeysRenamed(h.data, v, u, c);
      }
      SameCounts(h.refs, h.data, (h.data - {u})[v := h.data[u]], h.links);
    }
  }

  lemma SameCounts(refs: map<nat, int>, data: map<Name, nat>, data': map<Name, nat>, links: map<Link, nat>)
    requires Counted(refs, data, links, None) && forall c :: |Keys(data', c)| == |Keys(data, c)|
    ensures Counted(refs, data', links, None)
  {
    hide Keys;
  }

  lemma KeysSwapped(data: map<Name, nat>, v: Name, u: Name, c: nat)
    requires u in data && v in data && u != v
    ensures |Keys(data[v := data[u]][u := data[v]], c)| == |Keys(data, c)|
  {
    WithoutKey(data, u, c);
    WithoutKey(data - {u}, v, c);
    var rest: map<Name, nat> := data - {u} - {v};
    WithKey(rest, v, data[u], c);
    WithKey(rest[v := data[u]], u, data[v], c);
    assert rest[v := data[u]][u := data[v]] == data[v := data[u]][u := data[v]];
  }

  lemma SwappedIsGood(h: Heap, v: Name, u: Name)
    requires Good(h, None) && u in h.handles && v in h.handles
    ensures Good(Swapped(h, v, u), None)
    ensures Held(Swapped(h, v, u), v) == Held(h, u) && Held(Swapped(h, v, u), u) == Held(h, v)
  {
    hide ObjectsOk, LinksOk, ReleasedOk, ImportsOk, Keys;
    var data := Swapped(h, v, u).data;
    forall c
      ensures |Keys(data, c)| == |Keys(h.data, c)|
    {
      if u == v {
        assert data == h.data;
      } else if u in h.data && v in h.data {
        assert data == h.data[v := h.data[u]][u := h.data[v]];
        KeysSwapped(h.data, v, u, c);
      } else if u in h.data {
        assert data == (h.data - {u})[v := h.data[u]];
        KeysRenamed(h.data, v, u, c);
      } else if v in h.data {
        assert data == (h.data - {v})[u := h.data[v]];
        KeysRenamed(h.data, u, v, c);
      } else {
        assert data == h.data;
      }
    }
  }

  /** `ToDLPack`: a tensor that keeps the container. */
  function Exported(h: Heap, c: nat): Heap
    requires c in h.containers && c in h.refs
  {
    h.(next := h.next + 1, refs := h.refs[c := h.refs[c] + 1], links := h.links[SourceOf(h.next) := c],
       tensors := h.tensors[h.next := Tensor(Own, h.containers[c].layout)])
  }

  lemma ExportedIsGood(h: Heap, c: nat)
    requires Good(h, None) && c in h.containers
    ensures c in h.refs && Good(Exported(h, c), None)
  {
    hide ObjectsOk, LinksOk, DataOk, ReleasedOk, ImportsOk, Counted;
    NextIsNew(h);
    CountsWithLink(h.refs, h.data, h.links, SourceOf(h.next), c);
    TensorAddedObjects(h, Exported(h, c));
    TensorAddedTables(h, Exported(h, c));
  }

  /** Somebody else's tensor arrives. */
  function Received(h: Heap, layout: Layout, deleter: Deleter): Heap {
    h.(next := h.next + 1, tensors := h.tensors[h.next := Tensor(deleter, layout.(block := Foreign(h.next)))])
  }

  lemma ReceivedIsGood(h: Heap, layout: Layout, deleter: Deleter)
    requires Good(h, None) && deleter != Own
    ensures Good(Received(h, layout, deleter), None)
  {
    hide ObjectsOk, LinksOk, DataOk, ReleasedOk, ImportsOk, Counted;
    NextIsNew(h);
    TensorAddedObjects(h, Received(h, layout, deleter));
    TensorAddedTables(h, Received(h, layout, deleter));
  }

  /** One more tensor, at the next address, with its link if it has one. */
  ghost predicate TensorAdded(h: Heap, h': Heap) {
    && h'.next == h.next + 1 && h'.containers == h.containers && h'.blocks == h.blocks && h'.released == h.released
    && h.next !in h.tensors && h'.tensors.Keys == h.tensors.Keys + {h.next}
    && (forall t :: t in h.tensors ==> h'.tensors[t] == h.tensors[t])
    && if h'.tensors[h.next].deleter == Own then
         exists c :: c in h.containers && h'.links == h.links[SourceOf(h.next) := c]
                     && h.containers[c].layout == h'.tensors[h.next].layout
       else h'.links == h.links && h'.tensors[h.next].layout.block == Foreign(h.next)
  }

  lemma TensorAddedObjects(h: Heap, h': Heap)
    requires TensorAdded(h, h') && SourceOf(h.next) !in h.links
    requires ObjectsOk(h.next, h.containers, h.links, h.tensors, h.blocks)
    ensures ObjectsOk(h'.next, h'.containers, h'.links, h'.tensors, h'.blocks)
  {
    hide ObjectsOk;
    ExtendsKeepsObjects(h, h');
  }

  lemma TensorAddedTables(h: Heap, h': Heap)
    requires TensorAdded(h, h') && LinksOk(h.links, h.containers, h.tensors) && SourceOf(h.next) !in h.links
    requires ReleasedOk(h.next, h.containers.Keys, h.tensors.Keys, h.blocks, h.released)
    ensures LinksOk(h'.links, h'.containers, h'.tensors)
    ensures ReleasedOk(h'.next, h'.containers.Keys, h'.tensors.Keys, h'.blocks, h'.released)
  {
  }

  // ----- No array outlives its memory, and nothing is kept for nothing -----

  /** The memory has not been given back. */
  predicate Alive(h: Heap, block: Block) {
    match block
    case NoData => true
    case Device(c) => c in h.containers && block !in h.released
    case Foreign(t) => t in h.tensors && block !in h.released
  }

  /** Through views and re-imported exports, what a container points to is there as long as it is. */
  lemma {:induction false} MemoryIsAlive(h: Heap, c: nat)
    requires Good(h, None) && c in h.containers
    ensures Alive(h, h.containers[c].layout.block)
    decreases c
  {
    assert ContainerOk(h.next, h.containers, h.links, h.tensors, h.blocks, c);
    match h.containers[c].manager
    case NoManager =>
    case Parent => MemoryIsAlive(h, h.links[ParentOf(c)]);
    case Imported(t) =>
      assert TensorOk(h.next, h.containers, h.links, h.tensors, t);
      if h.tensors[t].deleter == Own {
        MemoryIsAlive(h, h.links[SourceOf(t)]);
      }
  }

  /** The container is held by an array or by a tensor somebody outside has, or by a container that is needed. */
  ghost predicate Needed(h: Heap, c: nat)
    decreases h.next - c
  {
    || (exists v :: v in h.data && h.data[v] == c)
    || (exists t :: Outstanding(h, t) && SourceOf(t) in h.links && h.links[SourceOf(t)] == c)
    || (exists d :: c < d < h.next && DependsOn(h, d, c) && Needed(h, d))
  }

  ghost predicate DependsOn(h: Heap, d: nat, c: nat) {
    && d in h.containers
    && match h.containers[d].manager
       case NoManager => false
       case Parent => ParentOf(d) in h.links && h.links[ParentOf(d)] == c
       case Imported(t) => SourceOf(t) in h.links && h.links[SourceOf(t)] == c
  }

  lemma {:induction false} NothingIsLeaked(h: Heap, c: nat)
    requires Good(h, None) && c in h.containers
    ensures Needed(h, c)
    decreases h.next - c
  {
    assert ContainerOk(h.next, h.containers, h.links, h.tensors, h.blocks, c);
    NoKeys(h.data, c);
    NoKeys(h.links, c);
    if !exists v :: v in h.data && h.data[v] == c {
      var f :| f in h.links && h.links[f] == c;
      DependentIsNeeded(h, c, f);
    }
  }

  lemma {:induction false} DependentIsNeeded(h: Heap, c: nat, f: Link)
    requires Good(h, None) && c in h.containers && f in h.links && h.links[f] == c && c < h.next
    ensures Needed(h, c)
    decreases h.next - c, 0
  {
    match f
    case ParentOf(d) =>
      assert ContainerOk(h.next, h.containers, h.links, h.tensors, h.blocks, d);
      NothingIsLeaked(h, d);
      NeededBy(h, c, d);
    case SourceOf(t) =>
      if !Outstanding(h, t) {
        var d :| d in h.containers && h.containers[d].manager == Imported(t);
        assert ContainerOk(h.next, h.containers, h.links, h.tensors, h.blocks, d);
        NothingIsLeaked(h, d);
        NeededBy(h, c, d);
      }
  }

  lemma NeededBy(h: Heap, c: nat, d: nat)
    requires c < d < h.next && DependsOn(h, d, c) && Needed(h, d)
    ensures Needed(h, c)
  {
  }

  /** No array refers to anything, and nobody has a tensor that is to be given back: one without a deleter cannot be,
      and keeps nothing of ours alive. */
  ghost predicate AllDropped(h: Heap) {
    h.data == map[] && forall t :: t in h.tensors && h.tensors[t].deleter != NoDeleter ==> !Outstanding(h, t)
  }

  /** When the last array and the last tensor are gone, every block has been given back, once. */
  lemma AllGivenBack(h: Heap)
    requires Good(h, None) && AllDropped(h)
    ensures h.containers == map[] && forall t :: t in h.tensors ==> h.tensors[t].deleter == NoDeleter
    ensures forall c :: c in h.blocks ==> multiset(h.released)[Device(c)] == 1
  {
    forall c
      ensures c !in h.containers
    {
      if c in h.containers {
        NothingIsLeaked(h, c);
        NotNeeded(h, c);
      }
    }
    hide Good, Needed;
    forall c | c in h.blocks
      ensures multiset(h.released)[Device(c)] == 1
    {
      GivenBack(h, c);
      OccursOnce(h.released, Device(c));
    }
  }

  lemma GivenBack(h: Heap, c: nat)
    requires Good(h, None) && c in h.blocks && c !in h.containers
    ensures Device(c) in h.released && Distinct(h.released)
  {
  }

  lemma {:induction false} NotNeeded(h: Heap, c: nat)
    requires AllDropped(h) && LinksOk(h.links, h.containers, h.tensors)
    ensures !Needed(h, c)
    decreases h.next - c
  {
    forall d | c < d < h.next
      ensures !Needed(h, d)
    {
      NotNeeded(h, d);
    }
  }

  // ----- Views stay inside -----

  /** All bytes of the view's elements are bytes of the array; positions are those of a 64-bit address space. */
  predicate Within(view: Layout, array_: Layout) {
    && view.byteOffset == array_.byteOffset && view.extent >= 0
    && (view.offset - array_.offset) % ADDRESSES + view.extent <= array_.Size()
  }

  /** A view lies within the array it is a view of, and an array with a block of its own within the block. */
  predicate ArrayInBounds(h: Heap, n: nat) {
    n in h.containers ==>
      match h.containers[n].manager
      case NoManager => h.containers[n].layout.Unwrapped()
      case Parent =>
        ParentOf(n) in h.links && h.links[ParentOf(n)] in h.containers ==>
          Within(h.containers[n].layout, h.containers[h.links[ParentOf(n)]].layout)
      case Imported(_) => true
  }

  ghost predicate InBounds(h: Heap) {
    forall n :: n in h.containers ==> ArrayInBounds(h, n)
  }

  /** The test of `CreateOffsetView`, in 64-bit arithmetic. */
  predicate OffsetAccepted(array_: Layout, size: Word, offset: Word) {
    (size + offset) % ADDRESSES <= array_.Size()
  }

  function OffsetLayout(array_: Layout, extent: int, offset: Word): Layout {
    Layout(array_.block, (array_.offset + offset) % ADDRESSES, array_.byteOffset, extent, false)
  }

  /** An accepted offset view lies inside its array unless its own size, or the sum of that and the offset, has
      wrapped around. */
  lemma OffsetViewIsWithin(array_: Layout, extent: int, offset: Word)
    requires OffsetAccepted(array_, extent % ADDRESSES, offset)
    ensures Within(OffsetLayout(array_, extent, offset), array_) <==> 0 <= extent && extent + offset < ADDRESSES
  {
    var laps := (array_.offset + offset) / ADDRESSES;
    assert (array_.offset + offset) % ADDRESSES - array_.offset == offset + ADDRESSES * (-laps);
  }

  /** So does a plain view, unless its own size has. */
  lemma PlainViewIsWithin(array_: Layout, extent: int)
    requires extent % ADDRESSES <= array_.Size()
    ensures Within(array_.(extent := extent, strided := false), array_) <==> 0 <= extent < ADDRESSES
  {
  }

  /** All bytes are bytes of the block they are in. */
  predicate InBlock(h: Heap, k: Layout) {
    && k.block.Device? && k.block.owner in h.containers && k.Unwrapped()
    && k.offset + k.extent <= h.containers[k.block.owner].layout.Size()
  }

  lemma Nested(h: Heap, view: Layout, array_: Layout)
    requires Within(view, array_) && InBlock(h, array_) && view.block == array_.block
    ensures InBlock(h, view)
  {
    var d := view.offset - array_.offset;
    assert d % ADDRESSES == if d < 0 then d + ADDRESSES else d;
  }

  /** Views of views, and of re-imported exports, never reach beyond the block they are in. */
  lemma {:induction false} BytesAreInsideTheBlock(h: Heap, c: nat)
    requires Good(h, None) && InBounds(h) && c in h.containers && h.containers[c].layout.block.Device?
    ensures InBlock(h, h.containers[c].layout)
    decreases c
  {
    hide Within, Counted, DataOk, LinksOk, ImportsOk, ReleasedOk;
    assert ContainerOk(h.next, h.containers, h.links, h.tensors, h.blocks, c) && ArrayInBounds(h, c);
    match h.containers[c].manager
    case NoManager =>
    case Parent =>
      var p := h.links[ParentOf(c)];
      BytesAreInsideTheBlock(h, p);
      Nested(h, h.containers[c].layout, h.containers[p].layout);
    case Imported(t) =>
      assert TensorOk(h.next, h.containers, h.links, h.tensors, t);
      BytesAreInsideTheBlock(h, h.links[SourceOf(t)]);
  }

  const PLAIN: Layout := Layout(NoData, 0, 0, 0, false)

  /** The heap with a new array `v`, a view of container `c`. */
  function ViewOf(h: Heap, v: Name, c: nat, layout: Layout): Heap
    requires c in h.containers && c in h.refs
  {
    Viewed(Created(h, v, Container(NoManager, PLAIN)), h.next, c, layout)
  }

  lemma ViewOfIsGood(h: Heap, v: Name, c: nat, layout: Layout)
    requires Good(h, None) && v !in h.handles && c in h.containers && layout.block == h.containers[c].layout.block
    ensures c in h.refs && Good(ViewOf(h, v, c, layout), None)
  {
    hide Good;
    GoodKeys(h, None);
    NextIsNew(h);
    CreatedIsGood(h, v, Container(NoManager, PLAIN));
    ViewedIsGood(Created(h, v, Container(NoManager, PLAIN)), h.next, c, layout);
  }

  lemma TakenBack<K, V>(m: map<K, V>, k: K, x: V)
    requires k !in m
    ensures m[k := x] - {k} == m
  {
  }

  /** Taking a new array away again leaves nothing behind. */
  lemma NothingLeft(h: Heap, v: Name)
    requires Good(h, None) && v !in h.handles
    ensures var n, h' := h.next, Created(h, v, Container(NoManager, PLAIN));
            h'.(containers := h'.containers - {n}, refs := h'.refs - {n}, data := h'.data - {v},
                handles := h'.handles - {v}) == h.(next := h'.next)
  {
    hide Good;
    ArrayFacts(h, v);
    NextIsNew(h);
    TakenBack(h.containers, h.next, Container(NoManager, PLAIN));
    TakenBack(h.refs, h.next, 1);
    TakenBack(h.data, v, h.next);
    TakenBack(h.handles, v, -1);
  }

  /** A new array can become a view of what `u` refers to. */
  lemma NewView(h: Heap, v: Name, u: Name, layout: Layout)
    requires Good(h, None) && v !in h.handles && u in h.data && h.data[u] in h.containers
    requires layout.block == h.containers[h.data[u]].layout.block
    ensures var n, h' := h.next, Created(h, v, Container(NoManager, PLAIN));
            && v in h'.data && h'.data[v] == n && u in h'.data && h'.data[u] == h.data[u] && h.data[u] in h.refs
            && n in h'.containers && h'.containers[n] == Container(NoManager, PLAIN) && n in h'.refs && h'.refs[n] == 1
            && h.data[u] in h'.refs && MayView(h', n, h.data[u], layout)
            && ViewOf(h, v, h.data[u], layout) == Viewed(h', n, h.data[u], layout)
  {
    hide Good, Viewed;
    ArrayFacts(h, u);
    NextIsNew(h);
    NewMayView(h, v, h.data[u], layout);
  }

  lemma NewMayView(h: Heap, v: Name, c: nat, layout: Layout)
    requires c in h.containers && c < h.next && layout.block == h.containers[c].layout.block
    requires forall f :: f in h.links ==> h.links[f] != h.next
    ensures MayView(Created(h, v, Container(NoManager, PLAIN)), h.next, c, layout)
  {
  }

  /** A new view keeps everything in bounds if and only if it lies within the array it is a view of. */
  lemma ViewKeepsBounds(h: Heap, v: Name, c: nat, layout: Layout)
    requires Good(h, None) && InBounds(h) && v !in h.handles && c in h.containers && c in h.refs
    ensures InBounds(ViewOf(h, v, c, layout)) <==> Within(layout, h.containers[c].layout)
  {
    hide Good, Within, ArrayInBounds;
    NextIsNew(h);
    var h' := ViewOf(h, v, c, layout);
    forall n | n in h.containers
      ensures ArrayInBounds(h', n) == ArrayInBounds(h, n)
    {
      OldInBounds(h, v, c, layout, n);
    }
    NewInBounds(h, v, c, layout);
    assert forall n :: n in h'.containers ==> n in h.containers || n == h.next;
  }

  lemma OldInBounds(h: Heap, v: Name, c: nat, layout: Layout, n: nat)
    requires c in h.containers && c in h.refs && n in h.containers && h.next !in h.containers
    requires forall f :: f in h.links ==> h.links[f] != h.next
    ensures ArrayInBounds(ViewOf(h, v, c, layout), n) == ArrayInBounds(h, n)
  {
    hide Within;
  }

  lemma NewInBounds(h: Heap, v: Name, c: nat, layout: Layout)
    requires c in h.containers && c in h.refs && h.next !in h.containers
    ensures h.next in ViewOf(h, v, c, layout).containers
    ensures ArrayInBounds(ViewOf(h, v, c, layout), h.next) <==> Within(layout, h.containers[c].layout)
  {
    hide Within;
  }

  lemma LessKeepsBounds(h: Heap, h': Heap)
    requires InBounds(h)
    requires forall c :: c in h'.containers ==>
               || (c in h.containers && h'.containers[c] == h.containers[c])
               || (h'.containers[c].manager != Parent && h'.containers[c].layout.Unwrapped())
               || h'.containers[c].manager.Imported?
    requires forall f :: f in h'.links && f.ParentOf? ==> f in h.links && h'.links[f] == h.links[f]
    requires forall f :: f in h'.links && f.ParentOf? && h.links[f] in h'.containers ==>
               h.links[f] in h.containers && h'.containers[h.links[f]] == h.containers[h.links[f]]
    ensures InBounds(h')
  {
    hide Within;
    forall n | n in h'.containers
      ensures ArrayInBounds(h', n)
    {
      if n in h.containers {
        assert ArrayInBounds(h, n);
      }
    }
  }

  // ----- Runs -----

  datatype Op =
    | Make(v: Name, extent: int)
    | View(v: Name, u: Name, extent: int)
    | OffsetView(v: Name, u: Name, extent: int, offset: Word)
    | Copy(v: Name, u: Name)
    | Move(v: Name, u: Name)
    | Swap(v: Name, u: Name)
    | Drop(v: Name)
    | Destroy(v: Name)
    | Export(u: Name)
    | Receive(layout: Layout, external: bool)
    | Import(v: Name, t: nat)
    | Delete(t: nat)

  /** What the language and the exchange protocol demand of a caller; the tests of the operations are in `Do`. */
  predicate Allowed(h: Heap, op: Op) {
    match op
    case Make(v, _) => v !in h.handles
    case View(v, u, _) => v !in h.handles && u in h.handles
    case OffsetView(v, u, _, _) => v !in h.handles && u in h.handles
    case Copy(v, u) => v !in h.handles && u in h.handles
    case Move(v, u) => v !in h.handles && u in h.handles
    case Swap(v, u) => v in h.handles && u in h.handles
    case Drop(v) => v in h.handles
    case Destroy(v) => v in h.handles
    case Export(u) => u in h.data
    case Receive(_, _) => true
    case Import(v, t) => v !in h.handles && Outstanding(h, t)
    case Delete(t) => Outstanding(h, t)
  }

  function Do(h: Heap, op: Op): Heap {
    if !Allowed(h, op) then h
    else
      match op
      case Make(v, extent) => Created(h, v, Container(NoManager, Layout(Device(h.next), 0, 0, extent, false)))
      case View(v, u, extent) =>
        if u !in h.data || h.data[u] !in h.containers || h.data[u] !in h.refs then h
        else
          var k := h.containers[h.data[u]].layout;
          if k.strided || extent % ADDRESSES > k.Size() then h
          else ViewOf(h, v, h.data[u], k.(extent := extent, strided := false))
      case OffsetView(v, u, extent, offset) =>
        if u !in h.data || h.data[u] !in h.containers || h.data[u] !in h.refs then h
        else
          var k := h.containers[h.data[u]].layout;
          if k.strided || !OffsetAccepted(k, extent % ADDRESSES, offset) then h
          else ViewOf(h, v, h.data[u], OffsetLayout(k, extent, offset))
      case Copy(v, u) => Copied(h, v, u)
      case Move(v, u) => Moved(h, v, u)
      case Swap(v, u) => Swapped(h, v, u)
      case Drop(v) => Reset(h, v)
      case Destroy(v) => var h' := Reset(h, v); h'.(handles := h'.handles - {v})
      case Export(u) =>
        if h.data[u] !in h.containers || h.data[u] !in h.refs then h else Exported(h, h.data[u])
      case Receive(layout, external) => Received(h, layout, if external then External else NoDeleter)
      case Import(v, t) => Created(h, v, Container(Imported(t), h.tensors[t].layout))
      case Delete(t) => Released(h, t)
  }

  function Run(h: Heap, ops: seq<Op>): Heap
    decreases |ops|
  {
    if ops == [] then h else Do(Run(h, ops[..|ops| - 1]), ops[|ops| - 1])
  }

  lemma DoIsGood(h: Heap, op: Op)
    requires Good(h, None)
    ensures Good(Do(h, op), None)
  {
    hide Good, Created, ViewOf, Copied, Moved, Swapped, Reset, Exported, Received, Released;
    if Allowed(h, op) {
      match op
      case Make(v, extent) => CreatedIsGood(h, v, Container(NoManager, Layout(Device(h.next), 0, 0, extent, false)));
      case View(v, u, extent) =>
        if u in h.data && h.data[u] in h.containers {
          ViewOfIsGood(h, v, h.data[u], h.containers[h.data[u]].layout.(extent := extent, strided := false));
        }
      case OffsetView(v, u, extent, offset) =>
        if u in h.data && h.data[u] in h.containers {
          ViewOfIsGood(h, v, h.data[u], OffsetLayout(h.containers[h.data[u]].layout, extent, offset));
        }
      case Copy(v, u) => CopiedIsGood(h, v, u);
      case Move(v, u) => MovedIsGood(h, v, u);
      case Swap(v, u) => SwappedIsGood(h, v, u);
      case Drop(v) => ResetIsGood(h, v);
      case Destroy(v) =>
        ResetIsGood(h, v);
        HandleGone(Reset(h, v), v);
      case Export(u) =>
        if h.data[u] in h.containers {
          ExportedIsGood(h, h.data[u]);
        }
      case Receive(layout, external) => ReceivedIsGood(h, layout, if external then External else NoDeleter);
      case Import(v, t) => CreatedIsGood(h, v, Container(Imported(t), h.tensors[t].layout));
      case Delete(t) => ReleasedIsGood(h, t);
    }
  }

  lemma HandleGone(h: Heap, v: Name)
    requires Good(h, None) && v !in h.data
    ensures Good(h.(handles := h.handles - {v}), None)
  {
    hide Counted, LinksOk, ObjectsOk, ImportsOk, ReleasedOk;
  }

  lemma {:induction false} RunIsGood(ops: seq<Op>)
    ensures Good(Run(EMPTY, ops), None)
    decreases |ops|
  {
    if ops == [] {
    } else {
      RunIsGood(ops[..|ops| - 1]);
      DoIsGood(Run(EMPTY, ops[..|ops| - 1]), ops[|ops| - 1]);
    }
  }

  /** After any run: every counter is the number of live references, what an array points to is there, and every
      container is still needed by somebody. */
  lemma ReferencesAreConserved(ops: seq<Op>, c: nat)
    ensures var h := Run(EMPTY, ops);
            c in h.containers ==>
              && c in h.refs && h.refs[c] == |Keys(h.data, c)| + |Keys(h.links, c)| && h.refs[c] >= 1
              && Alive(h, h.containers[c].layout.block) && Needed(h, c)
  {
    RunIsGood(ops);
    var h := Run(EMPTY, ops);
    if c in h.containers {
      MemoryIsAlive(h, c);
      NothingIsLeaked(h, c);
    }
  }

  /** After any run that has destroyed its arrays and tensors, every block has been given back exactly once, and so
      has every tensor that somebody else wants back. */
  lemma NothingIsLost(ops: seq<Op>)
    ensures var h := Run(EMPTY, ops);
            AllDropped(h) ==>
              && h.containers == map[] && (forall t :: t in h.tensors ==> h.tensors[t].deleter == NoDeleter)
              && forall c :: c in h.blocks ==> multiset(h.released)[Device(c)] == 1
  {
    RunIsGood(ops);
    var h := Run(EMPTY, ops);
    if AllDropped(h) {
      AllGivenBack(h);
    }
  }

  // ----- Where views are -----

  /** `v` has `extent` bytes of the memory that `k` describes, from `offset` on. */
  ghost predicate PlacedAt(h: Heap, v: Name, k: Layout, offset: int, extent: int) {
    && v in h.data && h.data[v] in h.containers
    && var view := h.containers[h.data[v]].layout;
       view.block == k.block && view.offset == offset && view.byteOffset == k.byteOffset && view.extent == extent
       && !view.strided
  }

  /** All arrays but `v` refer to what they did, and that is as it was. */
  ghost predicate OthersStay(h: Heap, h': Heap, v: Name) {
    && (forall u :: u in h.data ==> u in h'.data && h'.data[u] == h.data[u])
    && (forall c :: c in h.containers ==> c in h'.containers && h'.containers[c] == h.containers[c])
    && h'.handles.Keys == h.handles.Keys + {v}
  }

  lemma ViewOfIsPlaced(h: Heap, v: Name, c: nat, layout: Layout)
    requires Good(h, None) && v !in h.handles && c in h.containers && c in h.refs && !layout.strided
    ensures PlacedAt(ViewOf(h, v, c, layout), v, layout, layout.offset, layout.extent)
    ensures OthersStay(h, ViewOf(h, v, c, layout), v)
  {
    hide Good;
    NextIsNew(h);
    ArrayFacts(h, v);
  }

  /** A view has the memory of its array, from the beginning or from the offset asked for. */
  lemma ViewIsPlaced(h: Heap, op: Op)
    requires Good(h, None) && (op.View? || op.OffsetView?) && Do(h, op) != h
    ensures op.u in h.data && h.data[op.u] in h.containers
    ensures var k := h.containers[h.data[op.u]].layout;
            PlacedAt(Do(h, op), op.v, k, if op.OffsetView? then (k.offset + op.offset) % ADDRESSES else k.offset,
                     op.extent)
    ensures OthersStay(h, Do(h, op), op.v)
  {
    hide Good, ViewOf, PlacedAt, OthersStay;
    var c := h.data[op.u];
    var k := h.containers[c].layout;
    var layout :=
       if op.OffsetView? then OffsetLayout(k, op.extent, op.offset)
       else k.(extent := op.extent, strided := false);
    ViewOfIsPlaced(h, op.v, c, layout);
    SameMemory(Do(h, op), op.v, layout, k, layout.offset, op.extent);
  }

  lemma SameMemory(h: Heap, v: Name, layout: Layout, k: Layout, offset: int, extent: int)
    requires PlacedAt(h, v, layout, offset, extent) && layout.block == k.block && layout.byteOffset == k.byteOffset
    ensures PlacedAt(h, v, k, offset, extent)
  {
  }

  /** The offset as it runs while `n` views of this size are made one after the other. */
  function RunningOffset(offset: Word, extent: int, n: nat): Word {
    if n == 0 then offset else (RunningOffset(offset, extent, n - 1) + extent % ADDRESSES) % ADDRESSES
  }

  lemma {:induction false} RunningOffsetIsSum(offset: Word, extent: nat, n: nat)
    requires offset + n * extent < ADDRESSES
    ensures RunningOffset(offset, extent, n) == offset + n * extent
  {
    if n > 0 {
      var before := (n - 1) * extent;
      assert n * extent == before + extent;
      RunningOffsetIsSum(offset, extent, n - 1);
      NoLap(offset + before, extent);
    }
  }

  lemma NoLap(a: nat, b: nat)
    requires a + b < ADDRESSES
    ensures (a + b % ADDRESSES) % ADDRESSES == a + b
  {
  }

  function Tiles(vs: seq<Name>, u: Name, extent: int, offset: Word): (r: seq<Op>)
    ensures |r| == |vs|
  {
    seq(|vs|, i requires 0 <= i < |vs| => OffsetView(vs[i], u, extent, RunningOffset(offset, extent, i)))
  }

  /** The arrays `vs` are views of `u` of this size that lie side by side from `offset` on. */
  ghost predicate Tiled(h: Heap, h': Heap, vs: seq<Name>, u: Name, k: Layout, extent: nat, offset: nat) {
    && u in h.data && h.data[u] in h.containers && u in h'.data && h'.data[u] == h.data[u]
    && h.data[u] in h'.containers && h'.containers[h.data[u]] == h.containers[h.data[u]]
    && h'.handles.Keys == h.handles.Keys + (set v | v in vs)
    && forall i :: 0 <= i < |vs| ==> PlacedAt(h', vs[i], k, k.offset + offset + i * extent, extent)
  }

  lemma TiledNext(h: Heap, before: Heap, after: Heap, vs: seq<Name>, u: Name, k: Layout, extent: nat, offset: nat)
    requires vs != [] && Tiled(h, before, vs[..|vs| - 1], u, k, extent, offset)
    requires var n := |vs| - 1;
             PlacedAt(after, vs[n], k, k.offset + (offset + n * extent), extent) && OthersStay(before, after, vs[n])
    ensures Tiled(h, after, vs, u, k, extent, offset)
  {
    hide PlacedAt;
    var n := |vs| - 1;
    forall i | 0 <= i < n
      ensures PlacedAt(after, vs[i], k, k.offset + offset + i * extent, extent)
    {
      assert PlacedAt(before, vs[..n][i], k, k.offset + offset + i * extent, extent);
      StaysPlaced(before, after, vs[n], vs[i], k, k.offset + offset + i * extent, extent);
    }
    assert (set v | v in vs) == (set v | v in vs[..n]) + {vs[n]};
  }

  /** Views made one after the other with the running offset lie side by side: each begins where the one before it
      ends, so no two of them share a byte. */
  lemma {:induction false} TilesAdjoin(h: Heap, vs: seq<Name>, u: Name, k: Layout, extent: nat, offset: Word)
    requires Good(h, None) && Distinct(vs) && (forall v :: v in vs ==> v !in h.handles)
    requires u in h.data && h.data[u] in h.containers && h.containers[h.data[u]].layout == k && !k.strided
    requires k.Unwrapped() && offset + |vs| * extent <= k.extent && k.offset + k.extent < ADDRESSES
    ensures var h' := Run(h, Tiles(vs, u, extent, offset));
            Good(h', None) && Tiled(h, h', vs, u, k, extent, offset)
    decreases |vs|
  {
    hide Do, Good, PlacedAt, OthersStay;
    if vs != [] {
      var n := |vs| - 1;
      var ops := Tiles(vs, u, extent, offset);
      assert |vs| * extent == n * extent + extent;
      assert ops[..n] == Tiles(vs[..n], u, extent, offset);
      TilesAdjoin(h, vs[..n], u, k, extent, offset);
      RunningOffsetIsSum(offset, extent, n);
      var before := Run(h, ops[..n]);
      NewName(vs, n, h.handles.Keys, before.handles.Keys);
      NextTile(before, vs[n], u, k, extent, offset + n * extent);
      DoIsGood(before, ops[n]);
      assert Run(h, ops) == Do(before, OffsetView(vs[n], u, extent, offset + n * extent));
      TiledNext(h, before, Run(h, ops), vs, u, k, extent, offset);
    } else {
      assert Run(h, Tiles(vs, u, extent, offset)) == h;
      assert h.handles.Keys + (set v | v in vs) == h.handles.Keys;
    }
  }

  lemma NewName(vs: seq<Name>, n: nat, names: set<Name>, names': set<Name>)
    requires Distinct(vs) && n < |vs| && (forall v :: v in vs ==> v !in names)
    requires names' == names + set v | v in vs[..n]
    ensures vs[n] !in names'
  {
    assert vs[n] in vs && vs[n] !in vs[..n];
  }

  lemma StaysPlaced(h: Heap, h': Heap, new_: Name, v: Name, k: Layout, offset: int, extent: int)
    requires OthersStay(h, h', new_) && PlacedAt(h, v, k, offset, extent)
    ensures PlacedAt(h', v, k, offset, extent)
  {
  }

  lemma NextTile(h: Heap, v: Name, u: Name, k: Layout, extent: nat, offset: Word)
    requires Good(h, None) && v !in h.handles && u in h.data && h.data[u] in h.containers
    requires h.containers[h.data[u]].layout == k && !k.strided && k.Unwrapped()
    requires offset + extent <= k.extent && k.offset + k.extent < ADDRESSES
    ensures var h' := Do(h, OffsetView(v, u, extent, offset));
            PlacedAt(h', v, k, k.offset + offset, extent) && OthersStay(h, h', v)
  {
    hide Good, ViewOf, PlacedAt, OthersStay;
    ArrayFacts(h, u);
    var layout := OffsetLayout(k, extent, offset);
    assert Do(h, OffsetView(v, u, extent, offset)) == ViewOf(h, v, h.data[u], layout);
    ViewOfIsPlaced(h, v, h.data[u], layout);
    SameMemory(ViewOf(h, v, h.data[u], layout), v, layout, k, k.offset + offset, extent);
  }

  /** Nothing that the operation computes wraps around: neither the size of what it makes, nor the sum of size and
      offset in the test of `CreateOffsetView`. */
  predicate NoWrap(op: Op) {
    match op
    case Make(_, extent) => 0 <= extent < ADDRESSES
    case View(_, _, extent) => 0 <= extent < ADDRESSES
    case OffsetView(_, _, extent, offset) => 0 <= extent && extent + offset < ADDRESSES
    case _ => true
  }

  /** An array, a view or an offset view that is made keeps everything in bounds exactly when nothing has wrapped. */
  lemma MadeKeepsBounds(h: Heap, op: Op)
    requires Good(h, None) && InBounds(h) && (op.Make? || op.View? || op.OffsetView?) && Do(h, op) != h
    ensures InBounds(Do(h, op)) <==> NoWrap(op)
  {
    hide Good, ViewOf, InBounds, Within;
    match op
    case Make(v, extent) => NewKeepsBounds(h, v, extent);
    case View(v, u, extent) =>
      var k := h.containers[h.data[u]].layout;
      ViewKeepsBounds(h, v, h.data[u], k.(extent := extent, strided := false));
      PlainViewIsWithin(k, extent);
    case OffsetView(v, u, extent, offset) =>
      var k := h.containers[h.data[u]].layout;
      ViewKeepsBounds(h, v, h.data[u], OffsetLayout(k, extent, offset));
      OffsetViewIsWithin(k, extent, offset);
  }

  lemma NewKeepsBounds(h: Heap, v: Name, extent: int)
    requires Good(h, None) && InBounds(h)
    ensures var k := Container(NoManager, Layout(Device(h.next), 0, 0, extent, false));
            InBounds(Created(h, v, k)) <==> 0 <= extent < ADDRESSES
  {
    hide Good;
    var k := Container(NoManager, Layout(Device(h.next), 0, 0, extent, false));
    if k.layout.Unwrapped() {
      CreatedKeepsBounds(h, v, k);
    } else {
      assert !ArrayInBounds(Created(h, v, k), h.next);
    }
  }

  /** The heap with one array, of 16 bytes. */
  const SIXTEEN: Heap := Do(EMPTY, Make(0, 16))

  lemma SixteenIsGood()
    ensures Good(SIXTEEN, None) && InBounds(SIXTEEN)
  {
    assert Run(EMPTY, []) == EMPTY;
    RunIsGood([]);
    DoIsGood(EMPTY, Make(0, 16));
    DoKeepsBounds(EMPTY, Make(0, 16));
  }

  /** A view that this array accepts and does not contain. */
  lemma BadView(op: Op)
    requires (op.View? || op.OffsetView?) && !NoWrap(op) && Do(SIXTEEN, op) != SIXTEEN
    ensures !InBounds(Run(EMPTY, [Make(0, 16), op]))
  {
    hide Do, InBounds, Good, NoWrap;
    assert [Make(0, 16), op][..1] == [Make(0, 16)] && [Make(0, 16)][..0] == [];
    assert Run(EMPTY, []) == EMPTY;
    assert Run(EMPTY, [Make(0, 16)]) == SIXTEEN;
    SixteenIsGood();
    MadeKeepsBounds(SIXTEEN, op);
  }

  /** Two operations that get there: of an array of 16 bytes, a view of 8 that begins 4 bytes before it. */
  lemma WrappedViewIsOutOfBounds()
    ensures !InBounds(Run(EMPTY, [Make(0, 16), OffsetView(1, 0, 8, ADDRESSES - 4)]))
  {
    assert 1 in Do(SIXTEEN, OffsetView(1, 0, 8, ADDRESSES - 4)).data;
    BadView(OffsetView(1, 0, 8, ADDRESSES - 4));
  }

  /** And of the same array, a view whose size is 8 only because it has wrapped around, of either kind. */
  lemma WrappedShapeIsOutOfBounds()
    ensures !InBounds(Run(EMPTY, [Make(0, 16), View(1, 0, ADDRESSES + 8)]))
    ensures !InBounds(Run(EMPTY, [Make(0, 16), OffsetView(1, 0, ADDRESSES + 8, 0)]))
  {
    assert 1 in Do(SIXTEEN, View(1, 0, ADDRESSES + 8)).data;
    BadView(View(1, 0, ADDRESSES + 8));
    assert 1 in Do(SIXTEEN, OffsetView(1, 0, ADDRESSES + 8, 0)).data;
    BadView(OffsetView(1, 0, ADDRESSES + 8, 0));
  }

  /** What makes no container. */
  lemma SharingKeepsBounds(h: Heap, op: Op)
    requires Good(h, None) && InBounds(h) && (op.Copy? || op.Move? || op.Swap? || op.Receive?)
    ensures InBounds(Do(h, op))
  {
    hide Good, InBounds;
    LessKeepsBounds(h, Do(h, op));
  }

  lemma DoKeepsBounds(h: Heap, op: Op)
    requires Good(h, None) && InBounds(h) && NoWrap(op)
    ensures InBounds(Do(h, op))
  {
    hide Good, ViewOf, Unref, InBounds, Within, Copied, Moved, Swapped, Received;
    if Do(h, op) != h {
      match op
      case Make(_, _) => MadeKeepsBounds(h, op);
      case View(_, _, _) => MadeKeepsBounds(h, op);
      case OffsetView(_, _, _, _) => MadeKeepsBounds(h, op);
      case Copy(_, _) => SharingKeepsBounds(h, op);
      case Move(_, _) => SharingKeepsBounds(h, op);
      case Swap(_, _) => SharingKeepsBounds(h, op);
      case Drop(v) => ResetKeepsBounds(h, v);
      case Destroy(v) =>
        ResetKeepsBounds(h, v);
        LessKeepsBounds(Reset(h, v), Do(h, op));
      case Export(u) => ExportedKeepsBounds(h, u);
      case Receive(_, _) => SharingKeepsBounds(h, op);
      case Import(v, t) => CreatedKeepsBounds(h, v, Container(Imported(t), h.tensors[t].layout));
      case Delete(t) => ReleasedKeepsBounds(h, t);
    }
  }

  lemma CreatedKeepsBounds(h: Heap, v: Name, k: Container)
    requires Good(h, None) && InBounds(h) && k.manager != Parent && (k.manager == NoManager ==> k.layout.Unwrapped())
    ensures InBounds(Created(h, v, k))
  {
    hide Good, InBounds;
    NextIsNew(h);
    LessKeepsBounds(h, Created(h, v, k));
  }

  lemma ExportedKeepsBounds(h: Heap, u: Name)
    requires Good(h, None) && InBounds(h) && u in h.data && h.data[u] in h.containers && h.data[u] in h.refs
    ensures InBounds(Exported(h, h.data[u]))
  {
    hide Good, InBounds;
    LessKeepsBounds(h, Exported(h, h.data[u]));
  }

  lemma ResetKeepsBounds(h: Heap, v: Name)
    requires Good(h, None) && InBounds(h)
    ensures InBounds(Reset(h, v))
  {
    hide Good, InBounds;
    ResetIsGood(h, v);
    LessKeepsBounds(h, Reset(h, v));
  }

  lemma ReleasedKeepsBounds(h: Heap, t: nat)
    requires Good(h, None) && InBounds(h) && Outstanding(h, t)
    ensures InBounds(Released(h, t))
  {
    hide Good, InBounds;
    TensorFacts(h, t);
    if h.tensors[t].deleter == Own {
      ExportReleased(h, t);
      var h1 := h.(tensors := h.tensors - {t}, links := h.links - {SourceOf(t)});
      UnrefLeavesAlone(h1, h.links[SourceOf(t)]);
    }
    LessKeepsBounds(h, Released(h, t));
  }

  lemma {:induction false} RunStaysInBounds(ops: seq<Op>)
    requires forall i :: 0 <= i < |ops| ==> NoWrap(ops[i])
    ensures InBounds(Run(EMPTY, ops))
    decreases |ops|
  {
    if ops == [] {
    } else {
      RunStaysInBounds(ops[..|ops| - 1]);
      RunIsGood(ops[..|ops| - 1]);
      DoKeepsBounds(Run(EMPTY, ops[..|ops| - 1]), ops[|ops| - 1]);
    }
  }

  /** After any run in which nothing wraps around, the bytes of every array over a device block are bytes of that
      block. */
  lemma BytesStayInside(ops: seq<Op>, c: nat)
    requires forall i :: 0 <= i < |ops| ==> NoWrap(ops[i])
    ensures var h := Run(EMPTY, ops);
            c in h.containers && h.containers[c].layout.block.Device? ==>
              var k := h.containers[c].layout;
              && k.block.owner in h.containers && k.extent >= 0
              && k.offset + k.extent <= h.containers[k.block.owner].layout.Size()
  {
    RunIsGood(ops);
    RunStaysInBounds(ops);
    var h := Run(EMPTY, ops);
    if c in h.containers && h.containers[c].layout.block.Device? {
      BytesAreInsideTheBlock(h, c);
    }
  }
}
