/** Indexing a video: one pass over its packets, which come in decoding order, gives the timestamps in presentation
    order and the positions of the keyframes in decoding order.  The reader uses both as frame numbers. */
module VideoIndex {
  import opened Sequences
  import opened VideoStream

  datatype Packet = Packet(stream: int, pts: int, key: bool)

  /** The packets of the active stream. */
  function Active(packets: seq<Packet>, active: int): seq<Packet> {
    if packets == [] then []
    else
      var n := |packets| - 1;
      Active(packets[..n], active) + if packets[n].stream == active then [packets[n]] else []
  }

  lemma ActiveLast(s: seq<Packet>, p: Packet, active: int)
    ensures Active(s + [p], active) == Active(s, active) + if p.stream == active then [p] else []
  {
    assert (s + [p])[..|s|] == s;
  }

  /** These, all of them, and in their order. */
  lemma {:induction false} ActivePackets(a: seq<Packet>, b: seq<Packet>, active: int)
    ensures Active(a + b, active) == Active(a, active) + Active(b, active)
    ensures forall p :: Active([p], active) == if p.stream == active then [p] else []
    decreases |b|
  {
    hide Active;
    forall p
      ensures Active([p], active) == if p.stream == active then [p] else []
    {
      ActiveLast([], p, active);
      NoneActive(active);
      assert [] + [p] == [p];
    }
    NoneActive(active);
    if b == [] {
      assert a + b == a;
    } else {
      var n := |b| - 1;
      ActivePackets(a, b[..n], active);
      ActiveLast(a + b[..n], b[n], active);
      ActiveLast(b[..n], b[n], active);
      assert a + b == (a + b[..n]) + [b[n]] && b == b[..n] + [b[n]];
    }
  }

  lemma NoneActive(active: int)
    ensures Active([], active) == []
  {
  }

  function Timestamps(ps: seq<Packet>): (r: seq<int>)
    ensures |r| == |ps|
  {
    seq(|ps|, i requires 0 <= i < |ps| => ps[i].pts)
  }

  /** The positions of the key packets, in order. */
  function KeyIndices(ps: seq<Packet>): (r: seq<nat>)
    ensures forall k :: 0 <= k < |r| ==> r[k] < |ps| && ps[r[k]].key
    ensures forall j, k :: 0 <= j < k < |r| ==> r[j] < r[k]
  {
    if ps == [] then []
    else
      var n := |ps| - 1;
      KeyIndices(ps[..n]) + if ps[n].key then [n] else []
  }

  lemma {:induction false} KeyIndicesAreAll(ps: seq<Packet>, c: nat)
    requires c < |ps| && ps[c].key
    ensures c in KeyIndices(ps)
  {
    if c < |ps| - 1 {
      KeyIndicesAreAll(ps[..|ps| - 1], c);
    }
  }

  predicate Sorted(s: seq<int>) {
    forall i, j :: 0 <= i < j < |s| ==> s[i] <= s[j]
  }

  lemma SortedParts(a: seq<int>, b: seq<int>)
    requires Sorted(a) && Sorted(b) && (a == [] || b == [] || a[|a| - 1] <= b[0])
    ensures Sorted(a + b)
  {
    if a != [] && b != [] {
      assert forall i :: 0 <= i < |a| ==> a[i] <= a[|a| - 1];
      assert forall j :: 0 <= j < |b| ==> b[0] <= b[j];
    }
  }

  lemma InsertSorted(r: seq<int>, k: nat, x: int)
    requires Sorted(r) && k <= |r| && (k > 0 ==> r[k - 1] <= x) && (k < |r| ==> r[k] > x)
    ensures Sorted(r[..k] + [x] + r[k..])
    ensures multiset(r[..k] + [x] + r[k..]) == multiset(r) + multiset{x}
  {
    SortedParts(r[..k], [x]);
    SortedParts(r[..k] + [x], r[k..]);
    InsertedElements(r[..k], r[k..], x);
    assert r == r[..k] + r[k..];
  }

  lemma InsertedElements(a: seq<int>, b: seq<int>, x: int)
    ensures multiset(a + [x] + b) == multiset(a + b) + multiset{x}
  {
  }

  /** The next timestamp goes behind those that are not greater. */
  method InsertInto(r: seq<int>, x: int) returns (r': seq<int>)
    requires Sorted(r)
    ensures Sorted(r') && multiset(r') == multiset(r) + multiset{x} && |r'| == |r| + 1
  {
    var k := |r|;
    hide Sorted;
    while k > 0 && r[k - 1] > x
      invariant 0 <= k <= |r| && (k < |r| ==> r[k] > x)
    {
      k := k - 1;
    }
    InsertSorted(r, k, x);
    r' := r[..k] + [x] + r[k..];
  }

  /** `std::sort` on the timestamps. */
  method Sort(s: seq<int>) returns (r: seq<int>)
    ensures Sorted(r) && multiset(r) == multiset(s) && |r| == |s|
  {
    r := [];
    assert Sorted(r);
    var i := 0;
    hide Sorted;
    while i < |s|
      invariant 0 <= i <= |s| && Sorted(r) && multiset(r) == multiset(s[..i]) && |r| == i
    {
      PrefixElements(s, i);
      r := InsertInto(r, s[i]);
      i := i + 1;
    }
    assert s[..i] == s;
  }

  lemma PrefixElements(s: seq<int>, i: nat)
    requires i < |s|
    ensures multiset(s[..i + 1]) == multiset(s[..i]) + multiset{s[i]}
  {
    assert s[..i + 1] == s[..i] + [s[i]];
  }

  lemma IndexNext(packets: seq<Packet>, active: int, i: nat)
    requires i < |packets|
    ensures var ps, ps' := Active(packets[..i], active), Active(packets[..i + 1], active);
            if packets[i].stream != active then ps' == ps
            else
              && Timestamps(ps') == Timestamps(ps) + [packets[i].pts]
              && KeyIndices(ps') == KeyIndices(ps) + if packets[i].key then [|ps|] else []
  {
    assert packets[..i + 1][..i] == packets[..i];
    var ps := Active(packets[..i], active);
    assert (ps + [packets[i]])[..|ps|] == ps;
  }

  /** `IndexKeyframes`, up to the seek at its end. */
  method IndexKeyframes(packets: seq<Packet>, active: int)
    returns (pts: seq<int>, keys: seq<nat>, frameMap: map<int, nat>)
    ensures Sorted(pts) && multiset(pts) == multiset(Timestamps(Active(packets, active)))
    ensures keys == KeyIndices(Active(packets, active))
    ensures forall v :: v in frameMap <==> v in pts
    ensures forall v :: v in frameMap ==> frameMap[v] < |pts| && pts[frameMap[v]] == v && v !in pts[..frameMap[v]]
  {
    var times: seq<int>, cnt, i := [], 0, 0;
    keys := [];
    while i < |packets|
      invariant 0 <= i <= |packets| && cnt == |times|
      invariant times == Timestamps(Active(packets[..i], active)) && keys == KeyIndices(Active(packets[..i], active))
    {
      IndexNext(packets, active, i);
      if packets[i].stream == active {
        times := times + [packets[i].pts];
        if packets[i].key {
          keys := keys + [cnt];
        }
        cnt := cnt + 1;
      }
      i := i + 1;
    }
    assert packets[..i] == packets;
    pts := Sort(times);
    frameMap := map[];
    i := 0;
    while i < |pts|
      invariant 0 <= i <= |pts|
      invariant forall v :: v in frameMap <==> v in pts[..i]
      invariant forall v :: v in frameMap ==> frameMap[v] < i && pts[frameMap[v]] == v && v !in pts[..frameMap[v]]
    {
      if pts[i] !in frameMap {
        frameMap := frameMap[pts[i] := i];
      }
      i := i + 1;
    }
    assert pts[..i] == pts;
  }

  // ----- When the two orders agree -----

  /** How many are smaller than `v`. */
  function CountBelow(s: seq<int>, v: int): (r: nat)
    ensures r <= |s|
  {
    if s == [] then 0
    else
      var n := |s| - 1;
      CountBelow(s[..n], v) + if s[n] < v then 1 else 0
  }

  lemma {:induction false} BelowConcat(a: seq<int>, b: seq<int>, v: int)
    ensures CountBelow(a + b, v) == CountBelow(a, v) + CountBelow(b, v)
    decreases |b|
  {
    if b == [] {
      assert a + b == a;
    } else {
      var n := |b| - 1;
      assert (a + b)[..|a| + n] == a + b[..n];
      BelowConcat(a, b[..n], v);
    }
  }

  /** The order does not matter. */
  lemma {:induction false} BelowPermuted(a: seq<int>, b: seq<int>, v: int)
    requires multiset(a) == multiset(b)
    ensures CountBelow(a, v) == CountBelow(b, v)
    decreases |a|
  {
    assert |multiset(a)| == |a| && |multiset(b)| == |b|;
    if a != [] {
      var n := |a| - 1;
      assert a == a[..n] + [a[n]];
      assert a[n] in multiset(a);
      var i :| 0 <= i < |b| && b[i] == a[n];
      Without(b, i);
      SameWithout(multiset(a[..n]), multiset(b[..i] + b[i + 1..]), a[n]);
      BelowPermuted(a[..n], b[..i] + b[i + 1..], v);
      BelowAround(b, i, v);
    }
  }

  lemma SameWithout(a: multiset<int>, b: multiset<int>, x: int)
    requires a + multiset{x} == b + multiset{x}
    ensures a == b
  {
    assert a == a + multiset{x} - multiset{x} && b == b + multiset{x} - multiset{x};
  }

  lemma Without(s: seq<int>, i: nat)
    requires i < |s|
    ensures multiset(s) == multiset(s[..i] + s[i + 1..]) + multiset{s[i]}
  {
    assert s == s[..i] + [s[i]] + s[i + 1..];
  }

  lemma BelowAround(s: seq<int>, i: nat, v: int)
    requires i < |s|
    ensures CountBelow(s, v) == CountBelow(s[..i] + s[i + 1..], v) + if s[i] < v then 1 else 0
  {
    assert s == s[..i + 1] + s[i + 1..] && s[..i + 1][..i] == s[..i];
    BelowConcat(s[..i + 1], s[i + 1..], v);
    BelowConcat(s[..i], s[i + 1..], v);
  }

  /** In a sorted list the smaller elements come first. */
  lemma {:induction false} SmallerComeFirst(s: seq<int>, v: int)
    requires Sorted(s)
    ensures forall c :: 0 <= c < |s| ==> (s[c] < v <==> c < CountBelow(s, v))
  {
    if s != [] {
      SmallerComeFirst(s[..|s| - 1], v);
    }
  }

  lemma {:induction false} AllSmaller(s: seq<int>, v: int)
    requires forall i :: 0 <= i < |s| ==> s[i] < v
    ensures CountBelow(s, v) == |s|
  {
    if s != [] {
      AllSmaller(s[..|s| - 1], v);
    }
  }

  lemma {:induction false} NoneSmaller(s: seq<int>, v: int)
    requires forall i :: 0 <= i < |s| ==> s[i] >= v
    ensures CountBelow(s, v) == 0
  {
    if s != [] {
      NoneSmaller(s[..|s| - 1], v);
    }
  }

  /** Everything before position `c` is smaller than `v`, and nothing from there on. */
  lemma SmallerBefore(s: seq<int>, c: nat, v: int)
    requires c <= |s| && (forall i :: 0 <= i < c ==> s[i] < v) && forall i :: c <= i < |s| ==> s[i] >= v
    ensures CountBelow(s, v) == c
  {
    assert s == s[..c] + s[c..];
    BelowConcat(s[..c], s[c..], v);
    AllSmaller(s[..c], v);
    NoneSmaller(s[c..], v);
  }

  lemma SameElements(a: seq<int>, b: seq<int>)
    requires multiset(a) == multiset(b)
    ensures forall x :: x in a <==> x in b
  {
    assert forall x :: x in a <==> x in multiset(a);
    assert forall x :: x in b <==> x in multiset(b);
  }

  lemma DistinctCarriesOver(a: seq<int>, b: seq<int>)
    requires multiset(a) == multiset(b) && Distinct(a)
    ensures Distinct(b)
  {
    forall i, j | 0 <= i < j < |b|
      ensures b[i] != b[j]
    {
      if b[i] == b[j] {
        assert b == b[..i] + [b[i]] + b[i + 1..j] + [b[j]] + b[j + 1..];
        assert multiset(b)[b[i]] >= 2;
        OccursOnce(a, b[i]);
      }
    }
  }

  /** The position of a packet is the number of a frame with its timestamp if and only if at most as many packets have
      smaller timestamps, and more have no greater ones.  If no two timestamps are equal this says that exactly as
      many are smaller. */
  lemma PositionIsFrameNumber(ps: seq<Packet>, pts: seq<int>, c: nat)
    requires Sorted(pts) && multiset(pts) == multiset(Timestamps(ps)) && c < |ps|
    ensures |pts| == |ps|
    ensures var times, v := Timestamps(ps), ps[c].pts;
            pts[c] == v <==> CountBelow(times, v) <= c < CountBelow(times, v + 1)
  {
    var times, v := Timestamps(ps), ps[c].pts;
    assert |multiset(pts)| == |pts| && |multiset(times)| == |times|;
    BelowPermuted(pts, times, v);
    BelowPermuted(pts, times, v + 1);
    SmallerComeFirst(pts, v);
    SmallerComeFirst(pts, v + 1);
  }

  /** With open groups a keyframe may be decoded before frames that are shown before it, and then its position names
      another frame: here the keyframe decoded second is the third to be shown. */
  lemma OpenGroupMisleads() returns (ps: seq<Packet>, pts: seq<int>)
    ensures Sorted(pts) && multiset(pts) == multiset(Timestamps(ps)) && Distinct(Timestamps(ps))
    ensures |pts| == |ps| == 3 && ps[0].key && 1 in KeyIndices(ps) && pts[1] != ps[1].pts && pts[2] == ps[1].pts
  {
    ps := [Packet(0, 0, true), Packet(0, 2, true), Packet(0, 1, false)];
    pts := [0, 1, 2];
    KeyIndicesAreAll(ps, 1);
    assert Timestamps(ps) == [0, 2, 1];
  }

  /** No frame before a keyframe is shown after it, and no frame after it before it. */
  predicate ClosedGops(ps: seq<Packet>) {
    forall c, j :: 0 <= c < |ps| && ps[c].key && 0 <= j < |ps| ==>
      (j < c ==> ps[j].pts < ps[c].pts) && (j > c ==> ps[j].pts > ps[c].pts)
  }

  /** The index of a video that begins with a keyframe and whose groups of pictures are closed is what the reader
      assumes: increasing timestamps, and keyframe positions that are frame numbers. */
  lemma IndexIsWellFormed(ps: seq<Packet>, pts: seq<int>)
    requires Sorted(pts) && multiset(pts) == multiset(Timestamps(ps))
    requires |ps| > 0 && ps[0].key && ClosedGops(ps) && Distinct(Timestamps(ps)) && -1 !in Timestamps(ps)
    ensures WellFormed(Stream(pts, KeyIndices(ps)))
    ensures forall c :: c in KeyIndices(ps) ==> c < |pts| && pts[c] == ps[c].pts
  {
    hide ClosedGops, CountBelow, Timestamps, KeyIndices, Sorted, Distinct, WellFormed;
    IncreasingTimestamps(ps, pts);
    FirstKeyIsZero(ps);
    var keys := KeyIndices(ps);
    forall c | c in keys
      ensures c < |pts| && pts[c] == ps[c].pts
    {
      KeyIsFrame(ps, pts, c);
    }
    assert forall k :: 0 <= k < |keys| ==> keys[k] in keys;
    MakesWellFormed(pts, keys);
  }

  lemma MakesWellFormed(pts: seq<int>, keys: seq<nat>)
    requires |pts| >= 1 && (forall i, j :: 0 <= i < j < |pts| ==> pts[i] < pts[j]) && NO_PTS !in pts
    requires |keys| >= 1 && keys[0] == 0 && (forall i, j :: 0 <= i < j < |keys| ==> keys[i] < keys[j])
    requires forall i :: 0 <= i < |keys| ==> keys[i] < |pts|
    ensures WellFormed(Stream(pts, keys))
  {
  }

  lemma IncreasingTimestamps(ps: seq<Packet>, pts: seq<int>)
    requires Sorted(pts) && multiset(pts) == multiset(Timestamps(ps)) && Distinct(Timestamps(ps)) && |ps| > 0
    ensures |pts| == |ps| && forall i, j :: 0 <= i < j < |pts| ==> pts[i] < pts[j]
    ensures forall x :: x in pts <==> x in Timestamps(ps)
  {
    SameElements(pts, Timestamps(ps));
    DistinctCarriesOver(Timestamps(ps), pts);
    PositionIsFrameNumber(ps, pts, 0);
  }

  lemma {:induction false} FirstKeyIsZero(ps: seq<Packet>)
    requires |ps| > 0 && ps[0].key
    ensures |KeyIndices(ps)| > 0 && KeyIndices(ps)[0] == 0
  {
    if |ps| > 1 {
      FirstKeyIsZero(ps[..|ps| - 1]);
    }
  }

  lemma KeyIsFrame(ps: seq<Packet>, pts: seq<int>, c: nat)
    requires Sorted(pts) && multiset(pts) == multiset(Timestamps(ps))
    requires ClosedGops(ps) && c in KeyIndices(ps)
    ensures |pts| == |ps| && c < |ps| && pts[c] == ps[c].pts
  {
    var k :| 0 <= k < |KeyIndices(ps)| && KeyIndices(ps)[k] == c;
    PositionIsFrameNumber(ps, pts, c);
    SmallerAreBefore(ps, c);
  }

  lemma SmallerAreBefore(ps: seq<Packet>, c: nat)
    requires ClosedGops(ps) && c < |ps| && ps[c].key
    ensures var times, v := Timestamps(ps), ps[c].pts;
            CountBelow(times, v) == c && CountBelow(times, v + 1) == c + 1
  {
    SmallerBefore(Timestamps(ps), c, ps[c].pts);
    SmallerBefore(Timestamps(ps), c + 1, ps[c].pts + 1);
  }
}
