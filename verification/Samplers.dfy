/** The three samplers that decide which frames a batch consists of.

    A batch of video `i` that starts at frame `b` has the frames b, b + (interval + 1), ... ; the next batch of the
    video starts `Stride` frames later.  The sequential and the random sampler enumerate the batches beforehand, the
    random-file-order sampler computes how many each video has and walks through every video with a cursor. */
module Samplers {
  datatype Params = Params(bs: nat, interval: nat, skip: nat)

  datatype Sample = Sample(video: nat, frame: int)

  datatype Video = Video(begin: int, end: int)

  type Batch = seq<Sample>

  /** From the first frame of a batch to the one behind its last. */
  function Span(p: Params): int {
    p.bs * (1 + p.interval) - p.interval
  }

  /** From the first frame of a batch to that of the next batch. */
  function Stride(p: Params): int {
    Span(p) + p.skip
  }

  function BatchAt(p: Params, i: nat, b: int): (r: Batch)
    ensures |r| == p.bs
  {
    seq(p.bs, j => Sample(i, b + j * (p.interval + 1)))
  }

  /** The batches of a video: `count` of them, one stride apart. */
  function Batches(p: Params, i: nat, v: Video, count: nat): (r: seq<Batch>)
    ensures |r| == count
  {
    seq(count, k => BatchAt(p, i, v.begin + k * Stride(p)))
  }

  lemma SpanIsPositive(p: Params)
    requires p.bs >= 1
    ensures Span(p) == (p.bs - 1) * (p.interval + 1) + 1 && 1 <= Span(p) <= Stride(p)
  {
    assert p.bs * (1 + p.interval) == (p.bs - 1) * (p.interval + 1) + p.interval + 1;
    assert (p.bs - 1) * (p.interval + 1) >= 0;
  }

  /** How many batches the enumerating loop makes: those that end before the last frame of the range. */
  function LoopCount(p: Params, v: Video): nat
    requires p.bs >= 1
  {
    SpanIsPositive(p);
    var d := v.end - v.begin - Span(p);
    if d <= 0 then 0 else (d - 1) / Stride(p) + 1
  }

  /** How many batches the closed form makes: those that end within the range. */
  function ClosedCount(p: Params, v: Video): nat
    requires p.bs >= 1 && v.begin < v.end
  {
    SpanIsPositive(p);
    (v.end + p.skip - v.begin) / Stride(p)
  }

  // ----- Arithmetic -----

  lemma Multiples(k: int, m: int, s: int)
    requires k <= m && s >= 0
    ensures k * s <= m * s
  {
    assert m * s - k * s == (m - k) * s;
    assert (m - k) * s >= 0;
  }

  /** The quotient is the number of strides that fit. */
  lemma Quotient(d: int, s: int, k: int)
    requires s >= 1
    ensures k <= d / s <==> k * s <= d
  {
    if k <= d / s {
      Multiples(k, d / s, s);
    } else {
      Multiples(d / s + 1, k, s);
    }
  }

  /** Batch number `k` is one of those the loop makes if and only if it ends before the last frame of the range. */
  lemma LoopCountIsExact(p: Params, v: Video, k: nat)
    requires p.bs >= 1
    ensures k < LoopCount(p, v) <==> v.begin + k * Stride(p) + Span(p) < v.end
  {
    SpanIsPositive(p);
    var d := v.end - v.begin - Span(p);
    Quotient(d - 1, Stride(p), k);
    Multiples(0, k, Stride(p));
  }

  /** Batch number `k` is one of those the closed form counts if and only if its last frame is in the range. */
  lemma ClosedCountIsExact(p: Params, v: Video, k: nat)
    requires p.bs >= 1 && v.begin < v.end
    ensures k < ClosedCount(p, v) <==> v.begin + k * Stride(p) + (p.bs - 1) * (p.interval + 1) < v.end
  {
    SpanIsPositive(p);
    Quotient(v.end + p.skip - v.begin, Stride(p), k + 1);
    assert (k + 1) * Stride(p) == k * Stride(p) + Stride(p);
  }

  // ----- The samplers agree -----

  /** The loop makes the batches of the closed form, all of them or all but the last; the last one is missing exactly
      when the batches with their gaps fill the range to its last frame. */
  lemma SamplersAgree(p: Params, i: nat, v: Video)
    requires p.bs >= 1 && v.begin < v.end
    ensures Batches(p, i, v, LoopCount(p, v)) <= Batches(p, i, v, ClosedCount(p, v))
    ensures var d := v.end - v.begin - Span(p);
            ClosedCount(p, v) - LoopCount(p, v) == if d >= 0 && d % Stride(p) == 0 then 1 else 0
  {
    SpanIsPositive(p);
    var n := LoopCount(p, v);
    LoopCountIsExact(p, v, n);
    ClosedCountIsExact(p, v, n);
    ClosedCountIsExact(p, v, n + 1);
    if n > 0 {
      LoopCountIsExact(p, v, n - 1);
      ClosedCountIsExact(p, v, n - 1);
    }
    assert (n + 1) * Stride(p) == n * Stride(p) + Stride(p);
    var d := v.end - v.begin - Span(p);
    var s := Stride(p);
    if d >= 0 {
      LastFits(d, s, n);
    }
  }

  /** `d` is a multiple of `s` if and only if it is the first one the count `n` leaves out. */
  lemma LastFits(d: nat, s: nat, n: nat)
    requires s >= 1 && n * s >= d && (n > 0 ==> (n - 1) * s < d)
    ensures d % s == 0 <==> n * s == d
  {
    Quotient(d, s, n);
    Quotient(d, s, n + 1);
    assert (n + 1) * s == n * s + s;
    if d % s == 0 {
      var q := d / s;
      assert d == q * s;
      if q < n {
        Multiples(q, n - 1, s);
      }
    }
  }

  /** No frame is in two batches of a video, or twice in one. */
  lemma BatchesAreDisjoint(p: Params, i: nat, v: Video, count: nat, k: nat, m: nat, j: nat, l: nat)
    requires p.bs >= 1 && k < count && m < count && j < p.bs && l < p.bs
    requires Batches(p, i, v, count)[k][j] == Batches(p, i, v, count)[m][l]
    ensures k == m && j == l
  {
    assert Batches(p, i, v, count)[k][j].frame == v.begin + k * Stride(p) + j * (p.interval + 1);
    assert Batches(p, i, v, count)[m][l].frame == v.begin + m * Stride(p) + l * (p.interval + 1);
    hide Batches, Stride;
    if k < m {
      Apart(p, v.begin, k, m, j, l);
    } else if m < k {
      Apart(p, v.begin, m, k, l, j);
    } else if j < l {
      Multiples(j + 1, l, p.interval + 1);
    } else if l < j {
      Multiples(l + 1, j, p.interval + 1);
    }
  }

  lemma Apart(p: Params, b: int, k: nat, m: nat, j: nat, l: nat)
    requires p.bs >= 1 && k < m && j < p.bs && l < p.bs
    ensures b + k * Stride(p) + j * (p.interval + 1) < b + m * Stride(p) + l * (p.interval + 1)
  {
    SpanIsPositive(p);
    Multiples(j, p.bs - 1, p.interval + 1);
    Multiples(k + 1, m, Stride(p));
    Multiples(0, l, p.interval + 1);
    assert (k + 1) * Stride(p) == k * Stride(p) + Stride(p);
  }

  // ----- Plans -----

  /** The first `counts[i]` batches of every video. */
  function Plan(p: Params, videos: seq<Video>, counts: seq<nat>): seq<Batch>
    requires |videos| == |counts|
  {
    if videos == [] then []
    else
      var n := |videos| - 1;
      Plan(p, videos[..n], counts[..n]) + Batches(p, n, videos[n], counts[n])
  }

  function LoopCounts(p: Params, videos: seq<Video>): (r: seq<nat>)
    requires p.bs >= 1
    ensures |r| == |videos|
  {
    seq(|videos|, i requires 0 <= i < |videos| => LoopCount(p, videos[i]))
  }

  predicate Nonempty(videos: seq<Video>) {
    forall i :: 0 <= i < |videos| ==> videos[i].begin < videos[i].end
  }

  function ClosedCounts(p: Params, videos: seq<Video>): (r: seq<nat>)
    requires p.bs >= 1 && Nonempty(videos)
    ensures |r| == |videos|
  {
    seq(|videos|, i requires 0 <= i < |videos| => ClosedCount(p, videos[i]))
  }

  /** The end of a range; a negative one is subtracted from the length, which puts it out of range. */
  function RangeEnd(lens: seq<int>, range: seq<int>, i: nat): int
    requires i < |lens| && 2 * i + 1 < |range|
  {
    if range[2 * i + 1] < 0 then lens[i] - range[2 * i + 1] else range[2 * i + 1]
  }

  predicate RangeOk(lens: seq<int>, range: seq<int>, i: nat)
    requires i < |lens| && 2 * i + 1 < |range|
  {
    0 <= RangeEnd(lens, range, i) && range[2 * i] < RangeEnd(lens, range, i) < lens[i]
  }

  /** What the constructors check. */
  predicate RangesOk(lens: seq<int>, range: seq<int>) {
    |range| == 2 * |lens| && forall i :: 0 <= i < |lens| ==> RangeOk(lens, range, i)
  }

  function Videos(lens: seq<int>, range: seq<int>, n: nat): (r: seq<Video>)
    requires |range| == 2 * |lens| && n <= |lens|
    ensures |r| == n
  {
    seq(n, i requires 0 <= i < n => Video(range[2 * i], RangeEnd(lens, range, i)))
  }

  /** The ranges that are accepted, in plain terms: a negative end never is. */
  lemma RangesOkExactly(lens: seq<int>, range: seq<int>)
    ensures RangesOk(lens, range) <==>
            |range| == 2 * |lens| &&
            forall i :: 0 <= i < |lens| ==> 0 <= range[2 * i + 1] && range[2 * i] < range[2 * i + 1] < lens[i]
    ensures RangesOk(lens, range) ==>
              forall i :: 0 <= i < |lens| ==>
                Videos(lens, range, |lens|)[i] == Video(range[2 * i], range[2 * i + 1])
  {
    if RangesOk(lens, range) {
      forall i | 0 <= i < |lens|
        ensures 0 <= range[2 * i + 1] && range[2 * i] < range[2 * i + 1] < lens[i]
      {
        assert RangeOk(lens, range, i);
      }
    } else if |range| == 2 * |lens| {
      var i :| 0 <= i < |lens| && !RangeOk(lens, range, i);
      assert !(0 <= range[2 * i + 1] && range[2 * i] < range[2 * i + 1] < lens[i]);
    }
  }

  // ----- The frames of a plan -----

  /** How many batches the first `i` videos have. */
  function Before(counts: seq<nat>, i: nat): nat
    requires i <= |counts|
  {
    if i == 0 then 0 else Before(counts, i - 1) + counts[i - 1]
  }

  lemma {:induction false} BeforePrefix(counts: seq<nat>, n: nat, i: nat)
    requires i <= n <= |counts|
    ensures Before(counts[..n], i) == Before(counts, i)
    decreases i
  {
    if i > 0 {
      BeforePrefix(counts, n, i - 1);
    }
  }

  lemma {:induction false} BeforeGrows(counts: seq<nat>, i: nat, n: nat)
    requires i < n <= |counts|
    ensures Before(counts, i) + counts[i] <= Before(counts, n)
    decreases n
  {
    if i + 1 < n {
      BeforeGrows(counts, i, n - 1);
    }
  }

  lemma {:induction false} PlanLength(p: Params, videos: seq<Video>, counts: seq<nat>)
    requires |videos| == |counts|
    ensures |Plan(p, videos, counts)| == Before(counts, |counts|)
    decreases |videos|
  {
    if videos != [] {
      var n := |videos| - 1;
      PlanLength(p, videos[..n], counts[..n]);
      BeforePrefix(counts, n, n);
    }
  }

  /** A plan goes through the videos in order and through each from its beginning: sample `j` of the k-th batch of
      video `i` is this frame. */
  lemma {:induction false} PlannedFrame(p: Params, videos: seq<Video>, counts: seq<nat>, i: nat, k: nat, j: nat)
    requires |videos| == |counts| && i < |videos| && k < counts[i] && j < p.bs
    ensures var plan := Plan(p, videos, counts);
            && |plan| == Before(counts, |counts|) && Before(counts, i) + k < |plan|
            && |plan[Before(counts, i) + k]| == p.bs
            && plan[Before(counts, i) + k][j] ==
               Sample(i, videos[i].begin + k * (p.bs * (1 + p.interval) - p.interval + p.skip) + j * (p.interval + 1))
    decreases |videos|
  {
    PlanLength(p, videos, counts);
    BeforeGrows(counts, i, |counts|);
    var n := |videos| - 1;
    PlanLength(p, videos[..n], counts[..n]);
    BeforePrefix(counts, n, n);
    BeforePrefix(counts, n, i);
    if i < n {
      BeforeGrows(counts, i, n);
      PlannedFrame(p, videos[..n], counts[..n], i, k, j);
    }
  }

  // ----- Enumeration -----

  /** Fill the sample buffer with the batch of video `i` that starts at `b`. */
  method FillBatch(p: Params, i: nat, b: int, buffer: seq<Sample>) returns (samples: seq<Sample>)
    requires |buffer| == p.bs
    ensures samples == BatchAt(p, i, b)
    ensures |samples| == p.bs && forall j :: 0 <= j < p.bs ==> samples[j] == Sample(i, b + j * (p.interval + 1))
  {
    samples := buffer;
    var offset, j := 0, 0;
    while j < p.bs
      invariant 0 <= j <= p.bs && |samples| == p.bs && offset == j * (p.interval + 1)
      invariant samples[..j] == BatchAt(p, i, b)[..j]
    {
      samples := samples[j := Sample(i, b + offset)];
      offset := offset + p.interval + 1;
      assert offset == (j + 1) * (p.interval + 1);
      j := j + 1;
    }
  }

  /** The loop over one video. */
  method EnumerateVideo(p: Params, i: nat, v: Video, buffer: seq<Sample>)
    returns (order: seq<Batch>, samples: seq<Sample>)
    requires p.bs >= 1 && |buffer| == p.bs
    ensures order == Batches(p, i, v, LoopCount(p, v)) && |samples| == p.bs
    ensures forall k, j :: 0 <= k < |order| && 0 <= j < p.bs ==>
              |order[k]| == p.bs &&
              order[k][j] ==
               Sample(i, v.begin + k * (p.bs * (1 + p.interval) - p.interval + p.skip) + j * (p.interval + 1))
    ensures |order| > 0 ==>
              v.begin + (|order| - 1) * (p.bs * (1 + p.interval) - p.interval + p.skip)
              + p.bs * (1 + p.interval) - p.interval < v.end
    ensures v.begin + |order| * (p.bs * (1 + p.interval) - p.interval + p.skip)
            + p.bs * (1 + p.interval) - p.interval >= v.end
  {
    SpanIsPositive(p);
    order, samples := [], buffer;
    var b := v.begin;
    while b + Span(p) < v.end
      invariant b == v.begin + |order| * Stride(p) && |samples| == p.bs
      invariant |order| <= LoopCount(p, v) && order == Batches(p, i, v, |order|)
      decreases v.end - b
    {
      LoopCountIsExact(p, v, |order|);
      samples := FillBatch(p, i, b, samples);
      assert (|order| + 1) * Stride(p) == |order| * Stride(p) + Stride(p);
      order := order + [samples];
      b := b + Stride(p);
    }
    LoopCountIsExact(p, v, |order|);
    if |order| > 0 {
      LoopCountIsExact(p, v, |order| - 1);
    }
  }

  /** What the constructors of the sequential and the random sampler do; refused when a range is not in its video. */
  method Enumerate(p: Params, lens: seq<int>, range: seq<int>) returns (ok: bool, order: seq<Batch>)
    requires p.bs >= 1
    ensures ok == RangesOk(lens, range)
    ensures ok ==> order == Plan(p, Videos(lens, range, |lens|), LoopCounts(p, Videos(lens, range, |lens|)))
  {
    order := [];
    if |range| % 2 != 0 || |lens| != |range| / 2 {
      return false, [];
    }
    var samples := seq(p.bs, _ => Sample(0, 0));
    var i := 0;
    while i < |lens|
      invariant 0 <= i <= |lens| && |samples| == p.bs
      invariant forall k :: 0 <= k < i ==> RangeOk(lens, range, k)
      invariant order == Plan(p, Videos(lens, range, i), LoopCounts(p, Videos(lens, range, i)))
    {
      var begin, end := range[2 * i], range[2 * i + 1];
      if end < 0 {
        end := lens[i] - end;
      }
      if !(end >= 0 && begin < end && end < lens[i]) {
        assert !RangeOk(lens, range, i);
        return false, [];
      }
      var batches;
      batches, samples := EnumerateVideo(p, i, Video(begin, end), samples);
      order := order + batches;
      PlanNext(p, lens, range, i);
      i := i + 1;
    }
    ok := true;
  }

  lemma PlanNext(p: Params, lens: seq<int>, range: seq<int>, i: nat)
    requires p.bs >= 1 && |range| == 2 * |lens| && i < |lens|
    ensures var before, after := Videos(lens, range, i), Videos(lens, range, i + 1);
            Plan(p, after, LoopCounts(p, after)) ==
            Plan(p, before, LoopCounts(p, before)) + Batches(p, i, after[i], LoopCount(p, after[i]))
  {
    var before, after := Videos(lens, range, i), Videos(lens, range, i + 1);
    assert after[..i] == before;
    assert LoopCounts(p, after)[..i] == LoopCounts(p, before);
  }

  /** A random permutation: every element changes places with one that is not behind it. */
  method Shuffle<T>(s: seq<T>) returns (r: seq<T>)
    ensures multiset(r) == multiset(s) && |r| == |s|
  {
    r := s;
    var i := 1;
    while i < |s|
      invariant multiset(r) == multiset(s) && |r| == |s| && i >= 1
    {
      var j :| 0 <= j <= i;
      r := r[i := r[j]][j := r[i]];
      i := i + 1;
    }
  }

  // ----- The sequential and the random sampler -----

  /** `SequentialSampler` and `RandomSampler`, which differ only in that the latter shuffles. */
  class ListSampler {
    const bs: nat
    const shuffled: bool
    var samples: seq<Sample>
    var curr: nat
    var visitOrder: seq<Batch>

    ghost predicate Valid()
      reads this
    {
      curr <= |visitOrder| && |samples| == bs && forall b :: b in visitOrder ==> |b| == bs
    }

    constructor (bs: nat, shuffled: bool, order: seq<Batch>)
      requires forall b :: b in order ==> |b| == bs
      ensures Valid() && visitOrder == order && curr == 0 && this.bs == bs && this.shuffled == shuffled
    {
      this.bs, this.shuffled := bs, shuffled;
      samples, curr, visitOrder := seq(bs, _ => Sample(0, 0)), 0, order;
    }

    /** Start again; the random sampler in a new order. */
    method Reset()
      requires Valid()
      modifies this
      ensures Valid() && curr == 0
      ensures if shuffled then multiset(visitOrder) == multiset(old(visitOrder)) else visitOrder == old(visitOrder)
    {
      if shuffled {
        visitOrder := Shuffle(visitOrder);
        assert forall b :: b in visitOrder ==> b in multiset(visitOrder);
      }
      curr := 0;
    }

    predicate HasNext()
      reads this
    {
      curr < |visitOrder|
    }

    method Next() returns (ok: bool, batch: Batch)
      requires Valid()
      modifies `samples, `curr
      ensures Valid() && ok == old(HasNext())
      ensures ok ==> batch == samples == visitOrder[old(curr)] && curr == old(curr) + 1
      ensures !ok ==> curr == old(curr)
    {
      if !HasNext() {
        return false, [];
      }
      samples := visitOrder[curr];
      curr := curr + 1;
      return true, samples;
    }

    /** One epoch: reset, and read to the end. */
    method Epoch() returns (batches: seq<Batch>)
      requires Valid()
      modifies this
      ensures Valid() && !HasNext()
      ensures if shuffled then multiset(batches) == multiset(old(visitOrder)) else batches == old(visitOrder)
    {
      Reset();
      batches := [];
      while HasNext()
        invariant Valid() && batches == visitOrder[..curr]
        invariant if shuffled then multiset(visitOrder) == multiset(old(visitOrder)) else visitOrder == old(visitOrder)
        decreases |visitOrder| - curr
      {
        var _, batch := Next();
        batches := batches + [batch];
      }
      assert visitOrder[..curr] == visitOrder;
    }
  }

  /** The constructors: no sampler when a range is not in its video. */
  method NewListSampler(p: Params, lens: seq<int>, range: seq<int>, shuffled: bool) returns (s: ListSampler?)
    requires p.bs >= 1
    ensures s != null <==> RangesOk(lens, range)
    ensures s != null <==>
            |range| == 2 * |lens| &&
            forall i :: 0 <= i < |lens| ==> 0 <= range[2 * i + 1] && range[2 * i] < range[2 * i + 1] < lens[i]
    ensures s != null ==>
              && fresh(s) && s.Valid() && s.curr == 0 && s.shuffled == shuffled
              && s.visitOrder == Plan(p, Videos(lens, range, |lens|), LoopCounts(p, Videos(lens, range, |lens|)))
  {
    RangesOkExactly(lens, range);
    var ok, order := Enumerate(p, lens, range);
    if !ok {
      return null;
    }
    PlannedSizes(p, Videos(lens, range, |lens|), LoopCounts(p, Videos(lens, range, |lens|)));
    s := new ListSampler(p.bs, shuffled, order);
  }

  lemma {:induction false} PlannedSizes(p: Params, videos: seq<Video>, counts: seq<nat>)
    requires |videos| == |counts|
    ensures forall b :: b in Plan(p, videos, counts) ==> |b| == p.bs
    decreases |videos|
  {
    if videos != [] {
      PlannedSizes(p, videos[..|videos| - 1], counts[..|videos| - 1]);
    }
  }

  // ----- The random-file-order sampler -----

  /** How often video `i` has been visited. */
  function Visits(order: seq<nat>, i: nat): nat {
    multiset(order)[i]
  }

  /** With `n` batches the last frame of the last one is in the range, and that of another one would not be. */
  predicate CountIsExact(p: Params, v: Video, n: nat) {
    var last := v.begin + n * (p.bs * (1 + p.interval) - p.interval + p.skip) + (p.bs - 1) * (p.interval + 1);
    last >= v.end && (n > 0 ==> last - (p.bs * (1 + p.interval) - p.interval + p.skip) < v.end)
  }

  lemma CountedExactly(p: Params, v: Video)
    requires p.bs >= 1 && v.begin < v.end
    ensures CountIsExact(p, v, ClosedCount(p, v))
  {
    var n := ClosedCount(p, v);
    ClosedCountIsExact(p, v, n);
    if n > 0 {
      ClosedCountIsExact(p, v, n - 1);
      assert n * Stride(p) == (n - 1) * Stride(p) + Stride(p);
    }
  }

  class FileOrderSampler {
    const p: Params
    const videos: seq<Video>
    var samples: seq<Sample>
    /** `record.current` of every video. */
    var current: seq<int>
    var visitOrder: seq<nat>
    var visitIdx: nat

    ghost predicate Valid()
      reads this
    {
      && p.bs >= 1 && Nonempty(videos) && |samples| == p.bs && visitIdx <= |visitOrder|
      && OrderOk(p, videos, visitOrder)
      && CursorsOk(p, videos, current, visitOrder[..visitIdx])
    }

    /** The batches of every video are counted by the closed form, its cursor is at the beginning of its range. */
    constructor (p: Params, videos: seq<Video>)
      requires p.bs >= 1 && Nonempty(videos)
      ensures Valid() && visitIdx == 0 && this.p == p && this.videos == videos
      ensures forall i: nat :: i < |videos| ==> CountIsExact(p, videos[i], multiset(visitOrder)[i])
    {
      this.p, this.videos := p, videos;
      samples, visitIdx := seq(p.bs, _ => Sample(0, 0)), 0;
      visitOrder, current := [], [];
      new;
      SpanIsPositive(p);
      var i := 0;
      while i < |videos|
        invariant 0 <= i <= |videos| && |current| == i && visitIdx == 0
        invariant forall k :: 0 <= k < i ==>
                    current[k] == videos[k].begin && Visits(visitOrder, k) == ClosedCount(p, videos[k])
        invariant forall k :: k in visitOrder ==> k < i
        modifies `visitOrder, `current
      {
        var count := (videos[i].end + p.skip - videos[i].begin) / Stride(p);
        Repeated(visitOrder, i, count);
        assert i !in visitOrder && Visits(visitOrder, i) == 0;
        visitOrder := visitOrder + seq(count, _ => i);
        current := current + [videos[i].begin];
        i := i + 1;
      }
      forall i: nat | i < |videos|
        ensures CountIsExact(p, videos[i], multiset(visitOrder)[i])
      {
        CountedExactly(p, videos[i]);
      }
    }

    /** A new order, and all cursors at the beginning. */
    method Reset()
      requires Valid()
      modifies this
      ensures Valid() && visitIdx == 0 && multiset(visitOrder) == multiset(old(visitOrder))
    {
      visitOrder := Shuffle(visitOrder);
      SameOrder(p, videos, old(visitOrder), visitOrder);
      visitIdx := 0;
      var i := 0;
      while i < |current|
        invariant 0 <= i <= |current| == |videos|
        invariant forall k :: 0 <= k < i ==> current[k] == videos[k].begin
        modifies `current
      {
        current := current[i := videos[i].begin];
        i := i + 1;
      }
    }

    predicate HasNext()
      reads this
    {
      visitIdx < |visitOrder|
    }

    /** The k-th visit to a video yields its k-th batch; no frame of it is outside the range. */
    method Next() returns (ok: bool, batch: Batch)
      requires Valid()
      modifies `samples, `current, `visitIdx
      ensures Valid() && ok == old(HasNext())
      ensures ok ==> batch == samples == VisitBatch(p, videos, visitOrder, old(visitIdx))
      ensures ok ==>
                var i := visitOrder[old(visitIdx)];
                var k := multiset(visitOrder[..old(visitIdx)])[i];
                && i < |videos| && |batch| == p.bs
                && forall j :: 0 <= j < p.bs ==>
                     batch[j] == Sample(i, videos[i].begin + k * (p.bs * (1 + p.interval) - p.interval + p.skip)
                                           + j * (p.interval + 1))
      ensures ok ==> visitIdx == old(visitIdx) + 1
      ensures !ok ==> visitIdx == old(visitIdx)
    {
      if !HasNext() {
        return false, [];
      }
      var i := visitOrder[visitIdx];
      ghost var k := Visits(visitOrder[..visitIdx], i);
      VisitIsPlanned(p, videos, visitOrder, visitIdx);
      ghost var b := current[i];
      var pos := current[i];
      var idx := 0;
      while idx < p.bs
        invariant 0 <= idx <= p.bs && |samples| == p.bs && pos == b + idx * (p.interval + 1)
        invariant samples[..idx] == BatchAt(p, i, b)[..idx]
        modifies `samples
      {
        Multiples(idx, p.bs - 1, p.interval + 1);
        assert pos < videos[i].end;
        samples := samples[idx := Sample(i, pos)];
        pos := pos + p.interval + 1;
        assert (idx + 1) * (p.interval + 1) == idx * (p.interval + 1) + p.interval + 1;
        idx := idx + 1;
      }
      SpanIsPositive(p);
      assert (p.bs - 1) * (p.interval + 1) == p.bs * (p.interval + 1) - (p.interval + 1);
      current := current[i := pos - p.interval + p.skip];
      CursorAdvanced(p, videos, old(current), visitOrder, visitIdx);
      assert current == old(current)[i := old(current)[i] + Stride(p)];
      visitIdx := visitIdx + 1;
      return true, samples;
    }

    /** One epoch: reset, and read to the end. */
    method Epoch() returns (batches: seq<Batch>)
      requires Valid()
      modifies this
      ensures Valid() && !HasNext()
      ensures multiset(batches) == multiset(Plan(p, videos, ClosedCounts(p, videos)))
    {
      Reset();
      batches := [];
      while HasNext()
        invariant Valid() && batches == Delivered(p, videos, visitOrder, visitIdx)
        decreases |visitOrder| - visitIdx
      {
        var _, batch := Next();
        batches := batches + [batch];
      }
      EpochIsThePlan(p, videos, visitOrder, ClosedCounts(p, videos));
    }
  }

  lemma SameOrder(p: Params, videos: seq<Video>, order: seq<nat>, order': seq<nat>)
    requires p.bs >= 1 && Nonempty(videos) && OrderOk(p, videos, order) && multiset(order') == multiset(order)
    ensures OrderOk(p, videos, order')
  {
    forall i | i in order'
      ensures i < |videos|
    {
      assert i in multiset(order');
      assert i in order;
    }
    assert forall i: nat :: Visits(order', i) == Visits(order, i);
  }

  /** The constructor: no sampler without a batch size, or when a range is not in its video. */
  method NewFileOrderSampler(p: Params, lens: seq<int>, range: seq<int>) returns (s: FileOrderSampler?)
    ensures s != null <==> p.bs > 0 && RangesOk(lens, range)
    ensures s != null <==>
            p.bs > 0 && |range| == 2 * |lens| &&
            forall i :: 0 <= i < |lens| ==> 0 <= range[2 * i + 1] && range[2 * i] < range[2 * i + 1] < lens[i]
    ensures s != null ==>
              && |s.videos| == |lens|
               && forall i :: 0 <= i < |lens| ==> s.videos[i] == Video(range[2 * i], range[2 * i + 1])
    ensures s != null ==>
              fresh(s) && s.Valid() && s.visitIdx == 0 && s.p == p && s.videos == Videos(lens, range, |lens|)
  {
    RangesOkExactly(lens, range);
    if p.bs <= 0 || |range| % 2 != 0 || |lens| != |range| / 2 {
      return null;
    }
    var videos: seq<Video> := [];
    var i := 0;
    while i < |lens|
      invariant 0 <= i <= |lens| && (forall k :: 0 <= k < i ==> RangeOk(lens, range, k))
      invariant videos == Videos(lens, range, i) && Nonempty(videos)
    {
      var begin, end := range[2 * i], range[2 * i + 1];
      if end < 0 {
        end := lens[i] - end;
      }
      if !(end >= 0 && begin < end && end < lens[i]) {
        assert !RangeOk(lens, range, i);
        return null;
      }
      videos := videos + [Video(begin, end)];
      i := i + 1;
    }
    s := new FileOrderSampler(p, videos);
  }

  /** The batch of visit number `n`. */
  function VisitBatch(p: Params, videos: seq<Video>, order: seq<nat>, n: nat): Batch
    requires n < |order| && forall i :: i in order ==> i < |videos|
  {
    assert order[n] in order;
    NextBatch(p, order[n], videos[order[n]], Visits(order[..n], order[n]))
  }

  function Delivered(p: Params, videos: seq<Video>, order: seq<nat>, n: nat): (r: seq<Batch>)
    requires n <= |order| && forall i :: i in order ==> i < |videos|
    ensures |r| == n
  {
    if n == 0 then [] else Delivered(p, videos, order, n - 1) + [VisitBatch(p, videos, order, n - 1)]
  }

  /** A visit is one of those planned, so that its last frame is within the range. */
  lemma VisitIsPlanned(p: Params, videos: seq<Video>, order: seq<nat>, n: nat)
    requires p.bs >= 1 && Nonempty(videos) && OrderOk(p, videos, order) && n < |order|
    ensures var i := order[n];
            && i < |videos| && Visits(order[..n], i) < ClosedCount(p, videos[i])
            && videos[i].begin + Visits(order[..n], i) * Stride(p) + (p.bs - 1) * (p.interval + 1) < videos[i].end
  {
    var i := order[n];
    assert i in order;
    assert order == order[..n] + [i] + order[n + 1..];
    ClosedCountIsExact(p, videos[i], Visits(order[..n], i));
  }

  lemma CursorAdvanced(p: Params, videos: seq<Video>, current: seq<int>, order: seq<nat>, n: nat)
    requires n < |order| && order[n] < |videos| && CursorsOk(p, videos, current, order[..n])
    ensures CursorsOk(p, videos, current[order[n] := current[order[n]] + Stride(p)], order[..n + 1])
  {
    assert order[..n + 1] == order[..n] + [order[n]];
    var k := Visits(order[..n], order[n]);
    assert (k + 1) * Stride(p) == k * Stride(p) + Stride(p);
  }

  // ----- An epoch is the plan -----

  /** One more batch of video `x` in the plan. */
  lemma {:induction false} PlanWithOneMore(p: Params, videos: seq<Video>, counts: seq<nat>, x: nat)
    requires |videos| == |counts| && x < |videos|
    ensures multiset(Plan(p, videos, counts[x := counts[x] + 1])) ==
            multiset(Plan(p, videos, counts)) + multiset{NextBatch(p, x, videos[x], counts[x])}
    decreases |videos|
  {
    hide *;
    var n := |videos| - 1;
    var more := counts[x := counts[x] + 1];
    PlanSplits(p, videos, counts);
    PlanSplits(p, videos, more);
    var front := Plan(p, videos[..n], counts[..n]);
    if x == n {
      assert more[..n] == counts[..n];
      BatchesNext(p, n, videos[n], counts[n]);
      OneMoreAtTheEnd(front, Batches(p, n, videos[n], counts[n]), NextBatch(p, n, videos[n], counts[n]));
    } else {
      assert more[..n] == counts[..n][x := counts[x] + 1];
      PlanWithOneMore(p, videos[..n], counts[..n], x);
      OneMoreInFront(Plan(p, videos[..n], more[..n]), front, NextBatch(p, x, videos[x], counts[x]),
                     Batches(p, n, videos[n], counts[n]));
    }
  }

  function NextBatch(p: Params, i: nat, v: Video, count: nat): Batch {
    BatchAt(p, i, v.begin + count * Stride(p))
  }

  lemma BatchesNext(p: Params, i: nat, v: Video, count: nat)
    ensures Batches(p, i, v, count + 1) == Batches(p, i, v, count) + [NextBatch(p, i, v, count)]
  {
  }

  lemma OneMoreAtTheEnd<T>(front: seq<T>, some: seq<T>, x: T)
    ensures multiset(front + (some + [x])) == multiset(front + some) + multiset{x}
  {
    assert front + (some + [x]) == front + some + [x];
  }

  lemma PlanSplits(p: Params, videos: seq<Video>, counts: seq<nat>)
    requires |videos| == |counts| && videos != []
    ensures var n := |videos| - 1;
            Plan(p, videos, counts) == Plan(p, videos[..n], counts[..n]) + Batches(p, n, videos[n], counts[n])
  {
  }

  lemma OneMoreInFront<T>(more: seq<T>, some: seq<T>, x: T, rest: seq<T>)
    requires multiset(more) == multiset(some) + multiset{x}
    ensures multiset(more + rest) == multiset(some + rest) + multiset{x}
  {
  }

  lemma {:induction false} NothingPlanned(p: Params, videos: seq<Video>, counts: seq<nat>)
    requires |videos| == |counts| && forall i :: 0 <= i < |counts| ==> counts[i] == 0
    ensures Plan(p, videos, counts) == []
    decreases |videos|
  {
    if videos != [] {
      NothingPlanned(p, videos[..|videos| - 1], counts[..|videos| - 1]);
    }
  }

  /** Whatever the order, the visits of an epoch deliver every planned batch, each as often as it is planned. */
  lemma {:induction false} VisitsDeliverThePlan(p: Params, videos: seq<Video>, order: seq<nat>, n: nat,
                                                counts: seq<nat>)
    requires |videos| == |counts| && n <= |order| && forall i :: i in order ==> i < |videos|
    requires forall i :: 0 <= i < |counts| ==> counts[i] == Visits(order[..n], i)
    ensures multiset(Delivered(p, videos, order, n)) == multiset(Plan(p, videos, counts))
    decreases n
  {
    hide Plan, Batches, NextBatch;
    if n == 0 {
      NothingPlanned(p, videos, counts);
    } else {
      var x := order[n - 1];
      assert x in order;
      assert order[..n] == order[..n - 1] + [x];
      var before := counts[x := counts[x] - 1];
      VisitsDeliverThePlan(p, videos, order, n - 1, before);
      PlanWithOneMore(p, videos, before, x);
      assert before[x := before[x] + 1] == counts;
      DeliveredNext(p, videos, order, n, before[x]);
    }
  }

  lemma DeliveredNext(p: Params, videos: seq<Video>, order: seq<nat>, n: nat, count: nat)
    requires 1 <= n <= |order| && forall i :: i in order ==> i < |videos|
    requires order[n - 1] < |videos| && count == Visits(order[..n - 1], order[n - 1])
    ensures multiset(Delivered(p, videos, order, n)) ==
            multiset(Delivered(p, videos, order, n - 1))
            + multiset{NextBatch(p, order[n - 1], videos[order[n - 1]], count)}
  {
    hide NextBatch, Visits;
  }

  lemma EpochIsThePlan(p: Params, videos: seq<Video>, order: seq<nat>, counts: seq<nat>)
    requires p.bs >= 1 && Nonempty(videos) && OrderOk(p, videos, order) && counts == ClosedCounts(p, videos)
    ensures multiset(Delivered(p, videos, order, |order|)) == multiset(Plan(p, videos, counts))
  {
    assert order[..|order|] == order;
    VisitsDeliverThePlan(p, videos, order, |order|, counts);
  }

  /** Every video is in the order as often as it has batches. */
  ghost predicate OrderOk(p: Params, videos: seq<Video>, order: seq<nat>)
    requires p.bs >= 1 && Nonempty(videos)
  {
    && (forall i :: i in order ==> i < |videos|)
    && (forall i :: 0 <= i < |videos| ==> Visits(order, i) == ClosedCount(p, videos[i]))
  }

  /** Every cursor is as many strides from the beginning as there have been visits. */
  ghost predicate CursorsOk(p: Params, videos: seq<Video>, current: seq<int>, visited: seq<nat>) {
    && |current| == |videos|
    && forall i :: 0 <= i < |videos| ==> current[i] == videos[i].begin + Visits(visited, i) * Stride(p)
  }

  lemma {:induction false} Repeated(order: seq<nat>, i: nat, count: nat)
    ensures forall k :: Visits(order + seq(count, _ => i), k) == Visits(order, k) + if k == i then count else 0
  {
    if count == 0 {
      assert order + seq(count, _ => i) == order;
    } else {
      Repeated(order, i, count - 1);
      assert order + seq(count, _ => i) == order + seq(count - 1, _ => i) + [i];
    }
  }
}
