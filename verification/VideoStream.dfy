/** The video behind the reader: a demuxer and a threaded decoder, reduced to what the reader relies on.

    A stream is a sequence of frames in presentation order with strictly increasing timestamps, some of them
    keyframes, the first one among them.  Decoding can start at a keyframe only and goes on in order from there.
    When a decoded frame becomes available is not determined; after the end of the stream all of them do. */
module VideoStream {

  /** The pts an NDArray has when nobody sets it. */
  const NO_PTS: int := -1

  datatype StreamInfo = Stream(pts: seq<int>, keys: seq<nat>)

  ghost predicate WellFormed(s: StreamInfo) {
    && |s.pts| >= 1
    && (forall i, j :: 0 <= i < j < |s.pts| ==> s.pts[i] < s.pts[j])
    && NO_PTS !in s.pts
    && |s.keys| >= 1 && s.keys[0] == 0
    && (forall i, j :: 0 <= i < j < |s.keys| ==> s.keys[i] < s.keys[j])
    && (forall i :: 0 <= i < |s.keys| ==> s.keys[i] < |s.pts|)
  }

  /** What a pop yields: a picture, a frame the decoder was told to discard (it has a pts but no picture), the
      marker for the end of the stream, or nothing yet. */
  datatype Item = Frame(index: nat) | Skipped(index: nat) | Marker | Nothing

  /** The first position holding a key greater than `pos`. */
  function UpperBound(keys: seq<nat>, pos: int): (i: nat)
    ensures i <= |keys|
    ensures forall j :: 0 <= j < i ==> keys[j] <= pos
    ensures i < |keys| ==> keys[i] > pos
  {
    if keys == [] || keys[0] > pos then 0 else 1 + UpperBound(keys[1..], pos)
  }

  /** The last keyframe that is not after frame `pos`. */
  ghost predicate IsKeyOf(s: StreamInfo, key: int, pos: int) {
    key in s.keys && key <= pos && forall k :: k in s.keys && k <= pos ==> k <= key
  }

  /** A seek the demuxer is asked for: by timestamp, which may fail, or by frame number. */
  datatype Request = ByTime(ts: int, backward: bool, done: bool) | ByNumber(pos: nat)

  /** What is asked for in order to go to frame `pos`: a seek by its timestamp, when that fails and was forward a
      backward one, and when all else has failed one by frame number. */
  predicate Attempts(asked: seq<Request>, ts: int, pos: nat, backward: bool) {
    || asked == [ByTime(ts, backward, true)]
    || (!backward && asked == [ByTime(ts, false, false), ByTime(ts, true, true)])
    || asked == (if backward then [] else [ByTime(ts, false, false)]) + [ByTime(ts, true, false), ByNumber(pos)]
  }

  /** `asked` are the attempts to go to frame `pos` from frame `from`: none when that is where one is. */
  predicate Tries(asked: seq<Request>, s: StreamInfo, from: int, pos: nat)
    requires pos < |s.pts|
  {
    if from == pos then asked == [] else Attempts(asked, s.pts[pos], pos, from > pos)
  }

  class Decoder {
    const stream: StreamInfo
    /** Forward seeks to the timestamp of a keyframe land on it. */
    const exactSeeks: bool
    /** The frame of the next packet to be read. */
    var at: nat
    /** The next frame to be decoded. */
    var out: nat
    /** Decoded and not yet popped. */
    var ready: seq<Item>
    /** The end of the stream has been announced. */
    var draining: bool
    var discard: set<int>
    /** The seeks so far. */
    var asked: seq<Request>

    ghost predicate Valid()
      reads this
    {
      && WellFormed(stream)
      && out <= at <= |stream.pts|
      && |ready| <= out
      && (forall j :: 0 <= j < |ready| ==>
            ready[j] == Frame(out - |ready| + j) || ready[j] == Skipped(out - |ready| + j))
      && (draining ==> at == |stream.pts|)
    }

    /** The frame of the next item to be popped. */
    ghost function Next(): int
      reads `out, `ready
    {
      out - |ready|
    }

    /** No picture from frame `from` on has been dropped. */
    ghost predicate PicturesFrom(from: nat)
      reads `out, `ready
    {
      forall j :: 0 <= j < |ready| && out - |ready| + j >= from ==> ready[j].Frame?
    }

    /** Pictures dropped before the next item do not matter any more. */
    lemma PicturesFromNext(from: nat)
      requires from <= Next()
      ensures PicturesFrom(from) <==> PicturesFrom(0)
    {
    }

    lemma FewerPicturesFrom(from: nat)
      requires PicturesFrom(0)
      ensures PicturesFrom(from)
    {
    }

    ghost predicate DiscardsBefore(pts: set<int>, end: nat) {
      forall i :: end <= i < |stream.pts| ==> stream.pts[i] !in pts
    }

    lemma DiscardsOnly(start: nat, end: nat)
      requires WellFormed(stream) && start <= end <= |stream.pts|
      ensures DiscardsBefore(set i | start <= i < end :: stream.pts[i], end)
    {
    }

    constructor (stream: StreamInfo, exactSeeks: bool)
      requires WellFormed(stream)
      ensures Valid() && this.stream == stream && this.exactSeeks == exactSeeks
      ensures Next() == 0 && !draining && discard == {} && ready == [] && asked == []
    {
      this.stream, this.exactSeeks := stream, exactSeeks;
      at, out, ready, draining, discard, asked := 0, 0, [], false, {}, [];
    }

    /** Stop the worker and forget everything that was pushed. */
    method Clear()
      requires Valid()
      modifies `out, `ready, `draining, `discard
      ensures Valid() && Next() == at == old(at) && ready == [] && !draining && discard == {}
    {
      out, ready, draining, discard := at, [], false, {};
    }

    /** A seek by timestamp; it may fail and leave the position alone.  A backward seek lands on the last keyframe
        that is not after the timestamp, a forward seek on any keyframe or at the end. */
    method SeekTimestamp(ts: int, backward: bool) returns (ok: bool)
      requires Valid() && ready == [] && out == at && !draining && ts >= stream.pts[0]
      modifies `at, `out, `asked
      ensures Valid() && Next() == at && (at in stream.keys || at == |stream.pts| || !ok)
      ensures asked == old(asked) + [ByTime(ts, backward, ok)]
      ensures ok && backward ==>
                && at < |stream.pts| && stream.pts[at] <= ts
                && forall k :: k in stream.keys && stream.pts[k] <= ts ==> k <= at
      ensures ok && !backward && exactSeeks ==> forall k :: k in stream.keys && stream.pts[k] == ts ==> at == k
    {
      if * {
        asked := asked + [ByTime(ts, backward, false)];
        return false;
      }
      if backward || exactSeeks {
        var i := |stream.keys| - 1;
        while stream.pts[stream.keys[i]] > ts
          invariant 0 <= i < |stream.keys|
          invariant forall j :: i < j < |stream.keys| ==> stream.pts[stream.keys[j]] > ts
        {
          i := i - 1;
        }
        at := stream.keys[i];
        KeysByTimestamp(stream, i, ts);
      } else if * {
        at := |stream.pts|;
      } else {
        var k :| k in stream.keys;
        at := k;
      }
      out, asked := at, asked + [ByTime(ts, backward, true)];
      ok := true;
    }

    /** A backward seek by frame number. */
    method SeekFrameNumber(pos: nat)
      requires Valid() && ready == [] && !draining && pos < |stream.pts|
      modifies `at, `out, `asked
      ensures Valid() && Next() == at && IsKeyOf(stream, at, pos)
      ensures asked == old(asked) + [ByNumber(pos)]
    {
      var i := |stream.keys| - 1;
      while stream.keys[i] > pos
        invariant 0 <= i < |stream.keys|
        invariant forall j :: i < j < |stream.keys| ==> stream.keys[j] > pos
      {
        i := i - 1;
      }
      at := stream.keys[i];
      out, asked := at, asked + [ByNumber(pos)];
    }

    /** The worker decodes some of what it has; when the stream has ended it does not leave off before a frame is
        ready.  A frame whose timestamp is to be discarded loses its picture. */
    method Work()
      requires Valid()
      modifies `out, `ready
      ensures Valid() && Next() == old(Next())
      ensures |old(ready)| <= |ready| && ready[..|old(ready)|] == old(ready)
      ensures forall j :: |old(ready)| <= j < |ready| && stream.pts[Next() + j] !in discard ==> ready[j].Frame?
      ensures draining && Next() < |stream.pts| ==> |ready| > 0
    {
      while out < at && draining && |ready| == 0
        invariant Valid() && Next() == old(Next())
        invariant |old(ready)| <= |ready| && ready[..|old(ready)|] == old(ready)
        invariant forall j :: |old(ready)| <= j < |ready| && stream.pts[Next() + j] !in discard ==> ready[j].Frame?
        decreases at - out
      {
        ready := ready + [if stream.pts[out] in discard then Skipped(out) else Frame(out)];
        out := out + 1;
      }
      while out < at
        invariant Valid() && Next() == old(Next())
        invariant |old(ready)| <= |ready| && ready[..|old(ready)|] == old(ready)
        invariant forall j :: |old(ready)| <= j < |ready| && stream.pts[Next() + j] !in discard ==> ready[j].Frame?
        invariant draining && Next() < |stream.pts| ==> |ready| > 0
        decreases at - out
      {
        if * {
          break;
        }
        ready := ready + [if stream.pts[out] in discard then Skipped(out) else Frame(out)];
        out := out + 1;
      }
    }

    /** Read the next packet and push it, or announce the end of the stream; false when there was no packet. */
    method PushPacket() returns (pushed: bool)
      requires Valid() && !draining
      modifies `at, `draining
      ensures Valid() && pushed == (old(at) < |stream.pts|)
      ensures if pushed then at == old(at) + 1 && !draining else at == old(at) && draining
    {
      pushed := at < |stream.pts|;
      if pushed {
        at := at + 1;
      } else {
        draining := true;
      }
    }

    /** Take the oldest item; after the end of the stream there always is one, the marker when no frame is left. */
    method Pop(ghost from: nat) returns (item: Item)
      requires Valid()
      modifies `out, `ready
      ensures Valid()
      ensures item == Nothing ==> !draining && Next() == old(Next())
      ensures item == Marker ==> draining && Next() == old(Next()) == |stream.pts|
      ensures item != Nothing && item != Marker ==>
                Next() == old(Next()) + 1 && (item == Frame(old(Next())) || item == Skipped(old(Next())))
      ensures old(PicturesFrom(from)) && DiscardsBefore(discard, from) ==>
                PicturesFrom(from) && (from <= old(Next()) ==> !item.Skipped?)
    {
      Work();
      if |ready| > 0 {
        item := ready[0];
        ready := ready[1..];
      } else {
        item := if draining then Marker else Nothing;
      }
    }
  }

  lemma KeysByTimestamp(s: StreamInfo, i: nat, ts: int)
    requires WellFormed(s) && i < |s.keys| && s.pts[s.keys[i]] <= ts
    requires forall j :: i < j < |s.keys| ==> s.pts[s.keys[j]] > ts
    ensures forall k :: k in s.keys && s.pts[k] <= ts ==> k <= s.keys[i]
    ensures forall k :: k in s.keys && s.pts[k] == ts ==> s.keys[i] == k
  {
    forall k | k in s.keys && s.pts[k] <= ts
      ensures k <= s.keys[i]
    {
      var j :| 0 <= j < |s.keys| && s.keys[j] == k;
      if j > i {
        assert false;
      }
    }
  }
}
