/** Random access in the video reader: `curr_frame_` names the next frame to be handed out, whatever detours the
    seeks make.  The methods follow video_reader.cc statement by statement; the recovery of corrupted videos and
    streams other than the video stream are left out. */
module VideoReader {
  import opened VideoStream
  import opened Wrappers

  /** One byte of a picture: which frame it is of, and where in it. */
  datatype Pixel = Blank | Pixel(frame: int, at: nat)

  class Reader {
    const decoder: Decoder
    const frameSize: nat
    var ptsFrameMap: map<int, nat>
    var currFrame: nat
    var overrun: bool
    var tmpKeyFrame: Item
    var eof: bool
    /** The frames handed out so far. */
    var delivered: seq<int>

    ghost predicate Valid()
      reads this, decoder
    {
      && decoder.Valid()
      && frameSize >= 1
      && (forall i :: 0 <= i < Count() ==>
            decoder.stream.pts[i] in ptsFrameMap && ptsFrameMap[decoder.stream.pts[i]] == i)
      && currFrame <= Count()
      && (eof <==> decoder.draining)
    }

    /** `GetFrameCount`. */
    function Count(): nat
      reads this, decoder
    {
      |decoder.stream.pts|
    }

    /** The decoder is at `currFrame`, with nothing dropped on the way. */
    ghost predicate InStep()
      reads this, decoder
    {
      Valid() && decoder.Next() == currFrame && Clean()
    }

    /** Every frame the decoder has ready has its picture, and so will those to come. */
    ghost predicate Clean()
      reads decoder
    {
      decoder.PicturesFrom(0) && decoder.discard == {}
    }

    /** In step; and a keyframe put aside by an accurate seek is of a frame before the current one. */
    ghost predicate Positioned()
      reads this, decoder
    {
      InStep() && (overrun ==> tmpKeyFrame.Frame? && tmpKeyFrame.index < currFrame)
    }

    /** The keyframe that is waiting although a batch is to begin with the current frame. */
    ghost function Stale(indices: seq<int>): (r: Option<nat>)
      reads this
      ensures r.Some? ==> indices != []
    {
      if overrun && tmpKeyFrame.Frame? && indices != [] && indices[0] == currFrame then Some(tmpKeyFrame.index)
      else None
    }

    /** What the next call of `NextFrame` hands out: the keyframe put aside, nothing when the position is the end, or
        what the decoder is at, wherever that is.  (At the end marker the recovery of corrupted videos sets in.) */
    ghost function Upcoming(): Item
      requires Valid()
      reads this, decoder
    {
      if overrun then tmpKeyFrame
      else if currFrame >= Count() then Nothing
      else if decoder.Next() < Count() then Frame(decoder.Next())
      else Marker
    }

    /** `NextFrame` does not run into the end of the stream. */
    ghost predicate Readable()
      reads this, decoder
    {
      Valid() && Clean() && Upcoming() != Marker && (overrun ==> tmpKeyFrame.Frame?)
    }

    /** `IndexKeyframes` and the rest of the construction: index the timestamps and go to the first frame. */
    constructor (stream: StreamInfo, exactSeeks: bool, frameSize: nat)
      requires WellFormed(stream) && frameSize >= 1
      ensures Positioned() && !overrun && currFrame == 0 && delivered == []
      ensures decoder.stream == stream && decoder.exactSeeks == exactSeeks && this.frameSize == frameSize
      ensures fresh(decoder)
    {
      decoder := new Decoder(stream, exactSeeks);
      this.frameSize := frameSize;
      ptsFrameMap, currFrame, overrun, tmpKeyFrame, eof, delivered := map[], |stream.pts|, false, Nothing, false, [];
      new;
      var i := 0;
      while i < |stream.pts|
        invariant 0 <= i <= |stream.pts|
        invariant forall j :: 0 <= j < i ==> stream.pts[j] in ptsFrameMap && ptsFrameMap[stream.pts[j]] == j
        modifies `ptsFrameMap
      {
        ptsFrameMap := ptsFrameMap[stream.pts[i] := i];
        i := i + 1;
      }
      var _ := Seek(0);
    }

    /** The raw seek: afterwards `currFrame` claims to be `pos`.  That is true of a backward seek to a keyframe; a
        forward seek may have landed on another keyframe or at the end. */
    method Seek(pos: nat) returns (ok: bool)
      requires Valid() && pos < Count()
      modifies `currFrame, `eof, decoder
      ensures ok && Valid() && currFrame == pos && (old(Clean()) ==> Clean())
      ensures Asks(decoder.stream, old(decoder.asked), decoder.asked, old(currFrame), pos)
      ensures old(currFrame) == pos ==> eof == old(eof) && unchanged(decoder)
      ensures old(currFrame) != pos ==>
                && Clean() && (decoder.at in decoder.stream.keys || decoder.at == Count())
                && decoder.Next() == decoder.at
      ensures old(currFrame) > pos ==> IsKeyOf(decoder.stream, decoder.at, pos)
      ensures decoder.exactSeeks && old(currFrame) < pos && pos in decoder.stream.keys ==> decoder.at == pos
    {
      if currFrame == pos {
        return true;
      }
      decoder.Clear();
      eof := false;
      var ts := decoder.stream.pts[pos];
      var backward := currFrame > pos;
      var ret := decoder.SeekTimestamp(ts, backward);
      if !backward && !ret {
        ret := decoder.SeekTimestamp(ts, true);
        backward := true;
      }
      if !ret {
        decoder.SeekFrameNumber(pos);
      } else if backward {
        BackwardLanding(decoder.stream, decoder.at, pos);
      }
      currFrame := pos;
      ok := true;
    }

    /** The raw seek as callers have it.  What is read next is frame `pos` if a keyframe put aside is that frame, or,
        when none is put aside, if the reader was there already or has landed on it.  A backward seek, or one that
        lands where it aims, lands on it exactly when it is a keyframe. */
    method RawSeek(pos: nat) returns (ok: bool)
      requires Positioned() && pos < Count()
      modifies `currFrame, `eof, decoder
      ensures ok && Valid() && currFrame == pos
      ensures Upcoming() == Frame(pos) <==>
              if overrun then tmpKeyFrame == Frame(pos) else old(currFrame) == pos || decoder.at == pos
      ensures old(currFrame) > pos || (old(currFrame) < pos && decoder.exactSeeks) ==>
                (decoder.at == pos <==> pos in decoder.stream.keys)
      ensures Upcoming() != Marker ==> Readable()
    {
      hide WellFormed, Clean;
      ok := Seek(pos);
    }

    function LocateKeyframe(pos: int): nat
      reads this, decoder
    {
      var keys := decoder.stream.keys;
      if |keys| < 1 then 0
      else if pos <= keys[0] then 0
      else if pos >= Count() then keys[|keys| - 1]
      else
        var i := UpperBound(keys, pos);
        if i == 0 then 0 else keys[i - 1]
    }

    /** Read the next packet into the decoder, unless the end has been reached. */
    method PushNext()
      requires Valid()
      modifies `eof, decoder`at, decoder`draining
      ensures Valid()
      ensures !old(eof) ==> if eof then decoder.at == old(decoder.at) else decoder.at == old(decoder.at) + 1
      ensures old(eof) ==> eof && decoder.at == old(decoder.at)
    {
      if !eof {
        var pushed := decoder.PushPacket();
        eof := !pushed;
      }
    }

    /** Hand out the next frame, or an empty array at the end of the video. */
    method NextFrame() returns (frame: Item)
      requires Readable()
      modifies this, decoder
      ensures Valid() && Clean() && !overrun && ptsFrameMap == old(ptsFrameMap) && decoder.asked == old(decoder.asked)
      ensures frame == old(Upcoming())
      ensures old(Positioned()) ==> Positioned()
      ensures currFrame == if !old(overrun) && old(currFrame) < Count() then old(currFrame) + 1 else old(currFrame)
      ensures delivered == if frame.Frame? then old(delivered) + [frame.index] else old(delivered)
    {
      if overrun {
        overrun := false;
        frame := tmpKeyFrame;
        delivered := delivered + [tmpKeyFrame.index];
        return;
      }
      frame := Nothing;
      var ret := false;
      ghost var at := decoder.Next();
      while !ret
        invariant Valid() && Clean() && !overrun && currFrame == old(currFrame)
        invariant delivered == old(delivered) && ptsFrameMap == old(ptsFrameMap) && decoder.asked == old(decoder.asked)
        invariant decoder.Next() == (if ret then at + 1 else at) && (ret ==> frame == Frame(at) && currFrame < Count())
        decreases !ret, Count() - decoder.at, !eof
      {
        PushNext();
        if currFrame >= Count() {
          frame := Nothing;
          return;
        }
        frame := decoder.Pop(0);
        ret := frame.Frame?;
      }
      currFrame := currFrame + 1;
      delivered := delivered + [frame.index];
    }

    /** One round of the loop in `SkipFramesImpl`: an item before frame `end` is passed over, or there is none yet. */
    method PassOver(ghost end: nat) returns (ret: bool)
      requires Valid() && decoder.Next() < end <= Count()
      requires decoder.PicturesFrom(end) && decoder.DiscardsBefore(decoder.discard, end)
      modifies `eof, decoder
      ensures Valid() && decoder.PicturesFrom(end)
      ensures decoder.discard == old(decoder.discard) && decoder.asked == old(decoder.asked)
      ensures decoder.Next() == old(decoder.Next()) + if ret then 1 else 0
      ensures !ret ==> old(decoder.at) < decoder.at || (old(decoder.at) == decoder.at && eof && !old(eof))
    {
      hide WellFormed, decoder.DiscardsBefore, decoder.PicturesFrom;
      PushNext();
      var item := decoder.Pop(end);
      ret := item != Nothing;
    }

    /** Pass over frames without making pictures of them: the decoder is told to discard them until they have all
        been popped. */
    method SkipFramesImpl(num: int)
      requires InStep()
      modifies `currFrame, `eof, decoder
      ensures InStep() && decoder.asked == old(decoder.asked)
      ensures currFrame == old(currFrame) + Max(0, Min(Count() - old(currFrame), num))
    {
      hide WellFormed, decoder.PicturesFrom, decoder.DiscardsBefore;
      var left := Min(Count() - currFrame, num);
      if left < 1 {
        return;
      }
      ghost var end := currFrame + left;
      var suggested := set i | currFrame <= i < currFrame + left :: decoder.stream.pts[i];
      decoder.DiscardsOnly(currFrame, end);
      decoder.FewerPicturesFrom(end);
      decoder.discard := suggested;
      while left > 0
        invariant Valid()
        invariant 0 <= left && currFrame + left == end <= Count() && decoder.Next() == currFrame
        invariant decoder.discard == suggested && decoder.PicturesFrom(end) && decoder.asked == old(decoder.asked)
        decreases left, Count() - decoder.at, !eof
      {
        var ret := PassOver(end);
        if ret {
          currFrame := currFrame + 1;
          left := left - 1;
        }
      }
      decoder.discard := {};
      decoder.PicturesFromNext(end);
    }

    /** After a seek to a keyframe: decode one frame and take the position from its timestamp.  True if the seek
        has landed on that keyframe, which is then put aside. */
    method CheckKeyFrame() returns (ok: bool)
      requires Valid() && currFrame < Count() && Clean()
      modifies `currFrame, `eof, `tmpKeyFrame, decoder
      ensures InStep() && decoder.asked == old(decoder.asked)
      ensures ok <==> old(decoder.Next()) == old(currFrame)
      ensures ok ==> currFrame == old(currFrame) + 1 && tmpKeyFrame == Frame(old(currFrame))
      ensures !ok ==> currFrame == Min(Count(), old(decoder.Next()) + 1)
    {
      var frame := Nothing;
      var ret := false;
      while !ret
        invariant Valid() && Clean()
        invariant currFrame == old(currFrame) && tmpKeyFrame == old(tmpKeyFrame) && decoder.asked == old(decoder.asked)
        invariant if !ret || frame == Marker then decoder.Next() == old(decoder.Next())
                  else frame == Frame(old(decoder.Next())) && decoder.Next() == old(decoder.Next()) + 1
        invariant frame == Marker ==> eof && decoder.Next() == Count()
        invariant ret ==> frame != Nothing
        decreases !ret, Count() - decoder.at, !eof
      {
        PushNext();
        frame := decoder.Pop(0);
        ret := frame != Nothing;
      }
      if eof && PtsOf(frame) == NO_PTS {
        PictureHasPts(frame);
        currFrame := Count();
        return false;
      }
      var cf := currFrame;
      if PtsOf(frame) in ptsFrameMap {
        cf := ptsFrameMap[PtsOf(frame)];
      }
      assert cf == old(decoder.Next());
      if currFrame != cf {
        currFrame := cf + 1;
        ok := false;
      } else {
        currFrame := currFrame + 1;
        tmpKeyFrame := frame;
        ok := true;
      }
    }

    function PtsOf(frame: Item): int
      reads this, decoder
    {
      match frame
      case Frame(i) => if i < Count() then decoder.stream.pts[i] else NO_PTS
      case Skipped(i) => if i < Count() then decoder.stream.pts[i] else NO_PTS
      case Marker => NO_PTS
      case Nothing => NO_PTS
    }

    lemma PictureHasPts(frame: Item)
      requires Valid()
      ensures frame.Frame? && frame.index < Count() ==> PtsOf(frame) != NO_PTS
    {
    }

    lemma KeyframeLocated(pos: int)
      requires Valid() && 0 <= pos
      ensures IsKeyOf(decoder.stream, LocateKeyframe(pos), pos)
    {
      var keys := decoder.stream.keys;
      assert keys[0] in keys;
      if pos >= Count() {
        assert keys[|keys| - 1] in keys;
      }
    }

    /** Go to frame `pos` by way of the keyframe before it, checking where the seek has landed.  What comes next is
        frame `pos` if and only if no keyframe put aside by an earlier accurate seek was waiting when `pos` was
        already the current frame: then the call returns at once and that keyframe stays next. */
    method SeekAccurate(pos: nat) returns (ok: bool)
      requires Positioned() && pos < Count()
      modifies `currFrame, `eof, `overrun, `tmpKeyFrame, decoder
      ensures ok && Positioned()
      ensures Upcoming() == Frame(pos) <==> !(old(overrun) && old(currFrame) == pos)
      ensures old(currFrame) == pos ==>
                currFrame == pos && overrun == old(overrun) && tmpKeyFrame == old(tmpKeyFrame)
      ensures !overrun ==> currFrame == pos
      ensures old(currFrame) != pos && overrun ==> currFrame == pos + 1 && pos in decoder.stream.keys
      ensures old(currFrame) != pos && decoder.exactSeeks && pos in decoder.stream.keys ==> overrun
      ensures if old(currFrame) <= pos && !Crosses(decoder.stream.keys, old(currFrame), pos - old(currFrame)) then
                decoder.asked == old(decoder.asked)
              else
                forall key :: IsKeyOf(decoder.stream, key, pos) ==>
                  Detour(decoder.stream, old(decoder.asked), decoder.asked, old(currFrame), key)
    {
      hide WellFormed, Clean, Detour, IsKeyOf;
      if currFrame == pos {
        return true;
      }
      var keyPos := LocateKeyframe(pos);
      var currKeyPos := LocateKeyframe(currFrame);
      KeyframeLocated(pos);
      KeyframeLocated(currFrame);
      SameGroup(decoder.stream, currFrame, pos, currKeyPos, keyPos);
      overrun := false;
      if keyPos != currKeyPos || pos < currFrame {
        ok := ViaKeyframe(pos, keyPos);
      } else {
        SkipFramesImpl(pos - currFrame);
        ok := true;
      }
    }

    /** The detour over the keyframe: rewind to the start, seek forward, and if that has gone wrong skip on from
        where it landed, or seek back. */
    method ViaKeyframe(pos: nat, keyPos: nat) returns (ok: bool)
      requires InStep() && !overrun && pos < Count() && IsKeyOf(decoder.stream, keyPos, pos)
      modifies `currFrame, `eof, `overrun, `tmpKeyFrame, decoder
      ensures ok && Positioned() && Upcoming() == Frame(pos)
      ensures currFrame == if overrun then pos + 1 else pos
      ensures overrun ==> pos == keyPos
      ensures decoder.exactSeeks && pos == keyPos ==> overrun
      ensures Detour(decoder.stream, old(decoder.asked), decoder.asked, old(currFrame), keyPos)
    {
      hide Clean, WellFormed, Asks;
      var ret := Seek(0);
      if !ret {
        return false;
      }
      ghost var middle := decoder.asked;
      ret := Seek(keyPos);
      ghost var asked' := decoder.asked;
      NoneAsked(decoder.stream, asked', keyPos);
      if !ret {
        return false;
      }
      ret := CheckKeyFrame();
      if ret {
        if pos - keyPos > 0 {
          SkipFramesImpl(pos - currFrame);
        } else if pos - keyPos == 0 {
          overrun := true;
        }
      } else {
        if currFrame < pos {
          SkipFramesImpl(pos - currFrame);
        } else {
          var back := LocateKeyframe(pos);
          KeyframeLocated(pos);
          ret := Seek(back);
          SkipFramesImpl(pos - back);
        }
      }
      ok := true;
    }

    /** There is a keyframe among the next `num` frames. */
    ghost predicate CrossesKeyframe(num: int)
      reads this, decoder
    {
      Crosses(decoder.stream.keys, currFrame, num)
    }

    /** Skip frames, seeking to the last keyframe on the way when there is one: the reader ends where as many single
        skips would have taken it.  A keyframe put aside by an accurate seek stays where it is, and is what is read
        next. */
    method SkipFrames(num: int)
      requires Positioned() && (decoder.exactSeeks || !CrossesKeyframe(num))
      modifies `currFrame, `eof, decoder
      ensures Positioned()
      ensures currFrame == SkipOneByOne(old(currFrame), Count(), Max(0, num))
      ensures Upcoming() ==
              if overrun then old(Upcoming()) else if currFrame < Count() then Frame(currFrame) else Nothing
      ensures if !old(CrossesKeyframe(num)) then decoder.asked == old(decoder.asked)
              else
                forall key :: IsKeyOf(decoder.stream, key, currFrame) ==>
                  Asks(decoder.stream, old(decoder.asked), decoder.asked, old(currFrame), key)
    {
      hide Asks, Clean;
      SkipsAdd(currFrame, Count(), Max(0, num));
      if num < 1 {
        return;
      }
      var keys := decoder.stream.keys;
      var left := Min(Count() - currFrame, num);
      var it1 := UpperBound(keys, currFrame) - 1;
      var it2 := UpperBound(keys, currFrame + left) - 1;
      assert it1 >= 0 && it2 >= 0;
      if it2 > it1 {
        var oldFrame := currFrame;
        assert keys[it2] in keys && currFrame < keys[it2] <= currFrame + num;
        var _ := Seek(keys[it2]);
        left := left + oldFrame - keys[it2];
      }
      SkipFramesImpl(left);
    }

    // ----- Batches -----

    /** The first branch of the loop in `GetBatch`: go to a frame and hand it out. */
    method FrameAt(pos: nat) returns (frame: Item)
      requires Positioned() && pos < Count()
      modifies this, decoder
      ensures Positioned() && !overrun
      ensures frame == if old(overrun) && old(currFrame) == pos then old(tmpKeyFrame) else Frame(pos)
      ensures currFrame == if old(overrun) && old(currFrame) == pos then pos else pos + 1
      ensures delivered == old(delivered) + [frame.index]
    {
      if currFrame != pos {
        var _ := SeekAccurate(pos);
      }
      frame := NextFrame();
    }

    /** Every slot of the batch gets the frame its index names, a repeated index being copied from its first slot
        and decoded only once; refused if an index is out of range or the buffer is too small.  The one exception:
        if a keyframe put aside by an accurate seek is waiting and the batch begins with the current frame, the
        slots of that index get the keyframe instead. */
    method GetBatch(indices: seq<int>, given: array?<Pixel>) returns (ok: bool, buf: array<Pixel>)
      requires Positioned()
      modifies this, decoder, if given == null then {} else {given}
      ensures Positioned() && (ok && indices != [] ==> !overrun)
      ensures if given == null then fresh(buf) && buf.Length == |indices| * frameSize else buf == given
      ensures ok <==> AllBelow(indices, Count()) && |indices| * frameSize <= buf.Length
      ensures ok ==>
                var stale := old(Stale(indices));
                && Filled(buf[..], frameSize, ServedAll(indices, stale, indices))
                && delivered == old(delivered) + ServedAll(Firsts(indices), stale, indices)
      ensures ok && indices != [] ==> currFrame == After(Firsts(indices), old(Stale(indices)))
      ensures indices == [] ==>
                ok && currFrame == old(currFrame) && overrun == old(overrun) && tmpKeyFrame == old(tmpKeyFrame)
      ensures ok && given != null ==> forall k :: |indices| * frameSize <= k < buf.Length ==> buf[k] == old(given[k])
    {
      var first := FirstOccurrences(indices);
      SlotStartIsProduct(|indices|, frameSize);
      if given == null {
        buf := new Pixel[|indices| * frameSize](_ => Blank);
      } else {
        buf := given;
      }
      ok := FillSlots(indices, first, buf, Stale(indices));
    }

    /** The loop in `GetBatch`. */
    method FillSlots(indices: seq<int>, first: map<int, nat>, buf: array<Pixel>, ghost stale: Option<nat>)
      returns (ok: bool)
      requires Positioned() && forall i :: 0 <= i < |indices| ==> FirstOf(first, indices, i)
      requires stale == Stale(indices)
      modifies this, decoder, buf
      ensures Positioned() && (ok && indices != [] ==> !overrun)
      ensures ok <==> AllBelow(indices, Count()) && SlotStart(|indices|, frameSize) <= buf.Length
      ensures ok ==> Filled(buf[..], frameSize, ServedAll(indices, stale, indices))
      ensures ok ==> delivered == old(delivered) + ServedAll(Firsts(indices), stale, indices)
      ensures ok && indices != [] ==> currFrame == After(Firsts(indices), stale)
      ensures indices == [] ==>
                ok && currFrame == old(currFrame) && overrun == old(overrun) && tmpKeyFrame == old(tmpKeyFrame)
      ensures ok ==> forall k :: SlotStart(|indices|, frameSize) <= k < buf.Length ==> buf[k] == old(buf[k])
    {
      hide Positioned, FirstOf, Filled, ServedAll, Firsts, AllBelow;
      var offset, i := 0, 0;
      NothingDone(indices, stale, buf[..]);
      while i < |indices|
        invariant 0 <= i <= |indices| && offset == SlotStart(i, frameSize) <= buf.Length
        invariant Positioned() && if i == 0 then overrun == old(overrun) else !overrun
        invariant i == 0 ==> currFrame == old(currFrame) && tmpKeyFrame == old(tmpKeyFrame)
        invariant Done(indices, i, stale, old(delivered), buf[..])
        invariant forall k :: offset <= k < buf.Length ==> buf[k] == old(buf[k])
      {
        hide Done;
        SlotsApart(i, |indices|, frameSize);
        ok := NextSlot(indices, i, first, buf, offset, stale, old(delivered));
        if !ok {
          return;
        }
        offset, i := offset + frameSize, i + 1;
      }
      assert indices[..i] == indices;
      assert ServedAll(indices, stale, indices)[..i] == ServedAll(indices, stale, indices);
      ok := true;
    }

    /** The first `i` slots have been served since `start` had been handed out. */
    ghost predicate Done(indices: seq<int>, i: nat, stale: Option<nat>, start: seq<int>, contents: seq<Pixel>)
      requires stale.Some? ==> indices != []
      reads this, decoder
    {
      && i <= |indices| && AllBelow(indices[..i], Count())
      && Filled(contents, frameSize, ServedAll(indices, stale, indices)[..i])
      && delivered == start + ServedAll(Firsts(indices[..i]), stale, indices)
      && (i > 0 ==> currFrame == After(Firsts(indices[..i]), stale))
    }

    lemma NothingDone(indices: seq<int>, stale: Option<nat>, contents: seq<Pixel>)
      requires stale.Some? ==> indices != []
      ensures Done(indices, 0, stale, delivered, contents)
    {
    }

    /** One round of the loop, with what it adds to the rounds before. */
    method NextSlot(indices: seq<int>, i: nat, first: map<int, nat>, buf: array<Pixel>, offset: nat,
                    ghost stale: Option<nat>, ghost start: seq<int>) returns (ok: bool)
      requires Positioned() && i < |indices| && FirstOf(first, indices, i) && (stale.Some? ==> indices != [])
      requires if i == 0 then stale == Stale(indices) else !overrun
      requires offset == SlotStart(i, frameSize) <= buf.Length && Done(indices, i, stale, start, buf[..])
      modifies this, decoder, buf
      ensures Positioned()
      ensures ok ==> !overrun && Done(indices, i + 1, stale, start, buf[..])
      ensures ok ==> offset + frameSize <= buf.Length
      ensures !ok ==> !AllBelow(indices, Count()) || offset + frameSize > buf.Length
      ensures ok ==> forall k :: offset + frameSize <= k < buf.Length ==> buf[k] == old(buf[k])
    {
      hide Positioned, FirstOf, Filled, ServedAll, Firsts, AllBelow;
      ghost var want := ServedAll(indices, stale, indices);
      AllBelowNext(indices, i, Count());
      FirstsNext(indices, i, stale);
      ok := ServeSlot(indices, i, first, buf, offset, stale, want);
      assert want[..i + 1] == want[..i] + [want[i]];
    }

    /** The frame a reader of the video would expect next: the one put aside, or the current one. */
    ghost function Position(): int
      reads this
    {
      if overrun && tmpKeyFrame.Frame? then tmpKeyFrame.index else currFrame
    }

    /** A keyframe put aside is the frame before the current one. */
    ghost predicate JustAside()
      reads this
    {
      overrun ==> currFrame == Position() + 1
    }

    /** A keyframe put aside gets in the way of `op`: the call goes on from the current frame, although the frame put
        aside is the one to be read next; and once that has happened the two do not follow one another any more. */
    ghost predicate InTheWay(op: Op)
      reads this
    {
      overrun && tmpKeyFrame.Frame? &&
      match op
      case Next => tmpKeyFrame.index + 1 != currFrame
      case GoTo(pos) => pos == currFrame
      case Skip(num) => num >= 1
      case Batch(indices) => indices != [] && indices[0] == currFrame
    }

    ghost predicate Allowed(op: Op)
      reads this, decoder
    {
      match op
      case Next => true
      case GoTo(pos) => pos < Count()
      case Skip(num) => decoder.exactSeeks || !CrossesKeyframe(num)
      case Batch(indices) => AllBelow(indices, Count())
    }

    /** A call of the reader, whatever calls came before and wherever their seeks have landed: it hands out what is
        asked for and ends where it should, if and only if no keyframe put aside is in the way. */
    method Do(op: Op)
      requires Positioned() && Allowed(op)
      modifies this, decoder
      ensures Positioned()
      ensures (delivered == old(delivered) + Asked(op, old(Position()), Count()) &&
               Position() == Target(op, old(Position()), Count())) <==> !old(InTheWay(op))
      ensures !old(InTheWay(op)) && overrun ==> MayHold(op, old(Position()), old(overrun), decoder.stream.keys)
      ensures !old(InTheWay(op)) && old(JustAside()) ==> JustAside()
    {
      hide Filled, AllBelow, Clean;
      match op
      case Next =>
        var _ := NextFrame();
      case GoTo(pos) =>
        var _ := SeekAccurate(pos);
      case Skip(num) =>
        SkipsAdd(currFrame, Count(), Max(0, num));
        SkipFrames(num);
      case Batch(indices) =>
        FirstsHead(indices, Stale(indices));
        SameAdded(delivered, Firsts(indices), ServedAll(Firsts(indices), Stale(indices), indices));
        var _, _ := GetBatch(indices, null);
    }

    /** Any run of calls that is careful with what an accurate seek may put aside, such as one that reads after every
        accurate seek, hands out exactly the frames asked for, wherever the forward seeks on the way have landed. */
    method Play(ops: seq<Op>)
      requires Positioned() && !overrun
      requires Careful(ops, currFrame, false, decoder.stream, decoder.exactSeeks)
      modifies this, decoder
      ensures Positioned()
      ensures delivered == old(delivered) + Played(ops, old(currFrame), Count())
    {
      hide Positioned, Target, Asked, MayHold, Safe, Proper, Allowed;
      var i := 0;
      ghost var held := false;
      while i < |ops|
        invariant 0 <= i <= |ops| && Positioned() && JustAside() && (overrun ==> held)
        invariant Careful(ops[i..], Position(), held, decoder.stream, decoder.exactSeeks)
        invariant old(delivered) + Played(ops, old(currFrame), Count()) ==
                  delivered + Played(ops[i..], Position(), Count())
      {
        assert ops[i..][1..] == ops[i + 1..];
        SafeIsNotInTheWay(ops[i], held);
        held := MayHold(ops[i], Position(), held, decoder.stream.keys);
        Do(ops[i]);
        i := i + 1;
      }
    }

    lemma SafeIsNotInTheWay(op: Op, held: bool)
      requires JustAside() && (overrun ==> held) && (held ==> Safe(op, Position()))
      requires Proper(op, Position(), decoder.stream, decoder.exactSeeks)
      ensures !InTheWay(op) && Allowed(op)
      ensures MayHold(op, Position(), overrun, decoder.stream.keys) ==>
              MayHold(op, Position(), held, decoder.stream.keys)
    {
    }

    /** One round of the loop in `GetBatch`. */
    method ServeSlot(indices: seq<int>, i: nat, first: map<int, nat>, buf: array<Pixel>, offset: nat,
                     ghost stale: Option<nat>, ghost want: seq<int>) returns (ok: bool)
      requires Positioned() && i < |indices| && FirstOf(first, indices, i)
      requires stale.Some? ==> indices != []
      requires AllBelow(indices[..i], Count())
      requires want == ServedAll(indices, stale, indices)
      requires if i == 0 then stale == Stale(indices) else !overrun
      requires offset == SlotStart(i, frameSize) <= buf.Length && Filled(buf[..], frameSize, want[..i])
      modifies this, decoder, buf
      ensures Positioned()
      ensures ok <==> 0 <= indices[i] < Count() && offset + frameSize <= buf.Length
      ensures ok ==> !overrun && Filled(buf[..], frameSize, want[..i] + [want[i]])
      ensures ok ==> delivered == old(delivered) + Decoded(indices, i, stale)
      ensures ok ==>
                currFrame == if indices[i] in indices[..i] then old(currFrame)
                             else indices[i] + if i == 0 && stale.Some? then 0 else 1
      ensures ok ==> forall k :: offset + frameSize <= k < buf.Length ==> buf[k] == old(buf[k])
      ensures !ok ==> buf[..] == old(buf[..])
    {
      var pos := indices[i];
      if first[pos] != i {
        SourceSlot(i, first[pos], frameSize);
        var source := offset / i * first[pos];
        if offset + frameSize > buf.Length {
          return false;
        }
        CopySlot(buf, source, offset, frameSize, want[..i], first[pos]);
      } else {
        if !(0 <= pos < Count()) {
          return false;
        }
        var frame := FrameAt(pos);
        if offset + frameSize > buf.Length {
          return false;
        }
        FillSlot(buf, offset, frameSize, frame.index, want[..i]);
      }
      ok := true;
    }
  }

  // ----- Seeks -----

  /** The same keyframe is before both frames if and only if there is none between them. */
  lemma SameGroup(s: StreamInfo, from: nat, pos: nat, fromKey: nat, key: nat)
    requires IsKeyOf(s, fromKey, from) && IsKeyOf(s, key, pos)
    ensures from <= pos ==> (key == fromKey <==> !Crosses(s.keys, from, pos - from))
    ensures key in s.keys && key <= pos && (pos in s.keys <==> key == pos)
    ensures forall k :: IsKeyOf(s, k, pos) <==> k == key
  {
  }

  /** The seeks asked for since `asked` are the attempts to go from frame `from` to frame `pos`. */
  predicate Asks(s: StreamInfo, asked: seq<Request>, asked': seq<Request>, from: int, pos: nat) {
    && |asked| <= |asked'| && asked'[..|asked|] == asked
    && pos < |s.pts| && Tries(asked'[|asked|..], s, from, pos)
  }

  lemma NoneAsked(s: StreamInfo, asked: seq<Request>, pos: nat)
    requires pos < |s.pts|
    ensures Asks(s, asked, asked, pos, pos)
  {
  }

  /** What a detour over the keyframe asks for: a rewind to the start and a seek to the keyframe, and another one from
      where that has landed if it has gone too far. */
  ghost predicate Detour(s: StreamInfo, asked: seq<Request>, asked': seq<Request>, from: int, keyPos: nat) {
    exists middle, asked'', there ::
      && Asks(s, asked, middle, from, 0) && Asks(s, middle, asked'', 0, keyPos)
      && there >= keyPos && Asks(s, asked'', asked', there, keyPos)
  }

  // ----- Batches -----

  ghost predicate AllBelow(indices: seq<int>, count: nat) {
    forall i :: 0 <= i < |indices| ==> 0 <= indices[i] < count
  }

  lemma AllBelowNext(indices: seq<int>, i: nat, count: nat)
    requires i < |indices|
    ensures AllBelow(indices[..i + 1], count) <==> AllBelow(indices[..i], count) && 0 <= indices[i] < count
    ensures AllBelow(indices, count) ==> AllBelow(indices[..i + 1], count)
  {
    assert indices[..i + 1] == indices[..i] + [indices[i]];
  }

  /** The map has the first position of index number `i`. */
  ghost predicate FirstOf(first: map<int, nat>, indices: seq<int>, i: nat)
    requires i < |indices|
  {
    && indices[i] in first && first[indices[i]] <= i && indices[first[indices[i]]] == indices[i]
    && (first[indices[i]] == i <==> indices[i] !in indices[..i])
  }

  /** The first position of every index. */
  method FirstOccurrences(indices: seq<int>) returns (first: map<int, nat>)
    ensures forall i :: 0 <= i < |indices| ==> FirstOf(first, indices, i)
  {
    first := map[];
    var i := 0;
    while i < |indices|
      invariant 0 <= i <= |indices|
      invariant forall v :: v in first ==> v in indices[..i]
      invariant forall k :: 0 <= k < i ==> FirstOf(first, indices, k)
    {
      var v := indices[i];
      ghost var before := first;
      if v !in first {
        first := first[v := i];
      }
      forall k | 0 <= k <= i
        ensures FirstOf(first, indices, k)
      {
        FirstOfNext(before, first, indices, i, k);
      }
      i := i + 1;
    }
  }

  lemma FirstOfNext(first: map<int, nat>, first': map<int, nat>, indices: seq<int>, i: nat, k: nat)
    requires k <= i < |indices|
    requires forall v :: v in first ==> v in indices[..i]
    requires forall k :: 0 <= k < i ==> FirstOf(first, indices, k)
    requires first' == if indices[i] in first then first else first[indices[i] := i]
    ensures FirstOf(first', indices, k)
  {
    if k < i {
      assert FirstOf(first, indices, k);
    } else if indices[i] in indices[..i] {
      var j :| 0 <= j < i && indices[j] == indices[i];
      assert FirstOf(first, indices, j);
    }
  }

  /** The indices without repetitions, in the order they first appear. */
  function Firsts(indices: seq<int>): (r: seq<int>)
    ensures indices == [] <==> r == []
  {
    if indices == [] then []
    else
      var n := |indices| - 1;
      Firsts(indices[..n]) + if indices[n] in indices[..n] then [] else [indices[n]]
  }

  /** Every index is in the list once. */
  lemma {:induction false} FirstsOnce(indices: seq<int>)
    ensures forall v :: v in Firsts(indices) <==> v in indices
    ensures forall j, k :: 0 <= j < k < |Firsts(indices)| ==> Firsts(indices)[j] != Firsts(indices)[k]
  {
    if indices != [] {
      var n := |indices| - 1;
      FirstsOnce(indices[..n]);
      assert indices == indices[..n] + [indices[n]];
    }
  }

  /** The frame handed out for `v`: itself, unless a keyframe put aside earlier is taken for the first index. */
  function Served(v: int, stale: Option<nat>, indices: seq<int>): int
    requires stale.Some? ==> indices != []
  {
    if stale.Some? && v == indices[0] then stale.value else v
  }

  /** The position behind the last of these frames; a keyframe put aside is handed out without moving on. */
  function After(firsts: seq<int>, stale: Option<nat>): int
    requires firsts != []
  {
    firsts[|firsts| - 1] + if stale.Some? && |firsts| == 1 then 0 else 1
  }

  function ServedAll(vs: seq<int>, stale: Option<nat>, indices: seq<int>): (r: seq<int>)
    requires stale.Some? ==> indices != []
    ensures |r| == |vs| && forall j :: 0 <= j < |r| ==> r[j] == Served(vs[j], stale, indices)
  {
    seq(|vs|, j requires 0 <= j < |vs| => Served(vs[j], stale, indices))
  }

  /** What slot `i` has decoded: nothing when its index has come before. */
  function Decoded(indices: seq<int>, i: nat, stale: Option<nat>): seq<int>
    requires i < |indices|
  {
    if indices[i] in indices[..i] then [] else [Served(indices[i], stale, indices)]
  }

  lemma FirstsNext(indices: seq<int>, i: nat, stale: Option<nat>)
    requires i < |indices|
    ensures var fs, fs' := Firsts(indices[..i]), Firsts(indices[..i + 1]);
            && ServedAll(fs', stale, indices) == ServedAll(fs, stale, indices) + Decoded(indices, i, stale)
            && fs' == fs + (if indices[i] in indices[..i] then [] else [indices[i]]) && (i == 0 <==> fs == [])
  {
    assert indices[..i + 1][..i] == indices[..i];
  }

  /** The first index is served first, and the others as they are. */
  lemma {:induction false} FirstsHead(indices: seq<int>, stale: Option<nat>)
    requires stale.Some? ==> indices != []
    ensures indices != [] ==> Firsts(indices)[0] == indices[0]
    ensures ServedAll(Firsts(indices), stale, indices) == Firsts(indices) <==>
            stale.None? || stale.value == indices[0]
  {
    if |indices| > 1 {
      FirstsHead(indices[..|indices| - 1], None);
    }
    if stale.Some? {
      assert ServedAll(Firsts(indices), stale, indices)[0] == stale.value;
    }
  }

  lemma SameAdded(s: seq<int>, a: seq<int>, b: seq<int>)
    ensures s + a == s + b <==> a == b
  {
    assert (s + a)[|s|..] == a && (s + b)[|s|..] == b;
  }

  // ----- Runs -----

  datatype Op = Next | GoTo(pos: nat) | Skip(num: int) | Batch(indices: seq<int>)

  /** There is a keyframe among the `num` frames after frame `at`. */
  ghost predicate Crosses(keys: seq<nat>, at: int, num: int) {
    exists k :: k in keys && at < k <= at + num
  }

  /** A position is one of the video, and a skip crosses no keyframe unless forward seeks to keyframes are exact. */
  ghost predicate Proper(op: Op, at: int, s: StreamInfo, exactSeeks: bool) {
    match op
    case Next => true
    case GoTo(pos) => pos < |s.pts|
    case Skip(num) => exactSeeks || !Crosses(s.keys, at, num)
    case Batch(indices) => AllBelow(indices, |s.pts|)
  }

  /** The frames an operation hands out, said without regard to how they are reached. */
  function Asked(op: Op, at: int, count: nat): seq<int> {
    match op
    case Next => if at < count then [at] else []
    case GoTo(_) => []
    case Skip(_) => []
    case Batch(indices) => Firsts(indices)
  }

  /** The frame to be read after it. */
  function Target(op: Op, at: int, count: nat): int {
    match op
    case Next => if at < count then at + 1 else at
    case GoTo(pos) => pos
    case Skip(num) => Min(count, at + Max(0, num))
    case Batch(indices) => if indices == [] then at else After(Firsts(indices), None)
  }

  function Played(ops: seq<Op>, at: int, count: nat): seq<int> {
    if ops == [] then [] else Asked(ops[0], at, count) + Played(ops[1..], Target(ops[0], at, count), count)
  }

  /** A keyframe may be put aside after `op`: an accurate seek has gone to it, and nothing has been read since. */
  predicate MayHold(op: Op, at: int, held: bool, keys: seq<nat>) {
    match op
    case Next => false
    case GoTo(pos) => if pos == at then held else pos in keys
    case Skip(_) => held
    case Batch(indices) => indices == [] && held
  }

  /** With a keyframe put aside a caller reads it, or goes to another frame than the one behind it. */
  predicate Safe(op: Op, at: int) {
    match op
    case Next => true
    case GoTo(pos) => pos != at + 1
    case Skip(num) => num < 1
    case Batch(indices) => indices == [] || indices[0] != at + 1
  }

  ghost predicate Careful(ops: seq<Op>, at: int, held: bool, s: StreamInfo, exactSeeks: bool) {
    ops == [] || (
      && Proper(ops[0], at, s, exactSeeks) && (held ==> Safe(ops[0], at))
      && Careful(ops[1..], Target(ops[0], at, |s.pts|), MayHold(ops[0], at, held, s.keys), s, exactSeeks))
  }

  /** Every accurate seek is followed by a read. */
  predicate ReadAfterSeek(ops: seq<Op>) {
    forall i :: 0 <= i < |ops| && ops[i].GoTo? ==> i + 1 < |ops| && ops[i + 1] == Next
  }

  /** That is careful, whatever else is done in between. */
  lemma {:induction false} ReadingAfterSeeksIsCareful(ops: seq<Op>, at: int, s: StreamInfo, exactSeeks: bool)
    requires ReadAfterSeek(ops)
    requires forall i :: 0 <= i < |ops| ==>
               match ops[i]
               case Next => true
               case GoTo(pos) => pos < |s.pts|
               case Skip(_) => exactSeeks
               case Batch(indices) => AllBelow(indices, |s.pts|)
    ensures Careful(ops, at, false, s, exactSeeks)
    decreases |ops|
  {
    if ops != [] {
      var at1 := Target(ops[0], at, |s.pts|);
      if ops[0].GoTo? {
        assert ops[1] == Next && ops[1..][1..] == ops[2..];
        ReadingAfterSeeksIsCareful(ops[2..], Target(Next, at1, |s.pts|), s, exactSeeks);
        NextIsCareful(ops[1..], at1, MayHold(ops[0], at, false, s.keys), s, exactSeeks);
      } else {
        ReadingAfterSeeksIsCareful(ops[1..], at1, s, exactSeeks);
      }
    }
  }

  lemma NextIsCareful(ops: seq<Op>, at: int, held: bool, s: StreamInfo, exactSeeks: bool)
    requires ops != [] && ops[0] == Next && Careful(ops[1..], Target(Next, at, |s.pts|), false, s, exactSeeks)
    ensures Careful(ops, at, held, s, exactSeeks)
  {
  }

  /** A new reader that has gone to a keyframe, which is put aside. */
  method ReaderAt(s: StreamInfo, key: nat) returns (r: Reader)
    requires WellFormed(s) && key in s.keys && 0 < key
    ensures fresh(r) && fresh(r.decoder) && r.decoder.stream == s && r.decoder.exactSeeks
    ensures r.Positioned() && r.overrun && r.tmpKeyFrame == Frame(key) && r.currFrame == key + 1 && r.delivered == []
    ensures key < |s.pts|
  {
    r := new Reader(s, true, 1);
    var _ := r.SeekAccurate(key);
  }

  /** Every call that is not safe goes wrong from a state a new reader can get into: what is handed out next is the
      keyframe, which is not what was asked for.  A batch goes on with its other frames and a skip has moved on. */
  method StaleKeyframe(s: StreamInfo, key: nat, op: Op) returns (given: seq<int>, at: nat)
    requires WellFormed(s) && key in s.keys && 0 < key
    requires Proper(op, key, s, true) && !Safe(op, key)
    ensures given != [] && given[0] == key && !([key] <= Played([op, Next], key, |s.pts|))
    ensures op.GoTo? ==> given == [key] && at == op.pos
    ensures op.Skip? ==> given == [key] && at == Min(|s.pts|, key + 1 + op.num)
    ensures op.Batch? ==>
              var end := After(Firsts(op.indices), Some(key));
              given == [key] + Firsts(op.indices)[1..] + if end < |s.pts| then [end] else []
  {
    hide WellFormed, Filled, Firsts, Reader.Clean, Reader.Valid;
    var r := ReaderAt(s, key);
    NotTheKeyframe(op, key, s);
    match op {
      case Next =>
      case GoTo(pos) =>
        var _ := r.SeekAccurate(pos);
      case Skip(num) =>
        SkipsAdd(key + 1, |s.pts|, num);
        r.SkipFrames(num);
      case Batch(indices) =>
        OnlyTheFirstIsStale(indices, key);
        FirstsHead(indices, Some(key));
        var _, _ := r.GetBatch(indices, null);
        assert ServedAll(Firsts(indices), Some(key), indices)[0] == key;
    }
    var _ := r.NextFrame();
    given, at := r.delivered, r.currFrame;
  }

  lemma OnlyTheFirstIsStale(indices: seq<int>, key: nat)
    requires indices != []
    ensures ServedAll(Firsts(indices), Some(key), indices) == [key] + Firsts(indices)[1..]
  {
    FirstsOnce(indices);
    FirstsHead(indices, Some(key));
  }

  lemma NotTheKeyframe(op: Op, key: nat, s: StreamInfo)
    requires Proper(op, key, s, true) && !Safe(op, key) && key < |s.pts|
    ensures !([key] <= Played([op, Next], key, |s.pts|))
  {
    var count := |s.pts|;
    var at := Target(op, key, count);
    assert [op, Next][1..] == [Next] && [Next][1..] == [];
    assert Played([Next], at, count) == Asked(Next, at, count);
    assert Played([op, Next], key, count) == Asked(op, key, count) + Asked(Next, at, count);
    if op.Batch? {
      FirstsHead(op.indices, None);
      assert Played([op, Next], key, count)[0] == key + 1;
    }
  }

  // ----- The bytes of the batch -----

  /** The bytes from `offset` on are picture `frame`. */
  ghost predicate Holds(s: seq<Pixel>, offset: nat, size: nat, frame: int) {
    offset + size <= |s| && forall k :: 0 <= k < size ==> s[offset + k] == Pixel(frame, k)
  }

  /** Where slot `j` begins. */
  function SlotStart(j: nat, size: nat): nat {
    if j == 0 then 0 else SlotStart(j - 1, size) + size
  }

  lemma {:induction false} SlotStartIsProduct(j: nat, size: nat)
    ensures SlotStart(j, size) == j * size
  {
    if j > 0 {
      SlotStartIsProduct(j - 1, size);
    }
  }

  /** Slots do not overlap. */
  lemma {:induction false} SlotsApart(j: nat, i: nat, size: nat)
    requires j < i
    ensures SlotStart(j, size) + size <= SlotStart(i, size)
  {
    if j + 1 < i {
      SlotsApart(j, i - 1, size);
    }
  }

  lemma ProductOrder(i: nat, a: nat, b: nat)
    requires i * a < i * b
    ensures a < b
  {
    assert i * a == i * b + i * (a - b);
    assert a >= b ==> i * (a - b) >= 0;
  }

  lemma ProductDivided(i: nat, size: nat)
    requires i >= 1
    ensures i * size / i == size
  {
    var q := i * size / i;
    assert i * q <= i * size < i * q + i;
    assert i * (size + 1) == i * size + i && i * (q + 1) == i * q + i;
    ProductOrder(i, q, size + 1);
    ProductOrder(i, size, q + 1);
  }

  /** The running offset divided by the number of slots is the picture size, so the source offset is exactly the
      first slot of the repeated index. */
  lemma SourceSlot(i: nat, first: nat, size: nat)
    requires first < i
    ensures SlotStart(i, size) / i * first == SlotStart(first, size)
    ensures SlotStart(first, size) + size <= SlotStart(i, size)
  {
    SlotStartIsProduct(i, size);
    SlotStartIsProduct(first, size);
    ProductDivided(i, size);
    SlotsApart(first, i, size);
  }

  /** The slots one after the other hold these pictures. */
  ghost predicate Filled(s: seq<Pixel>, size: nat, frames: seq<int>) {
    forall j :: 0 <= j < |frames| ==> Holds(s, SlotStart(j, size), size, frames[j])
  }

  /** Writing the next slot leaves the earlier ones as they are. */
  lemma FilledNext(s: seq<Pixel>, s': seq<Pixel>, size: nat, frames: seq<int>, frame: int)
    requires Filled(s, size, frames) && |s'| == |s|
    requires forall k :: 0 <= k < SlotStart(|frames|, size) && k < |s| ==> s'[k] == s[k]
    requires Holds(s', SlotStart(|frames|, size), size, frame)
    ensures Filled(s', size, frames + [frame])
  {
    forall j | 0 <= j < |frames|
      ensures Holds(s', SlotStart(j, size), size, frames[j])
    {
      SlotsApart(j, |frames|, size);
      assert Holds(s, SlotStart(j, size), size, frames[j]);
    }
  }

  /** Copy a decoded picture into the view at `offset`. */
  method FillSlot(buf: array<Pixel>, offset: nat, size: nat, frame: int, ghost frames: seq<int>)
    requires offset == SlotStart(|frames|, size) && offset + size <= buf.Length && Filled(buf[..], size, frames)
    modifies buf
    ensures Filled(buf[..], size, frames + [frame])
    ensures forall k :: offset + size <= k < buf.Length ==> buf[k] == old(buf[k])
  {
    hide Filled;
    forall k | offset <= k < offset + size {
      buf[k] := Pixel(frame, k - offset);
    }
    assert Holds(buf[..], offset, size, frame);
    FilledNext(old(buf[..]), buf[..], size, frames, frame);
  }

  /** Copy the view at `source`, the slot number `first`, into the view at `offset`. */
  method CopySlot(buf: array<Pixel>, source: nat, offset: nat, size: nat, ghost frames: seq<int>, ghost first: nat)
    requires offset == SlotStart(|frames|, size) && offset + size <= buf.Length && Filled(buf[..], size, frames)
    requires first < |frames| && source == SlotStart(first, size) && source + size <= offset
    modifies buf
    ensures Filled(buf[..], size, frames + [frames[first]])
    ensures forall k :: offset + size <= k < buf.Length ==> buf[k] == old(buf[k])
  {
    assert Holds(buf[..], SlotStart(first, size), size, frames[first]);
    forall k | offset <= k < offset + size {
      buf[k] := buf[k - offset + source];
    }
    FilledNext(old(buf[..]), buf[..], size, frames, frames[first]);
  }

  // ----- Skipping one frame at a time -----

  function SkipOneByOne(curr: nat, count: nat, num: nat): nat
    decreases num
  {
    if num == 0 then curr else SkipOneByOne(if curr < count then curr + 1 else curr, count, num - 1)
  }

  lemma {:induction false} SkipsAdd(curr: nat, count: nat, num: nat)
    requires curr <= count
    ensures SkipOneByOne(curr, count, num) == Min(count, curr + num)
    decreases num
  {
    if num > 0 {
      SkipsAdd(if curr < count then curr + 1 else curr, count, num - 1);
    }
  }

  function Min(a: int, b: int): int {
    if a < b then a else b
  }

  function Max(a: int, b: int): int {
    if a > b then a else b
  }

  lemma BackwardLanding(s: StreamInfo, at: nat, pos: nat)
    requires WellFormed(s) && pos < |s.pts| && at in s.keys && s.pts[at] <= s.pts[pos]
    requires forall k :: k in s.keys && s.pts[k] <= s.pts[pos] ==> k <= at
    ensures IsKeyOf(s, at, pos)
    ensures pos in s.keys ==> at == pos
  {
    forall k | k in s.keys && k <= pos
      ensures k <= at
    {
      assert k == pos || s.pts[k] < s.pts[pos];
    }
  }
}
