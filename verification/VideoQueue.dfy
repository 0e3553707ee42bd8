/** The access-unit queue of src/video.rs as it is: 32-bit ids that wrap, frames
    in a deque, methods that run under the queue's mutex. Each method is proved
    to do to the counted stream what SourceStream says. */
module VideoQueue {
  import opened Options
  import opened WireNumbers
  import opened SourceStream
  import opened VptState

  datatype Queued = Queued(id: U32, data: seq<Byte>, keyframe: bool)

  /** The queue a stream stands for. */
  function Entries(q: Stream): (frames: seq<Queued>)
    requires |q.fate| <= |q.issued|
    ensures |frames| == |q.issued| - |q.fate|
  {
    seq(|q.issued| - |q.fate|, i requires 0 <= i < |q.issued| - |q.fate| =>
      var frame := q.issued[|q.fate| + i]; Queued(Wire(|q.fate| + i), frame.data, frame.key))
  }

  /** Frames up to and including `id`, as far as the wrapping comparison tells. */
  function DropThrough(frames: seq<Queued>, id: U32): seq<Queued> {
    if frames != [] && WireAtOrAfter(id, frames[0].id) then DropThrough(frames[1..], id) else frames
  }

  /** Where the wrapping comparison of id u with every queued one can be trusted. */
  ghost predicate InWindow(q: Stream, u: nat) {
    |q.issued| - (TWO_31 - 1) <= u && u <= |q.fate| + (TWO_31 - 2)
  }

  /** Ids are non-zero and consecutive in the cycle, up to the next one. */
  ghost predicate InCycle(frames: seq<Queued>, next: U32) {
    forall i :: 0 <= i < |frames| ==>
      frames[i].id != 0 && NextWire(frames[i].id) == if i + 1 < |frames| then frames[i + 1].id else next
  }

  lemma IdFollows(q: Stream, i: nat)
    requires |q.fate| <= |q.issued| && i < |Entries(q)|
    ensures var frames := Entries(q);
            frames[i].id != 0 && NextWire(frames[i].id) == if i + 1 < |frames| then frames[i + 1].id else Wire(|q.issued|)
  {
    WireSuccessor(|q.fate| + i);
  }

  /** Queued ids always are, and end just before `next_id`. */
  lemma IdsAreConsecutive(q: Stream)
    requires |q.fate| <= |q.issued|
    ensures InCycle(Entries(q), Wire(|q.issued|))
  {
    var frames := Entries(q);
    forall i | 0 <= i < |frames|
      ensures frames[i].id != 0 && NextWire(frames[i].id) == if i + 1 < |frames| then frames[i + 1].id else Wire(|q.issued|)
    {
      IdFollows(q, i);
    }
    assert InCycle(frames, Wire(|q.issued|));
  }

  lemma EntriesLeave(q: Stream, k: nat, why: Fate)
    requires |q.fate| + k <= |q.issued|
    ensures Entries(q.Leave(k, why)) == Entries(q)[k..]
  {
  }

  /** The fields of the queue. */
  datatype Deque = Deque(frames: seq<Queued>, nextId: U32, needKeyframe: bool)

  /** What a push leaves, whether it was accepted, whether a keyframe is
      requested, and what was thrown out. */
  datatype DequePush = DequePush(deque: Deque, ok: bool, requested: bool, lost: seq<Queued>)

  /** `iter().rposition(|f| f.keyframe)`, with -1 for none. */
  function NewestIn(frames: seq<Queued>): (i: int)
    ensures -1 <= i < |frames|
    ensures i >= 0 ==> frames[i].keyframe
    ensures forall j :: i < j < |frames| ==> !frames[j].keyframe
  {
    if frames == [] then -1
    else if frames[|frames| - 1].keyframe then |frames| - 1
    else NewestIn(frames[..|frames| - 1])
  }

  /** `push_frame`, past the size test. */
  function PushDeque(d: Deque, cap: nat, key: bool, data: seq<Byte>): DequePush {
    if d.needKeyframe && !key then DequePush(d, false, false, [])
    else
      var newest := NewestIn(d.frames);
      var lost := if |d.frames| < cap then 0 else if newest > 0 && !key then newest else |d.frames|;
      if |d.frames| >= cap && newest <= 0 && !key then
        DequePush(Deque([], d.nextId, true), false, true, d.frames)
      else
        var frames := d.frames[lost..] + [Queued(d.nextId, data, key)];
        DequePush(Deque(frames, NextWire(d.nextId), false), true, false, d.frames[..lost])
  }

  /** The fields hold what the stream says. */
  ghost predicate Stands(d: Deque, q: Stream) {
    && |q.fate| <= |q.issued|
    && d.frames == Entries(q) && d.nextId == Wire(|q.issued|) && d.needKeyframe == q.needKey
  }

  lemma NewestStands(q: Stream)
    requires |q.fate| <= |q.issued|
    ensures NewestIn(Entries(q)) == NewestKey(q.Queued())
  {
    assert forall j :: 0 <= j < |Entries(q)| ==> q.Queued()[j].key == Entries(q)[j].keyframe;
  }

  /** When k units leave and some are issued, the deque moves along. */
  lemma EntriesMove(q: Stream, t: Stream, k: nat, more: seq<Frame>)
    requires |q.fate| + k <= |q.issued| && |t.fate| == |q.fate| + k && t.issued == q.issued + more && |more| <= 1
    ensures Entries(t) == Entries(q)[k..] +
              if more == [] then [] else [Queued(Wire(|q.issued|), more[0].data, more[0].key)]
  {
  }

  /** What a push does to the stream, by the newest keyframe. */
  lemma PushLoses(q: Stream, cap: nat, era: nat, key: bool, data: seq<Byte>)
    requires |q.fate| <= |q.issued|
    ensures var r, n, newest := Push(q, cap, era, key, data), |q.Queued()|, NewestKey(q.Queued());
            var refused := q.needKey && !key;
            && |r.stream.fate| - |q.fate| == (if refused || n < cap then 0 else if newest > 0 && !key then newest else n)
            && (r.accepted <==> !refused && (n < cap || newest > 0 || key))
            && (r.requested <==> !r.accepted && !refused)
            && (r.stream.needKey <==> !r.accepted)
            && r.stream.issued == q.issued + if r.accepted then [Frame(q.nextIdx, era, key, data)] else []
  {
  }

  /** A push keeps the fields in step with the stream. */
  lemma PushStands(d: Deque, q: Stream, cap: nat, era: nat, key: bool, data: seq<Byte>)
    requires Stands(d, q)
    ensures var r, p := Push(q, cap, era, key, data), PushDeque(d, cap, key, data);
            Stands(p.deque, r.stream) && p.ok == r.accepted && p.requested == r.requested
  {
    var r, p := Push(q, cap, era, key, data), PushDeque(d, cap, key, data);
    PushLoses(q, cap, era, key, data);
    NewestStands(q);
    WireSuccessor(|q.issued|);
    var k := |r.stream.fate| - |q.fate|;
    var more := if r.accepted then [Frame(q.nextIdx, era, key, data)] else [];
    EntriesMove(q, r.stream, k, more);
    DequeMoves(d, cap, key, data);
    assert k == |p.lost|;
  }

  /** The same of the deque. */
  lemma DequeMoves(d: Deque, cap: nat, key: bool, data: seq<Byte>)
    ensures var p := PushDeque(d, cap, key, data);
            && p.deque.frames == d.frames[|p.lost|..] + (if p.ok then [Queued(d.nextId, data, key)] else [])
            && p.deque.nextId == if p.ok then NextWire(d.nextId) else d.nextId
  {
  }

  /** In the window, popping while the wrapping comparison holds pops exactly
      the units up to u. */
  lemma PoppedInWindow(q: Stream, u: nat, k: nat)
    requires |q.fate| + k <= |q.issued| && InWindow(q, u)
    requires forall i :: 0 <= i < k ==> WireAtOrAfter(Wire(u), Entries(q)[i].id)
    requires k < |Entries(q)| ==> !WireAtOrAfter(Wire(u), Entries(q)[k].id)
    ensures q.Leave(k, Consumed) == SourceStream.ConsumeThrough(q, u)
  {
    if k > 0 {
      assert Entries(q)[k - 1].id == Wire(|q.fate| + (k - 1));
      WireOrder(|q.fate| + (k - 1), u);
    }
    if k < |Entries(q)| {
      WireOrder(|q.fate| + k, u);
    }
    assert q.Leave(0, Consumed).fate == q.fate;
  }

  /** The same for every unit that the id might name. */
  lemma PoppedInAnyWindow(q: Stream, id: U32, k: nat)
    requires |q.fate| + k <= |q.issued|
    requires forall i :: 0 <= i < k ==> WireAtOrAfter(id, Entries(q)[i].id)
    requires k < |Entries(q)| ==> !WireAtOrAfter(id, Entries(q)[k].id)
    ensures forall u: nat :: id == Wire(u) && InWindow(q, u) ==> q.Leave(k, Consumed) == SourceStream.ConsumeThrough(q, u)
  {
    forall u: nat | id == Wire(u) && InWindow(q, u)
      ensures q.Leave(k, Consumed) == SourceStream.ConsumeThrough(q, u)
    {
      PoppedInWindow(q, u, k);
    }
  }

  class PassthroughQueue {
    var frames: seq<Queued>
    var nextId: U32
    var needKeyframe: bool
    var maxQueue: nat
    const maxFrameSize: nat
    ghost var model: Stream

    function View(): Deque
      reads this
    {
      Deque(frames, nextId, needKeyframe)
    }

    ghost predicate Valid()
      reads this
    {
      maxQueue >= 1 && Stands(View(), model) && Sized(model, maxFrameSize)
    }

    /** The queue part of `install`. */
    constructor (maxQueue: nat, maxFrameSize: nat)
      ensures Valid() && model == EMPTY && this.maxFrameSize == maxFrameSize
      ensures this.maxQueue == if maxQueue > 1 then maxQueue else 1
    {
      frames := [];
      nextId := 1;
      needKeyframe := false;
      this.maxQueue := if maxQueue > 1 then maxQueue else 1;
      this.maxFrameSize := maxFrameSize;
      model := EMPTY;
    }

    /** `push_frame`; `requested` is the call of `on_keyframe_request`. `era` is
        the source epoch, which cannot change while the queue is locked. */
    method PushFrame(frame: seq<Byte>, keyframe: bool, ghost era: nat) returns (ok: bool, requested: bool)
      requires Valid()
      modifies this
      ensures Valid() && maxQueue == old(maxQueue)
      ensures |frame| == 0 || |frame| > maxFrameSize ==> !ok && !requested && model == old(model) && View() == old(View())
      ensures 0 < |frame| <= maxFrameSize ==>
                && PushResult(model, ok, requested) == Push(old(model), maxQueue, era, keyframe, frame)
                && var p := PushDeque(old(View()), maxQueue, keyframe, frame);
                   View() == p.deque && ok == p.ok && requested == p.requested
    {
      if |frame| == 0 || |frame| > maxFrameSize {
        return false, false;
      }
      PushStands(View(), model, maxQueue, era, keyframe, frame);
      PushSized(model, maxQueue, era, keyframe, frame, maxFrameSize);
      model := Push(model, maxQueue, era, keyframe, frame).stream;
      ok, requested := Admit(frame, keyframe);
    }

    /** The part of `push_frame` that holds the lock. */
    method Admit(frame: seq<Byte>, keyframe: bool) returns (ok: bool, requested: bool)
      modifies this`frames, this`nextId, this`needKeyframe
      ensures var p := PushDeque(old(View()), maxQueue, keyframe, frame);
              View() == p.deque && ok == p.ok && requested == p.requested
    {
      if needKeyframe {
        if !keyframe {
          return false, false;
        }
        needKeyframe := false;
      }
      if |frames| >= maxQueue {
        MakeRoom(keyframe);
        if needKeyframe {
          return false, true;
        }
      }
      var id := nextId;
      nextId := NextWire(nextId);
      frames := frames + [Queued(id, frame, keyframe)];
      return true, false;
    }

    /** The overflow policy: what came before the newest keyframe goes, or all,
        and then, unless a keyframe arrives, the queue waits for one. */
    method MakeRoom(keyframe: bool)
      modifies this`frames, this`needKeyframe
      ensures var newest := NewestIn(old(frames));
              if newest > 0 && !keyframe then
                frames == old(frames)[newest..] && needKeyframe == old(needKeyframe)
              else
                frames == [] && needKeyframe == !keyframe
    {
      var newest := NewestKeyframe();
      if newest > 0 && !keyframe {
        frames := frames[newest..];
      } else {
        frames := [];
        needKeyframe := !keyframe;
      }
    }

    /** `q.frames.iter().rposition(|f| f.keyframe)`, with -1 for none. */
    method NewestKeyframe() returns (newest: int)
      ensures newest == NewestIn(frames)
    {
      newest := |frames| - 1;
      while newest >= 0 && !frames[newest].keyframe
        invariant -1 <= newest < |frames|
        invariant forall j :: newest < j < |frames| ==> !frames[j].keyframe
      {
        newest := newest - 1;
      }
    }

    /** `consume_through`, for any id whatever. For the id of a unit in the
        window, it consumes just the queued units up to that one. */
    method ConsumeThrough(id: U32)
      requires Valid()
      modifies this`frames, this`model
      ensures Valid() && frames == DropThrough(old(frames), id)
      ensures |frames| <= |old(frames)| && model == old(model).Leave(|old(frames)| - |frames|, Consumed)
      ensures forall u: nat :: id == Wire(u) && InWindow(old(model), u) ==>
                model == SourceStream.ConsumeThrough(old(model), u)
    {
      ghost var k := PopThrough(id);
      PoppedInAnyWindow(model, id, k);
      EntriesLeave(model, k, Consumed);
      model := model.Leave(k, Consumed);
    }

    /** The loop, on the deque. */
    method PopThrough(id: U32) returns (ghost k: nat)
      modifies this`frames
      ensures k <= |old(frames)| && frames == old(frames)[k..] == DropThrough(old(frames), id)
      ensures forall i :: 0 <= i < k ==> WireAtOrAfter(id, old(frames)[i].id)
      ensures k < |old(frames)| ==> !WireAtOrAfter(id, old(frames)[k].id)
    {
      k := 0;
      while frames != [] && WireAtOrAfter(id, frames[0].id)
        invariant k <= |old(frames)| && frames == old(frames)[k..]
        invariant DropThrough(old(frames), id) == DropThrough(frames, id)
        invariant forall i :: 0 <= i < k ==> WireAtOrAfter(id, old(frames)[i].id)
        decreases |frames|
      {
        frames := frames[1..];
        k := k + 1;
      }
    }

    /** `capture_consumed`, with the id of a unit in the window. */
    method CaptureConsumed(id: U32, ghost u: nat)
      requires Valid() && id == Wire(u) && InWindow(model, u)
      modifies this`frames, this`model
      ensures Valid() && model == SourceStream.ConsumeThrough(old(model), u)
    {
      ConsumeThrough(id);
    }

    /** `clear`: the queue stays locked until the source epoch has moved. */
    method Clear(vpt: Vpt)
      requires Valid() && (vpt.inited ==> vpt.Valid())
      modifies this`frames, this`needKeyframe, this`model, vpt`sourceEpoch, vpt`ep
      ensures Valid() && (vpt.inited ==> vpt.Valid())
      ensures model == SourceStream.Clear(old(model))
      ensures vpt.ep == if vpt.inited then old(vpt.ep).(src := old(vpt.ep.src) + 1) else old(vpt.ep)
    {
      model := SourceStream.Clear(model);
      frames := [];
      needKeyframe := false;
      vpt.SourceRestarted();
    }

    /** `reconfigure`: the capacity follows only when the C side agreed. */
    method Reconfigure(vpt: Vpt, asked: Config, maxQueue: nat, manager: bool, unregistered: bool, registered: bool)
      returns (status: Status)
      requires Valid() && (vpt.inited ==> vpt.Valid())
      modifies this`maxQueue, vpt`cfg
      ensures Valid() && (vpt.inited ==> vpt.Valid()) && model == old(model) && vpt.ep == old(vpt.ep)
      ensures vpt.cfg.maxFrameSize == old(vpt.cfg.maxFrameSize)
      ensures status == Success <==>
              old(vpt.inited) && Keeps(old(vpt.cfg), Some(asked)) && manager && unregistered && registered
      ensures vpt.cfg == if old(vpt.inited) && Keeps(old(vpt.cfg), Some(asked)) && manager && unregistered then asked
                         else old(vpt.cfg)
      ensures this.maxQueue == if status != Success then old(this.maxQueue) else if maxQueue > 1 then maxQueue else 1
    {
      status := vpt.Reconfigure(Some(asked), manager, unregistered, registered);
      if status == Success {
        this.maxQueue := if maxQueue > 1 then maxQueue else 1;
      }
    }

    /** `capture_peek`: the front of the queue goes into the buffer, and stays
        queued. The outputs start out zero, as the caller sets them. */
    method CapturePeek(buf: array<Byte>, bufSize: nat) returns (len: nat, keyframe: bool, id: U32)
      requires Valid() && bufSize <= buf.Length
      modifies buf
      ensures len <= bufSize && buf[len..] == old(buf[len..])
      ensures frames == [] || |frames[0].data| > bufSize ==> len == 0 && id == 0 && !keyframe
      ensures frames != [] && |frames[0].data| <= bufSize ==>
                len > 0 && Queued(id, buf[..len], keyframe) == frames[0]
    {
      len, keyframe, id := 0, false, 0;
      if frames == [] {
        return;
      }
      var front := frames[0];
      if |front.data| > bufSize {
        return;
      }
      forall i | 0 <= i < |front.data| {
        buf[i] := front.data[i];
      }
      return |front.data|, front.keyframe, front.id;
    }
  }
}
