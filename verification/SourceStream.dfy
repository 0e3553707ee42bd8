/** The access-unit queue of src/video.rs, counted without wrapping.

    A `Stream` keeps every access unit ever given an id, in order, and how each
    one that is no longer queued left. The queue is what is left over: the
    units past the last departed one. An id is the position in `issued`. */
module SourceStream {

  import opened Options
  import opened WireNumbers

  /** A queued access unit. `idx` counts the pushes that passed the size test,
      whether or not they were queued, so it tells which units the source made
      in between; `era` is the source epoch at the push. */
  datatype Frame = Frame(idx: nat, era: nat, key: bool, data: seq<Byte>)

  datatype Fate = Consumed | Overflowed | Cleared

  /** `due` and `firstKey` are for the proofs only: whether nothing was pushed
      since a clear, and the place of the first keyframe pushed. */
  datatype Stream = Stream(
    issued: seq<Frame>, fate: seq<Fate>, needKey: bool, nextIdx: nat, due: bool, firstKey: Option<nat>)
  {
    /** The id of the oldest queued unit, or the next id when none is queued. */
    function Front(): nat { |fate| }

    function Queued(): seq<Frame>
      requires |fate| <= |issued|
    {
      issued[|fate|..]
    }

    /** The k oldest queued units leave. */
    function Leave(k: nat, why: Fate): Stream {
      this.(fate := fate + seq(k, _ => why))
    }
  }

  const EMPTY: Stream := Stream([], [], false, 0, false, None)

  /** `iter().rposition(|f| f.keyframe)`, with -1 for none. */
  function NewestKey(frames: seq<Frame>): (i: int)
    ensures -1 <= i < |frames|
    ensures i >= 0 ==> frames[i].key
    ensures forall j :: i < j < |frames| ==> !frames[j].key
  {
    if frames == [] then -1
    else if frames[|frames| - 1].key then |frames| - 1
    else NewestKey(frames[..|frames| - 1])
  }

  datatype PushResult = PushResult(stream: Stream, accepted: bool, requested: bool)

  /** A push that passed the size test. `requested` is the keyframe request of
      a flush. */
  function Push(q: Stream, cap: nat, era: nat, key: bool, data: seq<Byte>): PushResult
    requires |q.fate| <= |q.issued|
  {
    var first := if q.firstKey.None? && key then Some(q.nextIdx) else q.firstKey;
    var seen := q.(nextIdx := q.nextIdx + 1, due := false, firstKey := first);
    var frame := Frame(q.nextIdx, era, key, data);
    var n := |q.Queued()|;
    if q.needKey && !key then
      PushResult(seen, false, false)
    else if n < cap then
      PushResult(seen.(issued := q.issued + [frame], needKey := false), true, false)
    else
      var newest := NewestKey(q.Queued());
      if newest > 0 && !key then
        PushResult(seen.Leave(newest, Overflowed).(issued := q.issued + [frame], needKey := false), true, false)
      else if key then
        PushResult(seen.Leave(n, Overflowed).(issued := q.issued + [frame], needKey := false), true, false)
      else
        PushResult(seen.Leave(n, Overflowed).(needKey := true), false, true)
  }

  /** The overflow policy. A keyframe is always accepted; another unit unless
      the queue waits for a keyframe, or is full and has none to keep, past its
      front. Only then is one requested. What leaves is lost, and only from a
      full queue: all of it, or all before its newest keyframe. */
  lemma PushPolicy(q: Stream, cap: nat, era: nat, key: bool, data: seq<Byte>)
    requires |q.fate| <= |q.issued|
    ensures var r, queued := Push(q, cap, era, key, data), q.Queued();
            var kept := exists i :: 0 < i < |queued| && queued[i].key;
            var lost := |r.stream.fate| - |q.fate|;
            && (r.accepted <==> key || (!q.needKey && (|queued| < cap || kept)))
            && (r.requested <==> !key && !q.needKey && |queued| >= cap && !kept)
            && (r.stream.needKey <==> !r.accepted)
            && r.stream.nextIdx == q.nextIdx + 1 && !r.stream.due
            && r.stream.firstKey == (if q.firstKey.None? && key then Some(q.nextIdx) else q.firstKey)
            && r.stream.issued == (if r.accepted then q.issued + [Frame(q.nextIdx, era, key, data)] else q.issued)
            && 0 <= lost <= |queued| && r.stream.fate == q.fate + seq(lost, _ => Overflowed)
            && (|queued| < cap || (q.needKey && !key) ==> lost == 0)
            && (|queued| >= cap && (key || r.requested) ==> lost == |queued|)
            && (|queued| >= cap && !key && r.accepted ==>
                  0 < lost < |queued| && queued[lost].key && forall j :: lost < j < |queued| ==> !queued[j].key)
  {
  }

  /** A push revises nothing, and consumes nothing. */
  lemma PushExtends(q: Stream, cap: nat, era: nat, key: bool, data: seq<Byte>)
    requires |q.fate| <= |q.issued|
    ensures var t := Push(q, cap, era, key, data).stream;
            && q.issued <= t.issued && q.fate <= t.fate && |t.fate| <= |t.issued|
            && forall u :: |q.fate| <= u < |t.fate| ==> t.fate[u] == Overflowed
  {
  }

  /** Units up to and including id u leave. */
  function ConsumeThrough(q: Stream, u: nat): Stream
    requires |q.fate| <= |q.issued|
  {
    if u < q.Front() then q
    else q.Leave((if u < |q.issued| then u + 1 else |q.issued|) - q.Front(), Consumed)
  }

  function Clear(q: Stream): Stream
    requires |q.fate| <= |q.issued|
  {
    q.Leave(|q.Queued()|, Cleared).(needKey := false, due := true)
  }

  // ------------------------------------------------------------------------
  // Decoding order

  /** Unit b can be decoded straight after unit a. */
  ghost predicate Link(q: Stream, a: nat, b: nat)
    requires a < |q.issued| && b < |q.issued|
  {
    q.issued[b].key || q.issued[b].idx == q.issued[a].idx + 1
  }

  /** Unit u is the first keyframe or was pushed later, so it might be sent. */
  ghost predicate Live(q: Stream, u: nat)
    requires u < |q.issued|
  {
    q.firstKey.Some? && q.issued[u].idx >= q.firstKey.value
  }

  /** A push breaks the stream when it is the first since a clear, not a
      keyframe, and something was pushed since some keyframe before it. */
  ghost predicate Breaking(q: Stream, key: bool) {
    q.due && !key && q.firstKey.Some? && q.firstKey.value + 1 < q.nextIdx
  }

  /** Whether unit u is of the stream that goes on. With `steady` this goes
      across clears: no push of the application's is a breaking one. Otherwise
      every clear starts a new stream. */
  ghost predicate Current(q: Stream, u: nat, src: nat, steady: bool)
    requires u < |q.issued|
  {
    q.issued[u].era == src || (steady && Live(q, u))
  }

  /** Whatever the queue yields after unit a can be decoded straight after it:
      the next unit in the queue, or the next one to enter it. */
  ghost predicate Follows(q: Stream, a: nat, steady: bool)
    requires a < |q.issued|
  {
    var next := if a < q.Front() then q.Front() else a + 1;
    if next < |q.issued| then Link(q, a, next)
    else q.needKey || q.issued[a].idx + 1 == q.nextIdx || (steady && q.due && Live(q, a))
  }

  /** Everything that was given an id passed the size test. */
  ghost predicate Sized(q: Stream, maxFrameSize: nat) {
    forall u :: 0 <= u < |q.issued| ==> 0 < |q.issued[u].data| <= maxFrameSize
  }

  lemma PushSized(q: Stream, cap: nat, era: nat, key: bool, data: seq<Byte>, max: nat)
    requires |q.fate| <= |q.issued| && Sized(q, max) && 0 < |data| <= max
    ensures Sized(Push(q, cap, era, key, data).stream, max)
  {
  }

  /** The queue never lost a unit another queued unit needs. `src` is the
      current source epoch. */
  ghost predicate Inv(q: Stream, src: nat, steady: bool) {
    && |q.fate| <= |q.issued|
    && (q.needKey || q.due ==> |q.fate| == |q.issued|)
    && Ordered(q, src)
    && Keys(q)
    && Consecutive(q.issued, q.firstKey, steady)
    && AfterOverflow(q, src, steady)
    && ClearedTogether(q, src)
    && LastFollowed(q, src, steady)
  }

  /** What is to enter the queue next can be decoded after the last unit. */
  ghost predicate LastFollowed(q: Stream, src: nat, steady: bool) {
    |q.issued| > 0 && Current(q, |q.issued| - 1, src, steady) ==> Follows(q, |q.issued| - 1, steady)
  }

  /** Ids follow the source's order, and everything queued is of this epoch. */
  ghost predicate Ordered(q: Stream, src: nat) {
    && (forall u :: 0 <= u < |q.issued| ==> q.issued[u].idx < q.nextIdx && q.issued[u].era <= src)
    && (q.due ==> forall u :: 0 <= u < |q.issued| ==> q.issued[u].era < src)
    && (forall u :: |q.fate| <= u < |q.issued| ==> q.issued[u].era == src)
    && InSourceOrder(q.issued)
  }

  ghost predicate InSourceOrder(issued: seq<Frame>) {
    forall u, w :: 0 <= u < w < |issued| ==> issued[u].idx < issued[w].idx && issued[u].era <= issued[w].era
  }

  lemma InSourceOrderAppend(issued: seq<Frame>, frame: Frame)
    requires InSourceOrder(issued)
    requires forall u :: 0 <= u < |issued| ==> issued[u].idx < frame.idx && issued[u].era <= frame.era
    ensures InSourceOrder(issued + [frame])
  {
  }

  /** No keyframe is older than the first. */
  ghost predicate Keys(q: Stream) {
    && (q.firstKey.Some? ==> q.firstKey.value < q.nextIdx)
    && (forall u :: 0 <= u < |q.issued| && q.issued[u].key ==> Live(q, u))
  }

  /** Units with neighbouring ids of one stream link up: whatever was refused an
      id in between, the later one is a keyframe. */
  ghost predicate Consecutive(issued: seq<Frame>, firstKey: Option<nat>, steady: bool) {
    forall u, w :: 0 <= u && w == u + 1 && w < |issued| ==>
      (issued[u].era == issued[w].era || (steady && firstKey.Some? && issued[u].idx >= firstKey.value) ==>
         issued[w].key || issued[w].idx == issued[u].idx + 1)
  }

  /** After a unit lost to overflow comes a keyframe or another lost unit. */
  ghost predicate AfterOverflow(q: Stream, src: nat, steady: bool)
    requires |q.fate| <= |q.issued|
  {
    forall u {:trigger q.fate[u]} :: 0 <= u < |q.fate| && q.fate[u] == Overflowed ==>
      && q.issued[u].idx + 1 < q.nextIdx
      && if u + 1 == |q.issued| then
           Current(q, u, src, steady) ==> q.needKey || (steady && q.due)
         else
           Current(q, u, q.issued[u + 1].era, steady) ==>
             q.issued[u + 1].key || (u + 1 < |q.fate| && q.fate[u + 1] == Overflowed)
  }

  /** A clear takes everything queued and ends the epoch. */
  ghost predicate ClearedTogether(q: Stream, src: nat)
    requires |q.fate| <= |q.issued|
  {
    forall u :: 0 <= u < |q.fate| && q.fate[u] == Cleared ==>
      && q.issued[u].era < src
      && forall w :: u < w < |q.issued| && q.issued[w].era == q.issued[u].era ==> w < |q.fate| && q.fate[w] == Cleared
  }

  /** A push in terms of the stream: k units are lost to overflow, and then one is
      issued or else the queue, empty, waits for a keyframe. A unit that is not
      one is issued only behind the last issued, or behind lost units if a
      keyframe was kept. */
  ghost predicate Pushed(q: Stream, t: Stream, k: nat, src: nat, key: bool) {
    && |q.fate| + k <= |q.issued| && t.fate == q.fate + seq(k, _ => Overflowed)
    && t.nextIdx == q.nextIdx + 1 && !t.due
    && t.firstKey == (if q.firstKey.None? && key then Some(q.nextIdx) else q.firstKey)
    && if t.needKey then
         !key && t.issued == q.issued && |t.fate| == |t.issued|
       else
         && |t.issued| == |q.issued| + 1
         && var frame := t.issued[|q.issued|];
            && t.issued == q.issued + [frame] && frame.idx == q.nextIdx && frame.era == src && frame.key == key
            && (key || (!q.needKey && (k == 0 || (|t.fate| < |q.issued| && q.issued[|t.fate|].key))))
            && (|t.fate| == |q.issued| || k == 0 || q.issued[|t.fate|].key)
  }

  lemma PushIsPushed(q: Stream, src: nat, cap: nat, key: bool, data: seq<Byte>)
    requires |q.fate| <= |q.issued| && (q.needKey ==> |q.fate| == |q.issued|)
    ensures var t := Push(q, cap, src, key, data).stream;
            |t.fate| >= |q.fate| && Pushed(q, t, |t.fate| - |q.fate|, src, key)
  {
    PushPolicy(q, cap, src, key, data);
  }

  lemma PushedOrdered(q: Stream, t: Stream, k: nat, src: nat, key: bool, steady: bool)
    requires Inv(q, src, steady) && Pushed(q, t, k, src, key)
    ensures Ordered(t, src)
  {
    if !t.needKey { InSourceOrderAppend(q.issued, t.issued[|q.issued|]); }
  }

  /** What was live stays so, and nothing else becomes it. */
  lemma PushedKeys(q: Stream, t: Stream, k: nat, src: nat, key: bool, steady: bool)
    requires Inv(q, src, steady) && Pushed(q, t, k, src, key)
    ensures Keys(t)
    ensures forall u: nat :: u < |q.issued| ==> (Live(t, u) <==> Live(q, u))
  {
  }

  lemma PushedConsecutive(q: Stream, t: Stream, k: nat, src: nat, key: bool, steady: bool)
    requires Inv(q, src, steady) && Pushed(q, t, k, src, key) && !(steady && Breaking(q, key))
    ensures Consecutive(t.issued, t.firstKey, steady)
  {
    PushedKeys(q, t, k, src, key, steady);
  }

  lemma PushedAfterOverflow(q: Stream, t: Stream, k: nat, src: nat, key: bool, steady: bool)
    requires Inv(q, src, steady) && Pushed(q, t, k, src, key) && !(steady && Breaking(q, key))
    ensures AfterOverflow(t, src, steady)
  {
    PushedKeys(q, t, k, src, key, steady);
  }

  lemma PushedCleared(q: Stream, t: Stream, k: nat, src: nat, key: bool, steady: bool)
    requires Inv(q, src, steady) && Pushed(q, t, k, src, key)
    ensures ClearedTogether(t, src)
  {
  }

  lemma PushedInv(q: Stream, t: Stream, k: nat, src: nat, key: bool, steady: bool)
    requires Inv(q, src, steady) && Pushed(q, t, k, src, key) && !(steady && Breaking(q, key))
    ensures Inv(t, src, steady)
  {
    PushedOrdered(q, t, k, src, key, steady);
    PushedKeys(q, t, k, src, key, steady);
    PushedConsecutive(q, t, k, src, key, steady);
    PushedAfterOverflow(q, t, k, src, key, steady);
    PushedCleared(q, t, k, src, key, steady);
  }

  lemma PushInv(q: Stream, src: nat, cap: nat, key: bool, data: seq<Byte>, steady: bool)
    requires Inv(q, src, steady) && !(steady && Breaking(q, key))
    ensures Inv(Push(q, cap, src, key, data).stream, src, steady)
  {
    PushIsPushed(q, src, cap, key, data);
    var t := Push(q, cap, src, key, data).stream;
    PushedInv(q, t, |t.fate| - |q.fate|, src, key, steady);
  }

  /** A consumption in terms of the stream: k units leave. */
  ghost predicate Consumes(q: Stream, t: Stream, k: nat) {
    |q.fate| + k <= |q.issued| && t == q.(fate := t.fate) && t.fate == q.fate + seq(k, _ => Consumed)
  }

  lemma ConsumeIs(q: Stream, u: nat) returns (k: nat)
    requires |q.fate| <= |q.issued|
    ensures Consumes(q, ConsumeThrough(q, u), k)
  {
    k := |ConsumeThrough(q, u).fate| - |q.fate|;
    assert q.fate + seq(0, _ => Consumed) == q.fate;
  }

  lemma ConsumesOrdered(q: Stream, t: Stream, k: nat, src: nat, steady: bool)
    requires Inv(q, src, steady) && Consumes(q, t, k)
    ensures Ordered(t, src) && Keys(t) && ClearedTogether(t, src)
  {
  }

  lemma ConsumesAfterOverflow(q: Stream, t: Stream, k: nat, src: nat, steady: bool)
    requires Inv(q, src, steady) && Consumes(q, t, k)
    ensures AfterOverflow(t, src, steady) && LastFollowed(t, src, steady)
  {
  }

  lemma ConsumesInv(q: Stream, t: Stream, k: nat, src: nat, steady: bool)
    requires Inv(q, src, steady) && Consumes(q, t, k)
    ensures Inv(t, src, steady)
  {
    ConsumesOrdered(q, t, k, src, steady);
    ConsumesAfterOverflow(q, t, k, src, steady);
  }

  lemma ConsumeInv(q: Stream, src: nat, u: nat, steady: bool)
    requires Inv(q, src, steady)
    ensures Inv(ConsumeThrough(q, u), src, steady)
  {
    var k := ConsumeIs(q, u);
    ConsumesInv(q, ConsumeThrough(q, u), k, src, steady);
  }

  /** A clear in terms of the stream: all that is queued leaves. */
  ghost predicate Clears(q: Stream, t: Stream) {
    && t == q.(fate := t.fate, needKey := false, due := true)
    && |q.fate| <= |t.fate| == |q.issued| && t.fate[..|q.fate|] == q.fate
    && forall u :: |q.fate| <= u < |t.fate| ==> t.fate[u] == Cleared
  }

  lemma ClearsOrdered(q: Stream, t: Stream, src: nat, steady: bool)
    requires Inv(q, src, steady) && Clears(q, t)
    ensures Ordered(t, src + 1) && Keys(t) && LastFollowed(t, src + 1, steady)
  {
  }

  lemma ClearsAfterOverflow(q: Stream, t: Stream, src: nat, steady: bool)
    requires Inv(q, src, steady) && Clears(q, t)
    ensures AfterOverflow(t, src + 1, steady)
  {
  }

  lemma ClearsCleared(q: Stream, t: Stream, src: nat, steady: bool)
    requires Inv(q, src, steady) && Clears(q, t)
    ensures ClearedTogether(t, src + 1)
  {
  }

  lemma ClearsInv(q: Stream, t: Stream, src: nat, steady: bool)
    requires Inv(q, src, steady) && Clears(q, t)
    ensures Inv(t, src + 1, steady)
  {
    ClearsOrdered(q, t, src, steady);
    ClearsAfterOverflow(q, t, src, steady);
    ClearsCleared(q, t, src, steady);
  }

  lemma ClearInv(q: Stream, src: nat, steady: bool)
    requires Inv(q, src, steady)
    ensures Inv(Clear(q), src + 1, steady)
  {
    ClearsInv(q, Clear(q), src, steady);
  }

  /** A push never breaks what is to follow a unit that was at the front. */
  lemma PushedFollows(q: Stream, t: Stream, k: nat, src: nat, key: bool, steady: bool, a: nat)
    requires Inv(q, src, steady) && Pushed(q, t, k, src, key) && !(steady && Breaking(q, key))
    requires a < |q.issued| && a <= q.Front() && Follows(q, a, steady)
    ensures Follows(t, a, steady)
  {
    PushedKeys(q, t, k, src, key, steady);
  }

  /** A push revises nothing that was settled. */
  lemma PushKeeps(q: Stream, src: nat, cap: nat, key: bool, data: seq<Byte>, steady: bool)
    requires Inv(q, src, steady) && !(steady && Breaking(q, key))
    ensures var r := Push(q, cap, src, key, data).stream;
            && q.issued <= r.issued && |q.fate| <= |r.fate|
            && (forall u: nat :: u < |q.issued| ==> (Live(r, u) <==> Live(q, u)))
            && forall a: nat :: a < |q.issued| && a <= q.Front() && Follows(q, a, steady) ==> Follows(r, a, steady)
  {
    PushIsPushed(q, src, cap, key, data);
    var r := Push(q, cap, src, key, data).stream;
    var k := |r.fate| - |q.fate|;
    PushedKeys(q, r, k, src, key, steady);
    forall a: nat | a < |q.issued| && a <= q.Front() && Follows(q, a, steady)
      ensures Follows(r, a, steady)
    {
      PushedFollows(q, r, k, src, key, steady, a);
    }
  }

  lemma ConsumeFollows(q: Stream, u: nat, a: nat, steady: bool)
    requires |q.fate| <= |q.issued|
    requires u <= a < |q.issued| && Follows(q, a, steady)
    ensures Follows(ConsumeThrough(q, u), a, steady)
  {
  }

  /** The oldest queued unit is followed properly. */
  lemma FrontFollows(q: Stream, src: nat, steady: bool)
    requires Inv(q, src, steady) && q.Front() < |q.issued|
    ensures Follows(q, q.Front(), steady)
  {
  }
}
