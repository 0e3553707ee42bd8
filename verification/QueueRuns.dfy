/** Whole runs of the access-unit queue: pushes with any capacity, consumption
    of any id, and clears, in any order. */
module QueueRuns {
  import opened WireNumbers
  import opened SourceStream

  /** A call on the queue. Consumption may name any id, handled or not. */
  datatype Op = PushOp(cap: nat, key: bool, data: seq<Byte>) | ConsumeOp(u: nat) | ClearOp

  /** The queue and the source epoch. */
  datatype Source = Source(q: Stream, src: nat)

  function Do(s: Source, op: Op): (r: Source)
    requires |s.q.fate| <= |s.q.issued|
    ensures |r.q.fate| <= |r.q.issued|
  {
    match op
    case PushOp(cap, key, data) => s.(q := Push(s.q, cap, s.src, key, data).stream)
    case ConsumeOp(u) => s.(q := ConsumeThrough(s.q, u))
    case ClearOp => Source(Clear(s.q), s.src + 1)
  }

  function Run(ops: seq<Op>): (s: Source)
    ensures |s.q.fate| <= |s.q.issued|
  {
    if ops == [] then Source(EMPTY, 1) else Do(Run(ops[..|ops| - 1]), ops[|ops| - 1])
  }

  ghost predicate SourceInv(s: Source) {
    Inv(s.q, s.src, false)
  }

  lemma DoPush(s: Source, cap: nat, key: bool, data: seq<Byte>)
    requires SourceInv(s)
    ensures SourceInv(Do(s, PushOp(cap, key, data)))
  {
    PushInv(s.q, s.src, cap, key, data, false);
  }

  lemma DoConsume(s: Source, u: nat)
    requires SourceInv(s)
    ensures SourceInv(Do(s, ConsumeOp(u)))
  {
    ConsumeInv(s.q, s.src, u, false);
  }

  lemma DoClear(s: Source)
    requires SourceInv(s)
    ensures SourceInv(Do(s, ClearOp))
  {
    ClearInv(s.q, s.src, false);
    assert Do(s, ClearOp) == Source(Clear(s.q), s.src + 1);
  }

  lemma {:induction false} RunInv(ops: seq<Op>)
    ensures SourceInv(Run(ops))
  {
    if ops == [] {
    } else {
      RunInv(ops[..|ops| - 1]);
      var s := Run(ops[..|ops| - 1]);
      match ops[|ops| - 1]
      case PushOp(cap, key, data) => DoPush(s, cap, key, data);
      case ConsumeOp(u) => DoConsume(s, u);
      case ClearOp => DoClear(s);
    }
  }

  /** Unit u reached the encoder or still can. */
  ghost predicate Survives(q: Stream, u: nat)
    requires |q.fate| <= |q.issued|
  {
    u < |q.issued| && (u < |q.fate| ==> q.fate[u] == Consumed)
  }

  /** Units a and b survive, and nothing between them does. */
  ghost predicate Neighbours(q: Stream, a: nat, b: nat)
    requires |q.fate| <= |q.issued|
  {
    a < b && Survives(q, a) && Survives(q, b) && forall u :: a < u < b ==> !Survives(q, u)
  }

  lemma NeighboursLink(q: Stream, src: nat, a: nat, b: nat)
    requires Inv(q, src, false) && Neighbours(q, a, b) && q.issued[a].era == q.issued[b].era
    ensures Link(q, a, b)
  {
    if b == a + 1 {
      assert Link(q, a, b);
    } else {
      assert !Survives(q, b - 1);
      assert q.issued[b - 1].era == q.issued[a].era;
      assert q.fate[b - 1] == Overflowed;
    }
  }

  /** The queue is gap-free: if the source made anything between two units of
      one epoch that survive next to each other, the later one is a keyframe.
      Over any run, with any capacities, consuming any ids. */
  lemma GapFree(ops: seq<Op>, a: nat, b: nat)
    requires var q := Run(ops).q; Neighbours(q, a, b) && q.issued[a].era == q.issued[b].era
    ensures var q := Run(ops).q; q.issued[b].key || q.issued[b].idx == q.issued[a].idx + 1
  {
    RunInv(ops);
    NeighboursLink(Run(ops).q, Run(ops).src, a, b);
  }

  /** While the queue waits for a keyframe, nothing is queued. */
  lemma EmptyWhileWaiting(ops: seq<Op>)
    ensures Run(ops).q.needKey ==> Run(ops).q.Queued() == []
  {
    RunInv(ops);
  }

  /** What an operation does to what is settled: nothing. Issued units and
      the fates of departed ones are never revised. */
  lemma History(s: Source, op: Op)
    requires |s.q.fate| <= |s.q.issued|
    ensures s.q.issued <= Do(s, op).q.issued
    ensures s.q.fate <= Do(s, op).q.fate
  {
  }

  /** No push makes the queue longer than the capacity, unless it already was. */
  lemma PushLength(q: Stream, cap: nat, era: nat, key: bool, data: seq<Byte>)
    requires |q.fate| <= |q.issued| && cap >= 1
    ensures var n, m := |q.Queued()|, |Push(q, cap, era, key, data).stream.Queued()|;
            m <= if n < cap then cap else n
  {
  }

  /** The largest capacity any push of a run saw. */
  function MaxCap(ops: seq<Op>): nat {
    if ops == [] then 0
    else
      var before := MaxCap(ops[..|ops| - 1]);
      var last := ops[|ops| - 1];
      if last.PushOp? && last.cap > before then last.cap else before
  }

  /** However the capacity moves during a run, the queue never outgrows the
      largest one in effect. */
  lemma {:induction false} LengthBound(ops: seq<Op>)
    requires forall op :: op in ops && op.PushOp? ==> op.cap >= 1
    ensures |Run(ops).q.Queued()| <= MaxCap(ops)
  {
    if ops == [] {
    } else {
      LengthBound(ops[..|ops| - 1]);
      var s := Run(ops[..|ops| - 1]);
      match ops[|ops| - 1]
      case PushOp(cap, key, data) => PushLength(s.q, cap, s.src, key, data);
      case ConsumeOp(u) =>
      case ClearOp =>
    }
  }
}
