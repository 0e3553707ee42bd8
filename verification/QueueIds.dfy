/** Whole runs of the queue as it is, with ids that wrap and a deque, and where
    every id that was ever given out went. */
module QueueIds {
  import opened WireNumbers
  import opened VideoQueue

  /** A call on the queue; consumption may name any 32-bit number. */
  datatype Op = PushOp(cap: nat, key: bool, data: seq<Byte>) | ConsumeOp(id: U32) | ClearOp

  /** The queue, the ids given out in order, and those popped as consumed, thrown
      out by a push, and cleared. */
  datatype Ledger = Ledger(deque: Deque, given: seq<U32>, popped: seq<U32>, lost: seq<U32>, cleared: seq<U32>)

  const OPENED: Ledger := Ledger(Deque([], 1, false), [], [], [], [])

  function Ids(frames: seq<Queued>): (ids: seq<U32>)
    ensures |ids| == |frames|
  {
    seq(|frames|, i requires 0 <= i < |frames| => frames[i].id)
  }

  function Do(l: Ledger, op: Op): Ledger {
    match op
    case PushOp(cap, key, data) =>
      var p := PushDeque(l.deque, cap, key, data);
      l.(deque := p.deque, lost := l.lost + Ids(p.lost), given := if p.ok then l.given + [l.deque.nextId] else l.given)
    case ConsumeOp(id) =>
      var rest := DropThrough(l.deque.frames, id);
      l.(deque := l.deque.(frames := rest), popped := l.popped + Ids(Dropped(l.deque.frames, id)))
    case ClearOp =>
      l.(deque := l.deque.(frames := [], needKeyframe := false), cleared := l.cleared + Ids(l.deque.frames))
  }

  /** The frames that `DropThrough` drops. */
  function Dropped(frames: seq<Queued>, id: U32): seq<Queued> {
    if frames != [] && WireAtOrAfter(id, frames[0].id) then [frames[0]] + Dropped(frames[1..], id) else []
  }

  function Run(ops: seq<Op>): Ledger {
    if ops == [] then OPENED else Do(Run(ops[..|ops| - 1]), ops[|ops| - 1])
  }

  /** Every id given out is in one place, as often as it was given out. */
  ghost predicate Accounted(l: Ledger) {
    multiset(l.given) == multiset(l.popped) + multiset(l.lost) + multiset(l.cleared) + multiset(Ids(l.deque.frames))
  }

  /** Ids are given out in the order of the cycle. */
  ghost predicate InTurn(l: Ledger) {
    && l.deque.nextId == Wire(|l.given|)
    && forall i :: 0 <= i < |l.given| ==> l.given[i] == Wire(i)
  }

  lemma {:induction false} DroppedExactly(frames: seq<Queued>, id: U32) returns (k: nat)
    ensures k <= |frames| && Dropped(frames, id) == frames[..k] && DropThrough(frames, id) == frames[k..]
    ensures forall j :: 0 <= j < k ==> WireAtOrAfter(id, frames[j].id)
    ensures k < |frames| ==> !WireAtOrAfter(id, frames[k].id)
  {
    if frames != [] && WireAtOrAfter(id, frames[0].id) {
      k := DroppedExactly(frames[1..], id);
      k := k + 1;
      assert frames[..k] == [frames[0]] + frames[1..][..k - 1];
    } else {
      k := 0;
    }
  }

  /** Each operation takes frames off the front, and notes their ids in one place:
      a consumption those at or before the id it names, a clear all, and a push,
      whose own id is given out when it is accepted, what it throws out. */
  lemma DoMoves(l: Ledger, op: Op) returns (k: nat)
    ensures k <= |l.deque.frames|
    ensures var m, gone := Do(l, op), Ids(l.deque.frames[..k]);
            match op
            case PushOp(cap, key, data) =>
              var ok := PushDeque(l.deque, cap, key, data).ok;
              && m == l.(deque := m.deque, lost := l.lost + gone, given := l.given + if ok then [l.deque.nextId] else [])
              && m.deque.frames == l.deque.frames[k..] + if ok then [Queued(l.deque.nextId, data, key)] else []
            case ConsumeOp(id) =>
              && m == l.(deque := l.deque.(frames := l.deque.frames[k..]), popped := l.popped + gone)
              && (forall j :: 0 <= j < k ==> WireAtOrAfter(id, l.deque.frames[j].id))
              && (k < |l.deque.frames| ==> !WireAtOrAfter(id, l.deque.frames[k].id))
            case ClearOp =>
              && k == |l.deque.frames|
              && m == Ledger(Deque([], l.deque.nextId, false), l.given, l.popped, l.lost, l.cleared + gone)
  {
    match op
    case PushOp(cap, key, data) => k := |PushDeque(l.deque, cap, key, data).lost|;
    case ConsumeOp(id) => k := DroppedExactly(l.deque.frames, id);
    case ClearOp =>
      k := |l.deque.frames|;
      assert l.deque.frames[..k] == l.deque.frames;
  }

  lemma IdsConcat(a: seq<Queued>, b: seq<Queued>)
    ensures multiset(Ids(a + b)) == multiset(Ids(a)) + multiset(Ids(b))
  {
    assert Ids(a + b) == Ids(a) + Ids(b);
  }

  /** A push throws out the first frames and may add one. */
  lemma PushParts(d: Deque, cap: nat, key: bool, data: seq<Byte>) returns (kept: seq<Queued>, added: seq<Queued>)
    ensures var p := PushDeque(d, cap, key, data);
            && d.frames == p.lost + kept && p.deque.frames == kept + added
            && Ids(added) == if p.ok then [d.nextId] else []
  {
    var p := PushDeque(d, cap, key, data);
    kept := d.frames[|p.lost|..];
    added := if p.ok then [Queued(d.nextId, data, key)] else [];
  }

  lemma PushAccounted(l: Ledger, cap: nat, key: bool, data: seq<Byte>)
    requires Accounted(l)
    ensures Accounted(Do(l, PushOp(cap, key, data)))
  {
    var p := PushDeque(l.deque, cap, key, data);
    var kept, added := PushParts(l.deque, cap, key, data);
    IdsConcat(p.lost, kept);
    IdsConcat(kept, added);
    assert p.ok ==> multiset(l.given + [l.deque.nextId]) == multiset(l.given) + multiset(Ids(added));
  }

  lemma ConsumeSplits(frames: seq<Queued>, id: U32)
    ensures multiset(Ids(frames)) == multiset(Ids(Dropped(frames, id))) + multiset(Ids(DropThrough(frames, id)))
  {
    var k := DroppedExactly(frames, id);
    IdsConcat(frames[..k], frames[k..]);
    assert frames == frames[..k] + frames[k..];
  }

  lemma StepAccounted(l: Ledger, op: Op)
    requires Accounted(l)
    ensures Accounted(Do(l, op))
  {
    match op
    case PushOp(cap, key, data) => PushAccounted(l, cap, key, data);
    case ConsumeOp(id) =>
      ConsumeSplits(l.deque.frames, id);
    case ClearOp =>
  }

  lemma StepInTurn(l: Ledger, op: Op)
    requires InTurn(l)
    ensures InTurn(Do(l, op))
  {
    WireSuccessor(|l.given|);
  }

  /** In every run, the ids popped, thrown out, cleared and still queued are,
      taken together, just the ids given out, which are 1, 2, ... around the
      cycle. */
  lemma {:induction false} IdsAccounted(ops: seq<Op>)
    ensures Accounted(Run(ops)) && InTurn(Run(ops))
  {
    if ops == [] {
    } else {
      IdsAccounted(ops[..|ops| - 1]);
      StepAccounted(Run(ops[..|ops| - 1]), ops[|ops| - 1]);
      StepInTurn(Run(ops[..|ops| - 1]), ops[|ops| - 1]);
    }
  }

  /** How many of the first n ids given out are w. */
  lemma {:induction false} GivenOnce(given: seq<U32>, w: U32)
    requires |given| <= CYCLE && forall i :: 0 <= i < |given| ==> given[i] == Wire(i)
    ensures multiset(given)[w] <= 1 && (multiset(given)[w] == 1 <==> 1 <= w <= |given|)
  {
    if given == [] {
    } else {
      var n := |given| - 1;
      GivenOnce(given[..n], w);
      assert given == given[..n] + [given[n]];
      ModIs(n, 0, n);
    }
  }

  /** Until the ids come round, each one given out is in exactly one place, once:
      it was consumed, lost to overflow or cleared, or is queued; and no other
      number is in any. */
  lemma EachIdInOnePlace(ops: seq<Op>, w: U32)
    requires |Run(ops).given| <= CYCLE
    ensures var l := Run(ops);
            multiset(l.popped)[w] + multiset(l.lost)[w] + multiset(l.cleared)[w] + multiset(Ids(l.deque.frames))[w] ==
            if 1 <= w <= |l.given| then 1 else 0
  {
    IdsAccounted(ops);
    GivenOnce(Run(ops).given, w);
  }
}
