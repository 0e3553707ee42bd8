/** Clears and decodability, over everything the application pushes and clears:
    exactly the sequences of calls that no schedule of the other threads can
    turn into something the receiver cannot decode. */
module ClearScripts {
  import opened Options
  import opened SourceStream
  import opened VptState
  import opened SendPath
  import opened Decoding
  import opened SendPathExact
  import opened ClearPromise

  /** Pushes that pass the size test, and clears. */
  ghost predicate IsScript(calls: seq<Step>, maxFrame: nat) {
    forall i :: 0 <= i < |calls| ==>
      calls[i].ClearQueue? || (calls[i].PushFrame? && 0 < |calls[i].data| <= maxFrame)
  }

  /** Call k pushes a keyframe, m something else after it, c clears, and p is the
      first push after that, and no keyframe. */
  ghost predicate BreaksAt(calls: seq<Step>, k: nat, m: nat, c: nat, p: nat) {
    && k < m < c < p < |calls|
    && calls[k].PushFrame? && calls[k].key && calls[m].PushFrame? && calls[c].ClearQueue?
    && calls[p].PushFrame? && !calls[p].key
    && forall i :: c < i < p ==> !calls[i].PushFrame?
  }

  ghost predicate Breaks(calls: seq<Step>) {
    exists k, m, c, p :: BreaksAt(calls, k, m, c, p)
  }

  /** Some schedule around these calls has the receiver get what it cannot
      decode. */
  ghost predicate CanSpoil(cap: nat, cfg: Config, calls: seq<Step>) {
    exists steps :: Calls(steps) == calls && Run(Start(cap, cfg), steps).Some? &&
      var t := Run(Start(cap, cfg), steps).value; !Decodable(t.q, t.log)
  }

  // ------------------------------------------------------------------------
  // Without such calls, every schedule is decodable

  /** A clear with no push after it. */
  ghost predicate LastClear(done: seq<Step>, c: nat) {
    c < |done| && done[c].ClearQueue? && forall i :: c < i < |done| ==> !done[i].PushFrame?
  }

  /** A keyframe, and something pushed after it unless it was the last push. */
  ghost predicate KeyPushed(done: seq<Step>, k: nat, q: Stream)
    requires q.firstKey.Some?
  {
    && k < |done| && done[k].PushFrame? && done[k].key
    && (q.firstKey.value + 1 < q.nextIdx ==> exists m :: k < m < |done| && done[m].PushFrame?)
  }

  /** What the queue remembers for the proofs is what the calls were. */
  ghost predicate Tracks(q: Stream, done: seq<Step>) {
    && (q.due ==> exists c: nat :: LastClear(done, c))
    && (q.firstKey.Some? ==>
          q.firstKey.value < q.nextIdx && exists k: nat :: KeyPushed(done, k, q))
  }

  lemma TracksPush(s: State, done: seq<Step>, push: Step)
    requires Wf(s) && push.PushFrame? && Enabled(s, push) && Tracks(s.q, done)
    ensures Tracks(Next(s, push).q, done + [push])
  {
    var n, t, all := |done|, Next(s, push), done + [push];
    PushPolicy(s.q, s.cap, s.ep.src, push.key, push.data);
    assert all[n] == push;
    if s.q.firstKey.Some? {
      var k: nat :| KeyPushed(done, k, s.q);
      assert all[k] == done[k];
      assert KeyPushed(all, k, t.q);
    } else if push.key {
      assert KeyPushed(all, n, t.q);
    }
  }

  lemma TracksClear(s: State, done: seq<Step>)
    requires Wf(s) && Tracks(s.q, done)
    ensures Tracks(Next(s, ClearQueue).q, done + [ClearQueue])
  {
    var all := done + [ClearQueue];
    assert LastClear(all, |done|);
    if s.q.firstKey.Some? {
      var k: nat :| KeyPushed(done, k, s.q);
      assert all[k] == done[k];
      if s.q.firstKey.value + 1 < s.q.nextIdx {
        var m :| k < m < |done| && done[m].PushFrame?;
        assert all[m] == done[m];
      }
      assert KeyPushed(all, k, Clear(s.q));
    }
  }

  /** A breaking push is one that breaks the calls. */
  lemma BreakingBreaks(q: Stream, done: seq<Step>, push: Step, rest: seq<Step>)
    requires Tracks(q, done) && push.PushFrame? && Breaking(q, push.key)
    ensures Breaks(done + ([push] + rest))
  {
    var all, p := done + ([push] + rest), |done|;
    var c: nat :| LastClear(done, c);
    var k: nat :| KeyPushed(done, k, q);
    var m :| k < m < |done| && done[m].PushFrame?;
    assert all[c] == done[c] && all[k] == done[k] && all[m] == done[m] && all[p] == push;
    assert forall i :: c < i < p ==> all[i] == done[i];
    assert m != c;
    assert BreaksAt(all, k, m, c, p);
  }

  lemma {:induction false} UnbrokenRun(s: State, steps: seq<Step>, done: seq<Step>)
    requires Wf(s) && Tracks(s.q, done) && Run(s, steps).Some? && !Breaks(done + Calls(steps))
    ensures Unbroken(s, steps)
    decreases |steps|
  {
    if steps == [] {
    } else {
      var step, rest, n := steps[0], steps[1..], Next(s, steps[0]);
      if IsCall(step) {
        assert done + Calls(steps) == (done + [step]) + Calls(rest);
        if step.PushFrame? {
          if Breaking(s.q, step.key) { BreakingBreaks(s.q, done, step, Calls(rest)); }
          TracksPush(s, done, step);
        } else {
          TracksClear(s, done);
        }
        UnbrokenRun(n, rest, done + [step]);
      } else {
        assert Calls(steps) == Calls(rest);
        SameHistory(s, step);
        SameTracks(s.q, n.q, done);
        UnbrokenRun(n, rest, done);
      }
    }
  }

  /** The other steps leave alone what the queue remembers of the calls. */
  lemma SameHistory(s: State, step: Step)
    requires Wf(s) && Enabled(s, step) && !IsCall(step)
    ensures var t := Next(s, step);
            t.q.due == s.q.due && t.q.firstKey == s.q.firstKey && t.q.nextIdx == s.q.nextIdx
  {
  }

  lemma SameTracks(q: Stream, r: Stream, done: seq<Step>)
    requires Tracks(q, done) && r.due == q.due && r.firstKey == q.firstKey && r.nextIdx == q.nextIdx
    ensures Tracks(r, done)
  {
    if q.firstKey.Some? {
      var k: nat :| KeyPushed(done, k, q);
      assert KeyPushed(done, k, r);
    }
  }

  lemma UnbrokenIsDecodable(cap: nat, cfg: Config, steps: seq<Step>)
    requires Run(Start(cap, cfg), steps).Some? && !Breaks(Calls(steps))
    ensures var t := Run(Start(cap, cfg), steps).value; Decodable(t.q, t.log)
  {
    var s := Start(cap, cfg);
    assert [] + Calls(steps) == Calls(steps);
    UnbrokenRun(s, steps, []);
    StartInv(cap, cfg, true);
    RunInv(s, steps, true);
  }

  // ------------------------------------------------------------------------
  // With such calls, some schedule is not

  /** What calls alone change. */
  ghost predicate OnlyCalls(s: State, t: State) {
    && t == s.(q := t.q, ep := s.ep.(src := t.ep.src)) && s.ep.src <= t.ep.src
    && s.q.issued <= t.q.issued && s.q.nextIdx <= t.q.nextIdx
  }

  /** The calls one after the other, with nothing else happening. */
  lemma {:induction false} JustCalls(s: State, calls: seq<Step>) returns (t: State)
    requires Wf(s) && IsScript(calls, s.maxFrame)
    ensures Leads(s, calls, t, calls, false) && Wf(t) && OnlyCalls(s, t)
    ensures (exists i :: 0 <= i < |calls| && calls[i].PushFrame?) ==> s.q.nextIdx < t.q.nextIdx
    ensures (forall i :: 0 <= i < |calls| ==> !calls[i].PushFrame?) && Emptied(s) ==> Emptied(t)
    decreases |calls|
  {
    if calls == [] {
      t := s;
    } else {
      var n := Next(s, calls[0]);
      CallChanges(s, calls[0]);
      t := JustCalls(n, calls[1..]);
      LeadsCons(s, calls[0], calls[1..], t, calls[1..], false);
      assert [calls[0]] + calls[1..] == calls;
      assert forall i :: 1 <= i < |calls| ==> calls[i] == calls[1..][i - 1];
    }
  }

  /** Nothing is queued, and whatever is pushed is accepted. */
  ghost predicate Emptied(s: State)
    requires Wf(s)
  {
    |s.q.fate| == |s.q.issued| && !s.q.needKey
  }

  lemma CallChanges(s: State, call: Step)
    requires Wf(s) && IsCall(call) && Enabled(s, call)
    ensures var n := Next(s, call);
            && OnlyCalls(s, n)
            && (call.PushFrame? ==> s.q.nextIdx < n.q.nextIdx)
            && (call.ClearQueue? ==> Emptied(n) && s.ep.src < n.ep.src)
  {
    if call.PushFrame? { PushPolicy(s.q, s.cap, s.ep.src, call.key, call.data); }
  }

  /** Between calls of an encoder in packetization-mode 1. */
  ghost predicate Ready(s: State) {
    Base(s) && s.pc.Idle? && s.codec.Some? && !s.codec.value.single
  }

  /** The encoder handles the front of the queue. */
  lemma EncodeFront(s: State) returns (steps: seq<Step>, t: State)
    requires Wf(s) && Positions(s) && Sizes(s) && s.pc.Idle? && s.codec.Some? && !s.codec.value.single
    requires |s.q.fate| < |s.q.issued|
    ensures Leads(s, steps, t, [], false) && t.pc.Idle? && t.codec.Some? && !t.codec.value.single
    ensures t.q.issued == s.q.issued && |t.q.fate| == |s.q.fate| + 1 && t.maxFrame == s.maxFrame
  {
    var p := Next(s, Peek);
    var u := Next(p, Take);
    assert u.pc == Taken(s.q.Front());
    steps, t := ToIdle(u);
    LeadsCons(p, Take, steps, t, [], false);
    LeadsCons(s, Peek, [Take] + steps, t, [], false);
    steps := [Peek] + ([Take] + steps);
  }

  /** The encoder empties the queue. */
  lemma {:induction false} Drain(s: State) returns (steps: seq<Step>, t: State)
    requires Ready(s)
    ensures Leads(s, steps, t, [], false) && Ready(t) && |t.q.fate| == |t.q.issued|
    ensures t.q.issued == s.q.issued && t.maxFrame == s.maxFrame
    decreases |s.q.issued| - |s.q.fate|
  {
    if |s.q.fate| == |s.q.issued| {
      steps, t := [], s;
    } else {
      var call, m := EncodeFront(s);
      RunBase(s, call);
      steps, t := Drain(m);
      LeadsAppend(s, call, m, steps, t, [], [], false);
      steps := call + steps;
    }
  }

  /** The port holds a keyframe, and the queue behind it is gone. */
  ghost predicate Stale(s: State, k: nat) {
    && Wf(s) && s.cap >= 1 && Sizes(s) && s.pc.Idle? && s.codec.Some? && !s.codec.value.single
    && k < |s.q.issued| && s.port == Some(k) && s.port != s.codec.value.last && s.q.issued[k].key
    && Emptied(s) && s.q.issued[k].idx + 1 < s.q.nextIdx
  }

  /** The keyframe pushed last is in the port, and new to the codec. */
  ghost predicate Polled(s: State) {
    && Wf(s) && s.pc.Idle? && s.codec.Some? && !s.codec.value.single
    && |s.q.issued| > 0 && s.port == Some(|s.q.issued| - 1) && s.port != s.codec.value.last
    && var frame := s.q.issued[|s.q.issued| - 1]; frame.key && frame.idx + 1 == s.q.nextIdx
  }

  /** The first calls are made, with a codec open. */
  lemma OpenAndCall(cap: nat, cfg: Config, before: seq<Step>) returns (steps: seq<Step>, t: State)
    requires IsScript(before, cfg.maxFrameSize)
    ensures Leads(Start(cap, cfg), steps, t, before, false) && Wf(t) && t.pc.Idle? && t.maxFrame == cfg.maxFrameSize
    ensures t.codec.Some? && !t.codec.value.single
  {
    var s, open := Start(cap, cfg), Open(false, 0);
    t := JustCalls(Next(s, open), before);
    LeadsCons(s, open, before, t, before, false);
    assert [] + before == before;
    steps := [open] + before;
  }

  /** And everything is encoded. */
  lemma Prepare(cap: nat, cfg: Config, before: seq<Step>) returns (steps: seq<Step>, t: State)
    requires IsScript(before, cfg.maxFrameSize)
    ensures Leads(Start(cap, cfg), steps, t, before, false) && Ready(t) && |t.q.fate| == |t.q.issued|
    ensures t.maxFrame == cfg.maxFrameSize
  {
    var m, drain;
    steps, m := OpenAndCall(cap, cfg, before);
    StartBase(cap, cfg);
    RunBase(Start(cap, cfg), steps);
    drain, t := Drain(m);
    LeadsAppend(Start(cap, cfg), steps, m, drain, t, before, [], false);
    assert before + [] == before;
    steps := steps + drain;
  }

  /** A keyframe pushed to an empty queue is its front. */
  lemma PushEmpty(s: State, push: Step)
    requires Wf(s) && Sizes(s) && s.cap >= 1 && |s.q.fate| == |s.q.issued|
    requires push.PushFrame? && push.key && Enabled(s, push)
    ensures var t := Next(s, push);
            && t == s.(q := t.q) && t.q.fate == s.q.fate && |t.q.issued| == |s.q.issued| + 1
            && var frame := t.q.issued[|s.q.issued|];
               frame.key && frame.idx + 1 == t.q.nextIdx && |frame.data| <= s.maxFrame
  {
    PushPolicy(s.q, s.cap, s.ep.src, true, push.data);
    assert s.q.fate + seq(0, _ => Overflowed) == s.q.fate;
  }

  /** A keyframe is pushed to the empty queue and polled. */
  lemma PollKey(s: State, push: Step) returns (steps: seq<Step>, t: State)
    requires Wf(s) && Positions(s) && Sizes(s) && s.cap >= 1
    requires s.pc.Idle? && s.codec.Some? && !s.codec.value.single && |s.q.fate| == |s.q.issued|
    requires push.PushFrame? && push.key && 0 < |push.data| <= s.maxFrame
    ensures Leads(s, steps, t, [push], false) && Polled(t) && t.maxFrame == s.maxFrame && t.cap == s.cap
    ensures |t.q.issued| == |s.q.issued| + 1
  {
    PushEmpty(s, push);
    var s1 := Next(s, push);
    t := Next(s1, Peek);
    LeadsCons(s1, Peek, [], t, [], false);
    LeadsCons(s, push, [Peek], t, [], false);
    steps := [push] + [Peek];
    assert [push] + [] == [push];
  }

  /** The calls up to the breaking push are made, with the keyframe in the port. */
  lemma HoldKey(s: State, between: seq<Step>, m: nat, c: nat) returns (t: State)
    requires Polled(s) && IsScript(between, s.maxFrame)
    requires m < c < |between| && between[m].PushFrame? && between[c].ClearQueue?
    requires forall i :: c < i < |between| ==> !between[i].PushFrame?
    ensures Leads(s, between, t, between, false) && OnlyCalls(s, t)
    ensures Sizes(t) && t.cap >= 1 ==> Stale(t, |s.q.issued| - 1)
  {
    var first, last := between[..c], between[c + 1..];
    assert first[m] == between[m];
    var s1 := JustCalls(s, first);
    var s2 := Next(s1, ClearQueue);
    CallChanges(s1, ClearQueue);
    t := JustCalls(s2, last);
    LeadsCons(s1, ClearQueue, last, t, last, false);
    LeadsAppend(s, first, s1, [ClearQueue] + last, t, first, [ClearQueue] + last, false);
    assert between == first + ([ClearQueue] + last);
  }

  /** From an empty queue, up to the breaking push. */
  lemma PollAndHold(s: State, push: Step, between: seq<Step>, m: nat, c: nat) returns (steps: seq<Step>, t: State)
    requires Ready(s) && |s.q.fate| == |s.q.issued|
    requires push.PushFrame? && push.key && 0 < |push.data| <= s.maxFrame && IsScript(between, s.maxFrame)
    requires m < c < |between| && between[m].PushFrame? && between[c].ClearQueue?
    requires forall i :: c < i < |between| ==> !between[i].PushFrame?
    ensures Leads(s, steps, t, [push] + between, false) && Stale(t, |s.q.issued|) && t.maxFrame == s.maxFrame
    ensures Base(t)
  {
    var m1;
    steps, m1 := PollKey(s, push);
    t := HoldKey(m1, between, m, c);
    LeadsAppend(s, steps, m1, between, t, [push], between, false);
    steps := steps + between;
    RunBase(s, steps);
  }

  /** The keyframe opens the gate of the new stream, and the push that breaks it
      goes out behind. */
  lemma Spoil(s: State, k: nat, push: Step) returns (steps: seq<Step>, t: State)
    requires Stale(s, k) && push.PushFrame? && !push.key && 0 < |push.data| <= s.maxFrame
    ensures Leads(s, steps, t, [push], false) && Wf(t) && !Decodable(t.q, t.log) && t.maxFrame == s.maxFrame
  {
    var open, m := EncodePort(s, false);
    var n := |m.q.issued|;
    var s1 := Next(m, push);
    PushPolicy(m.q, m.cap, m.ep.src, false, push.data);
    PushSized(m.q, m.cap, m.ep.src, false, push.data, m.maxFrame);
    var s2 := Next(s1, Peek);
    assert s2.port == Some(n);
    steps, t := EncodePort(s2, false);
    BadPair(t, k, n);
    LeadsCons(s1, Peek, steps, t, [], false);
    LeadsCons(m, push, [Peek] + steps, t, [], false);
    steps := [push] + ([Peek] + steps);
    assert [push] + [] == [push];
    LeadsAppend(s, open, m, steps, t, [], [push], false);
    steps := open + steps;
    assert [] + [push] == [push];
  }

  /** Once spoilt, the stream stays so, whatever is issued later. */
  lemma StaysSpoilt(q: Stream, r: Stream, log: seq<Event>)
    requires !Decodable(q, log) && q.issued <= r.issued && forall i :: 0 <= i < |log| ==> log[i].u < |q.issued|
    ensures !Decodable(r, log)
  {
  }

  lemma SpoilAnd(s: State, k: nat, push: Step, after: seq<Step>) returns (steps: seq<Step>, t: State)
    requires Base(s) && Stale(s, k) && push.PushFrame? && !push.key && 0 < |push.data| <= s.maxFrame
    requires IsScript(after, s.maxFrame)
    ensures Leads(s, steps, t, [push] + after, false) && Wf(t) && !Decodable(t.q, t.log)
  {
    var m;
    steps, m := Spoil(s, k, push);
    t := JustCalls(m, after);
    RunBase(s, steps);
    LogIsIssued(m);
    StaysSpoilt(m.q, t.q, m.log);
    LeadsAppend(s, steps, m, after, t, [push], after, false);
    steps := steps + after;
  }

  lemma LogIsIssued(s: State)
    requires Base(s)
    ensures forall i :: 0 <= i < |s.log| ==> s.log[i].u < |s.q.issued|
  {
    forall i | 0 <= i < |s.log|
      ensures s.log[i].u < |s.q.issued|
    {
      var last := |s.log| - 1;
      assert i < last ==> s.log[i].u <= s.log[last].u;
    }
  }

  lemma Parts(calls: seq<Step>, k: nat, p: nat)
    requires k < p < |calls|
    ensures calls[..k] + (([calls[k]] + calls[k + 1..p]) + ([calls[p]] + calls[p + 1..])) == calls
  {
  }

  lemma Spoilt(cap: nat, cfg: Config, steps: seq<Step>, t: State)
    requires Run(Start(cap, cfg), steps) == Some(t) && !Decodable(t.q, t.log)
    ensures CanSpoil(cap, cfg, Calls(steps))
  {
  }

  /** The same for calls that are given in parts. */
  lemma PartsSpoil(cap: nat, cfg: Config, before: seq<Step>, key: Step, between: seq<Step>, m: nat, c: nat,
                   push: Step, after: seq<Step>)
    requires IsScript(before, cfg.maxFrameSize) && IsScript(between, cfg.maxFrameSize) && IsScript(after, cfg.maxFrameSize)
    requires key.PushFrame? && key.key && 0 < |key.data| <= cfg.maxFrameSize
    requires push.PushFrame? && !push.key && 0 < |push.data| <= cfg.maxFrameSize
    requires m < c < |between| && between[m].PushFrame? && between[c].ClearQueue?
    requires forall i :: c < i < |between| ==> !between[i].PushFrame?
    ensures CanSpoil(cap, cfg, before + (([key] + between) + ([push] + after)))
  {
    var steps0, s0 := Prepare(cap, cfg, before);
    var steps1, s1 := PollAndHold(s0, key, between, m, c);
    var steps2, s2 := SpoilAnd(s1, |s0.q.issued|, push, after);
    LeadsAppend(s0, steps1, s1, steps2, s2, [key] + between, [push] + after, false);
    LeadsAppend(Start(cap, cfg), steps0, s0, steps1 + steps2, s2, before, ([key] + between) + ([push] + after), false);
    Spoilt(cap, cfg, steps0 + (steps1 + steps2), s2);
  }

  lemma BreaksSpoils(cap: nat, cfg: Config, calls: seq<Step>, k: nat, m: nat, c: nat, p: nat)
    requires IsScript(calls, cfg.maxFrameSize) && BreaksAt(calls, k, m, c, p)
    ensures CanSpoil(cap, cfg, calls)
  {
    var between := calls[k + 1..p];
    assert between[m - k - 1] == calls[m] && between[c - k - 1] == calls[c];
    PartsSpoil(cap, cfg, calls[..k], calls[k], between, m - k - 1, c - k - 1, calls[p], calls[p + 1..]);
    Parts(calls, k, p);
  }

  // ------------------------------------------------------------------------
  // The results

  /** Exactly: the calls of an application can be scheduled so that the receiver
      gets what it cannot decode, if and only if the first push after some clear
      is not a keyframe, though a keyframe was pushed before that clear and
      something after it. */
  lemma ClearsExactly(cap: nat, cfg: Config, calls: seq<Step>)
    requires IsScript(calls, cfg.maxFrameSize)
    ensures CanSpoil(cap, cfg, calls) <==> Breaks(calls)
  {
    if Breaks(calls) {
      var k, m, c, p :| BreaksAt(calls, k, m, c, p);
      BreaksSpoils(cap, cfg, calls, k, m, c, p);
    } else {
      forall steps | Calls(steps) == calls && Run(Start(cap, cfg), steps).Some?
        ensures var t := Run(Start(cap, cfg), steps).value; Decodable(t.q, t.log)
      {
        UnbrokenIsDecodable(cap, cfg, steps);
      }
    }
  }

  /** Call p is the first push after the clear at c. */
  ghost predicate FirstAfterClear(calls: seq<Step>, c: nat, p: nat) {
    && c < p < |calls| && calls[c].ClearQueue? && calls[p].PushFrame?
    && forall i :: c < i < p ==> !calls[i].PushFrame?
  }

  /** The first push after every clear is a keyframe. */
  ghost predicate KeyAfterClears(calls: seq<Step>) {
    forall c: nat, p: nat :: FirstAfterClear(calls, c, p) ==> calls[p].key
  }

  lemma KeysDoNotBreak(calls: seq<Step>)
    requires KeyAfterClears(calls)
    ensures !Breaks(calls)
  {
    forall k, m, c, p | BreaksAt(calls, k, m, c, p)
      ensures FirstAfterClear(calls, c, p)
    {
    }
  }

  /** In particular an application that pushes a keyframe first after every clear
      is safe, whatever the other threads do. */
  lemma KeyframeAfterEveryClear(cap: nat, cfg: Config, steps: seq<Step>)
    requires Run(Start(cap, cfg), steps).Some? && KeyAfterClears(Calls(steps))
    ensures var t := Run(Start(cap, cfg), steps).value; Decodable(t.q, t.log)
  {
    KeysDoNotBreak(Calls(steps));
    UnbrokenIsDecodable(cap, cfg, steps);
  }

  /** And the documented promise does fail: a keyframe, one more unit, a clear,
      and a unit that is not a keyframe. */
  lemma ClearCanSpoil(cap: nat, cfg: Config)
    requires cfg.maxFrameSize >= 1
    ensures CanSpoil(cap, cfg, [PushFrame(true, [1]), PushFrame(false, [2]), ClearQueue, PushFrame(false, [3])])
  {
    BreaksSpoils(cap, cfg, [PushFrame(true, [1]), PushFrame(false, [2]), ClearQueue, PushFrame(false, [3])], 0, 1, 2, 3);
  }
}
