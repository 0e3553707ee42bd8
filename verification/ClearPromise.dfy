/** What a `clear` promises, that nothing more is sent until the source's next
    keyframe, and exactly when that holds. */
module ClearPromise {
  import opened Options
  import opened SourceStream
  import opened VptState
  import opened SendPath
  import opened SendPathExact

  /** The source's next keyframe is still to come. */
  ghost predicate NoKeyframe(steps: seq<Step>) {
    forall i :: 0 <= i < |steps| && steps[i].PushFrame? ==> !steps[i].key
  }

  /** More was sent. */
  ghost predicate SentSince(before: seq<Event>, after: seq<Event>) {
    exists i :: |before| <= i < |after| && after[i].Sent?
  }

  /** After a clear here, something can be sent though no keyframe is pushed. */
  ghost predicate StillSends(s: State)
    requires Wf(s)
  {
    exists steps :: NoKeyframe(steps) && Run(Next(s, ClearQueue), steps).Some? &&
      SentSince(s.log, Run(Next(s, ClearQueue), steps).value.log)
  }

  /** A unit is past the gate, or a keyframe is on its way to it that fits, or
      one is in the port. */
  predicate OnItsWay(s: State)
    requires Wf(s)
  {
    || s.pc.Committing? || s.pc.Sending?
    || ((s.pc.Taken? || s.pc.Consumed?) && MayOpen(s))
    || (s.port.Some? && s.q.issued[s.port.value].key)
  }

  /** The unit in hand is a keyframe that the open codec can send. */
  predicate MayOpen(s: State)
    requires Wf(s) && !s.pc.Idle?
  {
    var c, frame := s.codec.value, s.q.issued[s.pc.u];
    frame.key && (c.single ==> Fits(frame.data, c.mtu))
  }

  /** The gate is closed, no keyframe is queued, and nothing in hand can open
      it. */
  ghost predicate Quiet(s: State)
    requires Wf(s)
  {
    && (forall u :: s.q.Front() <= u < |s.q.issued| ==> !s.q.issued[u].key)
    && 1 <= s.ep.src && s.ep.keyed < s.ep.src
    && (s.codec.Some? ==> s.codec.value.epoch <= s.ep.src && (s.codec.value.epoch == s.ep.src ==> !s.codec.value.sentKey))
    && !OnItsWay(s)
  }

  /** A push that is no keyframe queues none. */
  lemma QuietPush(s: State, push: Step)
    requires Wf(s) && Quiet(s) && push.PushFrame? && !push.key && Enabled(s, push)
    ensures Quiet(Next(s, push)) && Next(s, push).log == s.log
  {
    PushPolicy(s.q, s.cap, s.ep.src, push.key, push.data);
  }

  lemma QuietStep(s: State, step: Step)
    requires Wf(s) && Quiet(s) && Enabled(s, step) && (step.PushFrame? ==> !step.key)
    ensures var t := Next(s, step);
            Quiet(t) && (t.log == s.log || t.log == s.log + [Dropped(s.pc.u, s.opens)])
  {
    if step.PushFrame? { QuietPush(s, step); }
  }

  /** Whatever else is pushed, nothing is sent. */
  lemma {:induction false} QuietRun(s: State, steps: seq<Step>)
    requires Wf(s) && Quiet(s) && Run(s, steps).Some? && NoKeyframe(steps)
    ensures var log := Run(s, steps).value.log;
            s.log <= log && forall i :: |s.log| <= i < |log| ==> !log[i].Sent?
    decreases |steps|
  {
    if steps == [] {
    } else {
      QuietStep(s, steps[0]);
      QuietRun(Next(s, steps[0]), steps[1..]);
    }
  }

  lemma {:induction false} NoCallsNoKeyframe(steps: seq<Step>)
    requires Calls(steps) == []
    ensures NoKeyframe(steps)
  {
    if steps == [] {
    } else {
      NoCallsNoKeyframe(steps[1..]);
      assert forall i :: 1 <= i < |steps| ==> steps[i] == steps[1..][i - 1];
    }
  }

  /** The next step of an encoder call, when packets do not fail. */
  function Onward(s: State): Step
    requires Wf(s) && !s.pc.Idle?
  {
    match s.pc
    case Taken(_) => Report
    case Consumed(_) => ReadEpochs
    case Sending(u, _) => Packet(|s.q.issued[u].data|)
    case _ => Commit
  }

  function StepsLeft(pc: Pc): nat {
    match pc
    case Taken(_) => 4
    case Consumed(_) => 3
    case Committing(_, _) => 2
    case Sending(_, _) => 1
    case Dropping(_) => 1
    case Idle => 0
  }

  /** What an encoder call leaves alone. */
  ghost predicate Beside(s: State, t: State)
    requires Wf(s) && Wf(t)
  {
    && t.port == s.port && t.q.issued == s.q.issued && s.log <= t.log && t.cap == s.cap && t.ep.src == s.ep.src
    && t.maxFrame == s.maxFrame && t.codec.Some? == s.codec.Some?
    && (s.codec.Some? ==> t.codec.value.single == s.codec.value.single)
    && t.q == if s.pc.Taken? then ConsumeThrough(s.q, s.pc.u) else s.q
  }

  /** The unit in hand is not all sent. */
  predicate MoreToSend(s: State)
    requires Wf(s)
  {
    s.pc.Idle? || (if s.pc.Sending? then s.pc.pos else 0) < |s.q.issued[s.pc.u].data|
  }

  lemma OnwardStep(s: State)
    requires Wf(s) && MoreToSend(s) && !s.pc.Idle?
    ensures Enabled(s, Onward(s)) && !IsCall(Onward(s))
    ensures var n := Next(s, Onward(s));
            Beside(s, n) && MoreToSend(n) && !n.pc.Taken? && StepsLeft(n.pc) < StepsLeft(s.pc)
  {
  }

  /** An encoder call comes to its end without touching the port. */
  lemma {:induction false} ToIdle(s: State) returns (steps: seq<Step>, t: State)
    requires Wf(s) && MoreToSend(s)
    ensures Leads(s, steps, t, [], false) && Wf(t) && t.pc.Idle? && Beside(s, t)
    decreases StepsLeft(s.pc)
  {
    if s.pc.Idle? {
      steps, t := [], s;
    } else {
      OnwardStep(s);
      steps, t := ToIdle(Next(s, Onward(s)));
      LeadsCons(s, Onward(s), steps, t, [], false);
      steps := [Onward(s)] + steps;
    }
  }

  /** A keyframe in the port is sent, by a codec opened for it. */
  lemma PortSends(s: State) returns (steps: seq<Step>, t: State)
    requires Base(s) && s.port.Some? && s.q.issued[s.port.value].key
    ensures Leads(s, steps, t, [], false) && SentSince(s.log, t.log)
  {
    var first, m := ToIdle(s);
    RunBase(s, first);
    var open := Open(false, 0);
    if m.codec.Some? {
      steps, t := EncodePort(Next(Next(m, Close), open), false);
      Reopen(m, steps, t, [], false);
      steps := [Close] + ([open] + steps);
    } else {
      steps, t := EncodePort(Next(m, open), false);
      LeadsCons(m, open, steps, t, [], false);
      steps := [open] + steps;
    }
    assert t.log[|m.log|].Sent?;
    LeadsAppend(s, first, m, steps, t, [], [], false);
    steps := first + steps;
  }

  /** What is on its way at a clear is sent. */
  lemma OnItsWaySends(s: State) returns (steps: seq<Step>, t: State)
    requires Base(s) && OnItsWay(s)
    ensures Leads(Next(s, ClearQueue), steps, t, [], false) && SentSince(s.log, t.log)
  {
    StepBase(s, ClearQueue);
    var c := Next(s, ClearQueue);
    if s.pc.Committing? || s.pc.Sending? {
      steps, t := Finish(c, false);
      assert t.log[|s.log|].Sent?;
    } else if s.pc.Taken? && MayOpen(s) {
      steps, t := Pass(Next(c, Report), false);
      LeadsCons(c, Report, steps, t, [], false);
      steps := [Report] + steps;
      assert t.log[|s.log|].Sent?;
    } else if s.pc.Consumed? && MayOpen(s) {
      steps, t := Pass(c, false);
      assert t.log[|s.log|].Sent?;
    } else {
      steps, t := PortSends(c);
    }
  }

  /** The promise, exactly, in any state that a run can reach: after a clear, and
      until the source's next keyframe is pushed, a unit can still be sent if and
      only if one was on its way, whatever else is pushed. */
  lemma ClearSilencesExactly(s: State)
    requires Base(s)
    ensures StillSends(s) <==> OnItsWay(s)
  {
    if OnItsWay(s) {
      var steps, t := OnItsWaySends(s);
      NoCallsNoKeyframe(steps);
    } else {
      forall steps | NoKeyframe(steps) && Run(Next(s, ClearQueue), steps).Some?
        ensures !SentSince(s.log, Run(Next(s, ClearQueue), steps).value.log)
      {
        QuietRun(Next(s, ClearQueue), steps);
      }
    }
  }

  /** A keyframe pushed and polled is in the port. */
  lemma PolledKeyframe(cap: nat, cfg: Config) returns (s: State)
    requires cfg.maxFrameSize >= 1
    ensures Run(Start(cap, cfg), [PushFrame(true, [1]), Peek]) == Some(s)
    ensures s.port == Some(0) && s.q.issued[0].key
  {
    var s0, push := Start(cap, cfg), PushFrame(true, [1]);
    var s1 := Next(s0, push);
    s := Next(s1, Peek);
    assert [push, Peek][1..] == [Peek] && [Peek][1..] == [];
    assert Run(s, []) == Some(s);
    assert Run(s1, [Peek]) == Some(s);
  }

  /** The promise does fail: that keyframe is sent although a clear comes first,
      and no keyframe after it. */
  lemma PolledKeyframeIsSent(cap: nat, cfg: Config)
    requires cfg.maxFrameSize >= 1
    ensures var r := Run(Start(cap, cfg), [PushFrame(true, [1]), Peek]);
            r.Some? && StillSends(r.value)
  {
    var s := PolledKeyframe(cap, cfg);
    StartBase(cap, cfg);
    RunBase(Start(cap, cfg), [PushFrame(true, [1]), Peek]);
    ClearSilencesExactly(s);
  }
}
