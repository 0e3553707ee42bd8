/** The condition of Decoding is exact: an opening of the gate is safe if and only
    if no continuation that opens it safely again sends what cannot be decoded. */
module SendPathExact {
  import opened Options
  import opened Sequences
  import opened SourceStream
  import opened VptState
  import opened SendPath
  import opened Decoding

  predicate IsCall(step: Step) {
    step.PushFrame? || step.ClearQueue?
  }

  /** The application's pushes and clears among the steps. */
  function Calls(steps: seq<Step>): seq<Step> {
    if steps == [] then [] else (if IsCall(steps[0]) then [steps[0]] else []) + Calls(steps[1..])
  }

  /** The steps lead from s to t, and the application's calls among them are
      `calls`; with `clean`, the gate is opened only safely. */
  ghost predicate Leads(s: State, steps: seq<Step>, t: State, calls: seq<Step>, clean: bool)
    requires Wf(s)
  {
    Run(s, steps) == Some(t) && Calls(steps) == calls && (clean ==> Clean(s, steps))
  }

  lemma LeadsCons(s: State, step: Step, steps: seq<Step>, t: State, calls: seq<Step>, clean: bool)
    requires Wf(s) && Enabled(s, step) && (clean && step.ReadEpochs? ==> SafeToGate(s))
    requires Leads(Next(s, step), steps, t, calls, clean)
    ensures Leads(s, [step] + steps, t, (if IsCall(step) then [step] else []) + calls, clean)
  {
    assert ([step] + steps)[1..] == steps;
  }

  lemma {:induction false} CallsAppend(first: seq<Step>, second: seq<Step>)
    ensures Calls(first + second) == Calls(first) + Calls(second)
  {
    var all := first + second;
    if first == [] {
      assert all == second;
    } else {
      assert all[0] == first[0] && all[1..] == first[1..] + second;
      CallsAppend(first[1..], second);
      Regroup(if IsCall(first[0]) then [first[0]] else [], Calls(first[1..]), Calls(second));
    }
  }

  lemma {:induction false} RunAppend(s: State, first: seq<Step>, m: State, second: seq<Step>, clean: bool)
    requires Wf(s) && Run(s, first) == Some(m) && (clean ==> Clean(s, first)) && (clean ==> Clean(m, second))
    ensures Run(s, first + second) == Run(m, second) && (clean ==> Clean(s, first + second))
    decreases |first|
  {
    var all := first + second;
    if first == [] {
      assert all == second;
    } else {
      assert all[0] == first[0] && all[1..] == first[1..] + second;
      RunAppend(Next(s, first[0]), first[1..], m, second, clean);
    }
  }

  lemma LeadsAppend(s: State, first: seq<Step>, m: State, second: seq<Step>, t: State,
                    a: seq<Step>, b: seq<Step>, clean: bool)
    requires Wf(s) && Leads(s, first, m, a, clean) && Wf(m) && Leads(m, second, t, b, clean)
    ensures Leads(s, first + second, t, a + b, clean)
  {
    CallsAppend(first, second);
    RunAppend(s, first, m, second, clean);
  }

  /** A unit past the gate is sent, in one packet. */
  lemma Finish(s: State, clean: bool) returns (steps: seq<Step>, t: State)
    requires Wf(s) && (s.pc.Committing? || s.pc.Sending?)
    requires (if s.pc.Sending? then s.pc.pos else 0) < |s.q.issued[s.pc.u].data|
    ensures Leads(s, steps, t, [], clean)
    ensures t == s.(pc := Idle, ep := if s.pc.Committing? then s.ep.(keyed := s.pc.epoch) else s.ep,
                    log := s.log + [Sent(s.pc.u, s.opens, if s.codec.value.single then Some(s.codec.value.mtu) else None)])
  {
    var last := Packet(|s.q.issued[s.pc.u].data|);
    if s.pc.Committing? {
      var s1 := Next(s, Commit);
      t := Next(s1, last);
      LeadsCons(s1, last, [], t, [], clean);
      LeadsCons(s, Commit, [last], t, [], clean);
      steps := [Commit] + [last];
    } else {
      t := Next(s, last);
      LeadsCons(s, last, [], t, [], clean);
      steps := [last];
    }
  }

  /** A unit that the gate lets through is sent. */
  lemma Pass(s: State, clean: bool) returns (steps: seq<Step>, t: State)
    requires Wf(s) && s.pc.Consumed? && 0 < |s.q.issued[s.pc.u].data| && (clean ==> SafeToGate(s))
    requires GateFor(s).verdict.Keyed? || GateFor(s).verdict.Passed?
    ensures Leads(s, steps, t, [], clean)
    ensures var u, c := s.pc.u, GateFor(s).codec;
            t == s.(codec := Some(c), pc := Idle,
                    ep := if s.q.issued[u].key then s.ep.(keyed := s.ep.src) else s.ep,
                    log := s.log + [Sent(u, s.opens, if c.single then Some(c.mtu) else None)])
  {
    steps, t := Finish(Next(s, ReadEpochs), clean);
    LeadsCons(s, ReadEpochs, steps, t, [], clean);
    steps := [ReadEpochs] + steps;
  }

  /** The unit in the port goes, through an open gate or as a keyframe, if in
      mode 0 it fits. */
  lemma EncodePort(s: State, clean: bool) returns (steps: seq<Step>, t: State)
    requires Wf(s) && Sizes(s) && s.pc.Idle? && s.codec.Some?
    requires s.port.Some? && s.port != s.codec.value.last
    requires s.q.issued[s.port.value].key || IsOpen(s)
    requires s.codec.value.single ==> Fits(s.q.issued[s.port.value].data, s.codec.value.mtu)
    requires clean ==> IsOpen(s)
    ensures Leads(s, steps, t, [], clean)
    ensures t.q == ConsumeThrough(s.q, s.port.value) && t.port == s.port && t.pc.Idle? && t.maxFrame == s.maxFrame
    ensures t.cap == s.cap && Sizes(t) && t.ep.src == s.ep.src
    ensures t.codec.Some? && t.codec.value.last == s.port && IsOpen(t)
    ensures t.codec.value.single == s.codec.value.single && t.codec.value.mtu == s.codec.value.mtu
    ensures t.log == s.log + [Sent(s.port.value, s.opens, if s.codec.value.single then Some(s.codec.value.mtu) else None)]
  {
    var s1 := Next(s, Take);
    var s2 := Next(s1, Report);
    steps, t := Pass(s2, clean);
    LeadsCons(s1, Report, steps, t, [], clean);
    LeadsCons(s, Take, [Report] + steps, t, [], clean);
    steps := [Take] + ([Report] + steps);
  }

  /** Both memories of the gate say that a keyframe of this epoch went out. */
  ghost predicate IsOpen(s: State)
    requires s.codec.Some?
  {
    s.ep.src == s.ep.keyed && (s.codec.value.epoch == s.ep.src ==> s.codec.value.sentKey)
  }

  /** Between encoder calls, with the gate open and unit h sent last. The codec
      took h last unless it was opened since. */
  ghost predicate OpenIdle(s: State, h: nat) {
    && Wf(s) && s.cap >= 1 && Sizes(s)
    && s.pc.Idle? && s.codec.Some? && !s.codec.value.single && IsOpen(s)
    && (s.codec.value.last.Some? ==> s.codec.value.last == Some(h))
    && s.log != [] && s.log[|s.log| - 1].Sent? && s.log[|s.log| - 1].u == h
    && h < |s.q.issued| && h < s.q.Front()
  }

  /** Two units sent in a row that do not link up. */
  lemma BadPair(t: State, h: nat, p: nat)
    requires Wf(t) && |t.log| >= 2 && t.log[|t.log| - 2].u == h && t.log[|t.log| - 1].Sent? && t.log[|t.log| - 1].u == p
    requires h < |t.q.issued| && p < |t.q.issued| && h != p && !Link(t.q, h, p)
    ensures !Decodable(t.q, t.log)
  {
    var j := |t.log| - 1;
    assert !MayFollow(t.q, t.log[j - 1], t.log[j]);
  }

  /** What the queue holds next is sent, after a poll. */
  lemma FrontSpoils(s: State, h: nat) returns (steps: seq<Step>, t: State)
    requires OpenIdle(s, h) && s.q.Front() < |s.q.issued| && !Link(s.q, h, s.q.Front())
    ensures Leads(s, steps, t, [], true) && Wf(t) && !Decodable(t.q, t.log)
  {
    steps, t := EncodePort(Next(s, Peek), true);
    BadPair(t, h, s.q.Front());
    LeadsCons(s, Peek, steps, t, [], true);
    steps := [Peek] + steps;
  }

  /** When the queue does not follow the unit sent last, the next poll spoils
      the stream, if need be after one more push. */
  lemma QueueSpoils(s: State, h: nat) returns (steps: seq<Step>, t: State)
    requires OpenIdle(s, h) && !Follows(s.q, h, false)
    ensures Leads(s, steps, t, Calls(steps), true) && Wf(t) && !Decodable(t.q, t.log)
  {
    if s.q.Front() < |s.q.issued| {
      steps, t := FrontSpoils(s, h);
    } else {
      assert s.maxFrame >= 1 by { assert 0 < |s.q.issued[h].data|; }
      var push := PushFrame(false, [0]);
      PushSized(s.q, s.cap, s.ep.src, false, [0], s.maxFrame);
      assert Next(s, push).q.issued[|s.q.issued|] == Frame(s.q.nextIdx, s.ep.src, false, [0]);
      steps, t := FrontSpoils(Next(s, push), h);
      LeadsCons(s, push, steps, t, [], true);
      steps := [push] + steps;
    }
  }

  /** What lies ahead does not follow, so some continuation spoils the stream. */
  lemma AheadSpoils(s: State, h: nat) returns (steps: seq<Step>, t: State)
    requires OpenIdle(s, h) && !Ahead(s, h, false) && (s.port.Some? ==> s.port.value <= s.q.Front())
    ensures Leads(s, steps, t, Calls(steps), true) && Wf(t) && !Decodable(t.q, t.log)
  {
    if !Follows(s.q, h, false) {
      steps, t := QueueSpoils(s, h);
    } else {
      var first, m := EncodePort(s, true);
      if !Link(s.q, h, s.port.value) {
        steps, t := first, m;
        BadPair(t, h, s.port.value);
      } else {
        assert !Follows(m.q, s.port.value, false);
        steps, t := QueueSpoils(m, s.port.value);
        LeadsAppend(s, first, m, steps, t, [], Calls(steps), true);
        steps := first + steps;
      }
    }
  }

  /** The codec is closed, and one opened in packetization-mode 1. */
  lemma Reopen(s: State, steps: seq<Step>, t: State, calls: seq<Step>, clean: bool)
    requires Wf(s) && s.pc.Idle? && s.codec.Some?
    requires Leads(Next(Next(s, Close), Open(false, 0)), steps, t, calls, clean)
    ensures Leads(s, [Close] + ([Open(false, 0)] + steps), t, calls, clean)
  {
    LeadsCons(Next(s, Close), Open(false, 0), steps, t, calls, clean);
    LeadsCons(s, Close, [Open(false, 0)] + steps, t, calls, clean);
  }

  /** An unsafe opening can be continued into an undecodable stream, with no
      further unsafe opening: in mode 0 by reopening the codec in mode 1. */
  lemma UnsafeSpoils(s: State) returns (steps: seq<Step>, t: State)
    requires Wf(s) && s.cap >= 1 && s.ep.src >= 1 && Sizes(s) && Positions(s) && s.pc.Consumed? && !SafeToGate(s)
    ensures Leads(Next(s, ReadEpochs), steps, t, Calls(steps), true) && Wf(t) && !Decodable(t.q, t.log)
  {
    var first, m := Finish(Next(s, ReadEpochs), true);
    if s.codec.value.single {
      steps, t := AheadSpoils(Next(Next(m, Close), Open(false, 0)), s.pc.u);
      Reopen(m, steps, t, Calls(steps), true);
      steps := [Close] + ([Open(false, 0)] + steps);
    } else {
      steps, t := AheadSpoils(m, s.pc.u);
    }
    LeadsAppend(Next(s, ReadEpochs), first, m, steps, t, [], Calls(steps), true);
    steps := first + steps;
  }

  /** Whatever follows, the gate being opened only safely, is decodable. */
  ghost predicate StaysDecodable(s: State)
    requires Wf(s)
  {
    forall more: seq<Step> :: Run(s, more).Some? && Clean(s, more) ==>
      Decodable(Run(s, more).value.q, Run(s, more).value.log)
  }

  lemma SafeStays(s: State)
    requires Decoding.Inv(s, false) && s.pc.Consumed? && SafeToGate(s)
    ensures StaysDecodable(Next(s, ReadEpochs))
  {
    StepInv(s, ReadEpochs, false);
    forall more: seq<Step> | Run(Next(s, ReadEpochs), more).Some? && Clean(Next(s, ReadEpochs), more)
      ensures Decodable(Run(Next(s, ReadEpochs), more).value.q, Run(Next(s, ReadEpochs), more).value.log)
    {
      RunInv(Next(s, ReadEpochs), more, false);
    }
  }

  lemma UnsafeDoesNot(s: State)
    requires Wf(s) && s.cap >= 1 && s.ep.src >= 1 && Sizes(s) && Positions(s) && s.pc.Consumed? && !SafeToGate(s)
    ensures !StaysDecodable(Next(s, ReadEpochs))
  {
    var more, t := UnsafeSpoils(s);
    assert Run(Next(s, ReadEpochs), more).Some? && Clean(Next(s, ReadEpochs), more);
  }

  /** After any run that opened the gate safely, with a unit in hand whose
      report is done: every continuation from the reading of the epochs that
      opens the gate safely is decodable, if and only if this reading is safe
      too. */
  lemma SafetyIsExact(cap: nat, cfg: Config, steps: seq<Step>, s: State)
    requires Run(Start(cap, cfg), steps) == Some(s) && Clean(Start(cap, cfg), steps) && s.pc.Consumed?
    ensures SafeToGate(s) <==> StaysDecodable(Next(s, ReadEpochs))
  {
    StartInv(cap, cfg, false);
    RunInv(Start(cap, cfg), steps, false);
    if SafeToGate(s) {
      SafeStays(s);
    } else {
      UnsafeDoesNot(s);
    }
  }
}
