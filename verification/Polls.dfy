/** What the capture clock sees of the queue: `capture_peek` is documented to
    keep returning the same unit until it is consumed, and this is exactly when
    it does. */
module Polls {
  import opened Options
  import opened SourceStream
  import opened VptState
  import opened SendPath

  /** The step takes the front off the queue: a clear, the report of that unit,
      or a push that meets a full queue. */
  predicate Disturbs(s: State, step: Step)
    requires Wf(s) && Enabled(s, step)
  {
    match step
    case ClearQueue => true
    case Report => s.pc.u == s.q.Front()
    case PushFrame(_, _) => |s.q.Queued()| >= s.cap
    case _ => false
  }

  /** No step disturbs the queue's front, in the state it is taken in. */
  ghost predicate Undisturbed(s: State, steps: seq<Step>)
    requires Wf(s) && Run(s, steps).Some?
    decreases |steps|
  {
    steps == [] || (!Disturbs(s, steps[0]) && Undisturbed(Next(s, steps[0]), steps[1..]))
  }

  lemma FrontPush(s: State, push: Step)
    requires Wf(s) && QueueInv(s, false) && push.PushFrame? && Enabled(s, push)
    ensures var t := Next(s, push);
            && s.q.issued <= t.q.issued && s.q.Front() <= t.q.Front()
            && (s.q.Queued() != [] ==> (t.q.Front() == s.q.Front() <==> |s.q.Queued()| < s.cap))
  {
    PushPolicy(s.q, s.cap, s.ep.src, push.key, push.data);
  }

  lemma FrontStep(s: State, step: Step)
    requires Wf(s) && Positions(s) && QueueInv(s, false) && Enabled(s, step)
    ensures var t := Next(s, step);
            && s.q.issued <= t.q.issued && s.q.Front() <= t.q.Front()
            && (s.q.Queued() != [] ==> (t.q.Front() == s.q.Front() <==> !Disturbs(s, step)))
  {
    if step.PushFrame? { FrontPush(s, step); }
  }

  lemma {:induction false} FrontRun(s: State, steps: seq<Step>)
    requires Base(s) && Run(s, steps).Some?
    ensures var t := Run(s, steps).value;
            && s.q.issued <= t.q.issued && s.q.Front() <= t.q.Front()
            && (s.q.Queued() != [] ==> (t.q.Front() == s.q.Front() <==> Undisturbed(s, steps)))
            && Sizes(t) && |t.q.fate| <= |t.q.issued|
    decreases |steps|
  {
    if steps == [] {
    } else {
      FrontStep(s, steps[0]);
      StepBase(s, steps[0]);
      FrontRun(Next(s, steps[0]), steps[1..]);
    }
  }

  /** A queue that is not empty always yields its front: no unit can be too large
      for the frame and block it. */
  lemma FrontIsYielded(s: State)
    requires Wf(s) && Sizes(s)
    ensures Next(s, Peek).port == if s.q.Queued() == [] then None else Some(s.q.Front())
  {
  }

  /** The second of two polls, with some steps in between. */
  ghost predicate PollsCompare(first: State, steps: seq<Step>, second: State)
    requires Wf(first) && Run(first, steps).Some?
  {
    && first.q.issued <= second.q.issued
    && (first.port.Some? && second.port.Some? ==> first.port.value <= second.port.value)
    && (first.port.Some? ==> (second.port == first.port <==> Undisturbed(first, steps)))
  }

  lemma PollsFrom(s: State, steps: seq<Step>)
    requires Base(s) && Run(Next(s, Peek), steps).Some?
    ensures PollsCompare(Next(s, Peek), steps, Next(Run(Next(s, Peek), steps).value, Peek))
  {
    StepBase(s, Peek);
    FrontRun(Next(s, Peek), steps);
    PollsAt(s, steps);
  }

  /** By what happened to the front. */
  lemma PollsAt(s: State, steps: seq<Step>)
    requires Wf(s) && Sizes(s) && Run(Next(s, Peek), steps).Some?
    requires var first, t := Next(s, Peek), Run(Next(s, Peek), steps).value;
             && first.q.issued <= t.q.issued && first.q.Front() <= t.q.Front() && Sizes(t)
             && (first.q.Queued() != [] ==> (t.q.Front() == first.q.Front() <==> Undisturbed(first, steps)))
    ensures PollsCompare(Next(s, Peek), steps, Next(Run(Next(s, Peek), steps).value, Peek))
  {
    FrontIsYielded(s);
    FrontIsYielded(Run(Next(s, Peek), steps).value);
  }

  /** Whatever happens before and between two polls: the second never yields an
      older unit than the first, and it yields the same one, whose bytes are what
      they were, if and only if no clear came in between, no report of that unit,
      and no push that met a full queue. */
  lemma SamePollExactly(cap: nat, cfg: Config, before: seq<Step>, between: seq<Step>)
    requires Run(Start(cap, cfg), before).Some?
    requires Run(Next(Run(Start(cap, cfg), before).value, Peek), between).Some?
    ensures var first := Next(Run(Start(cap, cfg), before).value, Peek);
            PollsCompare(first, between, Next(Run(first, between).value, Peek))
  {
    StartBase(cap, cfg);
    RunBase(Start(cap, cfg), before);
    PollsFrom(Run(Start(cap, cfg), before).value, between);
  }

  /** The documented contract does fail: with room for one unit, a second
      keyframe takes the place of the first, which no encoder ever took. */
  lemma PollMovesOn(cfg: Config)
    requires cfg.maxFrameSize >= 1
    ensures var r := Run(Start(1, cfg), [PushFrame(true, [1]), Peek, PushFrame(true, [2])]);
            r.Some? && r.value.port == Some(0) && Next(r.value, Peek).port == Some(1) && r.value.seen == {}
  {
    var steps := [PushFrame(true, [1]), Peek, PushFrame(true, [2])];
    var s0 := Start(1, cfg);
    var s1 := Next(s0, steps[0]);
    var s2 := Next(s1, steps[1]);
    var s3 := Next(s2, steps[2]);
    assert s3.port == Some(0) && s3.q.Front() == 1;
    assert steps[1..][1..] == steps[2..] && steps[2..][1..] == [] && steps[1..][0] == Peek && steps[2..][0] == steps[2];
    assert Run(s3, []) == Some(s3);
    assert Run(s2, steps[2..]) == Some(s3);
    assert Run(s1, steps[1..]) == Some(s3);
  }
}
