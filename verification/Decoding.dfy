/** What the receiver gets can be decoded: in every run that opens the gate only
    for keyframes that the port and the queue follow, and in every run whose
    application makes no breaking push. */
module Decoding {
  import opened Options
  import opened WireNumbers
  import opened SourceStream
  import opened VptState
  import opened SendPath

  /** The unit of event f may be sent right after event e: a keyframe always,
      otherwise only after its predecessor in the source, or, by a codec opened
      since, after itself. */
  ghost predicate MayFollow(q: Stream, e: Event, f: Event)
    requires f.u < |q.issued|
  {
    || q.issued[f.u].key
    || (e.Sent? && e.u < |q.issued| &&
        ((e.u == f.u && e.opening < f.opening) || q.issued[f.u].idx == q.issued[e.u].idx + 1))
  }

  /** Everything sent can be decoded: the first unit is a keyframe, and every
      other one that is not comes straight after what it depends on. */
  ghost predicate Decodable(q: Stream, log: seq<Event>) {
    && (forall i :: 0 <= i < |log| ==> log[i].u < |q.issued|)
    && (|log| > 0 && log[0].Sent? ==> q.issued[log[0].u].key)
    && (forall i, j :: 0 <= i && j == i + 1 && j < |log| && log[j].Sent? ==> MayFollow(q, log[i], log[j]))
  }

  /** Once unit a is sent, whatever the encoder takes next can be decoded: the
      unit in the port, if newer, or else what the queue yields. */
  ghost predicate Ahead(s: State, a: nat, steady: bool)
    requires Wf(s) && a < |s.q.issued|
  {
    && Follows(s.q, a, steady)
    && (s.port.Some? && s.port.value > a ==> Link(s.q, a, s.port.value) && Follows(s.q, s.port.value, steady))
  }

  /** The read of the epochs is about to open a closed gate for the keyframe in
      hand. */
  ghost predicate Opening(s: State)
    requires Wf(s)
  {
    s.pc.Consumed? && GateFor(s).verdict.Keyed? && s.ep.keyed != s.ep.src
  }

  /** A keyframe that opens the gate is one that the port and the queue follow. */
  ghost predicate SafeToGate(s: State)
    requires Wf(s)
  {
    Opening(s) ==> Ahead(s, s.pc.u, false)
  }

  /** Every opening of the gate along the steps is safe. */
  ghost predicate Clean(s: State, steps: seq<Step>)
    requires Wf(s)
    decreases |steps|
  {
    steps == [] ||
    ((steps[0].ReadEpochs? ==> SafeToGate(s)) && (Enabled(s, steps[0]) ==> Clean(Next(s, steps[0]), steps[1..])))
  }

  /** Every keyframe that opens the gate is of the epoch it opens: none was
      peeked before a clear and gated after it. */
  ghost predicate NoStaleOpening(s: State, steps: seq<Step>)
    requires Wf(s)
    decreases |steps|
  {
    steps == [] ||
    ((steps[0].ReadEpochs? && Opening(s) ==> s.q.issued[s.pc.u].era == s.ep.src)
     && (Enabled(s, steps[0]) ==> NoStaleOpening(Next(s, steps[0]), steps[1..])))
  }

  /** No push along the steps is a breaking one. */
  ghost predicate Unbroken(s: State, steps: seq<Step>)
    requires Wf(s)
    decreases |steps|
  {
    steps == [] ||
    ((steps[0].PushFrame? ==> !Breaking(s.q, steps[0].key))
     && (Enabled(s, steps[0]) ==> Unbroken(Next(s, steps[0]), steps[1..])))
  }

  // ------------------------------------------------------------------------
  // The invariant, with or without a steady application

  ghost predicate Inv(s: State, steady: bool) {
    Base(s) && QueueInv(s, steady) && Path(s, steady) && Decodable(s.q, s.log)
  }

  ghost predicate Path(s: State, steady: bool)
    requires Wf(s)
  {
    && Chained(s, steady)
    && FreshInHand(s, steady)
    && MaySend(s)
  }

  /** While the gate is open for the current epoch, the last event is the
      sending of the unit taken last, and what lies ahead follows it. */
  ghost predicate Chained(s: State, steady: bool)
    requires Wf(s)
  {
    && (s.ep.keyed == s.ep.src && (s.pc.Idle? || s.pc.Taken? || s.pc.Consumed?) ==>
          && s.log != [] && s.log[|s.log| - 1].Sent?
          && var h := s.log[|s.log| - 1].u;
             && h < |s.q.issued|
             && (s.pc.Idle? ==> s.taken == Some(h) && Ahead(s, h, steady))
             && (!s.pc.Idle? ==> (h == s.pc.u || Link(s.q, h, s.pc.u)) && Ahead(s, s.pc.u, steady)))
    && (s.pc.Sending? && s.ep.keyed == s.ep.src ==> Ahead(s, s.pc.u, steady))
    && (s.pc.Committing? && s.pc.epoch == s.ep.src ==> Ahead(s, s.pc.u, steady))
  }

  /** Units of the current stream are properly followed wherever they are. */
  ghost predicate FreshInHand(s: State, steady: bool)
    requires Wf(s)
  {
    && (s.port.Some? && Current(s.q, s.port.value, s.ep.src, steady) ==> Follows(s.q, s.port.value, steady))
    && ((s.pc.Taken? || s.pc.Consumed?) && Current(s.q, s.pc.u, s.ep.src, steady) ==> Ahead(s, s.pc.u, steady))
  }

  /** A unit past the gate may be the next to be sent. */
  ghost predicate MaySend(s: State)
    requires Wf(s)
  {
    && (s.pc.Sending? ==>
          || s.q.issued[s.pc.u].key
          || (s.log != [] && MayFollow(s.q, s.log[|s.log| - 1], Whole(s))))
  }

  lemma PushPath(s: State, key: bool, data: seq<Byte>, steady: bool)
    requires Wf(s) && Core(s) && Path(s, steady) && QueueInv(s, steady)
    requires Enabled(s, PushFrame(key, data)) && !(steady && Breaking(s.q, key))
    ensures Path(Next(s, PushFrame(key, data)), steady)
  {
    PushKeeps(s.q, s.ep.src, s.cap, key, data, steady);
    QueueChange(s, Next(s, PushFrame(key, data)), steady);
  }

  /** A change of the queue alone keeps the path, if it keeps what was issued
      and what lies ahead. */
  lemma QueueChange(s: State, t: State, steady: bool)
    requires Wf(s) && Core(s) && Path(s, steady) && Wf(t)
    requires t == s.(q := t.q) && s.q.issued <= t.q.issued && s.q.Front() <= t.q.Front()
    requires forall u: nat :: u < |s.q.issued| ==> (Live(t.q, u) <==> Live(s.q, u))
    requires forall a: nat :: a < |s.q.issued| && a <= s.q.Front() && Follows(s.q, a, steady) ==> Follows(t.q, a, steady)
    ensures Path(t, steady)
  {
    forall a: nat | a < |s.q.issued| && a <= s.q.Front() && Ahead(s, a, steady)
      ensures Ahead(t, a, steady)
    {
    }
  }

  /** After a clear the gate is closed. */
  lemma ClearChained(s: State, steady: bool)
    requires Wf(s) && Core(s)
    ensures Chained(Next(s, ClearQueue), steady)
  {
  }

  /** What is in hand is not of the new epoch; if the application is steady, a
      keyframe is due behind it. */
  lemma ClearFresh(s: State, steady: bool)
    requires Wf(s) && Positions(s) && Ordered(s.q, s.ep.src) && FreshInHand(s, steady)
    ensures FreshInHand(Next(s, ClearQueue), steady)
  {
  }

  lemma ClearMaySend(s: State)
    requires Wf(s) && MaySend(s)
    ensures MaySend(Next(s, ClearQueue))
  {
  }

  lemma ClearPath(s: State, steady: bool)
    requires Wf(s) && Core(s) && Path(s, steady) && QueueInv(s, steady)
    ensures Path(Next(s, ClearQueue), steady)
  {
    ClearChained(s, steady);
    ClearFresh(s, steady);
    ClearMaySend(s);
  }

  lemma PeekPath(s: State, steady: bool)
    requires Wf(s) && Core(s) && Path(s, steady)
    requires s.q.Front() < |s.q.issued| ==> Follows(s.q, s.q.Front(), steady)
    ensures Path(Next(s, Peek), steady)
  {
    var t := Next(s, Peek);
    forall a: nat | a < |s.q.issued| && a <= s.q.Front() && Ahead(s, a, steady)
      ensures Ahead(t, a, steady)
    {
    }
  }

  lemma TakePath(s: State, steady: bool)
    requires Wf(s) && Core(s) && Path(s, steady) && Enabled(s, Take)
    ensures Path(Next(s, Take), steady)
  {
  }

  lemma ReportPath(s: State, steady: bool)
    requires Wf(s) && Core(s) && Path(s, steady) && Enabled(s, Report)
    ensures Path(Next(s, Report), steady)
  {
    var t := Next(s, Report);
    assert t.q.issued == s.q.issued;
    forall a: nat | s.pc.u <= a < |s.q.issued| && Follows(s.q, a, steady)
      ensures Follows(t.q, a, steady)
    {
      ConsumeFollows(s.q, s.pc.u, a, steady);
    }
  }

  lemma ReadPath(s: State, steady: bool)
    requires Wf(s) && Core(s) && Path(s, steady) && Enabled(s, ReadEpochs)
    requires Opening(s) ==> Ahead(s, s.pc.u, steady)
    ensures Path(Next(s, ReadEpochs), steady)
  {
  }

  lemma CommitPath(s: State, steady: bool)
    requires Wf(s) && Core(s) && Path(s, steady) && Enabled(s, Commit)
    ensures Path(Next(s, Commit), steady)
  {
  }

  lemma PacketPath(s: State, next: nat, steady: bool)
    requires Wf(s) && Core(s) && Path(s, steady) && Enabled(s, Packet(next))
    ensures Path(Next(s, Packet(next)), steady)
  {
  }

  lemma OpenPath(s: State, single: bool, mtu: nat, steady: bool)
    requires Wf(s) && Core(s) && Path(s, steady) && Enabled(s, Open(single, mtu))
    ensures Path(Next(s, Open(single, mtu)), steady)
  {
  }

  lemma ClosePath(s: State, steady: bool)
    requires Wf(s) && Core(s) && Path(s, steady) && Enabled(s, Close)
    ensures Path(Next(s, Close), steady)
  {
  }

  lemma ReconfigurePath(s: State, step: Step, steady: bool)
    requires Wf(s) && Path(s, steady) && step.Reconfigure?
    ensures Path(Next(s, step), steady)
  {
  }

  lemma FailPath(s: State, steady: bool)
    requires Wf(s) && Core(s) && Path(s, steady) && Enabled(s, Fail)
    ensures Path(Next(s, Fail), steady)
  {
  }

  /** With a steady application, a keyframe may always open the gate. */
  lemma SteadyIsSafe(s: State)
    requires Wf(s) && QueueInv(s, true) && Path(s, true) && Opening(s)
    ensures Ahead(s, s.pc.u, true)
  {
    assert Live(s.q, s.pc.u);
  }

  lemma StepPath(s: State, step: Step, steady: bool)
    requires Inv(s, steady) && Enabled(s, step)
    requires if steady then step.PushFrame? ==> !Breaking(s.q, step.key) else step.ReadEpochs? ==> SafeToGate(s)
    ensures Path(Next(s, step), steady)
  {
    match step
    case PushFrame(key, data) => PushPath(s, key, data, steady);
    case ClearQueue => ClearPath(s, steady);
    case Peek =>
      if s.q.Front() < |s.q.issued| { FrontFollows(s.q, s.ep.src, steady); }
      PeekPath(s, steady);
    case Take => TakePath(s, steady);
    case Report => ReportPath(s, steady);
    case ReadEpochs =>
      if steady && Opening(s) { SteadyIsSafe(s); }
      ReadPath(s, steady);
    case Commit => CommitPath(s, steady);
    case Packet(next) => PacketPath(s, next, steady);
    case Fail => FailPath(s, steady);
    case Open(single, mtu) => OpenPath(s, single, mtu, steady);
    case Close => ClosePath(s, steady);
    case Reconfigure(_, _, _, _, _) => ReconfigurePath(s, step, steady);
  }

  lemma StepQueue(s: State, step: Step, steady: bool)
    requires Wf(s) && QueueInv(s, steady) && Enabled(s, step)
    requires steady && step.PushFrame? ==> !Breaking(s.q, step.key)
    ensures QueueInv(Next(s, step), steady)
  {
    match step
    case PushFrame(key, data) => PushQueue(s, key, data, steady);
    case ClearQueue => ClearedQueue(s, steady);
    case Report => ReportQueue(s, steady);
    case _ =>
  }

  lemma DecodableGrows(q: Stream, r: Stream, log: seq<Event>)
    requires Decodable(q, log) && q.issued <= r.issued
    ensures Decodable(r, log)
  {
  }

  lemma DecodableAppend(q: Stream, log: seq<Event>, e: Event)
    requires Decodable(q, log) && e.u < |q.issued|
    requires e.Sent? ==> q.issued[e.u].key || (log != [] && MayFollow(q, log[|log| - 1], e))
    ensures Decodable(q, log + [e])
  {
  }

  /** What a step appends to the log, and that it revises nothing issued. */
  lemma StepLog(s: State, step: Step)
    requires Wf(s) && Enabled(s, step)
    ensures var t := Next(s, step);
            && s.q.issued <= t.q.issued
            && (t.log == s.log || (step.Commit? && s.pc.Dropping? && t.log == s.log + [Dropped(s.pc.u, s.opens)])
                || (step.Packet? && t.log == s.log + [Whole(s)]))
  {
  }

  lemma StepDecodable(s: State, step: Step)
    requires Wf(s) && Enabled(s, step) && MaySend(s) && Decodable(s.q, s.log)
    ensures Decodable(Next(s, step).q, Next(s, step).log)
  {
    var t := Next(s, step);
    StepLog(s, step);
    DecodableGrows(s.q, t.q, s.log);
    if t.log != s.log {
      DecodableAppend(s.q, s.log, if step.Commit? then Dropped(s.pc.u, s.opens) else Whole(s));
      DecodableGrows(s.q, t.q, t.log);
    }
  }

  lemma StepInv(s: State, step: Step, steady: bool)
    requires Inv(s, steady) && Enabled(s, step)
    requires if steady then step.PushFrame? ==> !Breaking(s.q, step.key) else step.ReadEpochs? ==> SafeToGate(s)
    ensures Inv(Next(s, step), steady)
  {
    StepBase(s, step);
    StepQueue(s, step, steady);
    StepPath(s, step, steady);
    StepDecodable(s, step);
  }

  lemma {:induction false} RunInv(s: State, steps: seq<Step>, steady: bool)
    requires Inv(s, steady) && Run(s, steps).Some?
    requires if steady then Unbroken(s, steps) else Clean(s, steps)
    ensures Inv(Run(s, steps).value, steady)
    decreases |steps|
  {
    if steps == [] {
    } else {
      StepInv(s, steps[0], steady);
      RunInv(Next(s, steps[0]), steps[1..], steady);
    }
  }

  lemma StartInv(cap: nat, cfg: Config, steady: bool)
    ensures Inv(Start(cap, cfg), steady)
  {
    StartBase(cap, cfg);
  }

  /** A keyframe of the epoch it opens is always safe. */
  lemma {:induction false} NoStaleIsClean(s: State, steps: seq<Step>)
    requires Inv(s, false) && Run(s, steps).Some? && NoStaleOpening(s, steps)
    ensures Clean(s, steps)
    decreases |steps|
  {
    if steps == [] {
    } else {
      StepInv(s, steps[0], false);
      NoStaleIsClean(Next(s, steps[0]), steps[1..]);
    }
  }

  // ------------------------------------------------------------------------
  // The results

  /** Whatever the interleaving of pushes, overflows, polls, encoder calls,
      clears, reconfigurations and reopenings: the receiver can decode all it is
      sent, as long as whatever opens the gate is followed by what is ahead. */
  lemma SentIsDecodable(cap: nat, cfg: Config, steps: seq<Step>)
    requires var s := Start(cap, cfg); Run(s, steps).Some? && Clean(s, steps)
    ensures var t := Run(Start(cap, cfg), steps).value; Decodable(t.q, t.log)
  {
    StartInv(cap, cfg, false);
    RunInv(Start(cap, cfg), steps, false);
  }

  /** In particular when no keyframe peeked before a clear is gated after it. */
  lemma SentIsDecodableWithoutStale(cap: nat, cfg: Config, steps: seq<Step>)
    requires var s := Start(cap, cfg); Run(s, steps).Some? && NoStaleOpening(s, steps)
    ensures var t := Run(Start(cap, cfg), steps).value; Decodable(t.q, t.log)
  {
    StartInv(cap, cfg, false);
    NoStaleIsClean(Start(cap, cfg), steps);
    SentIsDecodable(cap, cfg, steps);
  }
}
