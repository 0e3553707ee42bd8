/** The whole send path as a system of atomic steps, with one sending codec open
    at a time: the application pushes, clears and reconfigures, the capture
    clock copies the front of the queue to the port, the bridge clock encodes
    what the port holds, packet by packet, and codecs open and close between
    encoder calls. Each step is what one thread does under one lock, or between
    two. */
module SendPath {
  import opened Options
  import opened WireNumbers
  import opened SourceStream
  import opened EncoderGate
  import opened VptState
  import AnnexB

  /** Where the bridge clock is with a unit: done; past the repeat test; past
      `capture_consumed`; about to reset `keyed`; about to set it; sending
      packets, with `pos` bytes gone. */
  datatype Pc =
    | Idle
    | Taken(u: nat)
    | Consumed(u: nat)
    | Dropping(u: nat)
    | Committing(u: nat, epoch: nat)
    | Sending(u: nat, pos: nat)

  /** What became of a unit the gate let through, and by which codec, counting
      openings: all its packets went out, or it was dropped, for its size or
      half-way. `limit` is the MTU in packetization-mode 0. */
  datatype Event = Sent(u: nat, opening: nat, limit: Option<nat>) | Dropped(u: nat, opening: nat)

  /** `maxFrame` is the size limit of the queue, `cfg` and `frameBytes` what the
      C side has, and `encSize` the length of the open codec's buffer. `port` is
      the unit in the port's frame; `taken` the one taken from it last, by any
      codec, `handled` all that the open codec took, and `seen` all that any
      ever took. */
  datatype State = State(
    q: Stream, cap: nat, maxFrame: nat, cfg: Config, frameBytes: nat, encSize: nat, ep: Epochs, port: Option<nat>,
    codec: Option<Codec>, opens: nat, pc: Pc, taken: Option<nat>, handled: seq<nat>, seen: set<nat>, log: seq<Event>)

  datatype Step =
    | PushFrame(key: bool, data: seq<Byte>)
    | ClearQueue
    | Reconfigure(asked: Config, cap: nat, manager: bool, unregistered: bool, registered: bool)
    | Peek
    | Take
    | Report
    | ReadEpochs
    | Commit
    | Packet(next: nat)
    | Fail
    | Open(single: bool, mtu: nat)
    | Close

  function AtLeastOne(n: nat): nat {
    if n > 1 then n else 1
  }

  /** After `install`. */
  function Start(cap: nat, cfg: Config): State {
    State(EMPTY, AtLeastOne(cap), cfg.maxFrameSize, cfg, FrameBytes(cfg.maxFrameSize), 0, Epochs(1, 0), None,
          None, 0, Idle, None, [], {}, [])
  }

  predicate Fits(data: seq<Byte>, mtu: nat) {
    AnnexB.MaxLen(AnnexB.Split(data)) <= mtu
  }

  /** A unit fits when none of its NAL units is longer than the MTU. */
  lemma FitsExactly(data: seq<Byte>, mtu: nat)
    ensures Fits(data, mtu) <==> forall b, e :: AnnexB.NalAt(data, b, e) ==> e - b <= mtu
  {
    AnnexB.LargestIsExact(data);
  }

  /** Ids in hand are ids that were issued. */
  predicate Wf(s: State) {
    && |s.q.fate| <= |s.q.issued|
    && (s.port.Some? ==> s.port.value < |s.q.issued|)
    && (!s.pc.Idle? ==> s.codec.Some? && s.pc.u < |s.q.issued|)
  }

  /** A push that the size test refuses changes nothing, and is no step. */
  predicate Enabled(s: State, step: Step)
    requires Wf(s)
  {
    match step
    case PushFrame(_, data) => 0 < |data| <= s.maxFrame
    case ClearQueue => true
    case Reconfigure(_, _, _, _, _) => true
    case Peek => true
    case Take => s.codec.Some? && s.pc.Idle?
    case Report => s.pc.Taken?
    case ReadEpochs => s.pc.Consumed?
    case Commit => s.pc.Dropping? || s.pc.Committing?
    case Packet(next) => s.pc.Sending? && s.pc.pos < next <= |s.q.issued[s.pc.u].data|
    case Fail => s.pc.Sending?
    case Open(_, _) => s.codec.None?
    case Close => s.codec.Some? && s.pc.Idle?
  }

  /** The outcome of the gate for the unit in hand. */
  function GateFor(s: State): Gated
    requires Wf(s) && s.pc.Consumed?
  {
    var c, frame := s.codec.value, s.q.issued[s.pc.u];
    Gate(c, s.ep, frame.key, Fits(frame.data, c.mtu))
  }

  function Next(s: State, step: Step): (t: State)
    requires Wf(s) && Enabled(s, step)
    ensures Wf(t)
  {
    match step
    case PushFrame(key, data) => s.(q := Push(s.q, s.cap, s.ep.src, key, data).stream)
    case ClearQueue => s.(q := Clear(s.q), ep := s.ep.(src := s.ep.src + 1))
    case Reconfigure(asked, cap, manager, unregistered, registered) =>
      if !Keeps(s.cfg, Some(asked)) || !manager || !unregistered then s
      else if !registered then s.(cfg := asked)
      else s.(cfg := asked, cap := AtLeastOne(cap))
    case Peek =>
      var front := s.q.Front();
      s.(port := if front < |s.q.issued| && |s.q.issued[front].data| <= s.cfg.maxFrameSize then Some(front) else None)
    case Take =>
      if s.port.None? || s.codec.value.last == s.port then s
      else
        var u := s.port.value;
        s.(codec := Some(s.codec.value.(last := s.port)), pc := Taken(u), taken := s.port,
           handled := s.handled + [u], seen := s.seen + {u})
    case Report => s.(q := ConsumeThrough(s.q, s.pc.u), pc := Pc.Consumed(s.pc.u))
    case ReadEpochs =>
      var g, u := GateFor(s), s.pc.u;
      s.(codec := Some(g.codec),
         pc := match g.verdict
               case Held => Idle
               case Oversize => Dropping(u)
               case Keyed(e) => Committing(u, e)
               case Passed => Sending(u, 0))
    case Commit =>
      if s.pc.Dropping? then
        s.(ep := s.ep.(keyed := 0), pc := Idle, log := s.log + [Dropped(s.pc.u, s.opens)])
      else
        s.(ep := s.ep.(keyed := s.pc.epoch), pc := Sending(s.pc.u, 0))
    case Packet(next) =>
      if next < |s.q.issued[s.pc.u].data| then s.(pc := Sending(s.pc.u, next))
      else
        var c := s.codec.value;
        s.(pc := Idle, log := s.log + [Sent(s.pc.u, s.opens, if c.single then Some(c.mtu) else None)])
    case Fail => s.(codec := Some(s.codec.value.(sentKey := false)), pc := Dropping(s.pc.u))
    case Open(single, mtu) =>
      s.(codec := Some(Opened(single, mtu)), opens := s.opens + 1, handled := [], encSize := s.cfg.maxFrameSize)
    case Close => s.(codec := None)
  }

  /** The state the steps lead to, if each is enabled in its turn. */
  function Run(s: State, steps: seq<Step>): (r: Option<State>)
    requires Wf(s)
    ensures r.Some? ==> Wf(r.value)
    decreases |steps|
  {
    if steps == [] then Some(s)
    else if !Enabled(s, steps[0]) then None
    else Run(Next(s, steps[0]), steps[1..])
  }

  // ------------------------------------------------------------------------
  // What holds in every run

  ghost predicate Base(s: State) {
    && Wf(s)
    && QueueInv(s, false) && s.cap >= 1
    && Core(s)
    && InOrder(s.log)
    && Content(s.q.issued, s.log)
  }

  ghost predicate Core(s: State)
    requires Wf(s)
  {
    && 1 <= s.ep.src && s.ep.keyed <= s.ep.src
    && Positions(s)
    && Accounted(s)
    && Sizes(s)
    && GateInv(s)
    && InHand(s)
    && LastLogged(s)
  }

  /** What is in the port, taken or consumed came off the front in that order. */
  ghost predicate Positions(s: State)
    requires Wf(s)
  {
    && (s.port.Some? ==> s.port.value <= s.q.Front())
    && (s.taken.Some? ==> s.taken.value < |s.q.issued| && s.taken.value <= s.q.Front())
    && (s.taken.Some? && !s.pc.Taken? ==> s.taken.value < s.q.Front())
    && (s.taken.Some? && s.port.Some? ==> s.taken.value <= s.port.value)
    && (!s.pc.Idle? ==> s.taken == s.codec.value.last == Some(s.pc.u))
    && (s.pc.Sending? ==> s.pc.pos < |s.q.issued[s.pc.u].data|)
    && (s.codec.Some? && s.codec.value.last.Some? ==> s.codec.value.last == s.taken)
    && (s.codec.Some? ==> s.codec.value.last == if s.handled == [] then None else Some(s.handled[|s.handled| - 1]))
    && (forall i, j :: 0 <= i < j < |s.handled| ==> s.handled[i] < s.handled[j])
  }

  /** What was consumed was taken by a codec first. */
  ghost predicate Accounted(s: State)
    requires Wf(s)
  {
    && (s.taken.Some? ==> s.taken.value in s.seen)
    && (forall u :: 0 <= u < |s.q.fate| && s.q.fate[u] == Fate.Consumed ==> u in s.seen)
  }

  /** The queue's limit, the port's frame and the codec's buffer are of one size,
      and whatever was pushed is within it. */
  ghost predicate Sizes(s: State) {
    && s.cfg.maxFrameSize == s.maxFrame && s.frameBytes == FrameBytes(s.cfg.maxFrameSize)
    && (s.codec.Some? ==> s.encSize == s.maxFrame)
    && Sized(s.q, s.maxFrame)
  }

  /** The codec's own memory of the current epoch agrees with the shared one. */
  ghost predicate GateInv(s: State) {
    s.codec.Some? ==>
      var c := s.codec.value;
      && c.epoch <= s.ep.src
      && (!s.pc.Committing? && !s.pc.Dropping? && c.epoch == s.ep.src ==> (c.sentKey <==> s.ep.keyed == s.ep.src))
      && (s.pc.Committing? ==> c.sentKey && c.epoch == s.pc.epoch && 1 <= s.pc.epoch)
      && (s.pc.Dropping? ==> !c.sentKey)
      && (s.pc.Sending? ==> c.sentKey)
  }

  /** What is past the gate fits, and is a keyframe where one is needed. */
  ghost predicate InHand(s: State)
    requires Wf(s)
  {
    && ((s.pc.Committing? || s.pc.Sending?) && s.codec.value.single ==>
          Fits(s.q.issued[s.pc.u].data, s.codec.value.mtu))
    && (s.pc.Committing? ==> s.q.issued[s.pc.u].key)
    && (Fresh(s.log) && s.pc.Sending? ==> s.q.issued[s.pc.u].key)
    && (Fresh(s.log) && !s.pc.Sending? && !s.pc.Dropping? ==> s.ep.keyed == 0)
  }

  /** Nothing was sent yet, or the last unit let through was dropped. */
  ghost predicate Fresh(log: seq<Event>) {
    log == [] || log[|log| - 1].Dropped?
  }

  /** The unit in hand is newer than what the open codec let through last. */
  ghost predicate LastLogged(s: State)
    requires Wf(s)
  {
    s.log != [] ==>
      var last := s.log[|s.log| - 1];
      && last.opening <= s.opens && s.taken.Some? && last.u <= s.taken.value
      && (s.codec.Some? && last.opening == s.opens ==>
            s.codec.value.last.Some? && last.u <= s.codec.value.last.value && (!s.pc.Idle? ==> last.u < s.pc.u))
  }

  /** Units leave the gate in order, and no codec lets one through twice. */
  ghost predicate InOrder(log: seq<Event>) {
    forall i, j :: 0 <= i < j < |log| ==>
      && log[i].opening <= log[j].opening && log[i].u <= log[j].u
      && (log[i].opening == log[j].opening ==> log[i].u < log[j].u)
  }

  /** What is sent first, or after a drop, is a keyframe, and in mode 0 no NAL
      unit that was sent is over the MTU. */
  ghost predicate Content(issued: seq<Frame>, log: seq<Event>) {
    && (log != [] && log[0].Sent? ==> log[0].u < |issued| && issued[log[0].u].key)
    && (forall i, j :: 0 <= i && j == i + 1 && j < |log| && log[i].Dropped? && log[j].Sent? ==>
          log[j].u < |issued| && issued[log[j].u].key)
    && AllFit(issued, log)
  }

  ghost predicate AllFit(issued: seq<Frame>, log: seq<Event>) {
    forall i :: 0 <= i < |log| && log[i].Sent? && log[i].limit.Some? ==>
      log[i].u < |issued| && Fits(issued[log[i].u].data, log[i].limit.value)
  }

  lemma InOrderAppend(log: seq<Event>, e: Event)
    requires InOrder(log)
    requires log != [] ==>
               var last := log[|log| - 1];
               last.opening <= e.opening && last.u <= e.u && (last.opening == e.opening ==> last.u < e.u)
    ensures InOrder(log + [e])
  {
  }

  lemma ContentAppend(issued: seq<Frame>, log: seq<Event>, e: Event)
    requires Content(issued, log)
    requires e.Sent? ==>
               && e.u < |issued| && (Fresh(log) ==> issued[e.u].key)
               && (e.limit.Some? ==> Fits(issued[e.u].data, e.limit.value))
    ensures Content(issued, log + [e])
  {
  }

  lemma ContentGrows(issued: seq<Frame>, more: seq<Frame>, log: seq<Event>)
    requires Content(issued, log) && issued <= more
    ensures Content(more, log)
  {
  }

  /** A change of the queue alone, with nothing consumed. */
  lemma QueueCore(s: State, t: State)
    requires Wf(s) && Core(s) && Wf(t)
    requires t == s.(q := t.q) && s.q.issued <= t.q.issued && s.q.fate <= t.q.fate
    requires forall u :: |s.q.fate| <= u < |t.q.fate| ==> t.q.fate[u] == Overflowed
    requires Sized(t.q, s.maxFrame)
    ensures Core(t)
  {
  }

  lemma PushCore(s: State, key: bool, data: seq<Byte>)
    requires Wf(s) && Core(s) && Enabled(s, PushFrame(key, data))
    ensures Core(Next(s, PushFrame(key, data)))
    ensures s.q.issued <= Next(s, PushFrame(key, data)).q.issued
  {
    PushExtends(s.q, s.cap, s.ep.src, key, data);
    PushSized(s.q, s.cap, s.ep.src, key, data, s.maxFrame);
    QueueCore(s, Next(s, PushFrame(key, data)));
  }

  lemma ReportCore(s: State)
    requires Wf(s) && Core(s) && Enabled(s, Report)
    ensures Core(Next(s, Report))
    ensures Next(s, Report).q == if s.q.Front() == s.pc.u then s.q.Leave(1, Fate.Consumed) else s.q
  {
  }

  lemma ClearCore(s: State)
    requires Wf(s) && Core(s)
    ensures Core(Next(s, ClearQueue))
  {
  }

  ghost predicate QueueInv(s: State, steady: bool) {
    SourceStream.Inv(s.q, s.ep.src, steady)
  }

  lemma PushQueue(s: State, key: bool, data: seq<Byte>, steady: bool)
    requires Wf(s) && QueueInv(s, steady) && Enabled(s, PushFrame(key, data)) && !(steady && Breaking(s.q, key))
    ensures QueueInv(Next(s, PushFrame(key, data)), steady)
  {
    PushInv(s.q, s.ep.src, s.cap, key, data, steady);
  }

  lemma ReportQueue(s: State, steady: bool)
    requires Wf(s) && QueueInv(s, steady) && Enabled(s, Report)
    ensures QueueInv(Next(s, Report), steady)
  {
    ConsumeInv(s.q, s.ep.src, s.pc.u, steady);
  }

  lemma ClearedQueue(s: State, steady: bool)
    requires Wf(s) && QueueInv(s, steady)
    ensures QueueInv(Next(s, ClearQueue), steady)
  {
    ClearInv(s.q, s.ep.src, steady);
  }

  /** What the other steps leave alone. */
  ghost predicate SameQueue(s: State, t: State) {
    t.q == s.q && t.ep.src == s.ep.src && (s.cap >= 1 ==> t.cap >= 1)
  }

  lemma PeekCore(s: State)
    requires Wf(s) && Core(s)
    ensures Core(Next(s, Peek)) && SameQueue(s, Next(s, Peek)) && Next(s, Peek).log == s.log
  {
  }

  lemma TakeCore(s: State)
    requires Wf(s) && Core(s) && Enabled(s, Take)
    ensures Core(Next(s, Take)) && SameQueue(s, Next(s, Take)) && Next(s, Take).log == s.log
  {
  }

  /** A configuration with the same frame size, and any capacity. */
  lemma ConfigCore(s: State, cfg: Config, cap: nat)
    requires Wf(s) && Core(s) && cfg.maxFrameSize == s.cfg.maxFrameSize
    ensures Core(s.(cfg := cfg, cap := cap))
  {
  }

  lemma ReconfigureCore(s: State, step: Step)
    requires Wf(s) && Core(s) && step.Reconfigure?
    ensures Core(Next(s, step)) && SameQueue(s, Next(s, step)) && Next(s, step).log == s.log
  {
    var t := Next(s, step);
    ConfigCore(s, t.cfg, t.cap);
  }

  lemma ReadCore(s: State)
    requires Wf(s) && Core(s) && Enabled(s, ReadEpochs)
    ensures Core(Next(s, ReadEpochs)) && SameQueue(s, Next(s, ReadEpochs)) && Next(s, ReadEpochs).log == s.log
  {
  }

  lemma LifecycleCore(s: State, step: Step)
    requires Wf(s) && Core(s) && Enabled(s, step) && (step.Open? || step.Close? || step.Fail?)
    ensures Core(Next(s, step)) && SameQueue(s, Next(s, step)) && Next(s, step).log == s.log
  {
  }

  lemma CommitCore(s: State)
    requires Wf(s) && Core(s) && Enabled(s, Commit) && InOrder(s.log) && Content(s.q.issued, s.log)
    ensures var t := Next(s, Commit);
            Core(t) && SameQueue(s, t) && InOrder(t.log) && Content(t.q.issued, t.log)
  {
    var e := Dropped(s.pc.u, s.opens);
    InOrderAppend(s.log, e);
    ContentAppend(s.q.issued, s.log, e);
  }

  /** The event of the last packet of a unit. */
  function Whole(s: State): Event
    requires Wf(s) && s.pc.Sending?
  {
    var c := s.codec.value; Sent(s.pc.u, s.opens, if c.single then Some(c.mtu) else None)
  }

  lemma PacketCore(s: State, next: nat)
    requires Wf(s) && Core(s) && Enabled(s, Packet(next))
    ensures var t := Next(s, Packet(next));
            Core(t) && SameQueue(s, t) && (t.log == s.log || t.log == s.log + [Whole(s)])
  {
  }

  lemma PacketTrail(s: State)
    requires Wf(s) && Core(s) && s.pc.Sending? && InOrder(s.log) && Content(s.q.issued, s.log)
    ensures InOrder(s.log + [Whole(s)]) && Content(s.q.issued, s.log + [Whole(s)])
  {
    InOrderAppend(s.log, Whole(s));
    ContentAppend(s.q.issued, s.log, Whole(s));
  }

  lemma StepBase(s: State, step: Step)
    requires Base(s) && Enabled(s, step)
    ensures Base(Next(s, step))
  {
    match step
    case PushFrame(key, data) =>
      PushCore(s, key, data);
      PushQueue(s, key, data, false);
      ContentGrows(s.q.issued, Next(s, step).q.issued, s.log);
    case Report =>
      ReportCore(s);
      ReportQueue(s, false);
    case ClearQueue =>
      ClearCore(s);
      ClearedQueue(s, false);
    case Peek => PeekCore(s);
    case Take => TakeCore(s);
    case Reconfigure(_, _, _, _, _) => ReconfigureCore(s, step);
    case ReadEpochs => ReadCore(s);
    case Commit => CommitCore(s);
    case Packet(next) =>
      PacketCore(s, next);
      PacketTrail(s);
    case Open(_, _) | Close | Fail => LifecycleCore(s, step);
  }

  lemma {:induction false} RunBase(s: State, steps: seq<Step>)
    requires Base(s) && Run(s, steps).Some?
    ensures Base(Run(s, steps).value)
    decreases |steps|
  {
    if steps == [] {
    } else {
      StepBase(s, steps[0]);
      RunBase(Next(s, steps[0]), steps[1..]);
    }
  }

  lemma StartBase(cap: nat, cfg: Config)
    ensures Base(Start(cap, cfg))
  {
  }

  /** Any state that some run from `install` leads to. */
  ghost predicate Reached(s: State) {
    exists cap, cfg, steps :: Run(Start(cap, cfg), steps) == Some(s)
  }

  lemma ReachedBase(s: State)
    requires Reached(s)
    ensures Base(s)
  {
    var cap, cfg, steps :| Run(Start(cap, cfg), steps) == Some(s);
    StartBase(cap, cfg);
    RunBase(Start(cap, cfg), steps);
  }

  // ------------------------------------------------------------------------
  // Results about every run

  /** The first unit sent, and the first one sent after a unit is dropped, for
      its size or half-way, is a keyframe. */
  lemma KeyframeFirstAndAfterDrop(s: State, i: nat)
    requires Reached(s) && i < |s.log| && s.log[i].Sent? && (i == 0 || s.log[i - 1].Dropped?)
    ensures s.log[i].u < |s.q.issued| && s.q.issued[s.log[i].u].key
  {
    ReachedBase(s);
    if i > 0 { assert s.log[i - 1].Dropped?; }
  }

  /** Units are sent in order, and never twice by one codec: it takes only newer
      ones than it had. */
  lemma SentInOrderAndOnce(s: State, i: nat, j: nat)
    requires Reached(s) && i < j < |s.log|
    ensures s.log[i].u <= s.log[j].u
    ensures s.log[i].opening == s.log[j].opening ==> s.log[i].u < s.log[j].u
  {
    ReachedBase(s);
  }

  /** Between encoder calls, and while packets go out, a codec that has seen the
      current epoch thinks a keyframe went out exactly when
      `keyed_epoch == source_epoch`. */
  lemma GateAgrees(s: State)
    requires Reached(s) && s.codec.Some? && s.codec.value.epoch == s.ep.src && !s.pc.Committing? && !s.pc.Dropping?
    ensures s.codec.value.sentKey <==> s.ep.keyed == s.ep.src
  {
    ReachedBase(s);
  }

  /** A unit leaves the queue as consumed only after a codec took it, and what
      one codec takes is in strictly increasing order. */
  lemma ConsumedWasTaken(s: State)
    requires Reached(s)
    ensures forall u :: 0 <= u < |s.q.fate| && s.q.fate[u] == Fate.Consumed ==> u in s.seen
    ensures forall i, j :: 0 <= i < j < |s.handled| ==> s.handled[i] < s.handled[j]
  {
    ReachedBase(s);
  }

  /** In mode 0, not even the first packet goes out of a unit with a NAL unit
      over the MTU. */
  lemma WholeOrNotAtAll(s: State)
    requires Reached(s) && s.pc.Sending? && s.codec.value.single
    ensures forall b, e :: AnnexB.NalAt(s.q.issued[s.pc.u].data, b, e) ==> e - b <= s.codec.value.mtu
  {
    ReachedBase(s);
    FitsExactly(s.q.issued[s.pc.u].data, s.codec.value.mtu);
  }

  /** And no NAL unit that was sent in mode 0 was over the MTU of its codec. */
  lemma SentFits(s: State, i: nat)
    requires Reached(s) && i < |s.log| && s.log[i].Sent? && s.log[i].limit.Some?
    ensures s.log[i].u < |s.q.issued|
    ensures forall b, e :: AnnexB.NalAt(s.q.issued[s.log[i].u].data, b, e) ==> e - b <= s.log[i].limit.value
  {
    ReachedBase(s);
    FitsExactly(s.q.issued[s.log[i].u].data, s.log[i].limit.value);
  }

  /** Whatever configurations are asked for: the queue's limit, what the device
      may copy to the port's frame and the codec's buffer stay equal, and every
      unit is within them. The frame has room for that, too, exactly when its
      length with the header does not wrap. */
  lemma SizesAgree(s: State)
    requires Reached(s)
    ensures s.maxFrame == s.cfg.maxFrameSize
    ensures s.frameBytes == AU_HDR_SIZE + s.maxFrame <==> s.maxFrame <= MAX_FRAME_SIZE
    ensures s.codec.Some? ==> s.encSize == s.maxFrame
    ensures forall u :: 0 <= u < |s.q.issued| ==> 0 < |s.q.issued[u].data| <= s.maxFrame
  {
    ReachedBase(s);
    FrameBytesRoom(s.cfg.maxFrameSize);
  }

  /** A report takes the unit in hand off the queue, if it is still there, and
      never another one. */
  lemma ReportTakesOnlyTheHandled(s: State)
    requires Reached(s) && s.pc.Taken?
    ensures Next(s, Report).q == if s.q.Front() == s.pc.u then s.q.Leave(1, Fate.Consumed) else s.q
  {
    ReachedBase(s);
    ReportCore(s);
  }
}
