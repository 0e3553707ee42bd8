/** The capture device and the encoder of src/video_passthrough.c as they are,
    on 32-bit numbers and byte buffers. What is done under one lock, or between
    two, is proved to be the step of the send path it stands for, in whatever
    state the other threads' steps have led to. */
module VideoCodec {
  import opened Options
  import opened WireNumbers
  import opened SourceStream
  import opened EncoderGate
  import opened SendPath
  import opened SendPathExact
  import opened VptState
  import opened VideoQueue
  import AnnexB

  const AU_MAGIC: U32 := 0x34485541

  /** An AUH4 frame: the header's fields and the bytes after it. */
  class AuFrame {
    var magic: U32
    var seqNo: U32
    var len: nat
    var keyFlag: bool
    const payload: array<Byte>
    ghost var unit: Option<nat>

    /** The frame carries the unit it is tagged with, whole, or none. */
    ghost predicate Holds(q: Stream)
      reads this, payload
    {
      match unit
      case None => magic != AU_MAGIC || len == 0
      case Some(u) => magic == AU_MAGIC && u < |q.issued| && seqNo == Wire(u) && len > 0 && Carries(q.issued[u])
    }

    /** The unit the encoder sees in a frame of the given size, header included:
        none when the frame is cut short. */
    ghost function Seen(size: nat): Option<nat>
      reads this
    {
      if size >= AU_HDR_SIZE + len then unit else None
    }

    /** The bytes and the flag are those of a unit. */
    ghost predicate Carries(frame: Frame)
      reads this, payload
    {
      len <= payload.Length && payload[..len] == frame.data && keyFlag == frame.key
    }

    constructor (frameBytes: nat)
      requires frameBytes >= AU_HDR_SIZE
      ensures unit == None && payload.Length == frameBytes - AU_HDR_SIZE && fresh(payload)
      ensures forall q :: Holds(q)
    {
      magic, seqNo, len, keyFlag := 0, 0, 0, false;
      payload := new Byte[frameBytes - AU_HDR_SIZE](_ => 0);
      unit := None;
    }
  }

  datatype FrameStatus = FrameSuccess | BadFormat

  /** `vd_get_frame` of the capture device, the poll: the frame is filled with the
      front of the queue, within its bounds. */
  method GetFrame(frame: AuFrame, size: nat, queue: PassthroughQueue, vpt: Vpt, ghost s: State)
    returns (status: FrameStatus, ghost t: State)
    requires queue.Valid() && vpt.Valid() && Wf(s) && Sizes(s) && s.q == queue.model
    requires queue.maxFrameSize == s.maxFrame && vpt.cfg == s.cfg && vpt.framebytes == s.frameBytes
    requires s.maxFrame <= MAX_FRAME_SIZE && frame.payload.Length == s.frameBytes - AU_HDR_SIZE
    modifies frame, frame.payload
    ensures size < vpt.framebytes ==> status == BadFormat && t == s && unchanged(frame, frame.payload)
    ensures size >= vpt.framebytes ==>
              status == FrameSuccess && t == Next(s, Peek) && frame.Holds(t.q) && frame.unit == t.port
    ensures status == FrameSuccess ==> frame.magic == AU_MAGIC && (t.port.None? ==> frame.len == 0 && frame.seqNo == 0)
  {
    if size < vpt.framebytes {
      return BadFormat, s;
    }
    var len, key, id := queue.CapturePeek(frame.payload, vpt.cfg.maxFrameSize);
    if len > vpt.cfg.maxFrameSize || id == 0 {
      len := 0;
    }
    frame.magic := AU_MAGIC;
    frame.len := len;
    frame.keyFlag := key;
    frame.seqNo := if len != 0 then id else 0;
    t := Next(s, Peek);
    frame.unit := t.port;
    return FrameSuccess, t;
  }

  /** What `pjmedia_h264_packetize` answers: a packet, after which packetizing
      goes on at `next`, or that it cannot. */
  datatype Packetized = Made(size: nat, next: nat) | Cannot

  /** What the gate decides. */
  datatype Outcome = HeldBack | TooLarge | KeyPassed | OtherPassed

  function OutcomeOf(pc: Pc): Outcome {
    match pc
    case Dropping(_) => TooLarge
    case Committing(_, _) => KeyPassed
    case Sending(_, _) => OtherPassed
    case _ => HeldBack
  }

  /** What an encoder call leaves in `output`. */
  datatype Output = Nothing | TooShort | Video(size: nat, key: bool, more: bool)

  /** Two counts are so close that their 32-bit forms tell them apart. */
  ghost predicate Apart(a: nat, b: nat) {
    a - b < CYCLE && b - a < CYCLE
  }

  class VptCodec {
    const encBuf: array<Byte>
    var encLen: nat
    var encPos: nat
    var encKey: bool
    var encLastSeq: U32
    var encHaveSeq: bool
    var encSentKey: bool
    var encEpoch: U32
    const encSingleNal: bool
    const encMtu: nat
    var oversizeDrops: nat
    ghost var model: Codec

    ghost predicate Valid()
      reads this
    {
      && (encHaveSeq <==> model.last.Some?)
      && (encHaveSeq ==> encLastSeq == Wire(model.last.value))
      && encSentKey == model.sentKey && encEpoch == WireEpoch(model.epoch)
      && encSingleNal == model.single && encMtu == model.mtu
      && encPos <= encLen <= encBuf.Length
    }

    /** This is the codec that is open in a state of the send path, with the unit
        that is past the gate in its buffer, byte for byte. */
    ghost predicate At(s: State)
      requires Wf(s)
      reads this, encBuf
    {
      && Valid() && s.codec == Some(model) && encBuf.Length == s.encSize
      && if s.pc.Committing? || s.pc.Sending? then
           && encPos == (if s.pc.Sending? then s.pc.pos else 0)
           && encBuf[..encLen] == s.q.issued[s.pc.u].data && encKey == s.q.issued[s.pc.u].key
         else
           encPos == encLen
    }

    /** The encoder's part of `vc_open`. */
    constructor (vpt: Vpt, single: bool, mtu: nat, ghost s: State)
      requires vpt.Valid() && Wf(s) && s.codec.None? && vpt.cfg == s.cfg
      ensures At(Next(s, Open(single, mtu))) && fresh(encBuf)
    {
      encBuf := new Byte[vpt.cfg.maxFrameSize](_ => 0);
      encLen, encPos, encKey := 0, 0, false;
      encHaveSeq, encLastSeq := false, 0;
      encSentKey := false;
      encEpoch := 0;
      encSingleNal, encMtu := single, mtu;
      oversizeDrops := 0;
      model := Opened(single, mtu);
    }

    /** `vc_encode_begin` up to the repeat test: whether there is a unit to
        handle. Empty, foreign and short frames, and repeats, are none. */
    method TakeInput(input: AuFrame, inputSize: nat, ghost s: State) returns (taken: bool, ghost t: State)
      requires Wf(s) && At(s) && s.pc.Idle? && input.Holds(s.q) && s.port == input.Seen(inputSize)
      requires model.last.Some? && s.port.Some? ==> Apart(s.port.value, model.last.value)
      modifies this`encLastSeq, this`encHaveSeq, this`model
      ensures t == Next(s, Take) && At(t)
      ensures taken <==> t.pc.Taken?
      ensures taken <==> input.magic == AU_MAGIC && 0 < input.len <= inputSize - AU_HDR_SIZE
                         && !(old(encHaveSeq) && input.seqNo == old(encLastSeq))
      ensures if taken then encHaveSeq && encLastSeq == input.seqNo else unchanged(this)
    {
      t := Next(s, Take);
      if inputSize < AU_HDR_SIZE {
        return false, t;
      }
      if s.port.Some? && model.last.Some? {
        WireInjective(s.port.value, model.last.value);
      }
      if input.magic != AU_MAGIC || input.len == 0 || input.len > inputSize - AU_HDR_SIZE ||
         (encHaveSeq && input.seqNo == encLastSeq)
      {
        return false, t;
      }
      encLastSeq := input.seqNo;
      encHaveSeq := true;
      model := model.(last := s.port);
      return true, t;
    }

    /** The call of `capture_consumed`. */
    method Report(input: AuFrame, queue: PassthroughQueue, ghost s: State) returns (ghost t: State)
      requires Wf(s) && At(s) && s.pc.Taken? && input.Holds(s.q) && input.unit == Some(s.pc.u)
      requires queue.Valid() && queue.model == s.q && InWindow(s.q, s.pc.u)
      modifies queue`frames, queue`model
      ensures t == Next(s, SendPath.Report) && At(t)
      ensures queue.Valid() && queue.model == t.q
    {
      t := Next(s, SendPath.Report);
      queue.CaptureConsumed(input.seqNo, s.pc.u);
    }

    /** From the read of the epochs to the next lock: the gate, the copy, and in
        mode 0 the size check. */
    method PassGate(input: AuFrame, epoch: U32, keyed: bool, ghost s: State) returns (outcome: Outcome, ghost t: State)
      requires Wf(s) && At(s) && s.pc.Consumed? && Sizes(s) && input.Carries(s.q.issued[s.pc.u])
      requires input.payload.Length == encBuf.Length && input.payload != encBuf
      requires epoch == WireEpoch(s.ep.src) && (keyed <==> s.ep.keyed == s.ep.src) && Apart(s.ep.src, model.epoch)
      modifies this, encBuf
      ensures t == Next(s, ReadEpochs) && At(t) && outcome == OutcomeOf(t.pc)
    {
      t := Next(s, ReadEpochs);
      outcome := Decide(input, epoch, keyed, s.ep, s.q.issued[s.pc.u]);
    }

    /** The gate for a unit; whatever passes is in the buffer. */
    method Decide(input: AuFrame, epoch: U32, keyed: bool, ghost ep: Epochs, ghost frame: Frame)
      returns (outcome: Outcome)
      requires Valid() && encPos == encLen && input.Carries(frame)
      requires input.payload.Length == encBuf.Length && input.payload != encBuf
      requires epoch == WireEpoch(ep.src) && (keyed <==> ep.keyed == ep.src) && Apart(ep.src, model.epoch)
      modifies this, encBuf
      ensures Valid()
      ensures var g := Gate(old(model), ep, frame.key, Fits(frame.data, encMtu));
              && model == g.codec
              && outcome == match g.verdict {
                   case Held => HeldBack
                   case Oversize => TooLarge
                   case Keyed(_) => KeyPassed
                   case Passed => OtherPassed
                 }
      ensures if outcome.KeyPassed? || outcome.OtherPassed? then
                encPos == 0 && encBuf[..encLen] == frame.data && encKey == frame.key
              else
                encPos == encLen
    {
      var open := OpenGate(epoch, keyed, input.keyFlag, ep);
      if !open {
        return HeldBack;
      }
      Load(input);
      FitsExactly(frame.data, encMtu);
      var tooLarge := CheckSize();
      if tooLarge {
        return TooLarge;
      }
      return if encKey then KeyPassed else OtherPassed;
    }

    /** The gate itself: the unit may go if a keyframe of this epoch went out, as
        far as is known, or if it is one. */
    method OpenGate(epoch: U32, keyed: bool, key: bool, ghost ep: Epochs) returns (open: bool)
      requires Valid()
      requires epoch == WireEpoch(ep.src) && (keyed <==> ep.keyed == ep.src) && Apart(ep.src, model.epoch)
      modifies this`encEpoch, this`encSentKey, this`encKey, this`model
      ensures Valid() && encKey == key
      ensures open <==> key || if old(model.epoch) == ep.src then old(model.sentKey) else ep.keyed == ep.src
      ensures model == old(model).(epoch := ep.src, sentKey := open)
    {
      WireEpochInjective(ep.src, model.epoch);
      if encEpoch != epoch {
        encEpoch := epoch;
        encSentKey := keyed;
      }
      encKey := key;
      model := model.(epoch := ep.src);
      if !encSentKey && !encKey {
        model := model.(sentKey := false);
        return false;
      }
      encSentKey := true;
      model := model.(sentKey := true);
      return true;
    }

    /** The copy of the unit into the encoder's buffer. */
    method Load(input: AuFrame)
      requires Valid() && input.len <= input.payload.Length == encBuf.Length && input.payload != encBuf
      modifies this`encLen, this`encPos, encBuf
      ensures Valid() && encPos == 0 && encLen == input.len && encBuf[..encLen] == input.payload[..input.len]
    {
      forall i | 0 <= i < input.len {
        encBuf[i] := input.payload[i];
      }
      encLen := input.len;
      encPos := 0;
    }

    /** The size check of mode 0. */
    method CheckSize() returns (tooLarge: bool)
      requires Valid()
      modifies this`encLen, this`encPos, this`encSentKey, this`model
      ensures Valid()
      ensures tooLarge <==> encSingleNal && exists b, e :: AnnexB.NalAt(old(encBuf[..encLen]), b, e) && e - b > encMtu
      ensures tooLarge ==> encLen == 0 && model == old(model).(sentKey := false)
      ensures !tooLarge ==> unchanged(this)
    {
      ghost var unit := encBuf[..encLen];
      FitsExactly(unit, encMtu);
      if encSingleNal {
        var largest := AnnexB.LargestNal(encBuf[..encLen]);
        if largest > encMtu {
          Forget();
          return true;
        }
      }
      return false;
    }

    /** `drop_oversized` up to its lock. */
    method Forget()
      requires Valid()
      modifies this`encLen, this`encPos, this`encSentKey, this`model
      ensures Valid() && encLen == 0 && model == old(model).(sentKey := false)
    {
      encLen, encPos := 0, 0;
      encSentKey := false;
      model := model.(sentKey := false);
    }

    /** `drop_oversized`, from its lock on. */
    method DropOversized(vpt: Vpt, ghost s: State) returns (ghost t: State)
      requires Wf(s) && At(s) && s.pc.Dropping? && vpt.Valid() && vpt.ep == s.ep
      modifies this`oversizeDrops, vpt`keyedEpoch, vpt`ep
      ensures t == Next(s, Commit) && At(t) && vpt.Valid() && vpt.ep == t.ep
      ensures oversizeDrops == old(oversizeDrops) + 1
    {
      t := Next(s, Commit);
      vpt.SetKeyed(0, 0);
      oversizeDrops := oversizeDrops + 1;
    }

    /** The `set_keyed` of a keyframe, with the epoch that was read, even if the
        source restarted since. */
    method CommitKey(vpt: Vpt, epoch: U32, ghost s: State) returns (ghost t: State)
      requires Wf(s) && At(s) && s.pc.Committing? && vpt.Valid() && vpt.ep == s.ep
      requires epoch == WireEpoch(s.pc.epoch) && s.pc.epoch <= s.ep.src
      modifies vpt`keyedEpoch, vpt`ep
      ensures t == Next(s, Commit) && At(t) && vpt.Valid() && vpt.ep == t.ep
    {
      t := Next(s, Commit);
      vpt.SetKeyed(epoch, s.pc.epoch);
    }

    /** `vc_encode_more`: one packet of the unit in the buffer, from where the
        last one ended. When the packetizer cannot, the unit is dropped. */
    method EncodeMore(vpt: Vpt, packet: Packetized, outSize: nat, ghost s: State) returns (out: Output, ghost t: State)
      requires Wf(s) && At(s) && vpt.Valid() && vpt.ep == s.ep
      requires s.pc.Sending? ==> s.pc.pos < |s.q.issued[s.pc.u].data|
      requires s.pc.Sending? && packet.Made? ==> Enabled(s, Packet(packet.next))
      requires !s.pc.Committing?
      modifies this`encPos, this`encLen, this`encSentKey, this`model, this`oversizeDrops, vpt`keyedEpoch, vpt`ep
      ensures !s.pc.Sending? ==> out == Nothing && t == s && unchanged(this) && vpt.ep == old(vpt.ep)
      ensures s.pc.Sending? ==> t == Onwards(s, packet) && out == OutputOf(s.q.issued[s.pc.u], packet, outSize)
      ensures At(t) && vpt.Valid() && vpt.ep == t.ep
    {
      if encPos >= encLen {
        return Nothing, s;
      }
      if packet.Cannot? {
        Forget();
        t := Next(s, Fail);
        t := DropOversized(vpt, t);
        return Nothing, t;
      }
      encPos := packet.next;
      t := Next(s, Packet(packet.next));
      if packet.size > outSize {
        return TooShort, t;
      }
      return Video(packet.size, encKey, encPos < encLen), t;
    }

    /** The part of a call up to the report. */
    method TakeAndReport(input: AuFrame, inputSize: nat, queue: PassthroughQueue, ghost s: State)
      returns (taken: bool, ghost t: State)
      requires Wf(s) && At(s) && s.pc.Idle? && input.Holds(s.q) && s.port == input.Seen(inputSize)
      requires model.last.Some? && s.port.Some? ==> Apart(s.port.value, model.last.value)
      requires queue.Valid() && queue.model == s.q && (s.port.Some? ==> InWindow(s.q, s.port.value))
      modifies this`encLastSeq, this`encHaveSeq, this`model, queue`frames, queue`model
      ensures t == Reported(s) && taken == t.pc.Consumed? && At(t)
      ensures queue.Valid() && queue.model == t.q && model.epoch == old(model).epoch
    {
      taken, t := TakeInput(input, inputSize, s);
      if taken {
        t := Report(input, queue, t);
      }
    }

    /** `vc_encode_begin`, when no other thread comes in between; `first` is the
        packetizer's first answer. */
    method EncodeBegin(input: AuFrame, inputSize: nat, queue: PassthroughQueue, vpt: Vpt, first: Packetized,
                       outSize: nat, ghost s: State)
      returns (out: Output, ghost t: State)
      requires Wf(s) && At(s) && s.pc.Idle? && Sizes(s)
      requires queue.Valid() && queue.model == s.q && vpt.Valid() && vpt.ep == s.ep
      requires input.Holds(s.q) && s.port == input.Seen(inputSize) && CountsApart(s)
      requires input.payload.Length == encBuf.Length && input.payload != encBuf
      requires s.port.Some? ==> Within(first, 0, input.len)
      modifies this, encBuf, queue`frames, queue`model, vpt`keyedEpoch, vpt`ep
      ensures t == CallOf(s, first) && out == OutputOfCall(s, first, outSize)
      ensures At(t) && queue.Valid() && queue.model == t.q && vpt.Valid() && vpt.ep == t.ep
    {
      var taken;
      taken, t := TakeAndReport(input, inputSize, queue, s);
      ReportedUnit(s);
      if !taken {
        return Nothing, t;
      }
      out, t := GateAndStart(input, vpt, first, outSize, t);
    }

    /** The part of a call after the report. */
    method GateAndStart(input: AuFrame, vpt: Vpt, first: Packetized, outSize: nat, ghost s: State)
      returns (out: Output, ghost t: State)
      requires Wf(s) && At(s) && s.pc.Consumed? && Sizes(s) && input.Carries(s.q.issued[s.pc.u])
      requires vpt.Valid() && vpt.ep == s.ep && Apart(s.ep.src, s.ep.keyed) && Apart(s.ep.src, model.epoch)
      requires input.payload.Length == encBuf.Length && input.payload != encBuf
      requires Within(first, 0, input.len)
      modifies this, encBuf, vpt`keyedEpoch, vpt`ep
      ensures t == Proceeds(Next(s, ReadEpochs), first) && out == OutputFrom(Next(s, ReadEpochs), first, outSize)
      ensures At(t) && vpt.Valid() && vpt.ep == t.ep && t.q == s.q
    {
      var epoch, keyed := vpt.ReadEpochs();
      var outcome;
      outcome, t := PassGate(input, epoch, keyed, s);
      GateReads(s);
      out, t := Proceed(outcome, epoch, vpt, first, outSize, t);
    }

    /** From the first lock after the gate on. */
    method Proceed(outcome: Outcome, epoch: U32, vpt: Vpt, first: Packetized, outSize: nat, ghost s: State)
      returns (out: Output, ghost t: State)
      requires Wf(s) && At(s) && Past(s) && outcome == OutcomeOf(s.pc) && vpt.Valid() && vpt.ep == s.ep
      requires s.pc.Committing? ==> epoch == WireEpoch(s.pc.epoch) && s.pc.epoch <= s.ep.src
      requires !s.pc.Idle? ==> Within(first, 0, |s.q.issued[s.pc.u].data|)
      modifies this`encPos, this`encLen, this`encSentKey, this`model, this`oversizeDrops, vpt`keyedEpoch, vpt`ep
      ensures t == Proceeds(s, first) && out == OutputFrom(s, first, outSize)
      ensures At(t) && vpt.Valid() && vpt.ep == t.ep && t.q == s.q
    {
      t := s;
      if outcome.HeldBack? {
        return Nothing, t;
      }
      if outcome.TooLarge? {
        t := DropOversized(vpt, t);
        return Nothing, t;
      }
      if outcome.KeyPassed? {
        t := CommitKey(vpt, epoch, t);
      }
      out, t := EncodeMore(vpt, first, outSize, t);
    }
  }

  // ------------------------------------------------------------------------
  // A call as steps of the send path

  /** The packetizer's answer is within what is left of a unit. */
  predicate Within(packet: Packetized, pos: nat, size: nat) {
    packet.Made? ==> pos < packet.next <= size
  }

  /** What the packetizer's answer for the unit being sent leads to. */
  function Onwards(s: State, packet: Packetized): State
    requires Wf(s) && s.pc.Sending? && Within(packet, s.pc.pos, |s.q.issued[s.pc.u].data|)
  {
    if packet.Made? then Next(s, Packet(packet.next)) else Next(Next(s, Fail), Commit)
  }

  /** And what it puts out. */
  function OutputOf(frame: Frame, packet: Packetized, outSize: nat): Output {
    if packet.Cannot? then Nothing
    else if packet.size > outSize then TooShort
    else Video(packet.size, frame.key, packet.next < |frame.data|)
  }

  /** Just past the gate, one way or the other. */
  predicate Past(s: State)
    requires Wf(s)
  {
    match s.pc
    case Idle => true
    case Dropping(_) => true
    case Committing(u, _) => 0 < |s.q.issued[u].data|
    case Sending(u, pos) => pos == 0 < |s.q.issued[u].data|
    case _ => false
  }

  /** The rest of a call, just past the gate. */
  function Proceeds(s: State, first: Packetized): State
    requires Wf(s) && Past(s) && (!s.pc.Idle? ==> Within(first, 0, |s.q.issued[s.pc.u].data|))
  {
    match s.pc
    case Dropping(_) => Next(s, Commit)
    case Committing(_, _) => Onwards(Next(s, Commit), first)
    case Sending(_, _) => Onwards(s, first)
    case _ => s
  }

  function OutputFrom(s: State, first: Packetized, outSize: nat): Output
    requires Wf(s)
  {
    if s.pc.Committing? || s.pc.Sending? then OutputOf(s.q.issued[s.pc.u], first, outSize) else Nothing
  }

  /** The gate leaves the unit in hand or lets go of it. */
  lemma GateReads(s: State)
    requires Wf(s) && s.pc.Consumed? && 0 < |s.q.issued[s.pc.u].data|
    ensures var t := Next(s, ReadEpochs);
            && Past(t) && t.q == s.q && t.ep == s.ep && (!t.pc.Idle? ==> t.pc.u == s.pc.u)
            && (t.pc.Committing? ==> t.pc.epoch == s.ep.src)
  {
  }

  /** A call up to the report, if there is a unit to take. */
  function Reported(s: State): (t: State)
    requires Wf(s) && Enabled(s, Take)
    ensures Wf(t)
  {
    var t := Next(s, Take);
    if t.pc.Taken? then Next(t, Report) else t
  }

  lemma ReportedUnit(s: State)
    requires Wf(s) && s.codec.Some? && s.pc.Idle?
    ensures var t := Reported(s);
            && (t.pc.Idle? || (t.pc.Consumed? && s.port == Some(t.pc.u)))
            && t.q.issued == s.q.issued && t.ep == s.ep && t.cfg == s.cfg && t.maxFrame == s.maxFrame
            && t.encSize == s.encSize && (Sizes(s) ==> Sizes(t))
  {
  }

  /** A whole call with no other step in between, up to the first packet. */
  function CallOf(s: State, first: Packetized): State
    requires Wf(s) && Enabled(s, Take)
    requires s.port.Some? ==>
               var size := |s.q.issued[s.port.value].data|; 0 < size && Within(first, 0, size)
  {
    var t := Reported(s);
    ReportedUnit(s);
    if t.pc.Idle? then t
    else
      GateReads(t);
      Proceeds(Next(t, ReadEpochs), first)
  }

  function OutputOfCall(s: State, first: Packetized, outSize: nat): Output
    requires Wf(s) && Enabled(s, Take)
  {
    var t := Reported(s);
    if t.pc.Consumed? then OutputFrom(Next(t, ReadEpochs), first, outSize) else Nothing
  }

  /** What the packetizer's answer leads to is one step, or two. */
  lemma OnwardsIsRun(s: State, packet: Packetized) returns (steps: seq<Step>)
    requires Wf(s) && s.pc.Sending? && Within(packet, s.pc.pos, |s.q.issued[s.pc.u].data|)
    ensures Leads(s, steps, Onwards(s, packet), [], false)
  {
    var t := Onwards(s, packet);
    if packet.Made? {
      LeadsCons(s, Packet(packet.next), [], t, [], false);
      steps := [Packet(packet.next)];
    } else {
      LeadsCons(Next(s, Fail), Commit, [], t, [], false);
      LeadsCons(s, Fail, [Commit], t, [], false);
      steps := [Fail] + [Commit];
    }
  }

  lemma ProceedsIsRun(s: State, first: Packetized) returns (steps: seq<Step>)
    requires Wf(s) && Past(s) && (!s.pc.Idle? ==> Within(first, 0, |s.q.issued[s.pc.u].data|))
    ensures Leads(s, steps, Proceeds(s, first), [], false)
  {
    match s.pc
    case Dropping(_) =>
      LeadsCons(s, Commit, [], Proceeds(s, first), [], false);
      steps := [Commit];
    case Committing(_, _) =>
      steps := OnwardsIsRun(Next(s, Commit), first);
      LeadsCons(s, Commit, steps, Proceeds(s, first), [], false);
      steps := [Commit] + steps;
    case Sending(_, _) => steps := OnwardsIsRun(s, first);
    case _ => steps := [];
  }

  /** A call with no other step in between is a run of the send path: it takes
      and reports a new unit, and reads the epochs. */
  lemma CallIsRun(s: State, first: Packetized) returns (steps: seq<Step>)
    requires Wf(s) && Enabled(s, Take)
    requires s.port.Some? ==>
               var size := |s.q.issued[s.port.value].data|; 0 < size && Within(first, 0, size)
    ensures Leads(s, steps, CallOf(s, first), [], false)
    ensures if s.port.Some? && s.port != s.codec.value.last then [Take, SendPath.Report, ReadEpochs] <= steps
            else steps == [Take]
  {
    var t, u := CallOf(s, first), Reported(s);
    ReportedUnit(s);
    if u.pc.Idle? {
      steps := [];
    } else {
      GateReads(u);
      steps := ProceedsIsRun(Next(u, ReadEpochs), first);
      LeadsCons(u, ReadEpochs, steps, t, [], false);
      LeadsCons(Next(s, Take), SendPath.Report, [ReadEpochs] + steps, t, [], false);
      steps := [SendPath.Report] + ([ReadEpochs] + steps);
    }
    LeadsCons(s, Take, steps, t, [], false);
    steps := [Take] + steps;
  }

  /** The counts that a call compares are close enough for their 32-bit forms
      to stand for them. */
  ghost predicate CountsApart(s: State)
    requires s.codec.Some?
  {
    var c := s.codec.value;
    && Apart(s.ep.src, s.ep.keyed) && Apart(s.ep.src, c.epoch)
    && (s.port.Some? ==> InWindow(s.q, s.port.value) && (c.last.Some? ==> Apart(s.port.value, c.last.value)))
  }

  /** In every run they are, as long as fewer than 2^31 ids were given out since
      the unit in the port got its own, fewer than 2^32-1 since the codec's last
      one, and the source restarted less often than that since the epochs that
      are remembered. */
  lemma ApartInRuns(s: State)
    requires Base(s) && s.codec.Some? && s.pc.Idle?
    requires s.port.Some? ==> |s.q.issued| - s.port.value < TWO_31
    requires s.port.Some? && s.codec.value.last.Some? ==> s.port.value - s.codec.value.last.value < CYCLE
    requires s.ep.src - s.ep.keyed < CYCLE && s.ep.src - s.codec.value.epoch < CYCLE
    ensures CountsApart(s)
  {
  }

  lemma {:induction false} IssuedGrows(s: State, steps: seq<Step>)
    requires Wf(s) && Run(s, steps).Some?
    ensures s.q.issued <= Run(s, steps).value.q.issued
    decreases |steps|
  {
    if steps == [] {
    } else {
      var n := Next(s, steps[0]);
      assert s.q.issued <= n.q.issued;
      IssuedGrows(n, steps[1..]);
    }
  }

  /** The encoder sees the unit of a frame that holds one, by its header, unless
      the frame is cut short. */
  lemma SeenExactly(frame: AuFrame, size: nat, q: Stream)
    requires frame.Holds(q)
    ensures frame.Seen(size).Some? <==> frame.magic == AU_MAGIC && 0 < frame.len <= size - AU_HDR_SIZE
    ensures frame.Seen(size).Some? ==>
              var u := frame.Seen(size).value;
              u < |q.issued| && frame.seqNo == Wire(u) && frame.len == |q.issued[u].data|
              && frame.payload[..frame.len] == q.issued[u].data && frame.keyFlag == q.issued[u].key
  {
  }

  lemma HoldsMore(frame: AuFrame, q: Stream, r: Stream)
    requires frame.Holds(q) && q.issued <= r.issued
    ensures frame.Holds(r)
  {
  }

  /** A frame goes on holding its unit whatever any thread does. */
  lemma HoldsOn(frame: AuFrame, s: State, steps: seq<Step>)
    requires Wf(s) && frame.Holds(s.q) && Run(s, steps).Some?
    ensures frame.Holds(Run(s, steps).value.q)
  {
    IssuedGrows(s, steps);
    HoldsMore(frame, s.q, Run(s, steps).value.q);
  }

  /** A codec stays the one that is open whatever the application and the capture
      clock do. */
  lemma AtOn(codec: VptCodec, s: State, step: Step)
    requires Wf(s) && codec.At(s) && Enabled(s, step)
    requires step.PushFrame? || step.ClearQueue? || step.Reconfigure? || step.Peek?
    ensures codec.At(Next(s, step))
  {
  }
}
