/** What each step of the send path does to the whole state, and when. */
module StepEffects {
  import opened Options
  import opened WireNumbers
  import opened SourceStream
  import opened EncoderGate
  import opened VptState
  import opened SendPath
  import AnnexB

  /** Every queued unit up to id u leaves as consumed, no other, and nothing else
      changes. */
  lemma ConsumeExactly(q: Stream, u: nat)
    requires |q.fate| <= |q.issued|
    ensures var t := ConsumeThrough(q, u);
            && t == q.(fate := t.fate) && q.fate <= t.fate
            && |t.fate| == (if u < |q.fate| then |q.fate| else if u < |q.issued| then u + 1 else |q.issued|)
            && (forall w :: |q.fate| <= w < |t.fate| ==> t.fate[w] == Fate.Consumed)
  {
  }

  /** A clear takes everything queued, ends the wait for a keyframe, and the
      epoch. */
  lemma ClearExactly(s: State)
    requires Wf(s)
    ensures var t := Next(s, ClearQueue);
            && t == s.(q := t.q, ep := s.ep.(src := s.ep.src + 1))
            && t.q == s.q.(fate := t.q.fate, needKey := false, due := true)
            && |t.q.fate| == |s.q.issued| && s.q.fate <= t.q.fate
            && forall w :: |s.q.fate| <= w < |t.q.fate| ==> t.q.fate[w] == Cleared
  {
  }

  /** A push takes an id, with the current epoch and capacity, if the policy lets
      the unit in; the source's count goes up either way. */
  lemma PushExactly(s: State, key: bool, data: seq<Byte>)
    requires Wf(s) && Enabled(s, PushFrame(key, data))
    ensures var t, queued := Next(s, PushFrame(key, data)), s.q.Queued();
            var room := |queued| < s.cap || exists i :: 0 < i < |queued| && queued[i].key;
            && t == s.(q := t.q) && t.q.nextIdx == s.q.nextIdx + 1
            && t.q.issued == if key || (!s.q.needKey && room)
                             then s.q.issued + [Frame(s.q.nextIdx, s.ep.src, key, data)]
                             else s.q.issued
  {
    PushPolicy(s.q, s.cap, s.ep.src, key, data);
  }

  /** The port gets the front of the queue if there is one, and the device may
      copy it; else nothing. The queue keeps it. */
  lemma PeekExactly(s: State)
    requires Wf(s)
    ensures var t, queued := Next(s, Peek), s.q.Queued();
            && t == s.(port := t.port)
            && t.port == if queued != [] && |queued[0].data| <= s.cfg.maxFrameSize then Some(|s.q.fate|) else None
  {
  }

  /** A configuration is taken over when it is usable and keeps the frame size and
      the payload type, and the codec's factory could be unregistered; the
      capacity, at least one, only if it could be registered again, too. */
  lemma ReconfigureExactly(s: State, asked: Config, cap: nat, manager: bool, unregistered: bool, registered: bool)
    requires Wf(s)
    ensures var t := Next(s, Reconfigure(asked, cap, manager, unregistered, registered));
            var usable := asked.width > 0 && asked.height > 0 && asked.fps > 0 && asked.pollFps > 0
              && asked.maxFrameSize > 0 && asked.packetizationMode in {0, 1};
            var kept := asked.maxFrameSize == s.cfg.maxFrameSize && asked.pt == s.cfg.pt;
            && t == s.(cfg := t.cfg, cap := t.cap)
            && t.cfg == (if usable && kept && manager && unregistered then asked else s.cfg)
            && t.cap == if !(usable && kept && manager && unregistered && registered) then s.cap
                        else if cap == 0 then 1 else cap
  {
  }

  /** A new unit in the port is taken, and nothing else is. */
  lemma TakeExactly(s: State)
    requires Wf(s) && Enabled(s, Take)
    ensures var t, c := Next(s, Take), s.codec.value;
            if s.port.Some? && s.port != c.last then
              && t.pc == Taken(s.port.value) && t.codec == Some(c.(last := s.port)) && t.taken == s.port
              && t.handled == s.handled + [s.port.value] && t.seen == s.seen + {s.port.value}
              && t == s.(pc := t.pc, codec := t.codec, taken := t.taken, handled := t.handled, seen := t.seen)
            else
              t == s
  {
  }

  /** Exactly what passes the gate, in either mode, when the two memories agree,
      which they do in every run (`RunBase`): a keyframe, or anything while
      `keyed_epoch` equals `source_epoch`, unless in mode 0 a NAL unit of it is
      over the MTU, in which case it is dropped. */
  lemma ReadExactly(s: State)
    requires Wf(s) && GateInv(s) && s.pc.Consumed?
    ensures var t, c, frame, u := Next(s, ReadEpochs), s.codec.value, s.q.issued[s.pc.u], s.pc.u;
            var may := frame.key || s.ep.keyed == s.ep.src;
            var fits := c.single ==> forall b, e :: AnnexB.NalAt(frame.data, b, e) ==> e - b <= c.mtu;
            && t.pc == (if !may then Idle else if !fits then Dropping(u)
                        else if frame.key then Committing(u, s.ep.src) else Sending(u, 0))
            && t.codec == Some(c.(epoch := s.ep.src, sentKey := may && fits))
            && t == s.(codec := t.codec, pc := t.pc)
  {
    var c, frame := s.codec.value, s.q.issued[s.pc.u];
    FitsExactly(frame.data, c.mtu);
    GateExactly(c, s.ep, frame.key, Fits(frame.data, c.mtu));
  }

  /** The locked step after the gate: a drop is logged and withdraws the claim
      that a keyframe went out; a keyframe makes it, for the epoch that was read. */
  lemma CommitExactly(s: State)
    requires Wf(s) && Enabled(s, Commit)
    ensures var t := Next(s, Commit);
            if s.pc.Dropping? then
              t == s.(pc := Idle, ep := Epochs(s.ep.src, 0), log := s.log + [Dropped(s.pc.u, s.opens)])
            else
              t == s.(pc := Sending(s.pc.u, 0), ep := Epochs(s.ep.src, s.pc.epoch))
  {
  }

  /** A packet: the unit counts as sent when its last byte went out, and not
      before. */
  lemma PacketExactly(s: State, next: nat)
    requires Wf(s) && Enabled(s, Packet(next))
    ensures var t, c, size := Next(s, Packet(next)), s.codec.value, |s.q.issued[s.pc.u].data|;
            if next < size then
              t == s.(pc := Sending(s.pc.u, next))
            else
              next == size && t == s.(pc := Idle, log := t.log)
              && t.log == s.log + [Sent(s.pc.u, s.opens, if c.single then Some(c.mtu) else None)]
  {
  }

  /** A failure closes the codec's gate and drops the unit. */
  lemma FailExactly(s: State)
    requires Wf(s) && Enabled(s, Fail)
    ensures var t := Next(s, Fail);
            t == s.(pc := Dropping(s.pc.u), codec := Some(s.codec.value.(sentKey := false)))
  {
  }

  /** A new codec has the mode and the MTU that were negotiated, no handled unit, a
      closed gate and a buffer of the frame size. */
  lemma OpenExactly(s: State, single: bool, mtu: nat)
    requires Wf(s) && Enabled(s, Open(single, mtu))
    ensures var t := Next(s, Open(single, mtu));
            && t.codec.Some? && t.codec.value.single == single && t.codec.value.mtu == mtu
            && t.codec.value.last == None && !t.codec.value.sentKey && t.codec.value.epoch == 0
            && t.opens == s.opens + 1 && t.handled == [] && t.encSize == s.cfg.maxFrameSize
            && t == s.(codec := t.codec, opens := t.opens, handled := t.handled, encSize := t.encSize)
  {
  }
}
