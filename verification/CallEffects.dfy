/** What a call of the encoder does and puts out, from the unit in the port and
    the answers of the packetizer, and what a caller gets that asks for more as
    long as it is told that there is more. */
module CallEffects {
  import opened Options
  import opened SourceStream
  import opened EncoderGate
  import opened SendPath
  import opened StepEffects
  import opened VideoCodec
  import AnnexB

  /** No encoder call is under way, and the packetizer's first answer for the
      unit in the port, if there is one, is within it. */
  ghost predicate Ready(s: State, first: Packetized) {
    && Wf(s) && GateInv(s) && Enabled(s, Take)
    && (s.port.Some? ==> 0 < |s.q.issued[s.port.value].data| && Within(first, 0, |s.q.issued[s.port.value].data|))
  }

  /** The port holds a unit that is not the one the codec took last. */
  ghost predicate NewUnit(s: State)
    requires Wf(s) && s.codec.Some?
  {
    s.port.Some? && s.port != s.codec.value.last
  }

  /** A keyframe of the epoch went out, or the unit is one. */
  ghost predicate MayGo(s: State, u: nat)
    requires Wf(s) && u < |s.q.issued|
  {
    s.q.issued[u].key || s.ep.keyed == s.ep.src
  }

  /** In mode 0, no NAL unit of it is over the MTU. */
  ghost predicate Packetizable(s: State, u: nat)
    requires Wf(s) && s.codec.Some? && u < |s.q.issued|
  {
    s.codec.value.single ==>
      forall b, e :: AnnexB.NalAt(s.q.issued[u].data, b, e) ==> e - b <= s.codec.value.mtu
  }

  /** The event of a unit that goes out whole. */
  function SentEvent(s: State, u: nat): Event
    requires s.codec.Some?
  {
    Sent(u, s.opens, if s.codec.value.single then Some(s.codec.value.mtu) else None)
  }

  /** What becomes of unit u between s and t: held back; dropped; or, past the
      gate, on its way after its first packet, or sent if that was the last. */
  ghost predicate Becomes(s: State, u: nat, first: Packetized, t: State)
    requires Wf(s) && s.codec.Some? && u < |s.q.issued|
  {
    if !MayGo(s, u) then
      t.pc == Idle && t.log == s.log && t.ep == s.ep
    else if !Packetizable(s, u) || first.Cannot? then
      t.pc == Idle && t.log == s.log + [Dropped(u, s.opens)] && t.ep == Epochs(s.ep.src, 0)
    else
      && t.ep == (if s.q.issued[u].key then Epochs(s.ep.src, s.ep.src) else s.ep)
      && if first.next < |s.q.issued[u].data| then t.pc == Sending(u, first.next) && t.log == s.log
         else t.pc == Idle && t.log == s.log + [SentEvent(s, u)]
  }

  /** The codec as negotiated, with the unit it took last. */
  predicate SameCodec(c: Codec, before: Codec, last: Option<nat>) {
    c.last == last && c.single == before.single && c.mtu == before.mtu
  }

  /** Up to the report a call takes the new unit in the port and consumes it. */
  lemma ReportedTakes(s: State)
    requires Wf(s) && Enabled(s, Take)
    ensures Reported(s) == if !NewUnit(s) then s else
              s.(q := ConsumeThrough(s.q, s.port.value), pc := Pc.Consumed(s.port.value), taken := s.port,
                 codec := Some(s.codec.value.(last := s.port)),
                 handled := s.handled + [s.port.value], seen := s.seen + {s.port.value})
  {
  }

  /** An answer of the packetizer moves on in the unit, ends it, or drops it. */
  lemma OnwardsExactly(s: State, packet: Packetized)
    requires Wf(s) && s.pc.Sending? && Within(packet, s.pc.pos, |s.q.issued[s.pc.u].data|)
    ensures var t, u := Onwards(s, packet), s.pc.u;
            if packet.Cannot? then
              && t == s.(pc := Idle, ep := Epochs(s.ep.src, 0), codec := t.codec, log := s.log + [Dropped(u, s.opens)])
              && t.codec == Some(s.codec.value.(sentKey := false))
            else if packet.next < |s.q.issued[u].data| then
              t == s.(pc := Sending(u, packet.next))
            else
              t == s.(pc := Idle, log := s.log + [SentEvent(s, u)])
  {
  }

  /** What follows the gate touches the gate's memories and the log alone. */
  lemma ProceedsKeeps(s: State, first: Packetized)
    requires Wf(s) && Past(s) && s.codec.Some? && (!s.pc.Idle? ==> Within(first, 0, |s.q.issued[s.pc.u].data|))
    ensures var t := Proceeds(s, first);
            && t.codec.Some? && SameCodec(t.codec.value, s.codec.value, s.codec.value.last)
            && t == s.(pc := t.pc, ep := t.ep, codec := t.codec, log := t.log)
  {
    match s.pc
    case Committing(_, _) => OnwardsExactly(Next(s, Commit), first);
    case Sending(_, _) => OnwardsExactly(s, first);
    case _ =>
  }

  /** Every call takes and consumes the new unit in the port, if there is one,
      whatever becomes of it then; and nothing else. */
  lemma CallTakes(s: State, first: Packetized)
    requires Ready(s, first)
    ensures var t := CallOf(s, first);
            if NewUnit(s) then
              && t.taken == s.port && t.codec.Some? && SameCodec(t.codec.value, s.codec.value, s.port)
              && t.handled == s.handled + [s.port.value] && t.seen == s.seen + {s.port.value}
              && t.q == ConsumeThrough(s.q, s.port.value)
              && t == s.(q := t.q, pc := t.pc, ep := t.ep, codec := t.codec, taken := t.taken,
                         handled := t.handled, seen := t.seen, log := t.log)
            else
              t == s
  {
    ReportedTakes(s);
    if NewUnit(s) {
      var r := Reported(s);
      GateReads(r);
      GateExactly(r.codec.value, r.ep, r.q.issued[r.pc.u].key, Fits(r.q.issued[r.pc.u].data, r.codec.value.mtu));
      ProceedsKeeps(Next(r, ReadEpochs), first);
    }
  }

  /** Where the gate leaves the unit in hand. */
  lemma ReadPasses(s: State)
    requires Wf(s) && GateInv(s) && s.pc.Consumed?
    ensures var n, u := Next(s, ReadEpochs), s.pc.u;
            && n.pc == (if !MayGo(s, u) then Idle else if !Packetizable(s, u) then Dropping(u)
                        else if s.q.issued[u].key then Committing(u, s.ep.src) else Sending(u, 0))
            && n == s.(pc := n.pc, codec := n.codec)
            && n.codec.Some? && SameCodec(n.codec.value, s.codec.value, s.codec.value.last)
  {
    ReadExactly(s);
  }

  /** From the gate on, with the unit in hand. */
  lemma ProceedsExactly(s: State, first: Packetized)
    requires Wf(s) && GateInv(s) && s.pc.Consumed? && 0 < |s.q.issued[s.pc.u].data|
    requires Within(first, 0, |s.q.issued[s.pc.u].data|)
    ensures Past(Next(s, ReadEpochs))
    ensures var t, u := Proceeds(Next(s, ReadEpochs), first), s.pc.u;
            Becomes(s, u, first, t)
  {
    var n := Next(s, ReadEpochs);
    ReadPasses(s);
    match n.pc
    case Committing(_, _) =>
      CommitExactly(n);
      OnwardsExactly(Next(n, Commit), first);
    case Sending(_, _) => OnwardsExactly(n, first);
    case _ =>
  }

  /** It is held back, dropped or on its way exactly as the gate, the size check
      and the packetizer say. */
  lemma CallSends(s: State, first: Packetized)
    requires Ready(s, first) && NewUnit(s)
    ensures Becomes(s, s.port.value, first, CallOf(s, first))
  {
    ReportedTakes(s);
    ProceedsExactly(Reported(s), first);
  }

  // ------------------------------------------------------------------------
  // What the caller is told

  /** The answer to a request for more: a packet comes out with its size and the
      unit's key flag, and there is more exactly when the unit is still on its
      way; else it is sent. */
  lemma OutputSays(s: State, packet: Packetized, outSize: nat)
    requires Wf(s) && s.pc.Sending? && Within(packet, s.pc.pos, |s.q.issued[s.pc.u].data|)
    ensures var out, t, u := OutputOf(s.q.issued[s.pc.u], packet, outSize), Onwards(s, packet), s.pc.u;
            && (out == Nothing <==> packet.Cannot?)
            && (out == TooShort <==> packet.Made? && packet.size > outSize)
            && (out.Video? ==>
                  && out.size == packet.size && out.key == s.q.issued[u].key
                  && (out.more <==> t.pc.Sending?)
                  && t.log == if out.more then s.log else s.log + [SentEvent(s, u)])
  {
    OnwardsExactly(s, packet);
  }

  /** The answer of a whole call: a packet comes out exactly when a new unit may
      go, fits and could be packetized. */
  lemma CallSays(s: State, first: Packetized, outSize: nat)
    requires Ready(s, first)
    ensures var out, t := OutputOfCall(s, first, outSize), CallOf(s, first);
            if NewUnit(s) && MayGo(s, s.port.value) && Packetizable(s, s.port.value) && first.Made? then
              if first.size > outSize then out == TooShort
              else out == Video(first.size, s.q.issued[s.port.value].key, t.pc.Sending?)
            else
              out == Nothing
  {
    ReportedTakes(s);
    if NewUnit(s) {
      CallSends(s, first);
      ReadPasses(Reported(s));
    }
  }

  /** What a caller gets, and where that leads, that asks again and again as long
      as it is told that there is more. */
  datatype Asked = Asked(outs: seq<Output>, state: State)

  function Ask(s: State, answers: seq<Packetized>, outSize: nat): Asked
    requires Wf(s)
    decreases |answers|
  {
    if answers == [] || !s.pc.Sending? || !Within(answers[0], s.pc.pos, |s.q.issued[s.pc.u].data|) then Asked([], s)
    else
      var out, t := OutputOf(s.q.issued[s.pc.u], answers[0], outSize), Onwards(s, answers[0]);
      if out.Video? && out.more then
        var rest := Ask(t, answers[1..], outSize);
        Asked([out] + rest.outs, rest.state)
      else
        Asked([out], t)
  }

  /** The packets follow each other within a unit from position pos on. */
  ghost predicate InTurn(answers: seq<Packetized>, pos: nat, size: nat, outSize: nat) {
    && (forall i :: 0 <= i < |answers| ==> answers[i].Made? && answers[i].size <= outSize && pos < answers[i].next <= size)
    && (forall i, j :: 0 <= i < j < |answers| ==> answers[i].next < answers[j].next)
  }

  /** The outputs are the packets of a unit, the last alone without `more`. */
  ghost predicate Told(outs: seq<Output>, answers: seq<Packetized>, key: bool, size: nat) {
    && |outs| == |answers|
    && forall i :: 0 <= i < |outs| && answers[i].Made? ==>
         outs[i] == Video(answers[i].size, key, answers[i].next < size)
  }

  /** One request, and what follows if there is more. */
  lemma AskStep(s: State, answers: seq<Packetized>, outSize: nat)
    requires Wf(s) && s.pc.Sending? && answers != []
    requires InTurn(answers, s.pc.pos, |s.q.issued[s.pc.u].data|, outSize)
    ensures var r, u, first := Ask(s, answers, outSize), s.pc.u, answers[0];
            var more := first.next < |s.q.issued[u].data|;
            var t := if more then s.(pc := Sending(u, first.next)) else s.(pc := Idle, log := s.log + [SentEvent(s, u)]);
            var rest := if more then Ask(t, answers[1..], outSize) else Asked([], t);
            && r.outs == [Video(first.size, s.q.issued[u].key, more)] + rest.outs && r.state == rest.state
            && (more ==> InTurn(answers[1..], first.next, |s.q.issued[u].data|, outSize))
  {
    OnwardsExactly(s, answers[0]);
  }

  /** However the packetizer cuts up a unit, asking as long as there is more gets
      every packet, in order, and sends the unit, once, when its end is
      reached, and not before. */
  lemma {:induction false} AskedExactly(s: State, answers: seq<Packetized>, outSize: nat)
    requires Wf(s) && s.pc.Sending? && answers != []
    requires InTurn(answers, s.pc.pos, |s.q.issued[s.pc.u].data|, outSize)
    ensures var r, u, end := Ask(s, answers, outSize), s.pc.u, answers[|answers| - 1].next;
            && Told(r.outs, answers, s.q.issued[u].key, |s.q.issued[u].data|)
            && r.state == if end < |s.q.issued[u].data| then s.(pc := Sending(u, end))
                          else s.(pc := Idle, log := s.log + [SentEvent(s, u)])
    decreases |answers|
  {
    AskStep(s, answers, outSize);
    if |answers| > 1 {
      assert answers[0].next < answers[1].next;
      AskedExactly(s.(pc := Sending(s.pc.u, answers[0].next)), answers[1..], outSize);
    }
  }

  /** After its first packet the unit is on its way, or sent. */
  lemma CallGoes(s: State, first: Packetized)
    requires Ready(s, first) && NewUnit(s) && first.Made?
    requires MayGo(s, s.port.value) && Packetizable(s, s.port.value)
    ensures var t, u := CallOf(s, first), s.port.value;
            && t.q == ConsumeThrough(s.q, u) && t.q.issued == s.q.issued
            && t.codec.Some? && SentEvent(t, u) == SentEvent(s, u)
            && if first.next < |s.q.issued[u].data| then t.pc == Sending(u, first.next) && t.log == s.log
               else t.pc == Idle && t.log == s.log + [SentEvent(s, u)]
  {
    CallTakes(s, first);
    CallSends(s, first);
  }

  /** A call with a new unit that may go and fits, and requests for more as long
      as there is more, send the unit whole. */
  lemma UnitIsSent(s: State, answers: seq<Packetized>, outSize: nat) returns (outs: seq<Output>, t: State)
    requires answers != [] && Ready(s, answers[0]) && NewUnit(s)
    requires MayGo(s, s.port.value) && Packetizable(s, s.port.value)
    requires InTurn(answers, 0, |s.q.issued[s.port.value].data|, outSize)
    requires answers[|answers| - 1].next == |s.q.issued[s.port.value].data|
    ensures var u, rest := s.port.value, Ask(CallOf(s, answers[0]), answers[1..], outSize);
            && outs == [OutputOfCall(s, answers[0], outSize)] + rest.outs && t == rest.state
            && Told(outs, answers, s.q.issued[u].key, |s.q.issued[u].data|)
            && t.pc == Idle && t.log == s.log + [SentEvent(s, u)] && t.q == ConsumeThrough(s.q, u)
  {
    var c := CallOf(s, answers[0]);
    CallGoes(s, answers[0]);
    CallSays(s, answers[0], outSize);
    var rest := Ask(c, answers[1..], outSize);
    outs, t := [OutputOfCall(s, answers[0], outSize)] + rest.outs, rest.state;
    if |answers| > 1 {
      assert answers[0].next < answers[1].next;
      AskedExactly(c, answers[1..], outSize);
    }
  }
}
