/** The keyframe gate of the encoder in src/video_passthrough.c.

    A codec sends nothing until the remote has a keyframe of the current source
    stream. Whether it has is remembered twice: per codec (`sentKey`, valid for
    `epoch`) and globally (`keyed`, the epoch of the last keyframe sent), which
    a reopened codec inherits. */
module EncoderGate {

  import opened Options

  /** `vpt.source_epoch` and `vpt.keyed_epoch`, counted without wrapping from
      1, with 0 for none. */
  datatype Epochs = Epochs(src: nat, keyed: nat)

  /** The encoder's part of a `vpt_codec`. `last` is the id it handled last;
      `single` is packetization-mode 0. */
  datatype Codec = Codec(last: Option<nat>, sentKey: bool, epoch: nat, single: bool, mtu: nat)

  function Opened(single: bool, mtu: nat): Codec {
    Codec(None, false, 0, single, mtu)
  }

  /** What becomes of an access unit at the gate: held back; dropped, with
      `keyed` about to be reset; passed with `keyed` about to be set to the
      epoch that was read; or passed. */
  datatype Verdict = Held | Oversize | Keyed(epoch: nat) | Passed

  datatype Gated = Gated(codec: Codec, verdict: Verdict)

  /** One pass through the gate, from the reading of the epochs to the next
      locked section. `fits` says that no NAL unit is over the MTU. */
  function Gate(c: Codec, ep: Epochs, key: bool, fits: bool): Gated {
    var c1 := if c.epoch != ep.src then c.(epoch := ep.src, sentKey := ep.keyed == ep.src) else c;
    if !c1.sentKey && !key then Gated(c1, Held)
    else if c.single && !fits then Gated(c1.(sentKey := false), Oversize)
    else Gated(c1.(sentKey := true), if key then Keyed(ep.src) else Passed)
  }

  /** Whether the gate takes the remote to have a keyframe of this epoch: by the
      codec's own memory if that is of this epoch, and else by the shared one. */
  predicate Remembers(c: Codec, ep: Epochs) {
    if c.epoch == ep.src then c.sentKey else ep.keyed == ep.src
  }

  /** Exactly what passes, in either mode: a keyframe, or anything once one of
      this epoch went out, unless in mode 0 a NAL unit of it is too long. The
      codec remembers just whether something passed, and for which epoch. */
  lemma GateExactly(c: Codec, ep: Epochs, key: bool, fits: bool)
    ensures var g, may := Gate(c, ep, key, fits), key || Remembers(c, ep);
            && (g.verdict == Held <==> !may)
            && (g.verdict == Oversize <==> may && c.single && !fits)
            && (g.verdict == Keyed(ep.src) <==> key && (c.single ==> fits))
            && (g.verdict == Passed <==> !key && may && (c.single ==> fits))
            && g.codec.last == c.last && g.codec.single == c.single && g.codec.mtu == c.mtu
            && g.codec.epoch == ep.src && (g.codec.sentKey <==> may && (c.single ==> fits))
  {
  }
}
