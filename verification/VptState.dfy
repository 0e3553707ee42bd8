/** The state src/video_passthrough.c shares between codecs, devices and the
    application: `static struct vpt_state vpt`. Each method is what is done
    under `vpt.lock`, or before anything else can run. */
module VptState {
  import opened Options
  import opened WireNumbers
  import opened EncoderGate

  /** sizeof(au_hdr). */
  const AU_HDR_SIZE: nat := 16

  datatype Config = Config(
    width: U32, height: U32, fps: U32, pollFps: U32, maxFrameSize: U32,
    avgBps: U32, maxBps: U32, pt: U32, packetizationMode: U32)
  {
    /** `cfg_valid`. */
    predicate Ok() {
      width != 0 && height != 0 && fps != 0 && pollFps != 0 && maxFrameSize != 0 && packetizationMode <= 1
    }
  }

  /** The status of a call: PJ_SUCCESS, PJ_EINVALIDOP, PJ_EINVAL, PJ_ENOMEM, or
      the status of a call of PJSIP's that failed. */
  datatype Status = Success | InvalidOp | Invalid | NoMemory | PjFailed(call: PjCall)

  /** PJSIP's calls that can fail, in the order they are made. */
  datatype PjCall = CreateMutex | RegisterFormat | RegisterMatch | RegisterCodec | RegisterDevices | LookUpDevices
                  | UnregisterCodec

  /** The 32-bit form of an epoch: 0 for none. */
  function WireEpoch(epoch: nat): (w: U32)
    ensures w == 0 <==> epoch == 0
  {
    if epoch == 0 then 0 else Wire(epoch - 1)
  }

  /** Epochs fewer restarts apart than the cycle are told apart. */
  lemma WireEpochInjective(a: nat, b: nat)
    requires a - b < CYCLE && b - a < CYCLE
    ensures WireEpoch(a) == WireEpoch(b) <==> a == b
  {
    if a >= 1 && b >= 1 { WireInjective(a - 1, b - 1); }
  }

  /** A usable configuration that keeps what may not change. */
  predicate Keeps(cfg: Config, asked: Option<Config>) {
    asked.Some? && asked.value.Ok() && asked.value.maxFrameSize == cfg.maxFrameSize && asked.value.pt == cfg.pt
  }

  /** The largest frame that leaves room for the header in 32 bits. */
  const MAX_FRAME_SIZE: nat := TWO_32 - 1 - AU_HDR_SIZE

  /** The length of a frame with its header, in 32 bits. */
  function FrameBytes(maxFrameSize: U32): U32 {
    (AU_HDR_SIZE + maxFrameSize) % TWO_32
  }

  lemma FrameBytesRoom(maxFrameSize: U32)
    ensures FrameBytes(maxFrameSize) == AU_HDR_SIZE + maxFrameSize <==> maxFrameSize <= MAX_FRAME_SIZE
  {
  }

  class Vpt {
    var inited: bool
    var hasPool: bool
    var hasLock: bool
    var cfg: Config
    var framebytes: U32
    var sourceEpoch: U32
    var keyedEpoch: U32
    ghost var ep: Epochs

    /** Between a successful init and the destruction of the devices. */
    ghost predicate Valid()
      reads this
    {
      && inited && hasPool && hasLock && cfg.Ok() && framebytes == FrameBytes(cfg.maxFrameSize)
      && 1 <= ep.src && ep.keyed <= ep.src
      && sourceEpoch == WireEpoch(ep.src) && keyedEpoch == WireEpoch(ep.keyed)
    }

    /** At any time: nothing is held outside that. */
    ghost predicate Sound()
      reads this
    {
      if inited then Valid() else !hasPool && !hasLock
    }

    constructor ()
      ensures !inited && Sound()
    {
      inited, hasPool, hasLock := false, false, false;
    }

    /** `pjrs_vpt_init`, as far as it sets this state; `pool` says whether there
        was memory, and `failed` which of PJSIP's calls fails first. After a
        failure nothing is held. */
    method Init(asked: Option<Config>, manager: bool, pool: bool, failed: Option<PjCall>) returns (status: Status)
      requires Sound()
      modifies this
      ensures Sound()
      ensures status == if asked.None? then Invalid
                        else if old(inited) then InvalidOp
                        else if var c := asked.value;
                                c.width == 0 || c.height == 0 || c.fps == 0 || c.pollFps == 0 || c.maxFrameSize == 0
                                || c.packetizationMode > 1 then Invalid
                        else if !manager then InvalidOp
                        else if !pool then NoMemory
                        else if failed.Some? then PjFailed(failed.value)
                        else Success
      ensures old(inited) ==> unchanged(this)
      ensures !old(inited) ==> inited == (status == Success)
      ensures status == Success ==> cfg == asked.value && ep == Epochs(1, 0)
    {
      if asked.None? {
        return Invalid;
      }
      if inited {
        return InvalidOp;
      }
      if !asked.value.Ok() {
        return Invalid;
      }
      if !manager {
        return InvalidOp;
      }
      cfg := asked.value;
      framebytes := FrameBytes(cfg.maxFrameSize);
      sourceEpoch := 1;
      keyedEpoch := 0;
      ep := Epochs(1, 0);
      hasPool := pool;
      if !hasPool {
        return NoMemory;
      }
      hasLock := failed != Some(CreateMutex);
      if failed.Some? {
        hasLock := false;
        hasPool := false;
        return PjFailed(failed.value);
      }
      inited := true;
      return Success;
    }

    /** `vd_factory_destroy`: the lock and the pool go, and the module is reset for
        a later init. */
    method Destroy()
      modifies this`hasLock, this`hasPool, this`inited
      ensures !inited && Sound()
    {
      if hasLock {
        hasLock := false;
      }
      if hasPool {
        hasPool := false;
      }
      inited := false;
    }

    /** `pjrs_vpt_source_restarted`. */
    method SourceRestarted()
      requires inited ==> Valid()
      modifies this`sourceEpoch, this`ep
      ensures !inited ==> unchanged(this)
      ensures inited ==> Valid() && ep == Epochs(old(ep.src) + 1, old(ep.keyed))
    {
      if !inited {
        return;
      }
      WireSuccessor(ep.src - 1);
      sourceEpoch := (sourceEpoch + 1) % TWO_32;
      if sourceEpoch == 0 {
        sourceEpoch := 1;
      }
      ep := ep.(src := ep.src + 1);
    }

    /** `set_keyed`. The epoch is one that was read before, or 0. */
    method SetKeyed(epoch: U32, ghost counted: nat)
      requires Valid() && epoch == WireEpoch(counted) && counted <= ep.src
      modifies this`keyedEpoch, this`ep
      ensures Valid() && ep == old(ep).(keyed := counted)
    {
      keyedEpoch := epoch;
      ep := ep.(keyed := counted);
    }

    /** The two reads of `vc_encode_begin`. They tell the epochs apart as long as
        fewer than 2^32-1 restarts passed since the last keyframe went out. */
    method ReadEpochs() returns (epoch: U32, keyed: bool)
      requires Valid()
      ensures epoch == WireEpoch(ep.src)
      ensures ep.src - ep.keyed < CYCLE ==> (keyed <==> ep.keyed == ep.src)
    {
      epoch := sourceEpoch;
      keyed := keyedEpoch == epoch;
      if ep.src - ep.keyed < CYCLE {
        WireEpochInjective(ep.src, ep.keyed);
      }
    }

    /** `pjrs_vpt_reconfigure`; the three flags are the codec manager's answers.
        The frame size and the payload type never change, whatever is asked. */
    method Reconfigure(asked: Option<Config>, manager: bool, unregistered: bool, registered: bool) returns (status: Status)
      requires inited ==> Valid()
      modifies this`cfg
      ensures inited ==> Valid()
      ensures cfg.maxFrameSize == old(cfg.maxFrameSize) && cfg.pt == old(cfg.pt)
      ensures status == if !inited then InvalidOp
                        else if asked.None? then Invalid
                        else if var c := asked.value;
                                c.width == 0 || c.height == 0 || c.fps == 0 || c.pollFps == 0 || c.maxFrameSize == 0
                                || c.packetizationMode > 1 then Invalid
                        else if asked.value.maxFrameSize != old(cfg.maxFrameSize) || asked.value.pt != old(cfg.pt) then
                          Invalid
                        else if !manager then InvalidOp
                        else if !unregistered then PjFailed(UnregisterCodec)
                        else if !registered then PjFailed(RegisterCodec)
                        else Success
      ensures status == Success || status == PjFailed(RegisterCodec) ==> cfg == asked.value
      ensures status == InvalidOp || status == Invalid || status == PjFailed(UnregisterCodec) ==> cfg == old(cfg)
    {
      if !inited {
        return InvalidOp;
      }
      if asked.None? || !asked.value.Ok() {
        return Invalid;
      }
      if asked.value.maxFrameSize != cfg.maxFrameSize || asked.value.pt != cfg.pt {
        return Invalid;
      }
      if !manager {
        return InvalidOp;
      }
      if !unregistered {
        return PjFailed(UnregisterCodec);
      }
      cfg := asked.value;
      if !registered {
        return PjFailed(RegisterCodec);
      }
      return Success;
    }
  }
}
