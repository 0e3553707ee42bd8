/** What the keyframe gate guarantees with any number of codecs open at once,
    each fed whatever access units: only the gate itself is looked at. */
module ManyCodecs {
  import opened Options
  import opened EncoderGate

  /** A codec between calls, or between reading the epochs and the locked
      section that follows. */
  datatype Slot = Slot(codec: Codec, pending: Verdict)

  /** An access unit that got past the keyframe test, under the epoch read;
      `sent` unless it was then dropped for size, before its first packet. */
  datatype Entry = Entry(epoch: nat, key: bool, sent: bool)

  /** The two uses of `set_keyed`. */
  datatype Commit = Set(epoch: nat) | Reset

  datatype World = World(ep: Epochs, codecs: map<nat, Slot>, entered: seq<Entry>, commits: seq<Commit>)

  /** `Fail` is a unit dropped half-way, by a codec that was sending it. */
  datatype Step =
    | Open(id: nat, single: bool, mtu: nat)
    | Close(id: nat)
    | Encode(id: nat, key: bool, fits: bool)
    | Settle(id: nat)
    | Fail(id: nat)
    | Restart

  predicate Enabled(w: World, step: Step) {
    match step
    case Open(id, _, _) => id !in w.codecs
    case Close(id) => id in w.codecs && w.codecs[id].pending.Held?
    case Encode(id, _, _) => id in w.codecs && w.codecs[id].pending.Held?
    case Settle(id) => id in w.codecs && !w.codecs[id].pending.Held?
    case Fail(id) => id in w.codecs && w.codecs[id].pending.Held?
    case Restart => true
  }

  function Next(w: World, step: Step): World
    requires Enabled(w, step)
  {
    match step
    case Open(id, single, mtu) => w.(codecs := w.codecs[id := Slot(Opened(single, mtu), Held)])
    case Close(id) => w.(codecs := w.codecs - {id})
    case Encode(id, key, fits) =>
      var g := Gate(w.codecs[id].codec, w.ep, key, fits);
      w.(codecs := w.codecs[id := Slot(g.codec, g.verdict)],
         entered := if g.verdict.Held? then w.entered else w.entered + [Entry(w.ep.src, key, !g.verdict.Oversize?)])
    case Settle(id) =>
      var slot := w.codecs[id];
      var done := w.(codecs := w.codecs[id := slot.(pending := Held)]);
      match slot.pending {
        case Keyed(e) => done.(ep := w.ep.(keyed := e), commits := w.commits + [Set(e)])
        case Oversize => done.(ep := w.ep.(keyed := 0), commits := w.commits + [Reset])
        case _ => done
      }
    case Fail(id) =>
      var c := w.codecs[id].codec;
      w.(codecs := w.codecs[id := Slot(c.(sentKey := false), Oversize)])
    case Restart => w.(ep := w.ep.(src := w.ep.src + 1))
  }

  const START: World := World(Epochs(1, 0), map[], [], [])

  /** The state after the steps, if each was enabled in its turn. */
  function Run(steps: seq<Step>): Option<World> {
    if steps == [] then Some(START)
    else
      var before := Run(steps[..|steps| - 1]);
      var step := steps[|steps| - 1];
      if before.Some? && Enabled(before.value, step) then Some(Next(before.value, step)) else None
  }

  /** Exactly what gets past the gate of codec id, and how it is noted. */
  lemma EncodeExactly(w: World, id: nat, key: bool, fits: bool)
    requires Enabled(w, Encode(id, key, fits))
    ensures var w', c := Next(w, Encode(id, key, fits)), w.codecs[id].codec;
            var may, good := key || Remembers(c, w.ep), c.single ==> fits;
            && w' == w.(codecs := w'.codecs, entered := w'.entered) && w'.codecs - {id} == w.codecs - {id} && id in w'.codecs
            && w'.entered == (if may then w.entered + [Entry(w.ep.src, key, good)] else w.entered)
            && w'.codecs[id].codec == c.(epoch := w.ep.src, sentKey := may && good)
            && w'.codecs[id].pending == if !may then Held else if !good then Oversize
                                        else if key then Keyed(w.ep.src) else Passed
  {
    GateExactly(w.codecs[id].codec, w.ep, key, fits);
  }

  /** The locked section after it: a keyframe sets `keyed`, a drop resets it. */
  lemma SettleExactly(w: World, id: nat)
    requires Enabled(w, Settle(id))
    ensures var w', pending := Next(w, Settle(id)), w.codecs[id].pending;
            && w' == w.(codecs := w'.codecs, ep := w'.ep, commits := w'.commits)
            && w'.codecs == w.codecs[id := Slot(w.codecs[id].codec, Held)]
            && w'.ep == (if pending.Passed? then w.ep
                         else Epochs(w.ep.src, if pending.Keyed? then pending.epoch else 0))
            && w'.commits == w.commits + if pending.Passed? then []
                                         else [if pending.Keyed? then Set(pending.epoch) else Reset]
  {
  }

  /** A keyframe was sent under the epoch before position n. */
  ghost predicate KeyEntered(entered: seq<Entry>, n: nat, epoch: nat) {
    exists i :: 0 <= i < n && i < |entered| && entered[i] == Entry(epoch, true, true)
  }

  /** Whatever else got past the gate, a keyframe of its epoch was sent before. */
  ghost predicate KeyframesFirst(entered: seq<Entry>) {
    forall j :: 0 <= j < |entered| ==> entered[j].key || KeyEntered(entered, j, entered[j].epoch)
  }

  /** A claim that the remote has a keyframe of an epoch is backed by one. */
  ghost predicate Backed(w: World, epoch: nat) {
    KeyEntered(w.entered, |w.entered|, epoch)
  }

  ghost predicate Inv(w: World) {
    && w.ep.src >= 1
    && KeyframesFirst(w.entered)
    && (forall id :: id in w.codecs ==>
          && (w.codecs[id].codec.sentKey ==> Backed(w, w.codecs[id].codec.epoch))
          && (w.codecs[id].pending.Keyed? ==> w.codecs[id].pending.epoch >= 1 && Backed(w, w.codecs[id].pending.epoch)))
    && (forall i :: 0 <= i < |w.commits| && w.commits[i].Set? ==> w.commits[i].epoch >= 1 && Backed(w, w.commits[i].epoch))
    && w.ep.keyed == (if w.commits == [] || w.commits[|w.commits| - 1].Reset? then 0 else w.commits[|w.commits| - 1].epoch)
  }

  lemma BackedGrows(w: World, entry: Entry, epoch: nat)
    requires Backed(w, epoch)
    ensures Backed(w.(entered := w.entered + [entry]), epoch)
  {
    var i :| 0 <= i < |w.entered| && w.entered[i] == Entry(epoch, true, true);
    assert (w.entered + [entry])[i] == Entry(epoch, true, true);
  }

  lemma EncodeInv(w: World, id: nat, key: bool, fits: bool)
    requires Inv(w) && Enabled(w, Encode(id, key, fits))
    ensures Inv(Next(w, Encode(id, key, fits)))
  {
    var w' := Next(w, Encode(id, key, fits));
    var sent := !Gate(w.codecs[id].codec, w.ep, key, fits).verdict.Oversize?;
    var entry := Entry(w.ep.src, key, sent);
    forall epoch: nat | Backed(w, epoch)
      ensures Backed(w', epoch)
    {
      BackedGrows(w, entry, epoch);
    }
    forall j | 0 <= j < |w'.entered|
      ensures w'.entered[j].key || KeyEntered(w'.entered, j, w'.entered[j].epoch)
    {
      if j < |w.entered| && !w.entered[j].key {
        var i :| 0 <= i < j && w.entered[i] == Entry(w.entered[j].epoch, true, true);
        assert w'.entered[i] == Entry(w'.entered[j].epoch, true, true);
      } else if j == |w.entered| && !key {
        assert w.ep.keyed == w.ep.src ==> Backed(w, w.ep.src);
        assert Backed(w, w.ep.src);
        var i :| 0 <= i < |w.entered| && w.entered[i] == Entry(w.ep.src, true, true);
        assert w'.entered[i] == Entry(w.ep.src, true, true);
      }
    }
    if key && sent {
      assert w'.entered[|w.entered|] == Entry(w.ep.src, true, true);
      assert Backed(w', w.ep.src);
    }
  }

  lemma SettleInv(w: World, id: nat)
    requires Inv(w) && Enabled(w, Settle(id))
    ensures Inv(Next(w, Settle(id)))
  {
    var w' := Next(w, Settle(id));
    assert forall epoch: nat :: Backed(w, epoch) ==> Backed(w', epoch);
  }

  lemma OtherInv(w: World, step: Step)
    requires Inv(w) && Enabled(w, step) && !step.Encode? && !step.Settle?
    ensures Inv(Next(w, step))
  {
    var w' := Next(w, step);
    assert forall epoch: nat :: Backed(w, epoch) ==> Backed(w', epoch);
  }

  lemma StepInv(w: World, step: Step)
    requires Inv(w) && Enabled(w, step)
    ensures Inv(Next(w, step))
  {
    match step
    case Encode(id, key, fits) => EncodeInv(w, id, key, fits);
    case Settle(id) => SettleInv(w, id);
    case _ => OtherInv(w, step);
  }

  lemma {:induction false} RunInv(steps: seq<Step>)
    requires Run(steps).Some?
    ensures Inv(Run(steps).value)
  {
    if steps == [] {
    } else {
      RunInv(steps[..|steps| - 1]);
      StepInv(Run(steps[..|steps| - 1]).value, steps[|steps| - 1]);
    }
  }

  /** Whatever codecs open, close and encode, and whenever the source restarts:
      the first access unit let through under each source epoch is a keyframe. */
  lemma FirstUnitIsKeyframe(steps: seq<Step>, j: nat)
    requires Run(steps).Some? && j < |Run(steps).value.entered|
    requires var entered := Run(steps).value.entered;
             forall i :: 0 <= i < j ==> entered[i].epoch != entered[j].epoch
    ensures Run(steps).value.entered[j].key
  {
    RunInv(steps);
  }

  /** Nor does anything but a keyframe get through until one has been sent:
      keyframes dropped for size do not open the gate. */
  lemma NothingBeforeASentKeyframe(steps: seq<Step>, j: nat)
    requires Run(steps).Some? && j < |Run(steps).value.entered|
    requires var entered := Run(steps).value.entered;
             forall i :: 0 <= i < j && entered[i].epoch == entered[j].epoch && entered[i].key ==> !entered[i].sent
    ensures Run(steps).value.entered[j].key
  {
    RunInv(steps);
  }

  /** When `keyed_epoch == source_epoch`, some codec let a keyframe through
      under this epoch and committed it, and nothing was dropped for size since
      the last commit. */
  lemma KeyedIsEarned(steps: seq<Step>)
    requires Run(steps).Some?
    requires var w := Run(steps).value; w.ep.keyed == w.ep.src
    ensures var w := Run(steps).value;
            && w.commits != [] && w.commits[|w.commits| - 1] == Set(w.ep.src)
            && KeyEntered(w.entered, |w.entered|, w.ep.src)
  {
    RunInv(steps);
    var w := Run(steps).value;
    assert w.commits[|w.commits| - 1].Set?;
  }
}
