/** The lifecycle of a `CustomPort` of src/media_port.rs. The port, and the
    context that backs it, must outlive `drop`: the conference bridge takes a
    port out later, on the audio thread, and reads it then. The PJSIP side is
    assumed to count references as the comment in `drop` says. */
module CustomPorts {

  import opened Options

  /** The port, its owner and PJSIP's view of it. `refs` is the count of the
      port's group lock, which the first successful add creates; `queued` the
      removals the audio thread has yet to run; `lost` the bridge references
      whose removal PJSIP refused; `released` how often each pool was released,
      and `leaked` the pools nobody refers to any more. */
  datatype Life = Life(
    confPort: Option<nat>, confPool: Option<nat>, dropped: bool,
    refs: Option<nat>, queued: nat, lost: nat, slots: nat,
    hasContext: bool, contextFrees: nat, portFrees: nat,
    released: seq<nat>, leaked: set<nat>)

  const NEW: Life := Life(None, None, false, None, 0, 0, 0, true, 0, 0, [], {})

  /** A call of the owner's, with PJSIP's answers, or a removal being run. */
  datatype Step = Add(poolMade: bool, added: bool) | Remove(accepted: bool) | Drop(accepted: bool) | RunRemoval

  /** `trampoline_on_destroy`. */
  function OnDestroy(s: Life): Life {
    s.(hasContext := false, contextFrees := s.contextFrees + (if s.hasContext then 1 else 0), portFrees := s.portFrees + 1)
  }

  /** `pj_grp_lock_dec_ref`: the handlers run when the count gets to zero. */
  function DecRef(s: Life): Life
    requires s.refs.Some? && s.refs.value >= 1
  {
    var t := s.(refs := Some(s.refs.value - 1));
    if t.refs.value == 0 then OnDestroy(t) else t
  }

  /** `pjmedia_port_destroy`. */
  function PortDestroy(s: Life): Life
    requires s.refs.Some? ==> s.refs.value >= 1
  {
    if s.refs.Some? then DecRef(s) else OnDestroy(s)
  }

  /** `pj_pool_release` of the pool that is held. */
  function ReleaseHeld(s: Life): Life
    requires s.confPool.Some? ==> s.confPool.value < |s.released|
  {
    if s.confPool.None? then s
    else
      var p := s.confPool.value;
      s.(confPool := None, released := s.released[p := s.released[p] + 1])
  }

  /** `pjsua_conf_remove_port` of the slot that is held. */
  function RequestRemoval(s: Life, accepted: bool): Life {
    if accepted then s.(confPort := None, queued := s.queued + 1) else s.(confPort := None, lost := s.lost + 1)
  }

  predicate Enabled(s: Life, step: Step) {
    && (s.confPool.Some? ==> s.confPool.value < |s.released|)
    && (match step
        case RunRemoval => s.queued >= 1 && s.refs.Some? && s.refs.value >= 1
        case Drop(_) => !s.dropped && (s.refs.Some? ==> s.refs.value >= 1)
        case _ => !s.dropped)
  }

  function Next(s: Life, step: Step): Life
    requires Enabled(s, step)
  {
    match step
    case Add(poolMade, added) =>
      if s.confPort.Some? || !poolMade then s
      else if !added then s.(released := s.released + [1])
      else
        s.(confPort := Some(s.slots), slots := s.slots + 1,
           confPool := Some(|s.released|), released := s.released + [0],
           leaked := s.leaked + (if s.confPool.Some? then {s.confPool.value} else {}),
           refs := Some(if s.refs.Some? then s.refs.value + 1 else 2))
    case Remove(accepted) =>
      if s.confPort.None? then ReleaseHeld(s)
      else if !accepted then RequestRemoval(s, false)
      else ReleaseHeld(RequestRemoval(s, true))
    case Drop(accepted) =>
      var asked := if s.confPort.Some? then RequestRemoval(s, accepted) else s;
      PortDestroy(ReleaseHeld(asked).(dropped := true))
    case RunRemoval => DecRef(s.(queued := s.queued - 1))
  }

  function Run(steps: seq<Step>): Option<Life> {
    if steps == [] then Some(NEW)
    else
      var before := Run(steps[..|steps| - 1]);
      var step := steps[|steps| - 1];
      if before.Some? && Enabled(before.value, step) then Some(Next(before.value, step)) else None
  }

  /** Whether the port and the context should be gone. */
  predicate Freed(s: Life) {
    s.dropped && (s.refs.None? || s.refs.value == 0)
  }

  ghost predicate Inv(s: Life) {
    && (s.refs.None? ==> s.queued == 0 && s.lost == 0 && s.confPort.None?)
    && (s.refs.Some? ==>
          s.refs.value == (if s.dropped then 0 else 1) + s.queued + s.lost + (if s.confPort.Some? then 1 else 0))
    && (s.dropped ==> s.confPort.None? && s.confPool.None?)
    && (s.confPort.Some? ==> s.confPool.Some?)
    && s.contextFrees == s.portFrees == (if Freed(s) then 1 else 0) && s.hasContext == !Freed(s)
    && (s.confPool.Some? ==> s.confPool.value < |s.released| && s.confPool.value !in s.leaked)
    && (forall p :: p in s.leaked ==> p < |s.released|)
    && (forall p :: 0 <= p < |s.released| ==>
          s.released[p] == if s.confPool == Some(p) || p in s.leaked then 0 else 1)
    && (s.lost == 0 ==> s.leaked == {} && (s.confPool.Some? ==> s.confPort.Some?))
  }

  lemma AddInv(s: Life, poolMade: bool, added: bool)
    requires Inv(s) && Enabled(s, Add(poolMade, added))
    ensures Inv(Next(s, Add(poolMade, added)))
  {
  }

  lemma RemoveInv(s: Life, accepted: bool)
    requires Inv(s) && Enabled(s, Remove(accepted))
    ensures Inv(Next(s, Remove(accepted)))
  {
  }

  lemma DropInv(s: Life, accepted: bool)
    requires Inv(s) && Enabled(s, Drop(accepted))
    ensures Inv(Next(s, Drop(accepted)))
  {
  }

  lemma RunRemovalInv(s: Life)
    requires Inv(s) && Enabled(s, RunRemoval)
    ensures Inv(Next(s, RunRemoval))
  {
  }

  lemma StepInv(s: Life, step: Step)
    requires Inv(s) && Enabled(s, step)
    ensures Inv(Next(s, step))
  {
    match step
    case Add(poolMade, added) => AddInv(s, poolMade, added);
    case Remove(accepted) => RemoveInv(s, accepted);
    case Drop(accepted) => DropInv(s, accepted);
    case RunRemoval => RunRemovalInv(s);
  }

  lemma {:induction false} RunInv(steps: seq<Step>)
    requires Run(steps).Some?
    ensures Inv(Run(steps).value)
  {
    if steps == [] {
    } else {
      RunInv(steps[..|steps| - 1]);
      StepInv(Run(steps[..|steps| - 1]).value, steps[|steps| - 1]);
    }
  }

  /** Nothing the owner or the audio thread may still use is freed, and nothing
      is freed twice, whatever calls were made, whatever PJSIP answered and
      whenever the removals run; and whatever is due can run. */
  lemma NeverFreedEarly(steps: seq<Step>)
    requires Run(steps).Some?
    ensures var s := Run(steps).value;
            && s.contextFrees <= 1 && s.portFrees <= 1
            && (!s.dropped || s.queued > 0 ==> s.contextFrees == 0 && s.portFrees == 0 && s.hasContext)
            && (forall p :: 0 <= p < |s.released| ==> s.released[p] <= 1)
            && (s.queued > 0 ==> Enabled(s, RunRemoval))
            && (!s.dropped ==> Enabled(s, Drop(true)) && Enabled(s, Drop(false)))
  {
    RunInv(steps);
  }

  /** The step asks for the removal of a port in the bridge, and PJSIP refuses. */
  predicate Refuses(s: Life, step: Step) {
    (step == Remove(false) || step == Drop(false)) && s.confPort.Some?
  }

  /** The step adds the port while, out of the bridge, it still holds pool p. */
  predicate Forgets(s: Life, step: Step, p: nat) {
    step == Add(true, true) && s.confPort.None? && s.confPool == Some(p)
  }

  /** Step i does, in the state it is taken in. */
  ghost predicate RefusedAt(steps: seq<Step>, i: nat) {
    i < |steps| && Run(steps[..i]).Some? && Refuses(Run(steps[..i]).value, steps[i])
  }

  ghost predicate ForgottenAt(steps: seq<Step>, p: nat, i: nat) {
    i < |steps| && Run(steps[..i]).Some? && Forgets(Run(steps[..i]).value, steps[i], p)
  }

  lemma StepLoses(s: Life, step: Step)
    requires Enabled(s, step)
    ensures Next(s, step).lost == s.lost + if Refuses(s, step) then 1 else 0
    ensures forall p: nat :: p in Next(s, step).leaked <==> p in s.leaked || Forgets(s, step, p)
  {
  }

  /** What one more step adds to a run. */
  lemma LastStep(steps: seq<Step>)
    requires steps != [] && Run(steps).Some?
    ensures var n, before := |steps| - 1, steps[..|steps| - 1];
            && Run(before).Some?
            && Run(steps).value.lost == Run(before).value.lost + (if RefusedAt(steps, n) then 1 else 0)
            && (forall p: nat :: p in Run(steps).value.leaked <==> p in Run(before).value.leaked || ForgottenAt(steps, p, n))
  {
    StepLoses(Run(steps[..|steps| - 1]).value, steps[|steps| - 1]);
  }

  /** Of the refusals of a run, all but one at the last step are of the run before. */
  lemma RefusedBefore(steps: seq<Step>, i: nat)
    requires steps != []
    ensures var n := |steps| - 1;
            RefusedAt(steps, i) <==> RefusedAt(steps[..n], i) || (i == n && RefusedAt(steps, n))
  {
    if i < |steps| - 1 { assert steps[..|steps| - 1][..i] == steps[..i]; }
  }

  lemma ForgottenBefore(steps: seq<Step>, p: nat, i: nat)
    requires steps != []
    ensures var n := |steps| - 1;
            ForgottenAt(steps, p, i) <==> ForgottenAt(steps[..n], p, i) || (i == n && ForgottenAt(steps, p, n))
  {
    if i < |steps| - 1 { assert steps[..|steps| - 1][..i] == steps[..i]; }
  }

  lemma {:induction false} LostAreRefused(steps: seq<Step>)
    requires Run(steps).Some?
    ensures Run(steps).value.lost == 0 <==> forall i: nat :: !RefusedAt(steps, i)
  {
    if steps == [] {
    } else {
      var n, before := |steps| - 1, steps[..|steps| - 1];
      LastStep(steps);
      LostAreRefused(before);
      forall i: nat
        ensures RefusedAt(steps, i) <==> RefusedAt(before, i) || (i == n && RefusedAt(steps, n))
      {
        RefusedBefore(steps, i);
      }
    }
  }

  lemma {:induction false} LeakedAreForgotten(steps: seq<Step>, p: nat)
    requires Run(steps).Some?
    ensures p in Run(steps).value.leaked <==> exists i: nat :: ForgottenAt(steps, p, i)
  {
    if steps == [] {
    } else {
      var n, before := |steps| - 1, steps[..|steps| - 1];
      LastStep(steps);
      LeakedAreForgotten(before, p);
      forall i: nat
        ensures ForgottenAt(steps, p, i) <==> ForgottenAt(before, p, i) || (i == n && ForgottenAt(steps, p, n))
      {
        ForgottenBefore(steps, p, i);
      }
    }
  }

  /** Once the owner is dropped and the audio thread has caught up, the port and
      its context have been freed, exactly once, if and only if PJSIP refused
      none of the removals it was asked for. */
  lemma FreedOnceExactly(steps: seq<Step>)
    requires Run(steps).Some? && Run(steps).value.dropped && Run(steps).value.queued == 0
    ensures var s := Run(steps).value;
            s.portFrees == s.contextFrees == if exists i: nat :: RefusedAt(steps, i) then 0 else 1
  {
    RunInv(steps);
    LostAreRefused(steps);
  }

  /** Once the owner is dropped, a pool was released, exactly once, if and only
      if no add was made while the port, out of the bridge, still held it. */
  lemma PoolsReleasedExactly(steps: seq<Step>, p: nat)
    requires Run(steps).Some? && Run(steps).value.dropped && p < |Run(steps).value.released|
    ensures Run(steps).value.released[p] == if exists i: nat :: ForgottenAt(steps, p, i) then 0 else 1
  {
    RunInv(steps);
    LeakedAreForgotten(steps, p);
  }

  /** That takes a refused removal: with none, every pool was released. */
  lemma NoRefusalNoLeak(steps: seq<Step>, p: nat)
    requires Run(steps).Some? && Run(steps).value.dropped && p < |Run(steps).value.released|
    requires forall i: nat :: !RefusedAt(steps, i)
    ensures Run(steps).value.released[p] == 1
  {
    RunInv(steps);
    LostAreRefused(steps);
  }

  /** A run goes on by a step. */
  lemma RunOn(before: seq<Step>, s: Life, step: Step, t: Life)
    requires Run(before) == Some(s) && Enabled(s, step) && Next(s, step) == t
    ensures Run(before + [step]) == Some(t)
  {
    assert (before + [step])[..|before|] == before;
  }

  const ADD: Step := Add(true, true)
  const REFUSED: seq<Step> := [ADD] + [Remove(false)]

  /** After an add and a refused removal. */
  const LOST: Life := Life(None, Some(0), false, Some(2), 0, 1, 1, true, 0, 0, [0], {})

  /** And another add, which forgets the pool. */
  const FORGOTTEN: Life := Life(Some(1), Some(1), false, Some(3), 0, 1, 2, true, 0, 0, [0, 0], {0})

  lemma RemovalLost()
    ensures Run(REFUSED) == Some(LOST)
  {
    RunOn([], NEW, ADD, Next(NEW, ADD));
    assert [] + [ADD] == [ADD];
    RunOn([ADD], Next(NEW, ADD), Remove(false), LOST);
  }

  lemma PoolForgotten()
    ensures Run(REFUSED + [ADD]) == Some(FORGOTTEN)
  {
    RemovalLost();
    assert LOST.released + [0] == FORGOTTEN.released && LOST.leaked + {0} == FORGOTTEN.leaked;
    RunOn(REFUSED, LOST, ADD, FORGOTTEN);
  }

  /** A refused removal does leak: the reference of the bridge is never given
      back, and an add after it forgets the first pool. */
  lemma RefusedRemovalLeaks()
    ensures var r := Run([ADD, Remove(false), ADD, Drop(true), RunRemoval]);
            r.Some? && r.value.dropped && r.value.queued == 0 && r.value.portFrees == 0 && r.value.released == [0, 1]
  {
    PoolForgotten();
    var steps := REFUSED + [ADD];
    var dropped := Life(None, None, true, Some(2), 1, 1, 2, true, 0, 0, [0, 1], {0});
    assert FORGOTTEN.released[1 := 1] == dropped.released;
    RunOn(steps, FORGOTTEN, Drop(true), dropped);
    RunOn(steps + [Drop(true)], dropped, RunRemoval, Next(dropped, RunRemoval));
    assert [ADD, Remove(false), ADD, Drop(true), RunRemoval] == (steps + [Drop(true)]) + [RunRemoval];
  }

  // ------------------------------------------------------------------------
  // The owner and PJSIP as objects

  /** What PJSIP and the heap know of the port. */
  class Pjsip {
    var refs: Option<nat>
    var queued: nat
    var slots: nat
    var hasContext: bool
    var contextFrees: nat
    var portFrees: nat
    var released: seq<nat>
    ghost var lost: nat

    /** A raw port, without a context. */
    constructor ()
      ensures refs == None && queued == 0 && slots == 0 && !hasContext && contextFrees == 0 && portFrees == 0
      ensures released == [] && lost == 0
    {
      refs, queued, slots, hasContext, contextFrees, portFrees, released, lost := None, 0, 0, false, 0, 0, [], 0;
    }

    /** `PjsuaApp::conf_add_port`: the slot and the pool, or an error, with the
        pool released if there was one. */
    method ConfAddPort(poolMade: bool, added: bool) returns (r: Option<(nat, nat)>)
      modifies this`released, this`slots, this`refs
      ensures !poolMade ==> r == None && unchanged(this)
      ensures poolMade && !added ==>
                r == None && released == old(released) + [1] && slots == old(slots) && refs == old(refs)
      ensures poolMade && added ==>
                && r == Some((old(slots), |old(released)|)) && released == old(released) + [0] && slots == old(slots) + 1
                && refs == Some(if old(refs).Some? then old(refs).value + 1 else 2)
    {
      if !poolMade {
        return None;
      }
      var pool := |released|;
      if !added {
        released := released + [1];
        return None;
      }
      released := released + [0];
      slots := slots + 1;
      refs := Some(if refs.Some? then refs.value + 1 else 2);
      return Some((slots - 1, pool));
    }

    method ConfRemovePort(accepted: bool) returns (ok: bool)
      modifies this`queued, this`lost
      ensures ok == accepted
      ensures queued == old(queued) + (if accepted then 1 else 0) && lost == old(lost) + (if accepted then 0 else 1)
    {
      if accepted {
        queued := queued + 1;
      } else {
        lost := lost + 1;
      }
      return accepted;
    }

    method PoolRelease(pool: nat)
      requires pool < |released|
      modifies this`released
      ensures released == old(released)[pool := old(released)[pool] + 1]
    {
      released := released[pool := released[pool] + 1];
    }

    /** `trampoline_on_destroy`. */
    method TrampolineOnDestroy()
      modifies this`hasContext, this`contextFrees, this`portFrees
      ensures !hasContext && portFrees == old(portFrees) + 1
      ensures contextFrees == old(contextFrees) + (if old(hasContext) then 1 else 0)
    {
      if hasContext {
        contextFrees := contextFrees + 1;
        hasContext := false;
      }
      portFrees := portFrees + 1;
    }

    method PortDestroy()
      requires refs.Some? ==> refs.value >= 1
      modifies this`refs, this`hasContext, this`contextFrees, this`portFrees
      ensures refs == if old(refs).Some? then Some(old(refs).value - 1) else None
      ensures var fires := old(refs).None? || old(refs).value == 1;
              && hasContext == (old(hasContext) && !fires)
              && portFrees == old(portFrees) + (if fires then 1 else 0)
              && contextFrees == old(contextFrees) + (if fires && old(hasContext) then 1 else 0)
    {
      if refs.None? {
        TrampolineOnDestroy();
        return;
      }
      refs := Some(refs.value - 1);
      if refs.value == 0 {
        TrampolineOnDestroy();
      }
    }
  }

  class CustomPort {
    const pjsip: Pjsip
    var confPort: Option<nat>
    var confPool: Option<nat>
    var dropped: bool
    ghost var leaked: set<nat>

    /** The objects as one value. */
    ghost function View(): Life
      reads this, pjsip
    {
      Life(confPort, confPool, dropped, pjsip.refs, pjsip.queued, pjsip.lost, pjsip.slots,
           pjsip.hasContext, pjsip.contextFrees, pjsip.portFrees, pjsip.released, leaked)
    }

    constructor (pjsip: Pjsip)
      ensures this.pjsip == pjsip && confPort == None && confPool == None && !dropped && leaked == {}
    {
      this.pjsip := pjsip;
      confPort, confPool, dropped, leaked := None, None, false, {};
    }

    /** `CustomPort::new`; None is an error of `pjmedia_port_info_init`, after
        which the raw port is freed and no context was made. */
    static method New(infoSet: bool) returns (port: Option<CustomPort>, pjsip: Pjsip)
      ensures fresh(pjsip) && (port.Some? <==> infoSet)
      ensures port.Some? ==> fresh(port.value) && port.value.pjsip == pjsip && port.value.View() == NEW
      ensures port.None? ==> pjsip.portFrees == 1 && pjsip.contextFrees == 0 && !pjsip.hasContext
    {
      pjsip := new Pjsip();
      if !infoSet {
        pjsip.portFrees := 1;
        return None, pjsip;
      }
      pjsip.hasContext := true;
      var created := new CustomPort(pjsip);
      return Some(created), pjsip;
    }

    /** `add_to_conference`; None is an error. */
    method AddToConference(poolMade: bool, added: bool) returns (slot: Option<nat>)
      requires Enabled(View(), Add(poolMade, added))
      modifies this, pjsip
      ensures View() == Next(old(View()), Add(poolMade, added))
      ensures slot == if old(confPort).Some? || !poolMade || !added then None else confPort
    {
      if confPort.Some? {
        return None;
      }
      var r := pjsip.ConfAddPort(poolMade, added);
      if r.None? {
        return None;
      }
      leaked := leaked + (if confPool.Some? then {confPool.value} else {});
      confPort := Some(r.value.0);
      confPool := Some(r.value.1);
      return confPort;
    }

    /** `remove_from_conference`: a refusal is passed on before the pool is
        released. */
    method RemoveFromConference(accepted: bool) returns (ok: bool)
      requires Enabled(View(), Remove(accepted))
      modifies this, pjsip
      ensures View() == Next(old(View()), Remove(accepted))
      ensures ok == (old(confPort).None? || accepted)
    {
      if confPort.Some? {
        confPort := None;
        ok := pjsip.ConfRemovePort(accepted);
        if !ok {
          return false;
        }
      }
      if confPool.Some? {
        pjsip.PoolRelease(confPool.value);
        confPool := None;
      }
      return true;
    }

    /** `drop`, where a refusal goes unnoticed. */
    method DropPort(accepted: bool)
      requires Enabled(View(), Drop(accepted))
      modifies this, pjsip
      ensures View() == Next(old(View()), Drop(accepted))
    {
      if confPort.Some? {
        confPort := None;
        var _ := pjsip.ConfRemovePort(accepted);
      }
      if confPool.Some? {
        pjsip.PoolRelease(confPool.value);
        confPool := None;
      }
      dropped := true;
      pjsip.PortDestroy();
    }
  }
}
