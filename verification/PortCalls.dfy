/** When a port of src/media_port.rs and its pools are freed, from the owner's
    calls and PJSIP's answers alone. */
module PortCalls {

  import opened Options
  import opened CustomPorts

  predicate Removes(step: Step) {
    step.Remove? || step.Drop?
  }

  /** The port was added, and no removal was asked for since. */
  ghost predicate InBridge(steps: seq<Step>) {
    exists a :: 0 <= a < |steps| && steps[a] == ADD && forall b :: a < b < |steps| ==> !Removes(steps[b])
  }

  /** Step i is a removal from the bridge that PJSIP refuses. */
  ghost predicate Refused(steps: seq<Step>, i: int) {
    0 <= i < |steps| && (steps[i] == Remove(false) || steps[i] == Drop(false)) && InBridge(steps[..i])
  }

  /** Step i is an add that makes a pool; pools are made only out of the bridge. */
  ghost predicate Makes(steps: seq<Step>, i: int) {
    0 <= i < |steps| && steps[i].Add? && steps[i].poolMade && !InBridge(steps[..i])
  }

  /** How many pools were made. */
  ghost function Made(steps: seq<Step>): nat {
    if steps == [] then 0
    else Made(steps[..|steps| - 1]) + if Makes(steps, |steps| - 1) then 1 else 0
  }

  /** Step b leaves the owner with the pool it holds: it is no add out of the
      bridge, and a removal only if that is refused. */
  ghost predicate Spares(steps: seq<Step>, b: int)
    requires 0 <= b < |steps|
  {
    && !(Makes(steps, b) && steps[b].added)
    && !steps[b].Drop?
    && (steps[b].Remove? ==> Refused(steps, b))
  }

  /** The owner holds pool p: an add brought it, and every step since spares it. */
  ghost predicate Holding(steps: seq<Step>, p: nat) {
    exists a :: 0 <= a < |steps| && Brings(steps, a, p) && forall b :: a < b < |steps| ==> Spares(steps, b)
  }

  ghost predicate Brings(steps: seq<Step>, a: int, p: nat)
    requires 0 <= a < |steps|
  {
    Makes(steps, a) && steps[a].added && p == Made(steps[..a])
  }

  /** Step i is an add that brings a new pool while the owner still holds p. */
  ghost predicate Loses(steps: seq<Step>, p: nat, i: int) {
    Makes(steps, i) && steps[i].added && Holding(steps[..i], p)
  }

  // ------------------------------------------------------------------------
  // What one more step changes

  lemma PrefixOf(steps: seq<Step>, n: int, i: int)
    requires 0 <= i <= n <= |steps|
    ensures steps[..n][..i] == steps[..i]
  {
  }

  lemma InBridgeOn(steps: seq<Step>)
    requires steps != []
    ensures var n := |steps| - 1;
            InBridge(steps) <==> steps[n] == ADD || (InBridge(steps[..n]) && !Removes(steps[n]))
  {
    var n := |steps| - 1;
    if InBridge(steps) && steps[n] != ADD {
      var a :| 0 <= a < |steps| && steps[a] == ADD && forall b :: a < b < |steps| ==> !Removes(steps[b]);
      assert steps[..n][a] == ADD;
    }
    if InBridge(steps[..n]) && !Removes(steps[n]) {
      var a :| 0 <= a < n && steps[..n][a] == ADD && forall b :: a < b < n ==> !Removes(steps[..n][b]);
      assert steps[a] == ADD && forall b :: a < b < n ==> steps[b] == steps[..n][b];
    }
  }

  /** Steps before the last are as in the run without it. */
  lemma SameBefore(steps: seq<Step>, b: int, p: nat)
    requires 0 <= b < |steps| - 1
    ensures var before := steps[..|steps| - 1];
            && (Spares(steps, b) <==> Spares(before, b)) && (Brings(steps, b, p) <==> Brings(before, b, p))
            && (Refused(steps, b) <==> Refused(before, b)) && (Loses(steps, p, b) <==> Loses(before, p, b))
  {
    PrefixOf(steps, |steps| - 1, b);
  }

  lemma HoldingOn(steps: seq<Step>, p: nat)
    requires steps != []
    ensures var n := |steps| - 1;
            Holding(steps, p) <==> Brings(steps, n, p) || (Holding(steps[..n], p) && Spares(steps, n))
  {
    var n, before := |steps| - 1, steps[..|steps| - 1];
    forall b | 0 <= b < n
      ensures Spares(steps, b) <==> Spares(before, b)
      ensures Brings(steps, b, p) <==> Brings(before, b, p)
    {
      SameBefore(steps, b, p);
    }
    if Holding(steps, p) && !Brings(steps, n, p) {
      var a :| 0 <= a < |steps| && Brings(steps, a, p) && forall b :: a < b < |steps| ==> Spares(steps, b);
      assert a < n && Brings(before, a, p);
    }
    if Holding(before, p) && Spares(steps, n) {
      var a :| 0 <= a < n && Brings(before, a, p) && forall b :: a < b < n ==> Spares(before, b);
      assert Brings(steps, a, p);
    }
  }

  // ------------------------------------------------------------------------
  // What the calls say is what the port has

  lemma DestroyKeeps(s: Life)
    requires s.refs.Some? ==> s.refs.value >= 1
    ensures var t := PortDestroy(s);
            t.confPort == s.confPort && t.confPool == s.confPool && t.released == s.released
  {
  }

  lemma RemovalHolds(s: Life, step: Step)
    requires Enabled(s, step) && Removes(step)
    ensures var t := Next(s, step);
            && t.confPort.None? && |t.released| == |s.released|
            && t.confPool == if step == Remove(false) && s.confPort.Some? then s.confPool else None
  {
    if step.Drop? {
      var asked := if s.confPort.Some? then RequestRemoval(s, step.accepted) else s;
      DestroyKeeps(ReleaseHeld(asked).(dropped := true));
    }
  }

  /** What a step does to what the owner holds. */
  lemma StepHolds(s: Life, step: Step)
    requires Enabled(s, step)
    ensures var t, makes := Next(s, step), step.Add? && step.poolMade && s.confPort.None?;
            && (t.confPort.Some? <==> step == ADD || (s.confPort.Some? && !Removes(step)))
            && |t.released| == |s.released| + (if makes then 1 else 0)
            && t.confPool == if makes && step.added then Some(|s.released|)
                             else if Removes(step) && !(step == Remove(false) && s.confPort.Some?) then None
                             else s.confPool
  {
    if Removes(step) { RemovalHolds(s, step); }
  }

  lemma {:induction false} Tracked(steps: seq<Step>, p: nat)
    requires Run(steps).Some?
    ensures var s := Run(steps).value;
            && (s.confPort.Some? <==> InBridge(steps)) && |s.released| == Made(steps)
            && (s.confPool == Some(p) <==> Holding(steps, p))
  {
    if steps == [] {
    } else {
      Tracked(steps[..|steps| - 1], p);
      StepHolds(Run(steps[..|steps| - 1]).value, steps[|steps| - 1]);
      InBridgeOn(steps);
      HoldingOn(steps, p);
    }
  }

  lemma RefusedExactly(steps: seq<Step>, i: nat)
    requires Run(steps).Some?
    ensures RefusedAt(steps, i) <==> Refused(steps, i)
  {
    if i < |steps| {
      RunPrefix(steps, i);
      Tracked(steps[..i], 0);
    }
  }

  lemma LosesExactly(steps: seq<Step>, p: nat, i: nat)
    requires Run(steps).Some?
    ensures ForgottenAt(steps, p, i) <==> Loses(steps, p, i)
  {
    if i < |steps| {
      RunPrefix(steps, i);
      Tracked(steps[..i], p);
    }
  }

  lemma {:induction false} RunPrefix(steps: seq<Step>, i: nat)
    requires Run(steps).Some? && i <= |steps|
    ensures Run(steps[..i]).Some?
    decreases |steps|
  {
    if i < |steps| {
      var before := steps[..|steps| - 1];
      PrefixOf(steps, |steps| - 1, i);
      RunPrefix(before, i);
    } else {
      assert steps[..i] == steps;
    }
  }

  // ------------------------------------------------------------------------
  // Results about every run, over its calls

  /** Once the owner is dropped and the audio thread has caught up, the port and
      its context have been freed, exactly once, if and only if no removal from
      the bridge was refused. */
  lemma FreedByCalls(steps: seq<Step>)
    requires Run(steps).Some? && Run(steps).value.dropped && Run(steps).value.queued == 0
    ensures var s := Run(steps).value;
            s.portFrees == s.contextFrees == if exists i :: Refused(steps, i) then 0 else 1
  {
    FreedOnceExactly(steps);
    forall i: nat
      ensures RefusedAt(steps, i) <==> Refused(steps, i)
    {
      RefusedExactly(steps, i);
    }
    if i :| Refused(steps, i) { assert RefusedAt(steps, i); }
  }

  /** Once the owner is dropped, a pool was released, exactly once, if and only
      if no add brought another one while it was held. */
  lemma ReleasedByCalls(steps: seq<Step>, p: nat)
    requires Run(steps).Some? && Run(steps).value.dropped && p < Made(steps)
    ensures p < |Run(steps).value.released|
    ensures Run(steps).value.released[p] == if exists i :: Loses(steps, p, i) then 0 else 1
  {
    Tracked(steps, p);
    PoolsReleasedExactly(steps, p);
    forall i: nat
      ensures ForgottenAt(steps, p, i) <==> Loses(steps, p, i)
    {
      LosesExactly(steps, p, i);
    }
    if i :| Loses(steps, p, i) { assert ForgottenAt(steps, p, i); }
  }

  /** So asking again after a refusal is enough: after two removals in a row no
      pool is held, whatever PJSIP answers, and an add loses none. */
  lemma AskedAgain(before: seq<Step>, first: bool, second: bool, p: nat)
    ensures var steps := before + [Remove(first), Remove(second)];
            !Holding(steps, p) && !Loses(steps + [ADD], p, |steps|)
  {
    var steps := before + [Remove(first), Remove(second)];
    var n := |before| + 1;
    assert steps[..n] == before + [Remove(first)];
    InBridgeOn(steps[..n]);
    HoldingOn(steps, p);
    assert (steps + [ADD])[..|steps|] == steps;
  }
}
