/** The pre-merge attestation over whole runs of merges and checks: who holds it,
    when a landing consumes it, and how many landings it admits
    (internal/bravo/attestation/attestation.go, cmd/spinclass/commands_mcp_only.go). */
module MergeAttestations {
  import opened Text
  import opened MergeQueue
  import opened MergeQueueTheorems

  /** The attempt was admitted by an attestation and has not settled that claim. */
  predicate Holding(a: Attempt) {
    a.attestation.Some? && (Unsettled(a.phase) || a.phase == Inline(false))
  }

  predicate BufferedOn(b: Buffer, attestation: nat) {
    b.Buffered? && b.id == attestation
  }

  /** A holder's claim is the buffered one, or its attestation was replaced; nobody else's claim is. */
  predicate HoldOk(a: Attempt, b: Buffer) {
    && (Holding(a) && BufferedOn(b, a.attestation.value) ==> b.claim == Some(a.ticket))
    && (a.attestation.Some? && b.Buffered? && b.claim == Some(a.ticket) ==> Holding(a) && b.id == a.attestation.value)
  }

  ghost predicate HoldInv(s: State) {
    && (forall i | 0 <= i < |s.attempts| && s.attempts[i].attestation.Some? ::
          s.attempts[i].ticket < s.claims && s.attempts[i].attestation.value < s.recorded && HoldOk(s.attempts[i], s.buffer))
    && (forall i, j | 0 <= i < j < |s.attempts| && s.attempts[i].attestation.Some? && s.attempts[j].attestation.Some? ::
          && s.attempts[i].ticket != s.attempts[j].ticket
          && (Holding(s.attempts[i]) && Holding(s.attempts[j]) ==> s.attempts[i].attestation != s.attempts[j].attestation))
    && (s.buffer.Buffered? ==> s.buffer.id < s.recorded && (s.buffer.claim.Some? ==> s.buffer.claim.value < s.claims))
  }

  /** A landed merge's attestation is spent: not buffered, not held, not landed on again. */
  predicate SpentBy(a: Attempt, b: Buffer) {
    a.attestation.Some? && a.landed ==> !BufferedOn(b, a.attestation.value)
  }

  ghost predicate LandInv(s: State) {
    && (forall i | 0 <= i < |s.attempts| :: SpentBy(s.attempts[i], s.buffer))
    && (forall i, j | 0 <= i < |s.attempts| && 0 <= j < |s.attempts| && i != j
                      && s.attempts[i].attestation.Some? && s.attempts[j].attestation == s.attempts[i].attestation ::
          s.attempts[i].landed ==> !s.attempts[j].landed && !Holding(s.attempts[j]))
    && (forall i | 0 <= i < |s.attempts| && s.attempts[i].attestation.Some? ::
          s.attempts[i].phase != Inline(true) && s.attempts[i].phase != Over(true))
  }

  // --------------------------------------------------- the four kinds of change

  /** One attempt changes phase and holds exactly what it held. */
  lemma HoldPhase(s: State, id: nat, phase: Phase, t: State)
    requires HoldInv(s) && id < |s.attempts| && t.attempts == s.attempts[id := s.attempts[id].(phase := phase)]
    requires t.buffer == s.buffer && t.claims == s.claims && t.recorded == s.recorded
    requires Holding(t.attempts[id]) == Holding(s.attempts[id])
    ensures HoldInv(t)
    ensures LandInv(s) && phase != Inline(true) && phase != Over(true) ==> LandInv(t)
  {
    hide Holding;
  }

  lemma HoldSettle(s: State, id: nat, landed: bool, phase: Phase)
    requires HoldInv(s) && id < |s.attempts| && !Unsettled(phase) && phase != Inline(false)
    ensures HoldInv(Settle(s, id, landed, phase))
    ensures && LandInv(s)
            && (s.attempts[id].attestation.Some? ==> Holding(s.attempts[id]) && phase != Inline(true) && phase != Over(true))
        ==> LandInv(Settle(s, id, landed, phase))
  {
    var t := Settle(s, id, landed, phase);
    assert !Holding(t.attempts[id]);
    assert forall i | 0 <= i < |s.attempts| && i != id :: t.attempts[i] == s.attempts[i];
    hide Holding;
  }

  lemma HoldBegin(s: State, kind: Kind, gated: bool, phase: Phase)
    requires HoldInv(s) && (gated ==> !ClaimRefused(s.buffer)) && (Unsettled(phase) || phase == Inline(false))
    ensures HoldInv(Begin(s, kind, gated, phase))
    ensures LandInv(s) ==> LandInv(Begin(s, kind, gated, phase))
  {
    var t := Begin(s, kind, gated, phase);
    var n := |s.attempts|;
    assert forall i | 0 <= i < n :: t.attempts[i] == s.attempts[i];
    assert Holding(t.attempts[n]) == gated;
    hide Holding;
    if gated {
      forall i | 0 <= i < n && s.attempts[i].attestation == t.attempts[n].attestation
        ensures !Holding(s.attempts[i]) && (LandInv(s) ==> !s.attempts[i].landed)
      {
        assert HoldOk(s.attempts[i], s.buffer);
        if LandInv(s) { assert SpentBy(s.attempts[i], s.buffer); }
      }
    }
  }

  lemma HoldRecord(s: State)
    requires HoldInv(s)
    ensures HoldInv(Next(s, RecordAttestation))
    ensures LandInv(s) ==> LandInv(Next(s, RecordAttestation))
  {
    hide Holding;
    var t := Next(s, RecordAttestation);
    if LandInv(s) {
      forall i | 0 <= i < |t.attempts| ensures SpentBy(t.attempts[i], t.buffer) {
      }
    }
  }

  lemma HoldDrain(s: State)
    requires HoldInv(s) && Inv(s)
    ensures HoldInv(Drain(s))
    ensures LandInv(s) ==> LandInv(Drain(s))
  {
    var t := Drain(s);
    forall i | 0 <= i < |s.attempts|
      ensures Holding(t.attempts[i]) == Holding(s.attempts[i])
      ensures t.attempts[i] == s.attempts[i].(phase := t.attempts[i].phase)
      ensures t.attempts[i].phase == s.attempts[i].phase || t.attempts[i].phase == Releasing
    {
      if i in s.queue { assert InPhase(s, i, Queued); }
    }
    hide Holding, Inv;
  }

  lemma HoldSame(s: State, t: State)
    requires HoldInv(s) && t.attempts == s.attempts && t.buffer == s.buffer && t.claims == s.claims && t.recorded == s.recorded
    ensures HoldInv(t) && (LandInv(s) ==> LandInv(t))
  {
    hide Holding;
  }

  // ------------------------------------------------------------------ every step

  /** Every step but the failed Start of an attested blocking merge. */
  predicate KeepsClaim(s: State, step: Step)
    requires Enabled(s, step)
  {
    step.StartFails? ==> s.attempts[step.id].kind != BlockingMerge || s.attempts[step.id].attestation.None?
  }

  lemma HoldOfSettles(s: State, step: Step)
    requires Inv(s) && HoldInv(s) && Enabled(s, step)
    requires step.PrepareFails? || step.StartRefused? || step.StartFails? || step.JobEnds? || step.Release? || step.InlineEnds?
    ensures HoldInv(Next(s, step))
    ensures LandInv(s) && KeepsClaim(s, step) ==> LandInv(Next(s, step))
  {
    var a := s.attempts[step.id];
    var landed := if step.JobEnds? || step.InlineEnds? then step.landed else false;
    var t := Settle(s, step.id, landed, Next(s, step).attempts[step.id].phase);
    HoldSettle(s, step.id, landed, Next(s, step).attempts[step.id].phase);
    if LandInv(s) {
      assert a.attestation.Some? ==> a.phase != Inline(true);
    }
    hide Inv, HoldInv, LandInv, SettleBuffer;
    assert t.attempts == Next(s, step).attempts && t.buffer == Next(s, step).buffer;
    HoldSame(t, Next(s, step));
  }

  predicate IsPhaseStep(step: Step) {
    step.StartClaimsSlot? || step.StartLaunches? || step.SlotClears? || step.CallbackPops? || step.CallbackDispatchFails?
    || step.DequeueLaunches? || step.DequeueFails?
  }

  lemma HoldOfPhases(s: State, step: Step)
    requires Inv(s) && HoldInv(s) && Enabled(s, step)
    requires IsPhaseStep(step)
    ensures HoldInv(Next(s, step))
    ensures LandInv(s) ==> LandInv(Next(s, step))
  {
    if step.CallbackPops? || step.CallbackDispatchFails? { HeadOk(s); }
    var id := if step.CallbackPops? || step.CallbackDispatchFails? then s.queue[0] else step.id;
    hide Inv, HoldInv, LandInv;
    HoldPhase(s, id, Next(s, step).attempts[id].phase, Next(s, step));
  }

  lemma HoldOfRest(s: State, step: Step)
    requires Inv(s) && HoldInv(s) && Enabled(s, step)
    requires step.RecordAttestation? || step.MergeAsync? || step.BeginOther? || step.CallbackEmpty? || step.CallbackDrains? || step.DrainAfterFailedDispatch?
    ensures HoldInv(Next(s, step))
    ensures LandInv(s) ==> LandInv(Next(s, step))
  {
    hide HoldInv, LandInv;
    match step
    case RecordAttestation => HoldRecord(s);
    case MergeAsync(gated, off) =>
      if Next(s, step) != s {
        var phase := if Busy(s) then Queued else Preparing;
        HoldBegin(s, AsyncMerge, gated, phase);
        HoldSame(Begin(s, AsyncMerge, gated, phase), Next(s, step));
      }
    case BeginOther(kind, inline, gated) => HoldBegin(s, kind, gated, if inline then Inline(false) else Preparing);
    case CallbackEmpty(d) => HoldSame(s, Next(s, step));
    case CallbackDrains(d) => HoldDrain(s); HoldSame(Drain(s), Next(s, step));
    case DrainAfterFailedDispatch(id) =>
      var t := WithPhase(s, id, Releasing);
      AttemptAt(s, id);
      InvMove(s, id, s.attempts[id].(phase := Releasing), t);
      HoldPhase(s, id, Releasing, t);
      HoldDrain(t);
    case _ =>
  }

  lemma HoldStep(s: State, step: Step)
    requires Inv(s) && HoldInv(s) && Enabled(s, step)
    ensures HoldInv(Next(s, step))
    ensures LandInv(s) && KeepsClaim(s, step) ==> LandInv(Next(s, step))
  {
    hide Inv, HoldInv, LandInv, Next;
    if step.PrepareFails? || step.StartRefused? || step.StartFails? || step.JobEnds? || step.Release? || step.InlineEnds? {
      HoldOfSettles(s, step);
    } else if IsPhaseStep(step) {
      HoldOfPhases(s, step);
    } else {
      HoldOfRest(s, step);
    }
  }

  // ---------------------------------------------------------------- conclusions

  ghost predicate KeepsClaims(s: State, steps: seq<Step>)
    requires IsRun(s, steps)
    decreases |steps|
  {
    steps == [] || (KeepsClaim(s, steps[0]) && KeepsClaims(Next(s, steps[0]), steps[1..]))
  }

  lemma {:induction false} HoldRun(s: State, steps: seq<Step>)
    requires Inv(s) && HoldInv(s) && IsRun(s, steps)
    ensures Inv(After(s, steps)) && HoldInv(After(s, steps))
    ensures LandInv(s) && KeepsClaims(s, steps) ==> LandInv(After(s, steps))
    decreases |steps|
  {
    hide Inv, HoldInv, LandInv, Next, Enabled, KeepsClaim;
    if steps != [] {
      InvStep(s, steps[0]);
      HoldStep(s, steps[0]);
      HoldRun(Next(s, steps[0]), steps[1..]);
    }
  }

  /** One attestation, one landing: over every run in which no attested blocking
      merge failed to start its job, no two attempts landed on the same attestation. */
  lemma OneLandingPerAttestation(steps: seq<Step>, i: nat, j: nat)
    requires IsRun(INIT, steps) && KeepsClaims(INIT, steps) && i < j < |After(INIT, steps).attempts|
    ensures var s := After(INIT, steps);
            s.attempts[i].landed && s.attempts[j].landed && s.attempts[i].attestation.Some?
            ==> s.attempts[i].attestation != s.attempts[j].attestation
  {
    InvInit();
    HoldRun(INIT, steps);
  }

  /** Two attempts never hold the same attestation at once, over every run. */
  lemma OneHolderPerAttestation(steps: seq<Step>, i: nat, j: nat)
    requires IsRun(INIT, steps) && i < j < |After(INIT, steps).attempts|
    ensures var s := After(INIT, steps);
            Holding(s.attempts[i]) && Holding(s.attempts[j]) ==> s.attempts[i].attestation != s.attempts[j].attestation
  {
    InvInit();
    HoldRun(INIT, steps);
  }

  /** When a landing spends its attestation: exactly when the attempt still holds
      its claim. A blocking merge whose job could not be started has given the claim
      up before it lands inline, so its landing leaves the attestation buffered. */
  lemma LandingSpendsIffHeld(before: seq<Step>, step: Step)
    requires IsRun(INIT, before) && Enabled(After(INIT, before), step)
    requires (step.JobEnds? || step.InlineEnds?) && step.landed
    requires var s := After(INIT, before);
             s.attempts[step.id].attestation.Some? && BufferedOn(s.buffer, s.attempts[step.id].attestation.value)
    ensures var s := After(INIT, before);
            var a := s.attempts[step.id];
            && (BufferedOn(Next(s, step).buffer, a.attestation.value) <==> a.phase == Inline(true))
            && (a.phase == Inline(true) ==> Next(s, step).buffer == s.buffer)
  {
    InvInit();
    HoldRun(INIT, before);
    LandingSpends(After(INIT, before), step);
  }

  lemma LandingSpends(s: State, step: Step)
    requires Inv(s) && HoldInv(s) && Enabled(s, step) && (step.JobEnds? || step.InlineEnds?) && step.landed
    requires s.attempts[step.id].attestation.Some? && BufferedOn(s.buffer, s.attempts[step.id].attestation.value)
    ensures var a := s.attempts[step.id];
            && (BufferedOn(Next(s, step).buffer, a.attestation.value) <==> a.phase == Inline(true))
            && (a.phase == Inline(true) ==> Next(s, step).buffer == s.buffer)
  {
    assert HoldOk(s.attempts[step.id], s.buffer);
    hide Inv, HoldInv;
    assert Next(s, step).buffer == SettleBuffer(s.buffer, s.attempts[step.id], true);
  }

  /** The steps that settle an attempt's claim without a landing. */
  predicate EndsUnlanded(step: Step) {
    step.PrepareFails? || step.StartRefused? || step.StartFails? || step.Release?
    || ((step.JobEnds? || step.InlineEnds?) && !step.landed)
  }

  /** However an attempt ends without landing, before, during or after its job or
      drained from the queue, the attestation it holds is unclaimed again, for a retry. */
  lemma FailureReleasesForRetry(before: seq<Step>, step: Step)
    requires IsRun(INIT, before) && Enabled(After(INIT, before), step) && EndsUnlanded(step)
    requires var s := After(INIT, before);
             Holding(s.attempts[step.id]) && BufferedOn(s.buffer, s.attempts[step.id].attestation.value)
    ensures var s := After(INIT, before); Next(s, step).buffer == Buffered(s.buffer.id, None)
  {
    InvInit();
    HoldRun(INIT, before);
    FailureReleases(After(INIT, before), step);
  }

  lemma FailureReleases(s: State, step: Step)
    requires HoldInv(s) && Enabled(s, step) && EndsUnlanded(step)
    requires Holding(s.attempts[step.id]) && BufferedOn(s.buffer, s.attempts[step.id].attestation.value)
    ensures Next(s, step).buffer == Buffered(s.buffer.id, None)
  {
    assert HoldOk(s.attempts[step.id], s.buffer);
    hide HoldInv, Holding;
    assert Next(s, step).buffer == SettleBuffer(s.buffer, s.attempts[step.id], false);
  }

  /** The record, the blocking merge that claims it, takes the slot and fails to start: it goes on inline, claim given up. */
  lemma BlockingMergeGivesClaimUp()
    ensures var s := INIT.(attempts := [Attempt(BlockingMerge, Some(0), 0, Inline(true), 1, false)], buffer := Buffered(0, None),
                           claims := 1, recorded := 1);
            var steps := [RecordAttestation, BeginOther(BlockingMerge, false, true), StartClaimsSlot(0), StartFails(0)];
            IsRun(INIT, steps) && After(INIT, steps) == s
  {
    var s1 := Next(INIT, RecordAttestation);
    var s2 := Next(s1, BeginOther(BlockingMerge, false, true));
    assert s2.attempts == [Attempt(BlockingMerge, Some(0), 0, Preparing, 0, false)];
    var s3 := Next(s2, StartClaimsSlot(0));
    assert s3.attempts == [Attempt(BlockingMerge, Some(0), 0, Starting, 0, false)];
    var s4 := Next(s3, StartFails(0));
    assert s4.attempts == [Attempt(BlockingMerge, Some(0), 0, Inline(true), 1, false)];
    FourSteps(INIT, RecordAttestation, BeginOther(BlockingMerge, false, true), StartClaimsSlot(0), StartFails(0));
  }

  /** From there one attestation admits two landings. */
  lemma TwoLandingsOnOneAttestation()
    ensures var s := INIT.(attempts := [Attempt(BlockingMerge, Some(0), 0, Inline(true), 1, false)], buffer := Buffered(0, None),
                           claims := 1, recorded := 1);
            var steps := [InlineEnds(0, true), BeginOther(BlockingMerge, true, true), InlineEnds(1, true)];
            IsRun(s, steps)
            && var t := After(s, steps);
               && |t.attempts| == 2 && t.attempts[0].landed && t.attempts[1].landed
               && t.attempts[0].attestation == t.attempts[1].attestation == Some(0)
  {
    var s := INIT.(attempts := [Attempt(BlockingMerge, Some(0), 0, Inline(true), 1, false)], buffer := Buffered(0, None),
                   claims := 1, recorded := 1);
    var s5 := Next(s, InlineEnds(0, true));
    assert s5.attempts == [Attempt(BlockingMerge, Some(0), 0, Over(true), 2, true)] && s5.buffer == Buffered(0, None);
    var s6 := Next(s5, BeginOther(BlockingMerge, true, true));
    assert s6.attempts == [Attempt(BlockingMerge, Some(0), 0, Over(true), 2, true), Attempt(BlockingMerge, Some(0), 1, Inline(false), 0, false)];
    ThreeSteps(s, InlineEnds(0, true), BeginOther(BlockingMerge, true, true), InlineEnds(1, true));
  }
}
