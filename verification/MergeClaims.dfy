/** What a merge or check is admitted on and what a completion callback does to
    the queue, spelled out step by step, and what keeps a second attempt off an
    attestation (cmd/spinclass/commands_mcp_only.go, cmd/spinclass/merge_queue.go). */
module MergeClaims {
  import opened Text
  import opened MergeQueue
  import opened MergeQueueTheorems
  import opened MergeAttestations

  // ------------------------------------------------------------------ admission

  /** An attestation is buffered and nobody claims it. */
  ghost predicate Available(s: State) {
    s.buffer.Buffered? && s.buffer.claim == None
  }

  /** t is s with one more attempt, in its first phase. A gated one has claimed the
      buffered attestation under a new ticket; another one claims nothing. */
  ghost predicate Admits(s: State, kind: Kind, gated: bool, phase: Phase, t: State) {
    && |t.attempts| == |s.attempts| + 1 && (forall i | 0 <= i < |s.attempts| :: t.attempts[i] == s.attempts[i])
    && t == s.(attempts := t.attempts, buffer := t.buffer, claims := t.claims, queue := t.queue, enqueued := t.enqueued)
    && var a := t.attempts[|s.attempts|];
       && a.kind == kind && a.phase == phase && a.settles == 0 && !a.landed
       && (gated ==> Available(s) && a.attestation == Some(s.buffer.id) && t.buffer == Buffered(s.buffer.id, Some(a.ticket))
                     && a.ticket == s.claims && t.claims == s.claims + 1)
       && (!gated ==> a.attestation == None && t.buffer == s.buffer && t.claims == s.claims)
  }

  /** merge-async adds a merge iff it need not stack or may, and the attestation it
      needs is available. It queues the merge, last, iff a job runs or merges are
      queued, and the merge has its claim either way. Otherwise nothing changes. */
  lemma MergeAsyncAdmits(s: State, gated: bool, stackingDisabled: bool)
    requires Enabled(s, MergeAsync(gated, stackingDisabled))
    ensures var t := Next(s, MergeAsync(gated, stackingDisabled));
            var busy := s.slot != Idle || |s.queue| > 0;
            if !(busy && stackingDisabled) && (gated ==> Available(s)) then
              && Admits(s, AsyncMerge, gated, if busy then Queued else Preparing, t)
              && t.queue == (if busy then s.queue + [|s.attempts|] else s.queue)
              && t.enqueued == (if busy then s.enqueued + [|s.attempts|] else s.enqueued)
            else t == s
  {
  }

  /** A blocking merge or a check is admitted iff the attestation it needs is
      available, and then has its claim before anything else happens. */
  lemma OtherAdmits(s: State, kind: Kind, inline: bool, gated: bool)
    ensures Enabled(s, BeginOther(kind, inline, gated)) <==> kind != AsyncMerge && (gated ==> Available(s))
    ensures Enabled(s, BeginOther(kind, inline, gated)) ==>
              var t := Next(s, BeginOther(kind, inline, gated));
              && Admits(s, kind, gated, if inline then Inline(false) else Preparing, t)
              && t.queue == s.queue && t.enqueued == s.enqueued
  {
  }

  /** A recorded attestation takes the place of whatever was buffered, claimed or
      not, and is available; no attempt was admitted on it. */
  lemma RecordedIsAvailable(steps: seq<Step>)
    requires IsRun(INIT, steps)
    ensures var s := After(INIT, steps); var t := Next(s, RecordAttestation);
            && Enabled(s, RecordAttestation) && Available(t) && t.attempts == s.attempts
            && forall i | 0 <= i < |s.attempts| :: s.attempts[i].attestation != Some(t.buffer.id)
  {
    InvInit();
    HoldRun(INIT, steps);
    hide IsRun, After;
  }

  // ------------------------------------------------- the claim and who holds it

  /** Attempt i was admitted on the attestation and has not settled. */
  ghost predicate HasToSettle(s: State, i: nat, attestation: nat) {
    i < |s.attempts| && s.attempts[i].attestation == Some(attestation) && s.attempts[i].settles == 0
  }

  ghost predicate HeldBy(s: State, i: nat) {
    i < |s.attempts| && Holding(s.attempts[i]) && s.buffer == Buffered(s.attempts[i].attestation.value, Some(s.attempts[i].ticket))
  }

  /** A claim on the buffered attestation is somebody's. */
  ghost predicate ClaimInv(s: State) {
    s.buffer.Buffered? && s.buffer.claim.Some? ==> exists i: nat :: HeldBy(s, i)
  }

  lemma HoldingIff(s: State, i: nat, attestation: nat)
    requires Inv(s) && i < |s.attempts|
    ensures HasToSettle(s, i, attestation) <==> Holding(s.attempts[i]) && s.attempts[i].attestation == Some(attestation)
  {
    AttemptAt(s, i);
  }

  lemma SettleKeepsClaim(s: State, id: nat, landed: bool, phase: Phase)
    requires ClaimInv(s) && id < |s.attempts|
    ensures ClaimInv(Settle(s, id, landed, phase))
  {
    var t := Settle(s, id, landed, phase);
    if t.buffer.Buffered? && t.buffer.claim.Some? {
      var i: nat :| HeldBy(s, i);
      assert i != id && t.attempts[i] == s.attempts[i];
      assert HeldBy(t, i);
    }
  }

  /** Holders keep holding when only phases change. */
  lemma PhasesKeepClaim(s: State, t: State)
    requires ClaimInv(s) && t.buffer == s.buffer && |t.attempts| >= |s.attempts|
    requires forall i | 0 <= i < |s.attempts| :: t.attempts[i] == s.attempts[i].(phase := t.attempts[i].phase)
    requires forall i | 0 <= i < |s.attempts| && Holding(s.attempts[i]) :: Holding(t.attempts[i])
    ensures ClaimInv(t)
  {
    hide Holding;
    if t.buffer.Buffered? && t.buffer.claim.Some? {
      var i: nat :| HeldBy(s, i);
      assert HeldBy(t, i);
    }
  }

  lemma ClaimOfSettles(s: State, step: Step)
    requires ClaimInv(s) && Enabled(s, step)
    requires step.PrepareFails? || step.StartRefused? || step.StartFails? || step.JobEnds? || step.Release? || step.InlineEnds?
    ensures ClaimInv(Next(s, step))
  {
    var landed := if step.JobEnds? || step.InlineEnds? then step.landed else false;
    var t := Settle(s, step.id, landed, Next(s, step).attempts[step.id].phase);
    SettleKeepsClaim(s, step.id, landed, Next(s, step).attempts[step.id].phase);
    hide Inv, HoldInv, SettleBuffer, Holding;
    assert t.attempts == Next(s, step).attempts && t.buffer == Next(s, step).buffer;
    PhasesKeepClaim(t, Next(s, step));
  }

  lemma ClaimOfBegins(s: State, step: Step)
    requires ClaimInv(s) && Enabled(s, step) && (step.MergeAsync? || step.BeginOther?)
    ensures ClaimInv(Next(s, step))
  {
    var t := Next(s, step);
    var n := |s.attempts|;
    if t != s && step.gated {
      assert HeldBy(t, n);
    } else {
      assert forall i | 0 <= i < n :: t.attempts[i] == s.attempts[i];
      hide Holding, Next, Begin;
      PhasesKeepClaim(s, t);
    }
  }

  lemma DrainKeepsHolders(s: State)
    requires Inv(s)
    ensures var t := Drain(s);
      && |t.attempts| == |s.attempts| && t.buffer == s.buffer
      && forall i | 0 <= i < |s.attempts| ::
           t.attempts[i] == s.attempts[i].(phase := t.attempts[i].phase) && Holding(t.attempts[i]) == Holding(s.attempts[i])
  {
    forall i | 0 <= i < |s.attempts| ensures Holding(Drain(s).attempts[i]) == Holding(s.attempts[i]) {
      if i in s.queue { assert InPhase(s, i, Queued); }
    }
  }

  /** One attempt changes phase and stands where it may still hold. */
  lemma PhaseKeepsClaim(s: State, id: nat, phase: Phase, t: State)
    requires ClaimInv(s) && id < |s.attempts| && t.attempts == s.attempts[id := s.attempts[id].(phase := phase)]
    requires t.buffer == s.buffer && (Holding(s.attempts[id]) ==> Holding(t.attempts[id]))
    ensures ClaimInv(t)
  {
    hide Holding, ClaimInv;
    PhasesKeepClaim(s, t);
  }

  lemma ClaimOfPhases(s: State, step: Step)
    requires Inv(s) && ClaimInv(s) && Enabled(s, step) && (IsPhaseStep(step) || step.RecordAttestation? || step.CallbackEmpty?)
    ensures ClaimInv(Next(s, step))
  {
    if step.CallbackPops? || step.CallbackDispatchFails? { HeadOk(s); }
    if IsPhaseStep(step) {
      var id := if step.CallbackPops? || step.CallbackDispatchFails? then s.queue[0] else step.id;
      hide Inv, ClaimInv;
      PhaseKeepsClaim(s, id, Next(s, step).attempts[id].phase, Next(s, step));
    } else if step.CallbackEmpty? {
      hide Inv, ClaimInv, Holding;
      PhasesKeepClaim(s, Next(s, step));
    }
  }

  lemma ClaimOfDrains(s: State, step: Step)
    requires Inv(s) && ClaimInv(s) && Enabled(s, step) && (step.CallbackDrains? || step.DrainAfterFailedDispatch?)
    ensures ClaimInv(Next(s, step))
  {
    if step.CallbackDrains? {
      DrainKeepsHolders(s);
      hide Holding, Inv, Drain;
      PhasesKeepClaim(s, Next(s, step));
    } else {
      var t := WithPhase(s, step.id, Releasing);
      AttemptAt(s, step.id);
      InvMove(s, step.id, s.attempts[step.id].(phase := Releasing), t);
      PhasesKeepClaim(s, t);
      DrainKeepsHolders(t);
      hide Holding, Inv, Drain;
      PhasesKeepClaim(t, Drain(t));
    }
  }

  lemma ClaimStep(s: State, step: Step)
    requires Inv(s) && HoldInv(s) && ClaimInv(s) && Enabled(s, step)
    ensures ClaimInv(Next(s, step))
  {
    hide Inv, HoldInv, ClaimInv, Next, Enabled;
    if step.PrepareFails? || step.StartRefused? || step.StartFails? || step.JobEnds? || step.Release? || step.InlineEnds? {
      ClaimOfSettles(s, step);
    } else if step.MergeAsync? || step.BeginOther? {
      ClaimOfBegins(s, step);
    } else if step.CallbackDrains? || step.DrainAfterFailedDispatch? {
      ClaimOfDrains(s, step);
    } else {
      ClaimOfPhases(s, step);
    }
  }

  lemma {:induction false} ClaimRun(s: State, steps: seq<Step>)
    requires Inv(s) && HoldInv(s) && ClaimInv(s) && IsRun(s, steps)
    ensures ClaimInv(After(s, steps)) && Inv(After(s, steps)) && HoldInv(After(s, steps))
    decreases |steps|
  {
    hide Inv, HoldInv, ClaimInv, Next, Enabled;
    if steps != [] {
      InvStep(s, steps[0]);
      HoldStep(s, steps[0]);
      ClaimStep(s, steps[0]);
      ClaimRun(Next(s, steps[0]), steps[1..]);
    }
  }

  /** Over every run an attestation is available iff it is buffered and no attempt
      admitted on it still has its claim to settle. */
  lemma AvailableIff(steps: seq<Step>)
    requires IsRun(INIT, steps)
    ensures var s := After(INIT, steps);
            Available(s) <==> s.buffer.Buffered? && forall i: nat :: !HasToSettle(s, i, s.buffer.id)
  {
    InvInit();
    ClaimRun(INIT, steps);
    var s := After(INIT, steps);
    hide IsRun, After;
    if s.buffer.Buffered? {
      forall i: nat | i < |s.attempts|
        ensures HasToSettle(s, i, s.buffer.id) <==> Holding(s.attempts[i]) && s.attempts[i].attestation == Some(s.buffer.id)
      {
        HoldingIff(s, i, s.buffer.id);
      }
      hide Inv, Holding, HasToSettle;
      if s.buffer.claim.Some? {
        var i: nat :| HeldBy(s, i);
        assert HasToSettle(s, i, s.buffer.id);
      }
      if i: nat :| i < |s.attempts| && HasToSettle(s, i, s.buffer.id) {
        assert HoldOk(s.attempts[i], s.buffer);
      }
    }
    assert forall i: nat | i >= |s.attempts| && s.buffer.Buffered? :: !HasToSettle(s, i, s.buffer.id);
  }

  /** So while an attempt admitted on the buffered attestation has its claim to
      settle, no gated merge or check is admitted, in whatever order they come. */
  lemma NoSecondOnOneAttestation(steps: seq<Step>, i: nat)
    requires IsRun(INIT, steps)
    requires var s := After(INIT, steps); s.buffer.Buffered? && HasToSettle(s, i, s.buffer.id)
    ensures var s := After(INIT, steps);
            && (forall off | Enabled(s, MergeAsync(true, off)) :: Next(s, MergeAsync(true, off)) == s)
            && (forall kind, inline :: !Enabled(s, BeginOther(kind, inline, true)))
  {
    AvailableIff(steps);
    var s := After(INIT, steps);
    hide IsRun, After, HasToSettle, Next, Enabled, Admits;
    assert !Available(s);
    forall off | Enabled(s, MergeAsync(true, off)) ensures Next(s, MergeAsync(true, off)) == s {
      MergeAsyncAdmits(s, true, off);
    }
    forall kind, inline ensures !Enabled(s, BeginOther(kind, inline, true)) {
      OtherAdmits(s, kind, inline, true);
    }
  }

  // ------------------------------------------------------- completion callbacks

  /** A callback finds exactly one thing to do once the queue lock is free: nothing
      on an empty queue, a drain after a merge that did not land, and otherwise the
      head, which it starts iff no job holds the slot. */
  lemma CallbackDecides(s: State, d: Done)
    requires Inv(s) && d in s.callbacks && (s.slot.Held? ==> s.slot.id < |s.attempts| && s.attempts[s.slot.id].phase != Dequeuing)
    ensures Enabled(s, CallbackEmpty(d)) <==> |s.queue| == 0
    ensures Enabled(s, CallbackDrains(d)) <==> |s.queue| > 0 && d.merge && d.status != Succeeded
    ensures Enabled(s, CallbackPops(d)) <==> |s.queue| > 0 && !(d.merge && d.status != Succeeded) && s.slot == Idle
    ensures Enabled(s, CallbackDispatchFails(d)) <==> |s.queue| > 0 && !(d.merge && d.status != Succeeded) && s.slot != Idle
  {
    if s.queue != [] { HeadOk(s); }
  }

  /** The others stand as they stood. */
  ghost predicate OthersStand(s: State, ids: seq<nat>, t: State) {
    |t.attempts| == |s.attempts| && forall i | 0 <= i < |s.attempts| && i !in ids :: t.attempts[i] == s.attempts[i]
  }

  /** A drain empties the queue and leaves every entry of it to be released. */
  lemma DrainEmpties(s: State, d: Done)
    requires Enabled(s, CallbackDrains(d))
    ensures var t := Next(s, CallbackDrains(d));
            && |t.queue| == 0 && OthersStand(s, s.queue, t) && t.callbacks == s.callbacks - multiset{d}
            && t == s.(attempts := t.attempts, queue := t.queue, callbacks := t.callbacks)
            && forall i | 0 <= i < |s.attempts| && i in s.queue :: t.attempts[i] == s.attempts[i].(phase := Releasing)
  {
  }

  /** A pop takes the head and the slot; nothing else leaves the queue. */
  lemma PopTakesTheHead(s: State, d: Done)
    requires Enabled(s, CallbackPops(d))
    ensures var t := Next(s, CallbackPops(d)); var head := s.queue[0];
            && s.queue == [head] + t.queue && t.slot == Held(head) && t.attempts[head] == s.attempts[head].(phase := Dequeuing)
            && OthersStand(s, [head], t) && t.callbacks == s.callbacks - multiset{d}
            && t == s.(attempts := t.attempts, queue := t.queue, callbacks := t.callbacks, slot := t.slot)
  {
  }

  /** A running job may end landed or not: as it reports, or aborted. */
  lemma JobMayEnd(s: State, id: nat, landed: bool, status: Status)
    ensures Enabled(s, JobEnds(id, landed, status)) <==>
      id < |s.attempts| && s.attempts[id].phase == Running && (status == Succeeded ==> landed) && (status == Failed ==> !landed)
  {
  }

  /** A job that ends settles its attempt; when its slot clears, the callback that
      is left says whether it was a merge and how it ended. */
  lemma EndedLeavesCallback(s: State, id: nat, landed: bool, status: Status)
    requires Enabled(s, JobEnds(id, landed, status))
    ensures var ended := Next(s, JobEnds(id, landed, status));
            && Enabled(ended, SlotClears(id)) && ended.slot == s.slot && ended.callbacks == s.callbacks
            && ended.attempts[id].settles == s.attempts[id].settles + 1
            && var t := Next(ended, SlotClears(id));
               && t.slot == Idle && t.attempts[id].phase.Over? && t.attempts[id].landed == (s.attempts[id].landed || landed)
               && t.callbacks == s.callbacks + multiset{Done(s.attempts[id].kind in {AsyncMerge, BlockingMerge}, status)}
               && OthersStand(s, [id], t)
  {
  }

  // --------------------------------------------------------------- running dry

  /** Nothing but a new request can happen. */
  ghost predicate Quiet(s: State) {
    forall step :: Enabled(s, step) ==> step.RecordAttestation? || step.MergeAsync? || step.BeginOther?
  }

  /** Whatever stands elsewhere can go on. */
  lemma SomethingToDo(s: State, i: nat) returns (step: Step)
    requires Inv(s) && i < |s.attempts|
    requires var p := s.attempts[i].phase; !p.Queued? && !p.Over? && !p.DispatchFailed?
    ensures Enabled(s, step) && !step.RecordAttestation? && !step.MergeAsync? && !step.BeginOther?
  {
    var p := s.attempts[i].phase;
    step := if p.Preparing? && s.slot.Idle? then StartClaimsSlot(i)
            else if p.Preparing? then StartRefused(i)
            else if p.Releasing? then Release(i)
            else if p.Dequeuing? then DequeueLaunches(i)
            else if p.Starting? then StartLaunches(i)
            else if p.Running? then JobEnds(i, true, Succeeded)
            else if p.Ending? then SlotClears(i) else InlineEnds(i, true);
  }

  lemma CallbackToDo(s: State, d: Done) returns (step: Step)
    requires Inv(s) && d in s.callbacks && !Locked(s)
    ensures Enabled(s, step) && !step.RecordAttestation? && !step.MergeAsync? && !step.BeginOther?
  {
    if s.queue != [] { HeadOk(s); }
    step := if s.queue == [] then CallbackEmpty(d)
            else if Drains(d) then CallbackDrains(d)
            else if s.slot.Idle? then CallbackPops(d) else CallbackDispatchFails(d);
  }

  /** Once nothing but a new request can happen, no job holds the slot, no callback
      is pending, and every attempt is over and has settled but for the merges of a
      stranded queue. */
  lemma QuietMeansDone(s: State)
    requires Inv(s) && Quiet(s)
    ensures s.slot == Idle && s.callbacks == multiset{}
    ensures forall i | 0 <= i < |s.attempts| ::
      if s.attempts[i].phase.Queued? then Stranded(s) && i in s.queue
      else s.attempts[i].phase.Over? && s.attempts[i].settles >= 1
  {
    forall i: nat | i < |s.attempts|
      ensures s.attempts[i].phase.Queued? || s.attempts[i].phase.Over? || s.attempts[i].phase.DispatchFailed?
    {
      var p := s.attempts[i].phase;
      if !p.Queued? && !p.Over? && !p.DispatchFailed? { var step := SomethingToDo(s, i); }
    }
    assert s.slot.Idle?;
    forall i: nat | i < |s.attempts| ensures !s.attempts[i].phase.DispatchFailed? && AttemptOk(s.attempts[i]) {
      assert !Enabled(s, DrainAfterFailedDispatch(i));
    }
    forall d | d in s.callbacks ensures false {
      var step := CallbackToDo(s, d);
    }
  }

  lemma QuietRunIsDone(steps: seq<Step>)
    requires IsRun(INIT, steps) && Quiet(After(INIT, steps))
    ensures var s := After(INIT, steps);
      && s.slot == Idle && s.callbacks == multiset{}
      && forall i | 0 <= i < |s.attempts| ::
           if s.attempts[i].phase.Queued? then Stranded(s) && i in s.queue
           else s.attempts[i].phase.Over? && s.attempts[i].settles >= 1
  {
    InvInit();
    InvRun(INIT, steps);
    QuietMeansDone(After(INIT, steps));
  }
}
