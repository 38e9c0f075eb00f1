/** What the merge queue promises over every interleaving: who can be stranded,
    that every claim is settled once, that queued merges are neither lost nor
    reordered, and that an attestation admits one landing. */
module MergeQueueTheorems {
  import opened Text
  import opened MergeQueue

  // ------------------------------------------------------------- stranded merges

  ghost predicate DispatchFailing(s: State) {
    exists i | 0 <= i < |s.attempts| :: s.attempts[i].phase.DispatchFailed?
  }

  /** Someone is still to look at the queue, leaving aside whoever holds the slot. */
  ghost predicate LookedAfter(s: State) {
    s.queue == [] || s.callbacks != multiset{} || DispatchFailing(s)
  }

  /** Merges are queued and nothing is left that would ever start or drain them. */
  ghost predicate Stranded(s: State) {
    s.slot.Idle? && !LookedAfter(s)
  }

  lemma PhaseKept(s: State, t: State, i: nat)
    requires i < |s.attempts| <= |t.attempts| && s.attempts[i].phase.DispatchFailed? && t.attempts[i].phase == s.attempts[i].phase
    ensures DispatchFailing(t)
  {
  }

  /** The one step that strands queued merges: a job.Start outside the queue lock
      that took the slot, let a merge queue behind it, and then fails. */
  lemma StrandedExactly(s: State, step: Step)
    requires Inv(s) && Enabled(s, step) && !Stranded(s)
    ensures Stranded(Next(s, step)) <==> step.StartFails? && !LookedAfter(s)
  {
    hide Inv, Settle, Begin, DispatchFailing;
    if step.StartFails? {
      FailedStartKeeps(s, step.id);
    } else if step.CallbackDispatchFails? || step.DequeueFails? {
      NowFailing(s, step);
    } else if s.slot.Idle? && s.queue != [] && DispatchFailing(s) {
      FailingKept(s, step);
    }
  }

  lemma NowFailing(s: State, step: Step)
    requires Inv(s) && Enabled(s, step) && (step.CallbackDispatchFails? || step.DequeueFails?)
    ensures DispatchFailing(Next(s, step))
  {
    var t := Next(s, step);
    if step.CallbackDispatchFails? {
      HeadOk(s);
      assert t.attempts[s.queue[0]].phase.DispatchFailed?;
    } else {
      assert t.attempts[step.id].phase.DispatchFailed?;
    }
  }

  lemma FailingKept(s: State, step: Step)
    requires Inv(s) && Enabled(s, step) && DispatchFailing(s)
    ensures Next(s, step).queue == [] || DispatchFailing(Next(s, step))
  {
    var i: nat :| i < |s.attempts| && s.attempts[i].phase.DispatchFailed?;
    OtherKept(s, step, i);
  }

  lemma FailedStartKeeps(s: State, id: nat)
    requires Enabled(s, StartFails(id))
    ensures DispatchFailing(s) <==> DispatchFailing(Next(s, StartFails(id)))
  {
    var t := Next(s, StartFails(id));
    if i: nat :| i < |s.attempts| && s.attempts[i].phase.DispatchFailed? {
      assert t.attempts[i].phase.DispatchFailed?;
    }
    if i: nat :| i < |t.attempts| && t.attempts[i].phase.DispatchFailed? {
      assert s.attempts[i].phase.DispatchFailed?;
    }
  }

  /** A failed dispatch stays pending until its own second look at the queue. */
  lemma OtherKept(s: State, step: Step, i: nat)
    requires Inv(s) && Enabled(s, step) && i < |s.attempts| && s.attempts[i].phase.DispatchFailed?
    ensures Next(s, step).queue == [] || DispatchFailing(Next(s, step))
  {
    if step != DrainAfterFailedDispatch(i) {
      assert i !in s.queue;
      assert !Touches(s, step, i);
      Untouched(s, step, i);
      hide Next, Enabled;
      PhaseKept(s, Next(s, step), i);
    }
  }

  ghost predicate StartingNow(s: State) {
    s.slot.Held? && InPhase(s, s.slot.id, Starting)
  }

  /** No merge is queued during a job.Start, as when requests are served one at a time. */
  ghost predicate Uninterrupted(s: State, steps: seq<Step>)
    requires IsRun(s, steps)
    decreases |steps|
  {
    steps == [] || ((steps[0].MergeAsync? ==> !StartingNow(s)) && Uninterrupted(Next(s, steps[0]), steps[1..]))
  }

  ghost predicate NoneLeftBehind(s: State) {
    !Stranded(s) && (StartingNow(s) ==> LookedAfter(s))
  }

  lemma StaysLookedAfter(s: State, step: Step)
    requires Inv(s) && Enabled(s, step) && LookedAfter(s) && !step.MergeAsync? && s.slot.Held?
    requires step.CallbackDispatchFails? || step.CallbackDrains? || step.CallbackEmpty? || step.DrainAfterFailedDispatch? || Next(s, step).queue == s.queue
    ensures LookedAfter(Next(s, step))
  {
    hide Settle, Begin;
    var t := Next(s, step);
    if step.CallbackDispatchFails? {
      NowFailing(s, step);
    } else if s.queue != [] && DispatchFailing(s) {
      FailingKept(s, step);
    }
  }

  lemma UninterruptedStep(s: State, step: Step)
    requires Inv(s) && Enabled(s, step) && NoneLeftBehind(s) && (step.MergeAsync? ==> !StartingNow(s))
    ensures NoneLeftBehind(Next(s, step))
  {
    hide Inv, Settle, Begin, LookedAfter;
    var t := Next(s, step);
    StrandedExactly(s, step);
    if step.StartFails? { AttemptAt(s, step.id); }
    if StartingNow(t) {
      if step.StartClaimsSlot? {
        ClaimKeeps(s, step.id);
      } else {
        SlotKept(s, step);
        StaysLookedAfter(s, step);
      }
    }
  }

  lemma ClaimKeeps(s: State, id: nat)
    requires Enabled(s, StartClaimsSlot(id)) && !Stranded(s)
    ensures LookedAfter(Next(s, StartClaimsSlot(id)))
  {
    var t := Next(s, StartClaimsSlot(id));
    if i: nat :| i < |s.attempts| && s.attempts[i].phase.DispatchFailed? {
      assert t.attempts[i].phase.DispatchFailed?;
    }
  }

  /** Only a claim makes the slot's holder start; while it does, the queue only drains. */
  lemma SlotKept(s: State, step: Step)
    requires Inv(s) && Enabled(s, step) && !step.StartClaimsSlot? && StartingNow(Next(s, step))
    ensures StartingNow(s) && s.slot.Held?
    ensures step.MergeAsync? || step.CallbackDispatchFails? || step.CallbackDrains? || step.CallbackEmpty?
      || step.DrainAfterFailedDispatch? || Next(s, step).queue == s.queue
  {
    if step.CallbackPops? {
      HeadOk(s);
    } else {
      HolderStep(s, step);
    }
    hide Inv, Settle, Begin, Drain;
  }

  /** Whoever holds the slot and keeps it stands where it stood, or is running or past that. */
  lemma HolderStep(s: State, step: Step)
    requires Inv(s) && Enabled(s, step) && !step.StartClaimsSlot? && !step.CallbackPops? && Next(s, step).slot.Held?
    ensures s.slot == Next(s, step).slot && s.slot.id < |s.attempts| <= |Next(s, step).attempts|
    ensures var p := Next(s, step).attempts[s.slot.id].phase; p == s.attempts[s.slot.id].phase || p.Running? || p.Ending?
  {
    SlotHolderKept(s, step);
    var i := s.slot.id;
    AttemptAt(s, i);
    assert i !in s.queue;
    if !Touches(s, step, i) { Untouched(s, step, i); }
    hide Inv, SettleBuffer;
  }

  lemma SlotHolderKept(s: State, step: Step)
    requires Inv(s) && Enabled(s, step) && !step.StartClaimsSlot? && !step.CallbackPops? && Next(s, step).slot.Held?
    ensures s.slot == Next(s, step).slot && s.slot.id < |s.attempts|
  {
    hide Settle, Begin;
  }

  /** No stranded merge, over every run in which no merge is queued during a Start. */
  lemma {:induction false} UninterruptedRunsStrandNone(s: State, steps: seq<Step>)
    requires Inv(s) && NoneLeftBehind(s) && IsRun(s, steps) && Uninterrupted(s, steps)
    ensures !Stranded(After(s, steps))
    decreases |steps|
  {
    hide Inv, Next, Enabled, Stranded;
    if steps != [] {
      InvStep(s, steps[0]);
      UninterruptedStep(s, steps[0]);
      UninterruptedRunsStrandNone(Next(s, steps[0]), steps[1..]);
    }
  }

  /** A run that strands a merge: the second call queues while the first one's
      Start holds the slot, and that Start then fails without a callback. */
  lemma StrandingRun()
    ensures var steps := [MergeAsync(false, false), StartClaimsSlot(0), MergeAsync(false, false), StartFails(0)];
            IsRun(INIT, steps) && Stranded(After(INIT, steps)) && After(INIT, steps).queue == [1]
  {
    hide After, IsRun, Drain;
    var s0 := INIT;
    var first := Attempt(AsyncMerge, None, 0, Preparing, 0, false);
    var s1 := Next(s0, MergeAsync(false, false));
    assert s1 == INIT.(attempts := [first]);
    var s2 := Next(s1, StartClaimsSlot(0));
    assert s2 == INIT.(attempts := [first.(phase := Starting)], slot := Held(0));
    var s3 := Next(s2, MergeAsync(false, false));
    var both := [first.(phase := Starting), first.(phase := Queued)];
    assert s3 == INIT.(attempts := both, slot := Held(0), queue := [1], enqueued := [1]);
    var s4 := Next(s3, StartFails(0));
    assert s4.attempts == [first.(phase := Over(false), settles := 1), first.(phase := Queued)];
    FourSteps(s0, MergeAsync(false, false), StartClaimsSlot(0), MergeAsync(false, false), StartFails(0));
  }

  lemma FourSteps(s: State, a: Step, b: Step, c: Step, d: Step)
    requires Enabled(s, a) && Enabled(Next(s, a), b) && Enabled(Next(Next(s, a), b), c)
    requires Enabled(Next(Next(Next(s, a), b), c), d)
    ensures IsRun(s, [a, b, c, d]) && After(s, [a, b, c, d]) == Next(Next(Next(Next(s, a), b), c), d)
  {
    hide Enabled, Next;
    var s1 := Next(s, a);
    var s2 := Next(s1, b);
    var s3 := Next(s2, c);
    var s4 := Next(s3, d);
    var none: seq<Step> := [];
    assert IsRun(s4, none) && After(s4, none) == s4;
    assert [d][1..] == none && [c, d][1..] == [d] && [b, c, d][1..] == [c, d] && [a, b, c, d][1..] == [b, c, d];
    assert IsRun(s3, [d]) && After(s3, [d]) == s4;
    assert IsRun(s2, [c, d]) && After(s2, [c, d]) == s4;
    assert IsRun(s1, [b, c, d]) && After(s1, [b, c, d]) == s4;
  }

  /** Asking again does not help: on a stranded queue another merge only queues behind it or is refused. */
  lemma AskingAgainStaysStranded(s: State, gated: bool, stackingDisabled: bool)
    requires Inv(s) && Stranded(s)
    ensures Enabled(s, MergeAsync(gated, stackingDisabled))
    ensures Stranded(Next(s, MergeAsync(gated, stackingDisabled)))
  {
    var t := Next(s, MergeAsync(gated, stackingDisabled));
    forall i | 0 <= i < |t.attempts| ensures !t.attempts[i].phase.DispatchFailed? {
      if i < |s.attempts| { assert t.attempts[i] == s.attempts[i]; }
    }
  }

  // ----------------------------------------------------------------- settlement

  /** Over every run: an async merge or a check has settled its claim not at all
      while it holds it, and exactly once from then on; a blocking merge settles
      twice exactly when its job could not be started and it went on inline. */
  lemma EachClaimSettledOnce(steps: seq<Step>, id: nat)
    requires IsRun(INIT, steps) && id < |After(INIT, steps).attempts|
    ensures var a := After(INIT, steps).attempts[id];
            && (a.kind != BlockingMerge && !a.phase.Inline? ==> a.settles == if Unsettled(a.phase) then 0 else 1)
            && (a.kind == BlockingMerge && a.phase.Over? ==> (a.settles == 2 <==> a.phase.again) && 1 <= a.settles <= 2)
            && (a.landed ==> a.phase.Ending? || a.phase.Over?)
  {
    InvInit();
    InvRun(INIT, steps);
    AttemptAt(After(INIT, steps), id);
  }

  // --------------------------------------------------------- conservation, order

  function One(b: bool): nat { if b then 1 else 0 }

  ghost predicate LeavingNow(s: State, id: nat) {
    id < |s.attempts| && Leaving(s.attempts[id].phase)
  }

  /** How many of its five fates a queued merge has met: still queued, popped and being started, started,
      leaving unstarted, released. */
  ghost function Fates(s: State, id: nat): nat {
    One(id in s.queue) + One(InPhase(s, id, Dequeuing)) + One(id in s.started) + One(LeavingNow(s, id)) + One(id in s.released)
  }

  predicate HasRun(p: Phase) {
    p.Running? || p.Ending? || p.Over?
  }

  ghost predicate FateInv(s: State) {
    && Inv(s) && Rising(s.enqueued) && Rising(s.started)
    && (forall id | id in s.enqueued :: id < |s.attempts| && Fates(s, id) == 1)
    && (forall id | id in s.queue || id in s.started || id in s.released || LeavingNow(s, id) || InPhase(s, id, Dequeuing) ::
          id in s.enqueued)
    && (forall i, j | i in s.started && j in s.queue :: i < j)
    && (forall id: nat | InPhase(s, id, Dequeuing) :: (forall i | i in s.started :: i < id) && (forall j | j in s.queue :: id < j))
    && (forall id | id in s.released :: id < |s.attempts| && s.attempts[id].phase.Over?)
    && (forall id | id in s.started :: id < |s.attempts| && HasRun(s.attempts[id].phase))
  }

  /** One attempt begins, queued or not. */
  ghost predicate Begins(s: State, t: State) {
    && |t.attempts| == |s.attempts| + 1 && t.attempts[..|s.attempts|] == s.attempts
    && t.started == s.started && t.released == s.released
    && var p := t.attempts[|s.attempts|].phase;
       && !Leaving(p) && !p.Dequeuing?
       && t.enqueued == (if p.Queued? then s.enqueued + [|s.attempts|] else s.enqueued)
       && t.queue == (if p.Queued? then s.queue + [|s.attempts|] else s.queue)
  }

  lemma BeginsElsewhere(s: State, t: State, id: nat)
    requires Begins(s, t) && id != |s.attempts|
    ensures InPhase(t, id, Dequeuing) == InPhase(s, id, Dequeuing) && LeavingNow(t, id) == LeavingNow(s, id)
    ensures (id in t.queue <==> id in s.queue) && (id in t.enqueued <==> id in s.enqueued) && Fates(t, id) == Fates(s, id)
  {
    assert id < |s.attempts| ==> t.attempts[id] == t.attempts[..|s.attempts|][id];
  }

  /** An attempt that was not there before has only the fate it begins with. */
  lemma BeginsAtEnd(s: State, t: State)
    requires FateInv(s) && Begins(s, t)
    ensures var n := |s.attempts|;
      && n !in s.enqueued && n !in s.queue && n !in t.started && n !in t.released && !LeavingNow(t, n) && !InPhase(t, n, Dequeuing)
      && (n in t.queue <==> t.attempts[n].phase.Queued?) && (n in t.enqueued <==> t.attempts[n].phase.Queued?)
  {
    hide Inv, Rising;
  }

  lemma BeginsCounts(s: State, t: State)
    requires FateInv(s) && Begins(s, t)
    ensures forall id | id in t.enqueued :: id < |t.attempts| && Fates(t, id) == 1
    ensures forall id: nat | id in t.queue || id in t.started || id in t.released || LeavingNow(t, id) || InPhase(t, id, Dequeuing) ::
              id in t.enqueued
  {
    hide Inv, Rising;
    var n := |s.attempts|;
    BeginsAtEnd(s, t);
    forall id: nat | id != n
      ensures id in t.enqueued ==> id < |t.attempts| && Fates(t, id) == 1
      ensures (id in t.queue || id in t.started || id in t.released || LeavingNow(t, id) || InPhase(t, id, Dequeuing))
        ==> id in t.enqueued
    {
      BeginsElsewhere(s, t, id);
    }
    hide FateInv, Begins;
  }

  lemma BeginsOrder(s: State, t: State)
    requires FateInv(s) && Begins(s, t)
    ensures forall i, j | i in t.started && j in t.queue :: i < j
    ensures forall id: nat | InPhase(t, id, Dequeuing) :: (forall i | i in t.started :: i < id) && (forall j | j in t.queue :: id < j)
    ensures forall id | id in t.released :: id < |t.attempts| && t.attempts[id].phase.Over?
    ensures forall id | id in t.started :: id < |t.attempts| && HasRun(t.attempts[id].phase)
  {
    hide Inv, Rising, Fates;
    var n := |s.attempts|;
    assert forall i | 0 <= i < n :: t.attempts[i] == s.attempts[i];
    assert forall id: nat | InPhase(t, id, Dequeuing) :: id != n && InPhase(s, id, Dequeuing);
    assert forall j | j in t.queue :: j == n || j in s.queue;
  }

  lemma FateAppend(s: State, t: State)
    requires FateInv(s) && Inv(t) && Begins(s, t)
    ensures FateInv(t)
  {
    BeginsCounts(s, t);
    BeginsOrder(s, t);
    RisingAppend(s.enqueued, |s.attempts|);
    hide Inv, Rising, Fates, LeavingNow;
  }

  /** A phase change that keeps every list, of an attempt that is not leaving and does not start to. */
  lemma FateMove(s: State, id: nat, t: State)
    requires FateInv(s) && Inv(t) && id < |s.attempts| == |t.attempts|
    requires forall i | 0 <= i < |s.attempts| && i != id :: t.attempts[i].phase == s.attempts[i].phase
    requires t.queue == s.queue && t.started == s.started && t.released == s.released && t.enqueued == s.enqueued
    requires !Leaving(s.attempts[id].phase) && !Leaving(t.attempts[id].phase)
    requires !s.attempts[id].phase.Dequeuing? && !t.attempts[id].phase.Dequeuing?
    requires id in s.released ==> t.attempts[id].phase.Over?
    requires id in s.started ==> HasRun(t.attempts[id].phase)
    ensures FateInv(t)
  {
    hide Inv;
    forall k: nat
      ensures InPhase(t, k, Dequeuing) == InPhase(s, k, Dequeuing)
      ensures LeavingNow(t, k) == LeavingNow(s, k) && Fates(t, k) == Fates(s, k)
    {
    }
  }

  lemma FateRelease(s: State, id: nat, t: State)
    requires FateInv(s) && Inv(t) && id < |s.attempts| == |t.attempts|
    requires forall i | 0 <= i < |s.attempts| && i != id :: t.attempts[i].phase == s.attempts[i].phase
    requires Leaving(s.attempts[id].phase) && t.attempts[id].phase.Over?
    requires t.queue == s.queue && t.started == s.started && t.released == s.released + [id] && t.enqueued == s.enqueued
    ensures FateInv(t)
  {
    hide Inv;
    assert forall k :: k in t.released <==> k in s.released || k == id;
    assert LeavingNow(s, id) && id in s.enqueued && Fates(s, id) == 1;
    assert forall k: nat :: InPhase(t, k, Dequeuing) == InPhase(s, k, Dequeuing);
    forall k | k in t.enqueued ensures k < |t.attempts| && Fates(t, k) == 1 {
      if k != id { assert LeavingNow(t, k) == LeavingNow(s, k); }
    }
  }

  /** The head leaves the queue, to be started or not. */
  lemma FatePop(s: State, t: State)
    requires FateInv(s) && Inv(t) && s.queue != [] && s.queue[0] < |s.attempts| == |t.attempts|
    requires forall i | 0 <= i < |s.attempts| && i != s.queue[0] :: t.attempts[i].phase == s.attempts[i].phase
    requires t.attempts[s.queue[0]].phase in {Dequeuing, DispatchFailed}
    requires t.queue == s.queue[1..] && t.started == s.started && t.released == s.released && t.enqueued == s.enqueued
    ensures FateInv(t)
  {
    HeadOk(s);
    RisingHead(s.queue);
    hide Inv;
    var h := s.queue[0];
    assert h in s.enqueued && Fates(s, h) == 1;
    assert forall k: nat | k != h :: InPhase(t, k, Dequeuing) == InPhase(s, k, Dequeuing);
    forall k | k in t.enqueued ensures k < |t.attempts| && Fates(t, k) == 1 {
      if k != h { assert LeavingNow(t, k) == LeavingNow(s, k); }
    }
  }

  lemma FateLaunch(s: State, id: nat, t: State)
    requires FateInv(s) && Inv(t) && InPhase(s, id, Dequeuing) && |s.attempts| == |t.attempts|
    requires forall i | 0 <= i < |s.attempts| && i != id :: t.attempts[i].phase == s.attempts[i].phase
    requires t.attempts[id].phase == Running
    requires t.queue == s.queue && t.started == s.started + [id] && t.released == s.released && t.enqueued == s.enqueued
    ensures FateInv(t)
  {
    OneDequeuing(s, id);
    hide Inv;
    RisingAppend(s.started, id);
    assert id in s.enqueued && Fates(s, id) == 1;
    assert forall k: nat :: !InPhase(t, k, Dequeuing);
    forall k | k in t.enqueued ensures k < |t.attempts| && Fates(t, k) == 1 {
      if k != id { assert LeavingNow(t, k) == LeavingNow(s, k); }
    }
  }

  lemma OneDequeuing(s: State, id: nat)
    requires Inv(s) && InPhase(s, id, Dequeuing)
    ensures forall k: nat :: InPhase(s, k, Dequeuing) <==> k == id
  {
    assert s.slot == Held(id);
  }

  lemma FateDequeueFails(s: State, id: nat, t: State)
    requires FateInv(s) && Inv(t) && InPhase(s, id, Dequeuing) && |s.attempts| == |t.attempts|
    requires forall i | 0 <= i < |s.attempts| && i != id :: t.attempts[i].phase == s.attempts[i].phase
    requires t.attempts[id].phase == DispatchFailed
    requires t.queue == s.queue && t.started == s.started && t.released == s.released && t.enqueued == s.enqueued
    ensures FateInv(t)
  {
    hide Inv;
    assert id in s.enqueued && Fates(s, id) == 1;
    assert forall k: nat | k != id :: InPhase(t, k, Dequeuing) == InPhase(s, k, Dequeuing);
    forall k | k in t.enqueued ensures k < |t.attempts| && Fates(t, k) == 1 {
      if k != id { assert LeavingNow(t, k) == LeavingNow(s, k); }
    }
  }

  lemma FateDrain(s: State)
    requires FateInv(s)
    ensures FateInv(Drain(s))
  {
    var t := Drain(s);
    InvDrain(s);
    assert forall id | id in s.queue :: InPhase(s, id, Queued) && !Leaving(s.attempts[id].phase);
    hide Inv;
    forall k: nat
      ensures LeavingNow(t, k) <==> LeavingNow(s, k) || k in s.queue
      ensures InPhase(t, k, Dequeuing) == InPhase(s, k, Dequeuing)
    {
    }
    forall k | k in t.enqueued ensures k < |t.attempts| && Fates(t, k) == 1 {
      assert Fates(s, k) == 1;
    }
  }

  lemma FateSame(s: State, t: State)
    requires FateInv(s) && Inv(t) && t.attempts == s.attempts && t.queue == s.queue
    requires t.started == s.started && t.released == s.released && t.enqueued == s.enqueued
    ensures FateInv(t)
  {
    hide Inv;
    forall k: nat
      ensures InPhase(t, k, Dequeuing) == InPhase(s, k, Dequeuing)
      ensures LeavingNow(t, k) == LeavingNow(s, k) && Fates(t, k) == Fates(s, k)
    {
    }
  }

  lemma FateOfMoves(s: State, step: Step)
    requires FateInv(s) && Enabled(s, step)
    requires step.PrepareFails? || step.StartRefused? || step.StartClaimsSlot? || step.StartFails? || step.StartLaunches?
          || step.JobEnds? || step.SlotClears? || step.InlineEnds?
    ensures FateInv(Next(s, step))
  {
    InvStep(s, step);
    hide Inv, Fates;
    FateMove(s, step.id, Next(s, step));
  }

  lemma FateOfBegins(s: State, step: Step)
    requires FateInv(s) && Enabled(s, step) && (step.MergeAsync? || step.BeginOther?)
    ensures FateInv(Next(s, step))
  {
    InvStep(s, step);
    hide Inv, Fates, FateInv;
    if Next(s, step) != s { FateAppend(s, Next(s, step)); }
  }

  predicate IsDequeue(step: Step) {
    step.CallbackDrains? || step.CallbackPops? || step.CallbackDispatchFails? || step.DequeueLaunches? || step.DequeueFails?
    || step.DrainAfterFailedDispatch? || step.Release?
  }

  lemma FateOfCallbacks(s: State, step: Step)
    requires FateInv(s) && Enabled(s, step)
    requires IsDequeue(step)
    ensures FateInv(Next(s, step))
  {
    InvStep(s, step);
    hide Inv, Fates, FateInv;
    var t := Next(s, step);
    if step.CallbackDrains? {
      FateDrain(s);
      FateSame(Drain(s), t);
    } else if step.CallbackPops? || step.CallbackDispatchFails? {
      FatePop(s, t);
    } else if step.DequeueLaunches? {
      FateLaunch(s, step.id, t);
    } else if step.DequeueFails? {
      FateDequeueFails(s, step.id, t);
    } else if step.Release? {
      FateRelease(s, step.id, t);
    } else {
      FateRedrain(s, step.id);
    }
  }

  lemma FateRedrain(s: State, id: nat)
    requires FateInv(s) && InPhase(s, id, DispatchFailed)
    ensures FateInv(Drain(WithPhase(s, id, Releasing)))
  {
    var t := WithPhase(s, id, Releasing);
    AttemptAt(s, id);
    InvMove(s, id, s.attempts[id].(phase := Releasing), t);
    assert FateInv(t) by {
      hide Inv;
      forall k: nat
        ensures InPhase(t, k, Dequeuing) == InPhase(s, k, Dequeuing)
        ensures LeavingNow(t, k) == LeavingNow(s, k) && Fates(t, k) == Fates(s, k)
      {
      }
    }
    FateDrain(t);
  }

  lemma FateStep(s: State, step: Step)
    requires FateInv(s) && Enabled(s, step)
    ensures FateInv(Next(s, step))
  {
    hide FateInv, Enabled;
    if step.MergeAsync? || step.BeginOther? { FateOfBegins(s, step); }
    else if step.RecordAttestation? || step.CallbackEmpty? { FateOfNone(s, step); }
    else if IsDequeue(step) { FateOfCallbacks(s, step); } else { FateOfMoves(s, step); }
  }

  lemma FateOfNone(s: State, step: Step)
    requires FateInv(s) && Enabled(s, step) && (step.RecordAttestation? || step.CallbackEmpty?)
    ensures FateInv(Next(s, step))
  {
    InvStep(s, step);
    hide Inv, Fates;
    FateSame(s, Next(s, step));
  }

  lemma {:induction false} FateRun(s: State, steps: seq<Step>)
    requires FateInv(s) && IsRun(s, steps)
    ensures FateInv(After(s, steps))
    decreases |steps|
  {
    hide FateInv, Next, Enabled;
    if steps != [] {
      FateStep(s, steps[0]);
      FateRun(Next(s, steps[0]), steps[1..]);
    }
  }

  // ---------------------------------------------------------------- what follows

  ghost predicate IsSubsequence(a: seq<nat>, b: seq<nat>) {
    a == [] || (b != [] && if a[0] == b[0] then IsSubsequence(a[1..], b[1..]) else IsSubsequence(a, b[1..]))
  }

  lemma {:induction false} RisingSubsequence(a: seq<nat>, b: seq<nat>)
    requires Rising(a) && Rising(b) && forall id | id in a :: id in b
    ensures IsSubsequence(a, b)
    decreases |b|
  {
    if a != [] {
      assert a[0] in b;
      RisingHead(a);
      RisingHead(b);
      if a[0] == b[0] {
        RisingSubsequence(a[1..], b[1..]);
      } else {
        assert b[0] < a[0];
        assert forall id | id in a :: id in b[1..];
        RisingSubsequence(a, b[1..]);
      }
    }
  }

  lemma FateInit()
    ensures FateInv(INIT)
  {
  }

  /** Every merge ever queued has met exactly one fate, nothing else is in the
      lists, and merges start in the order in which they were queued. */
  lemma QueueConservesAndKeepsOrder(steps: seq<Step>)
    requires IsRun(INIT, steps)
    ensures var s := After(INIT, steps);
            && (forall id | id in s.enqueued :: Fates(s, id) == 1)
            && (forall id | id in s.queue || id in s.started || id in s.released :: id in s.enqueued)
            && IsSubsequence(s.started, s.enqueued)
  {
    FateInit();
    FateRun(INIT, steps);
    var s := After(INIT, steps);
    RisingSubsequence(s.started, s.enqueued);
  }

  /** Leaving the queue unstarted is final. */
  ghost predicate Dropped(s: State, id: nat) {
    LeavingNow(s, id) || id in s.released
  }

  lemma LeavingStays(s: State, step: Step, id: nat)
    requires Enabled(s, step) && LeavingNow(s, id) && id !in s.queue && step != Release(id)
    ensures LeavingNow(Next(s, step), id)
  {
    if step == DrainAfterFailedDispatch(id) {
    } else {
      assert !Touches(s, step, id);
      Untouched(s, step, id);
      hide Next, Enabled;
      StillLeaving(s, Next(s, step), id);
    }
  }

  lemma StillLeaving(s: State, t: State, id: nat)
    requires LeavingNow(s, id) && id < |t.attempts|
    requires t.attempts[id].phase == s.attempts[id].phase || t.attempts[id].phase == Releasing
    ensures LeavingNow(t, id)
  {
  }

  lemma DroppedStep(s: State, step: Step, id: nat)
    requires FateInv(s) && Enabled(s, step) && Dropped(s, id)
    ensures Dropped(Next(s, step), id)
  {
    assert id in s.enqueued && Fates(s, id) == 1;
    assert id !in s.queue;
    hide FateInv, Inv, Fates, LeavingNow, Settle, Begin, Drain;
    var t := Next(s, step);
    if step.Release? {
      assert t.released == s.released + [step.id];
    }
    if LeavingNow(s, id) {
      if step == Release(id) {
        assert t.released[|s.released|] == id;
      } else {
        LeavingStays(s, step, id);
      }
    }
  }

  /** What was queued when an unsuccessful merge's callback runs never starts:
      however the run goes on, it is released, with its claim settled as not
      landed, or about to be. */
  lemma DrainedNeverStarts(before: seq<Step>, done: Done, later: seq<Step>, id: nat)
    requires IsRun(INIT, before) && Enabled(After(INIT, before), CallbackDrains(done))
    requires id in After(INIT, before).queue
    requires IsRun(Next(After(INIT, before), CallbackDrains(done)), later)
    ensures var s := After(Next(After(INIT, before), CallbackDrains(done)), later);
            && id !in s.started && id !in s.queue && id < |s.attempts|
            && !s.attempts[id].landed && (id in s.released || Leaving(s.attempts[id].phase))
  {
    FateInit();
    FateRun(INIT, before);
    var s := After(INIT, before);
    var t := Next(s, CallbackDrains(done));
    FateStep(s, CallbackDrains(done));
    assert InPhase(s, id, Queued);
    assert LeavingNow(t, id);
    assert !t.attempts[id].landed by { AttemptAt(s, id); }
    NeverLands(t, later, id);
    assert Fates(After(t, later), id) == 1;
  }

  /** Only the end of a running or inline attempt lands it. */
  lemma LandedStays(s: State, step: Step, id: nat)
    requires Enabled(s, step) && id < |s.attempts| && !s.attempts[id].landed && id !in s.queue
    requires !s.attempts[id].phase.Running? && !s.attempts[id].phase.Inline?
    ensures id < |Next(s, step).attempts| && !Next(s, step).attempts[id].landed
  {
    if !Touches(s, step, id) {
      Untouched(s, step, id);
    }
    hide SettleBuffer;
  }

  lemma NeverLandsStep(s: State, step: Step, id: nat)
    requires FateInv(s) && Enabled(s, step) && Dropped(s, id) && id < |s.attempts| && !s.attempts[id].landed
    ensures id < |Next(s, step).attempts| && !Next(s, step).attempts[id].landed
  {
    assert id in s.enqueued && Fates(s, id) == 1;
    assert id !in s.queue;
    hide Next, Enabled, Inv, Fates;
    LandedStays(s, step, id);
  }

  lemma {:induction false} NeverLands(s: State, steps: seq<Step>, id: nat)
    requires FateInv(s) && IsRun(s, steps) && Dropped(s, id) && id < |s.attempts| && !s.attempts[id].landed
    ensures var t := After(s, steps); Dropped(t, id) && FateInv(t) && id < |t.attempts| && !t.attempts[id].landed
    decreases |steps|
  {
    hide FateInv, Next, Enabled, Dropped;
    if steps != [] {
      FateStep(s, steps[0]);
      DroppedStep(s, steps[0], id);
      NeverLandsStep(s, steps[0], id);
      NeverLands(Next(s, steps[0]), steps[1..], id);
    }
  }

  // ----------------------------------------------------- failures ahead of a merge

  /** The callback of a merge that did not land is still to run. */
  ghost predicate FailurePending(s: State) {
    exists f :: f in s.callbacks && Drains(f)
  }

  /** A queued merge is being started past a failure still to be dealt with. */
  ghost predicate Overtaking(s: State) {
    Locked(s) && FailurePending(s)
  }

  /** The one step that overtakes a failure: another callback takes the head off
      the queue first. From there the merge starts with the failure pending. */
  lemma OvertakenExactly(s: State, step: Step)
    requires Inv(s) && Enabled(s, step)
    ensures !Overtaking(s) && Overtaking(Next(s, step)) <==> step.CallbackPops? && FailurePending(s)
    ensures |Next(s, step).started| > |s.started| && FailurePending(Next(s, step)) <==> step.DequeueLaunches? && Overtaking(s)
  {
    hide Next, Enabled, Inv, Locked;
    StartsByLaunch(s, step);
    if step.CallbackPops? {
      PopLocks(s, step.done);
    } else if Locked(Next(s, step)) {
      LockStays(s, step);
    }
  }

  lemma StartsByLaunch(s: State, step: Step)
    requires Inv(s) && Enabled(s, step)
    ensures |Next(s, step).started| > |s.started| <==> step.DequeueLaunches?
    ensures step.DequeueLaunches? ==> Locked(s) && Next(s, step).callbacks == s.callbacks
  {
    hide Inv, Settle, Begin;
    if step.DequeueLaunches? { AttemptAt(s, step.id); }
  }

  lemma PopLocks(s: State, d: Done)
    requires Inv(s) && Enabled(s, CallbackPops(d))
    ensures !Locked(s) && Locked(Next(s, CallbackPops(d)))
    ensures FailurePending(Next(s, CallbackPops(d))) <==> FailurePending(s)
  {
    OtherPending(s, d);
  }

  lemma OtherPending(s: State, d: Done)
    requires d in s.callbacks && !Drains(d)
    ensures forall f | Drains(f) :: f in s.callbacks <==> f in s.callbacks - multiset{d}
  {
  }

  /** Whoever holds the queue lock took it with a pop, and until it is done no callback comes or goes. */
  lemma LockStays(s: State, step: Step)
    requires Inv(s) && Enabled(s, step) && !step.CallbackPops? && Locked(Next(s, step))
    ensures Locked(s) && Next(s, step).callbacks == s.callbacks
  {
    if !step.StartClaimsSlot? {
      HolderStep(s, step);
    }
    hide Inv, Settle, Begin, Drain;
  }

  /** When it can happen: the slot is free, a merge is queued, and beside the
      failure some other callback is pending. */
  lemma CanOvertakeIff(s: State)
    requires Inv(s) && !Overtaking(s)
    ensures (exists step :: Enabled(s, step) && Overtaking(Next(s, step)))
      <==> (s.slot.Idle? && s.queue != [] && FailurePending(s) && exists d :: d in s.callbacks && !Drains(d))
  {
    forall step | Enabled(s, step)
      ensures Overtaking(Next(s, step)) <==> step.CallbackPops? && FailurePending(s)
    {
      OvertakenExactly(s, step);
    }
    hide Inv, Overtaking;
    if s.slot.Idle? && s.queue != [] && FailurePending(s) && exists d :: d in s.callbacks && !Drains(d) {
      HeadInRange(s);
      var d :| d in s.callbacks && !Drains(d);
      assert Enabled(s, CallbackPops(d));
    }
  }

  lemma HeadInRange(s: State)
    requires Inv(s) && s.queue != []
    ensures s.queue[0] < |s.attempts|
  {
    HeadOk(s);
  }

  /** No job takes the slot while a completion callback is still to run. */
  ghost predicate CallbacksFirst(s: State, steps: seq<Step>)
    requires IsRun(s, steps)
    decreases |steps|
  {
    steps == [] || ((steps[0].StartClaimsSlot? ==> s.callbacks == multiset{}) && CallbacksFirst(Next(s, steps[0]), steps[1..]))
  }

  ghost predicate OneCallback(s: State) {
    |s.callbacks| <= 1 && (s.slot.Held? ==> s.callbacks == multiset{})
  }

  lemma OneCallbackStep(s: State, step: Step)
    requires Inv(s) && Enabled(s, step) && OneCallback(s) && (step.StartClaimsSlot? ==> s.callbacks == multiset{})
    ensures OneCallback(Next(s, step))
  {
    if step.SlotClears? { AttemptAt(s, step.id); }
    hide Inv, Settle, Begin;
    if step.CallbackPops? {
      assert s.callbacks == multiset{step.done} + (s.callbacks - multiset{step.done});
    }
  }

  lemma {:induction false} OneCallbackRun(s: State, steps: seq<Step>)
    requires Inv(s) && OneCallback(s) && IsRun(s, steps) && CallbacksFirst(s, steps)
    ensures OneCallback(After(s, steps))
    decreases |steps|
  {
    hide Inv, Next, Enabled, OneCallback;
    if steps != [] {
      InvStep(s, steps[0]);
      OneCallbackStep(s, steps[0]);
      OneCallbackRun(Next(s, steps[0]), steps[1..]);
    }
  }

  /** Two callbacks are only ever pending together when some job took the slot while one was. */
  lemma TwoPendingNeedAnEarlyClaim(steps: seq<Step>)
    requires IsRun(INIT, steps) && |After(INIT, steps).callbacks| >= 2
    ensures !CallbacksFirst(INIT, steps)
  {
    InvInit();
    if CallbacksFirst(INIT, steps) { OneCallbackRun(INIT, steps); }
  }

  /** So over runs in which none does, no queued merge is started past a failure. */
  lemma FailureDrainsFirst(steps: seq<Step>)
    requires IsRun(INIT, steps) && CallbacksFirst(INIT, steps)
    ensures !Overtaking(After(INIT, steps))
  {
    InvInit();
    OneCallbackRun(INIT, steps);
  }

  const SECOND := Attempt(AsyncMerge, None, 0, Queued, 0, false)
  const FAILED_FIRST := Attempt(AsyncMerge, None, 0, Over(false), 1, false)
  const FAILED_AHEAD := INIT.(attempts := [FAILED_FIRST, SECOND], queue := [1], enqueued := [1], callbacks := multiset{Done(true, Failed)})

  lemma RunAppend(s: State, a: seq<Step>, b: seq<Step>)
    requires IsRun(s, a) && IsRun(After(s, a), b)
    ensures IsRun(s, a + b) && After(s, a + b) == After(After(s, a), b)
    decreases |a|
  {
    hide Next, Enabled;
    if a == [] {
      assert a + b == b;
    } else {
      RunAppend(Next(s, a[0]), a[1..], b);
      assert (a + b)[1..] == a[1..] + b;
    }
  }

  const FIRST := Attempt(AsyncMerge, None, 0, Preparing, 0, false)
  const SECOND_QUEUED := INIT.(attempts := [FIRST.(phase := Running), SECOND], slot := Held(0), queue := [1], enqueued := [1])

  lemma SecondQueues()
    ensures var steps := [MergeAsync(false, false), StartClaimsSlot(0), StartLaunches(0), MergeAsync(false, false)];
            IsRun(INIT, steps) && After(INIT, steps) == SECOND_QUEUED
  {
    hide After, IsRun, SettleBuffer, Drain;
    var s1 := INIT.(attempts := [FIRST]);
    var s2 := INIT.(attempts := [FIRST.(phase := Starting)], slot := Held(0));
    var s3 := INIT.(attempts := [FIRST.(phase := Running)], slot := Held(0));
    assert Next(INIT, MergeAsync(false, false)) == s1;
    assert Next(s1, StartClaimsSlot(0)) == s2;
    assert Next(s2, StartLaunches(0)) == s3;
    assert Next(s3, MergeAsync(false, false)) == SECOND_QUEUED;
    FourSteps(INIT, MergeAsync(false, false), StartClaimsSlot(0), StartLaunches(0), MergeAsync(false, false));
  }

  lemma FirstFails()
    ensures var steps := [JobEnds(0, false, Failed), SlotClears(0)];
            IsRun(SECOND_QUEUED, steps) && After(SECOND_QUEUED, steps) == FAILED_AHEAD
  {
    hide After, IsRun, Drain;
    var s5 := SECOND_QUEUED.(attempts := [FIRST.(phase := Ending(Failed), settles := 1), SECOND]);
    assert Next(SECOND_QUEUED, JobEnds(0, false, Failed)) == s5;
    assert Next(s5, SlotClears(0)) == FAILED_AHEAD;
    TwoSteps(SECOND_QUEUED, JobEnds(0, false, Failed), SlotClears(0));
  }

  /** A merge fails with another queued behind it; its callback has not run yet. */
  lemma FailureAhead() returns (steps: seq<Step>)
    ensures IsRun(INIT, steps) && After(INIT, steps) == FAILED_AHEAD
  {
    hide After, IsRun;
    SecondQueues();
    FirstFails();
    var first := [MergeAsync(false, false), StartClaimsSlot(0), StartLaunches(0), MergeAsync(false, false)];
    RunAppend(INIT, first, [JobEnds(0, false, Failed), SlotClears(0)]);
    steps := first + [JobEnds(0, false, Failed), SlotClears(0)];
  }

  const CHECKED := Attempt(Check, None, 0, Ending(Succeeded), 1, true)
  const CHECK_ENDED := FAILED_AHEAD.(attempts := [FAILED_FIRST, SECOND, CHECKED], slot := Held(2))

  lemma CheckRuns()
    ensures var steps := [BeginOther(Check, false, false), StartClaimsSlot(2), StartLaunches(2), JobEnds(2, true, Succeeded)];
            IsRun(FAILED_AHEAD, steps) && After(FAILED_AHEAD, steps) == CHECK_ENDED
  {
    hide After, IsRun, Drain;
    var check := Attempt(Check, None, 0, Preparing, 0, false);
    var s := FAILED_AHEAD;
    var t1 := s.(attempts := [FAILED_FIRST, SECOND, check]);
    var t2 := s.(attempts := [FAILED_FIRST, SECOND, check.(phase := Starting)], slot := Held(2));
    var t3 := s.(attempts := [FAILED_FIRST, SECOND, check.(phase := Running)], slot := Held(2));
    assert Next(s, BeginOther(Check, false, false)) == t1;
    assert Next(t1, StartClaimsSlot(2)) == t2;
    assert Next(t2, StartLaunches(2)) == t3;
    assert Next(t3, JobEnds(2, true, Succeeded)) == CHECK_ENDED;
    FourSteps(s, BeginOther(Check, false, false), StartClaimsSlot(2), StartLaunches(2), JobEnds(2, true, Succeeded));
  }

  lemma TwoSteps(s: State, a: Step, b: Step)
    requires Enabled(s, a) && Enabled(Next(s, a), b)
    ensures IsRun(s, [a, b]) && After(s, [a, b]) == Next(Next(s, a), b)
  {
    hide Enabled, Next;
    var none: seq<Step> := [];
    var t := Next(Next(s, a), b);
    assert IsRun(t, none) && After(t, none) == t;
    assert [b][1..] == none && [a, b][1..] == [b];
    assert IsRun(Next(s, a), [b]) && After(Next(s, a), [b]) == t;
  }

  lemma CheckPops()
    ensures var steps := [SlotClears(2), CallbackPops(Done(false, Succeeded)), DequeueLaunches(1)];
            IsRun(CHECK_ENDED, steps)
            && var s := After(CHECK_ENDED, steps); Done(true, Failed) in s.callbacks && s.started == [1]
  {
    hide After, IsRun, SettleBuffer, Drain;
    var t := Next(CHECK_ENDED, SlotClears(2));
    assert t.callbacks == multiset{Done(true, Failed), Done(false, Succeeded)} && t.queue == [1] && t.slot.Idle?;
    ThreeSteps(CHECK_ENDED, SlotClears(2), CallbackPops(Done(false, Succeeded)), DequeueLaunches(1));
  }

  /** A check that runs and ends first lets the merge queued behind the failed one
      start after all. */
  lemma CheckOvertakesFailure() returns (steps: seq<Step>)
    ensures IsRun(FAILED_AHEAD, steps)
    ensures var s := After(FAILED_AHEAD, steps); Done(true, Failed) in s.callbacks && s.started == [1]
  {
    hide After, IsRun;
    CheckRuns();
    CheckPops();
    var first := [BeginOther(Check, false, false), StartClaimsSlot(2), StartLaunches(2), JobEnds(2, true, Succeeded)];
    var last := [SlotClears(2), CallbackPops(Done(false, Succeeded)), DequeueLaunches(1)];
    RunAppend(FAILED_AHEAD, first, last);
    steps := first + last;
  }

  lemma ThreeSteps(s: State, a: Step, b: Step, c: Step)
    requires Enabled(s, a) && Enabled(Next(s, a), b) && Enabled(Next(Next(s, a), b), c)
    ensures IsRun(s, [a, b, c]) && After(s, [a, b, c]) == Next(Next(Next(s, a), b), c)
  {
    hide Enabled, Next;
    var none: seq<Step> := [];
    var s3 := Next(Next(Next(s, a), b), c);
    assert IsRun(s3, none) && After(s3, none) == s3;
    assert [c][1..] == none && [b, c][1..] == [c] && [a, b, c][1..] == [b, c];
    assert IsRun(Next(Next(s, a), b), [c]) && After(Next(Next(s, a), b), [c]) == s3;
    assert IsRun(Next(s, a), [b, c]) && After(Next(s, a), [b, c]) == s3;
  }
}
