/** The intra-session merge queue of one worktree, its job slot, and the claims
    its merges hold on the pre-merge attestation, as a machine whose steps are the
    code's critical sections (cmd/spinclass/merge_queue.go,
    cmd/spinclass/commands_mcp_only.go, internal/alfa/job/runner.go). */
module MergeQueue {
  import opened Text

  datatype Kind = AsyncMerge | Check | BlockingMerge

  datatype Status = Succeeded | Failed | Aborted

  /** Where one attempt at a merge or check stands.
      Starting is job.Start between taking the slot and launching the job, which is
      where the wake is allocated and may fail; Dequeuing is the same for an entry
      popped off the queue, under the queue lock. Ending is a job whose closure has
      returned and settled but whose slot is not cleared yet. */
  datatype Phase =
    | Preparing
    | Queued
    | DispatchFailed
    | Releasing
    | Dequeuing
    | Starting
    | Running
    | Ending(status: Status)
    | Inline(retried: bool)
    | Over(again: bool)

  /** An attempt, the attestation it was admitted on, and its claim there (None for a zero hold). */
  datatype Attempt = Attempt(kind: Kind, attestation: Option<nat>, ticket: nat, phase: Phase, settles: nat, landed: bool)

  datatype Slot = Idle | Held(id: nat)

  /** A completion callback that is still to run. */
  datatype Done = Done(merge: bool, status: Status)

  /** The one buffered attestation: its identity and the claim on it, if any. */
  datatype Buffer = Empty | Buffered(id: nat, claim: Option<nat>)

  datatype State = State(
    attempts: seq<Attempt>,
    slot: Slot,
    queue: seq<nat>,
    callbacks: multiset<Done>,
    buffer: Buffer,
    claims: nat,
    recorded: nat,
    enqueued: seq<nat>,
    started: seq<nat>,
    released: seq<nat>)

  const INIT := State([], Idle, [], multiset{}, Empty, 0, 0, [], [], [])

  // ------------------------------------------------------------------- settling

  /** attestation.Settle: a claim that is no longer the buffered one settles to nothing. */
  function SettleBuffer(b: Buffer, a: Attempt, landed: bool): Buffer {
    if a.attestation.None? || b.Empty? || b.claim != Some(a.ticket) then b
    else if landed then Empty else b.(claim := None)
  }

  function WithPhase(s: State, id: nat, phase: Phase): State
    requires id < |s.attempts|
  {
    s.(attempts := s.attempts[id := s.attempts[id].(phase := phase)])
  }

  /** hold.settle(landed) for attempt id, which then goes on in phase. */
  function Settle(s: State, id: nat, landed: bool, phase: Phase): (t: State)
    requires id < |s.attempts|
    ensures t == s.(attempts := t.attempts, buffer := t.buffer) && |t.attempts| == |s.attempts|
  {
    var a := s.attempts[id];
    s.(attempts := s.attempts[id := a.(phase := phase, settles := a.settles + 1, landed := a.landed || landed)],
       buffer := SettleBuffer(s.buffer, a, landed))
  }

  /** holdGate refuses: the gate is live and no unclaimed attestation is buffered. */
  predicate ClaimRefused(b: Buffer) {
    b.Empty? || b.claim.Some?
  }

  /** A new attempt; one admitted by an attestation claims it. */
  function Begin(s: State, kind: Kind, gated: bool, phase: Phase): (t: State)
    requires gated ==> !ClaimRefused(s.buffer)
    ensures t == s.(attempts := t.attempts, buffer := t.buffer, claims := t.claims) && s.attempts < t.attempts
  {
    if gated then
      s.(attempts := s.attempts + [Attempt(kind, Some(s.buffer.id), s.claims, phase, 0, false)],
         buffer := s.buffer.(claim := Some(s.claims)), claims := s.claims + 1)
    else
      s.(attempts := s.attempts + [Attempt(kind, None, 0, phase, 0, false)])
  }

  predicate Busy(s: State) {
    s.slot.Held? || s.queue != []
  }

  /** Every queued entry goes on to be released. */
  function Drain(s: State): State {
    s.(attempts := seq(|s.attempts|, i requires 0 <= i < |s.attempts| =>
                       if i in s.queue then s.attempts[i].(phase := Releasing) else s.attempts[i]),
       queue := [])
  }

  predicate Drains(d: Done) {
    d.merge && d.status != Succeeded
  }

  // ---------------------------------------------------------------------- steps

  datatype Step =
    | RecordAttestation
    | MergeAsync(gated: bool, stackingDisabled: bool)
    | BeginOther(kind: Kind, inline: bool, gated: bool)
    | PrepareFails(id: nat)
    | StartRefused(id: nat)
    | StartClaimsSlot(id: nat)
    | StartFails(id: nat)
    | StartLaunches(id: nat)
    | JobEnds(id: nat, landed: bool, status: Status)
    | SlotClears(id: nat)
    | CallbackEmpty(done: Done)
    | CallbackDrains(done: Done)
    | CallbackPops(done: Done)
    | CallbackDispatchFails(done: Done)
    | DequeueLaunches(id: nat)
    | DequeueFails(id: nat)
    | DrainAfterFailedDispatch(id: nat)
    | Release(id: nat)
    | InlineEnds(id: nat, landed: bool)

  predicate InPhase(s: State, id: nat, phase: Phase) {
    id < |s.attempts| && s.attempts[id].phase == phase
  }

  /** The queue lock is held across the Start of a popped entry. */
  predicate Locked(s: State) {
    s.slot.Held? && InPhase(s, s.slot.id, Dequeuing)
  }

  predicate Enabled(s: State, step: Step) {
    match step
    case RecordAttestation => true
    case MergeAsync(gated, stackingDisabled) => !Locked(s)
    case BeginOther(kind, inline, gated) => kind != AsyncMerge && (gated ==> !ClaimRefused(s.buffer))
    case PrepareFails(id) => InPhase(s, id, Preparing) && s.attempts[id].kind == AsyncMerge
    case StartRefused(id) => InPhase(s, id, Preparing) && s.slot.Held?
    case StartClaimsSlot(id) => InPhase(s, id, Preparing) && s.slot.Idle?
    case StartFails(id) => InPhase(s, id, Starting)
    case StartLaunches(id) => InPhase(s, id, Starting)
    case JobEnds(id, landed, status) =>
      InPhase(s, id, Running) && (status == Aborted || status == if landed then Succeeded else Failed)
    case SlotClears(id) => id < |s.attempts| && s.attempts[id].phase.Ending?
    case CallbackEmpty(d) => d in s.callbacks && !Locked(s) && s.queue == []
    case CallbackDrains(d) => d in s.callbacks && !Locked(s) && s.queue != [] && Drains(d)
    case CallbackPops(d) => d in s.callbacks && s.queue != [] && !Drains(d) && s.slot.Idle? && s.queue[0] < |s.attempts|
    case CallbackDispatchFails(d) =>
      d in s.callbacks && !Locked(s) && s.queue != [] && !Drains(d) && s.slot.Held? && s.queue[0] < |s.attempts|
    case DequeueLaunches(id) => InPhase(s, id, Dequeuing)
    case DequeueFails(id) => InPhase(s, id, Dequeuing)
    case DrainAfterFailedDispatch(id) => InPhase(s, id, DispatchFailed) && !Locked(s)
    case Release(id) => InPhase(s, id, Releasing)
    case InlineEnds(id, landed) => id < |s.attempts| && s.attempts[id].phase.Inline?
  }

  function Next(s: State, step: Step): State
    requires Enabled(s, step)
  {
    match step
    case RecordAttestation => s.(buffer := Buffered(s.recorded, None), recorded := s.recorded + 1)
    case MergeAsync(gated, stackingDisabled) =>
      if (Busy(s) && stackingDisabled) || (gated && ClaimRefused(s.buffer)) then s
      else if Busy(s) then
        var id := |s.attempts|;
        Begin(s, AsyncMerge, gated, Queued).(queue := s.queue + [id], enqueued := s.enqueued + [id])
      else Begin(s, AsyncMerge, gated, Preparing)
    case BeginOther(kind, inline, gated) => Begin(s, kind, gated, if inline then Inline(false) else Preparing)
    case PrepareFails(id) => Settle(s, id, false, Over(false))
    case StartRefused(id) => Settle(s, id, false, Over(false))
    case StartClaimsSlot(id) => WithPhase(s, id, Starting).(slot := Held(id))
    case StartFails(id) =>
      Settle(s, id, false, if s.attempts[id].kind == BlockingMerge then Inline(true) else Over(false)).(slot := Idle)
    case StartLaunches(id) => WithPhase(s, id, Running)
    case JobEnds(id, landed, status) => Settle(s, id, landed, Ending(status))
    case SlotClears(id) =>
      var a := s.attempts[id];
      WithPhase(s, id, Over(false)).(slot := Idle, callbacks := s.callbacks + multiset{Done(a.kind != Check, a.phase.status)})
    case CallbackEmpty(d) => s.(callbacks := s.callbacks - multiset{d})
    case CallbackDrains(d) => Drain(s).(callbacks := s.callbacks - multiset{d})
    case CallbackPops(d) =>
      WithPhase(s, s.queue[0], Dequeuing).(callbacks := s.callbacks - multiset{d}, slot := Held(s.queue[0]), queue := s.queue[1..])
    case CallbackDispatchFails(d) =>
      WithPhase(s, s.queue[0], DispatchFailed).(callbacks := s.callbacks - multiset{d}, queue := s.queue[1..])
    case DequeueLaunches(id) => WithPhase(s, id, Running).(started := s.started + [id])
    case DequeueFails(id) => WithPhase(s, id, DispatchFailed).(slot := Idle)
    case DrainAfterFailedDispatch(id) => Drain(WithPhase(s, id, Releasing))
    case Release(id) => Settle(s, id, false, Over(false)).(released := s.released + [id])
    case InlineEnds(id, landed) => Settle(s, id, landed, Over(s.attempts[id].phase.retried))
  }

  /** A run from a state: each step enabled where it is taken. */
  ghost predicate IsRun(s: State, steps: seq<Step>)
    decreases steps
  {
    steps == [] || (Enabled(s, steps[0]) && IsRun(Next(s, steps[0]), steps[1..]))
  }

  ghost function After(s: State, steps: seq<Step>): State
    requires IsRun(s, steps)
    decreases steps
  {
    if steps == [] then s else After(Next(s, steps[0]), steps[1..])
  }

  // ------------------------------------------------------------------ invariant

  /** Phases in which the attempt has its claim still to settle. */
  predicate Unsettled(p: Phase) {
    p.Preparing? || p.Queued? || p.DispatchFailed? || p.Releasing? || p.Dequeuing? || p.Starting? || p.Running?
  }

  /** How often an attempt has settled, by where it stands. */
  function DueSettles(p: Phase): nat {
    match p
    case Ending(_) => 1
    case Inline(retried) => if retried then 1 else 0
    case Over(again) => if again then 2 else 1
    case _ => 0
  }

  predicate AttemptOk(a: Attempt) {
    && a.settles == DueSettles(a.phase)
    && ((a.phase.Queued? || a.phase.DispatchFailed? || a.phase.Releasing? || a.phase.Dequeuing?) ==> a.kind == AsyncMerge)
    && (a.phase.Inline? ==> a.kind != AsyncMerge)
    && (a.phase == Inline(true) || a.phase == Over(true) ==> a.kind == BlockingMerge)
    && (a.landed ==> !Unsettled(a.phase))
    && (a.phase.Inline? ==> !a.landed)
  }

  ghost predicate Rising(ids: seq<nat>) {
    forall i, j | 0 <= i < j < |ids| :: ids[i] < ids[j]
  }

  lemma RisingHead(ids: seq<nat>)
    requires Rising(ids) && ids != []
    ensures Rising(ids[1..]) && ids[0] !in ids[1..] && forall j | j in ids[1..] :: ids[0] < j
    ensures forall j :: j in ids <==> j == ids[0] || j in ids[1..]
  {
    forall j | j in ids[1..] ensures ids[0] < j {
      var k :| 0 <= k < |ids[1..]| && ids[1..][k] == j;
      assert ids[k + 1] == j;
    }
    assert ids == [ids[0]] + ids[1..];
  }

  lemma RisingAppend(ids: seq<nat>, id: nat)
    requires Rising(ids) && forall j | j in ids :: j < id
    ensures Rising(ids + [id]) && forall j :: j in ids + [id] <==> j in ids || j == id
  {
    var more := ids + [id];
    forall i, j | 0 <= i < j < |more| ensures more[i] < more[j] {
      if j == |ids| { assert ids[i] in ids; }
    }
  }

  predicate Leaving(p: Phase) {
    p.DispatchFailed? || p.Releasing?
  }

  /** Each attempt is accounted for, and the queue and slot name exactly the attempts in them. */
  ghost predicate Inv(s: State) {
    && (forall i | 0 <= i < |s.attempts| :: AttemptOk(s.attempts[i]))
    && (forall id | id in s.queue :: InPhase(s, id, Queued))
    && (forall i | 0 <= i < |s.attempts| && s.attempts[i].phase.Queued? :: i in s.queue)
    && (s.slot.Held? ==> s.slot.id < |s.attempts| && HoldsSlot(s.attempts[s.slot.id].phase))
    && (forall i | 0 <= i < |s.attempts| && HoldsSlot(s.attempts[i].phase) :: s.slot == Held(i))
    && Rising(s.queue)
  }

  predicate HoldsSlot(p: Phase) {
    p.Dequeuing? || p.Starting? || p.Running? || p.Ending?
  }

  lemma InvInit()
    ensures Inv(INIT)
  {
  }

  /** One attempt moves on outside the queue; the slot follows it. */
  lemma InvMove(s: State, id: nat, a: Attempt, t: State)
    requires Inv(s) && id < |s.attempts| && !s.attempts[id].phase.Queued?
    requires AttemptOk(a) && !a.phase.Queued? && t.attempts == s.attempts[id := a] && t.queue == s.queue
    requires HoldsSlot(a.phase) && !HoldsSlot(s.attempts[id].phase) ==> s.slot.Idle?
    requires t.slot == if HoldsSlot(a.phase) then Held(id) else if HoldsSlot(s.attempts[id].phase) then Idle else s.slot
    ensures Inv(t)
  {
    hide AttemptOk;
  }

  lemma InvBegin(s: State, a: Attempt, t: State)
    requires Inv(s) && AttemptOk(a) && !HoldsSlot(a.phase) && t.attempts == s.attempts + [a] && t.slot == s.slot
    requires t.queue == if a.phase.Queued? then s.queue + [|s.attempts|] else s.queue
    ensures Inv(t)
  {
    hide AttemptOk, HoldsSlot, Rising;
    assert forall id | id in s.queue :: InPhase(s, id, Queued) && id < |s.attempts|;
    var n := |s.attempts|;
    RisingAppend(s.queue, n);
    forall i | 0 <= i < |t.attempts| && t.attempts[i].phase.Queued? ensures i in t.queue {
      if i != n { assert i in s.queue; }
    }
  }

  lemma InvDrain(s: State)
    requires Inv(s)
    ensures Inv(Drain(s))
  {
    var t := Drain(s);
    forall i | 0 <= i < |t.attempts| ensures AttemptOk(t.attempts[i]) {
      if i in s.queue { assert InPhase(s, i, Queued); }
    }
  }

  /** The head leaves the queue, for the slot or for a failed dispatch. */
  lemma InvPop(s: State, a: Attempt, t: State)
    requires Inv(s) && s.queue != [] && s.queue[0] < |s.attempts| && AttemptOk(a) && !a.phase.Queued?
    requires t.attempts == s.attempts[s.queue[0] := a] && t.queue == s.queue[1..]
    requires HoldsSlot(a.phase) ==> s.slot.Idle? && t.slot == Held(s.queue[0])
    requires !HoldsSlot(a.phase) ==> t.slot == s.slot
    ensures Inv(t)
  {
    hide AttemptOk;
    var h := s.queue[0];
    assert InPhase(s, h, Queued) by { assert h in s.queue; }
    assert s.queue == [h] + s.queue[1..];
    forall id | id in t.queue ensures InPhase(t, id, Queued) {
      assert id in s.queue;
      var k :| 0 <= k < |t.queue| && t.queue[k] == id;
      assert s.queue[k + 1] == id && s.queue[0] < s.queue[k + 1];
    }
  }

  lemma InvSettles(s: State, step: Step)
    requires Inv(s) && Enabled(s, step) && (step.PrepareFails? || step.StartRefused? || step.Release? || step.InlineEnds?)
    ensures Inv(Next(s, step))
  {
    hide Inv, SettleBuffer;
    AttemptAt(s, step.id);
    InvMove(s, step.id, Next(s, step).attempts[step.id], Next(s, step));
  }

  lemma InvStarts(s: State, step: Step)
    requires Inv(s) && Enabled(s, step) && (step.StartClaimsSlot? || step.StartFails? || step.StartLaunches?)
    ensures Inv(Next(s, step))
  {
    hide Inv, SettleBuffer;
    AttemptAt(s, step.id);
    InvMove(s, step.id, Next(s, step).attempts[step.id], Next(s, step));
  }

  lemma InvEnds(s: State, step: Step)
    requires Inv(s) && Enabled(s, step) && (step.JobEnds? || step.SlotClears?)
    ensures Inv(Next(s, step))
  {
    hide Inv, SettleBuffer;
    AttemptAt(s, step.id);
    InvMove(s, step.id, Next(s, step).attempts[step.id], Next(s, step));
  }

  lemma InvDequeues(s: State, step: Step)
    requires Inv(s) && Enabled(s, step) && (step.DequeueLaunches? || step.DequeueFails?)
    ensures Inv(Next(s, step))
  {
    hide Inv;
    AttemptAt(s, step.id);
    InvMove(s, step.id, Next(s, step).attempts[step.id], Next(s, step));
  }

  lemma InvBegins(s: State, step: Step)
    requires Inv(s) && Enabled(s, step) && (step.MergeAsync? || step.BeginOther?)
    ensures Inv(Next(s, step))
  {
    hide Inv;
    var t := Next(s, step);
    if t != s { InvBegin(s, t.attempts[|s.attempts|], t); }
  }

  lemma InvCallbacks(s: State, step: Step)
    requires Inv(s) && Enabled(s, step) && (step.CallbackDrains? || step.CallbackPops? || step.CallbackDispatchFails?)
    ensures Inv(Next(s, step))
  {
    hide Inv;
    var t := Next(s, step);
    if step.CallbackDrains? {
      InvDrain(s);
      InvSame(Drain(s), t);
    } else {
      HeadOk(s);
      InvPop(s, t.attempts[s.queue[0]], t);
    }
  }

  lemma InvRedrain(s: State, step: Step)
    requires Inv(s) && Enabled(s, step) && step.DrainAfterFailedDispatch?
    ensures Inv(Next(s, step))
  {
    hide Inv, Drain;
    AttemptAt(s, step.id);
    InvMove(s, step.id, s.attempts[step.id].(phase := Releasing), WithPhase(s, step.id, Releasing));
    InvDrain(WithPhase(s, step.id, Releasing));
  }

  /** Every step keeps the invariant. */
  lemma InvStep(s: State, step: Step)
    requires Inv(s) && Enabled(s, step)
    ensures Inv(Next(s, step))
  {
    hide Inv;
    if step.PrepareFails? || step.StartRefused? || step.Release? || step.InlineEnds? { InvSettles(s, step); }
    else if step.StartClaimsSlot? || step.StartFails? || step.StartLaunches? { InvStarts(s, step); }
    else if step.JobEnds? || step.SlotClears? { InvEnds(s, step); }
    else if step.DequeueLaunches? || step.DequeueFails? { InvDequeues(s, step); }
    else if step.MergeAsync? || step.BeginOther? { InvBegins(s, step); }
    else if step.DrainAfterFailedDispatch? { InvRedrain(s, step); }
    else if step.RecordAttestation? || step.CallbackEmpty? { InvSame(s, Next(s, step)); }
    else { InvCallbacks(s, step); }
  }

  lemma {:induction false} InvRun(s: State, steps: seq<Step>)
    requires Inv(s) && IsRun(s, steps)
    ensures Inv(After(s, steps))
    decreases |steps|
  {
    hide Inv, Next, Enabled;
    if steps != [] {
      InvStep(s, steps[0]);
      InvRun(Next(s, steps[0]), steps[1..]);
    }
  }

  /** The step is about attempt i, or i is queued and may be drained or started. */
  predicate Touches(s: State, step: Step, i: nat) {
    || i in s.queue || step == DrainAfterFailedDispatch(i)
    || (IsMove(step) && MovedId(step) == i)
  }

  function MovedId(step: Step): nat
    requires IsMove(step)
  {
    step.id
  }

  predicate IsMove(step: Step) {
    step.PrepareFails? || step.StartRefused? || step.StartClaimsSlot? || step.StartFails? || step.StartLaunches?
    || step.JobEnds? || step.SlotClears? || step.Release? || step.InlineEnds? || step.DequeueLaunches? || step.DequeueFails?
  }

  lemma Untouched(s: State, step: Step, i: nat)
    requires Enabled(s, step) && i < |s.attempts| && !Touches(s, step, i)
    ensures i < |Next(s, step).attempts| && Next(s, step).attempts[i] == s.attempts[i]
  {
    hide SettleBuffer, ClaimRefused;
    if s.queue != [] { assert s.queue[0] in s.queue; }
  }

  lemma InvSame(s: State, t: State)
    requires Inv(s) && t.attempts == s.attempts && t.queue == s.queue && t.slot == s.slot
    ensures Inv(t)
  {
    hide AttemptOk, HoldsSlot;
  }

  lemma HeadOk(s: State)
    requires Inv(s) && s.queue != []
    ensures InPhase(s, s.queue[0], Queued) && AttemptOk(s.attempts[s.queue[0]])
  {
    assert s.queue[0] in s.queue;
  }

  lemma AttemptAt(s: State, id: nat)
    requires Inv(s) && id < |s.attempts|
    ensures AttemptOk(s.attempts[id]) && (HoldsSlot(s.attempts[id].phase) ==> s.slot == Held(id))
  {
  }
}
