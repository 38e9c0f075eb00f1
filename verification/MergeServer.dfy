/** The queue's critical sections as the code writes them: the handler's decision
    under the queue lock, job.Start, the completion callback and its drains. Each
    is proved to be the step, or the steps, of the machine it stands for
    (cmd/spinclass/merge_queue.go, cmd/spinclass/commands_mcp_only.go). */
module MergeServer {
  import opened Text
  import opened MergeQueue
  import opened MergeQueueTheorems

  datatype Decision = RefusedBusy | RefusedGate | Enqueued(position: nat) | Dispatching(id: nat)

  class Server {
    var attempts: seq<Attempt>
    var slot: Slot
    var queue: seq<nat>
    var callbacks: multiset<Done>
    var buffer: Buffer
    var claims: nat
    var recorded: nat
    var enqueued: seq<nat>
    var started: seq<nat>
    var released: seq<nat>

    function Snapshot(): State
      reads this
    {
      State(attempts, slot, queue, callbacks, buffer, claims, recorded, enqueued, started, released)
    }

    constructor ()
      ensures Snapshot() == INIT
    {
      attempts, slot, queue, callbacks, buffer := [], Idle, [], multiset{}, Empty;
      claims, recorded, enqueued, started, released := 0, 0, [], [], [];
    }

    /** Claim for a new attempt, or a zero hold for one no attestation admits. */
    method AddAttempt(kind: Kind, gated: bool, phase: Phase) returns (id: nat)
      requires gated ==> !ClaimRefused(buffer)
      modifies this`attempts, this`buffer, this`claims
      ensures Snapshot() == Begin(old(Snapshot()), kind, gated, phase) && id == |old(attempts)|
      ensures attempts == old(attempts) + [if gated then Attempt(kind, Some(old(buffer).id), old(claims), phase, 0, false)
                                           else Attempt(kind, None, 0, phase, 0, false)]
      ensures buffer == (if gated then Buffered(old(buffer).id, Some(old(claims))) else old(buffer))
    {
      id := |attempts|;
      if gated {
        attempts := attempts + [Attempt(kind, Some(buffer.id), claims, phase, 0, false)];
        buffer := Buffered(buffer.id, Some(claims));
        claims := claims + 1;
      } else {
        attempts := attempts + [Attempt(kind, None, 0, phase, 0, false)];
      }
    }

    /** hold.settle, then the attempt goes on in phase. */
    method SettleHold(id: nat, landed: bool, phase: Phase)
      requires id < |attempts|
      modifies this`attempts, this`buffer
      ensures Snapshot() == Settle(old(Snapshot()), id, landed, phase)
      ensures var a := old(attempts)[id];
        attempts == old(attempts)[id := Attempt(a.kind, a.attestation, a.ticket, phase, a.settles + 1, a.landed || landed)]
      ensures var a := old(attempts)[id];
        buffer == if a.attestation.Some? && old(buffer).Buffered? && old(buffer).claim == Some(a.ticket)
                  then if landed then Empty else Buffered(old(buffer).id, None)
                  else old(buffer)
    {
      var a := attempts[id];
      if a.attestation.Some? && buffer.Buffered? && buffer.claim == Some(a.ticket) {
        buffer := if landed then Empty else Buffered(buffer.id, None);
      }
      attempts := attempts[id := a.(phase := phase, settles := a.settles + 1, landed := a.landed || landed)];
    }

    /** The locked region of handleMergeThisSessionAsync. */
    method DecideMergeAsync(gated: bool, stackingDisabled: bool) returns (r: Decision)
      requires !Locked(Snapshot())
      modifies this
      ensures Snapshot() == Next(old(Snapshot()), MergeAsync(gated, stackingDisabled))
      ensures r.RefusedBusy? <==> old(slot.Held? || queue != []) && stackingDisabled
      ensures r.RefusedGate? <==> !(old(slot.Held? || queue != []) && stackingDisabled) && gated && !old(buffer.Buffered? && buffer.claim == None)
      ensures r.RefusedBusy? || r.RefusedGate? ==> Snapshot() == old(Snapshot())
      ensures r.Enqueued? || r.Dispatching? ==>
        var a := Attempt(AsyncMerge, if gated then Some(old(buffer).id) else None, if gated then old(claims) else 0,
                         if r.Enqueued? then Queued else Preparing, 0, false);
        attempts == old(attempts) + [a] && buffer == if gated then Buffered(old(buffer).id, Some(a.ticket)) else old(buffer)
      ensures r.Enqueued? <==> |queue| > |old(queue)|
      ensures r.Enqueued? ==> r.position == |queue| && queue[r.position - 1] == |old(attempts)|
      ensures r.Dispatching? ==> InPhase(Snapshot(), r.id, Preparing) && queue == []
    {
      var busy := slot.Held? || queue != [];
      if busy && stackingDisabled { return RefusedBusy; }
      if gated && ClaimRefused(buffer) { return RefusedGate; }
      if busy {
        var id := AddAttempt(AsyncMerge, gated, Queued);
        queue := queue + [id];
        enqueued := enqueued + [id];
        return Enqueued(|queue|);
      }
      var id := AddAttempt(AsyncMerge, gated, Preparing);
      return Dispatching(id);
    }

    /** startSessionJob: job.Start with the handler's release when it did not start.
        Whether the wake could be wakeReady is not known beforehand. */
    method StartSessionJob(id: nat) returns (ok: bool, ghost steps: seq<Step>)
      requires InPhase(Snapshot(), id, Preparing)
      modifies this
      ensures IsRun(old(Snapshot()), steps) && Snapshot() == After(old(Snapshot()), steps)
      ensures steps == (if old(slot).Held? then [StartRefused(id)]
                        else if ok then [StartClaimsSlot(id), StartLaunches(id)] else [StartClaimsSlot(id), StartFails(id)])
    {
      hide IsRun, After, Next, Enabled, Settle;
      if slot.Held? {
        StartIs(Snapshot(), id);
        SettleHold(id, false, Over(false));
        steps := [StartRefused(id)];
        OneStep(old(Snapshot()), StartRefused(id));
        return false, steps;
      }
      StartIs(Snapshot(), id);
      attempts, slot := attempts[id := attempts[id].(phase := Starting)], Held(id);
      ghost var claimed := Snapshot();
      LaunchIs(claimed, id);
      var wakeReady: bool := *;
      if wakeReady {
        attempts := attempts[id := attempts[id].(phase := Running)];
        TwoSteps(old(Snapshot()), StartClaimsSlot(id), StartLaunches(id));
        return true, [StartClaimsSlot(id), StartLaunches(id)];
      }
      var phase := if attempts[id].kind == BlockingMerge then Inline(true) else Over(false);
      slot := Idle;
      SettleIgnoresSlot(claimed, id, phase);
      SettleHold(id, false, phase);
      TwoSteps(old(Snapshot()), StartClaimsSlot(id), StartFails(id));
      return false, [StartClaimsSlot(id), StartFails(id)];
    }

    /** processMergeQueue up to the end of its first locked region. */
    method ProcessMergeQueue(done: Done) returns (ghost steps: seq<Step>)
      requires done in callbacks && Inv(Snapshot()) && !Locked(Snapshot())
      modifies this
      ensures IsRun(old(Snapshot()), steps) && Snapshot() == After(old(Snapshot()), steps) && !Locked(Snapshot())
      ensures steps != []
      ensures steps[0] == (if old(queue) == [] then CallbackEmpty(done)
                           else if done.merge && done.status != Succeeded then CallbackDrains(done)
                           else if old(slot).Held? then CallbackDispatchFails(done) else CallbackPops(done))
      ensures steps == [steps[0]]
           || (steps[0].CallbackPops? && steps in {[steps[0], DequeueLaunches(old(queue)[0])], [steps[0], DequeueFails(old(queue)[0])]})
    {
      hide Inv, Drain, IsRun, After;
      ghost var before := Snapshot();
      callbacks := callbacks - multiset{done};
      if queue == [] {
        OneStep(before, CallbackEmpty(done));
        return [CallbackEmpty(done)];
      }
      if done.merge && done.status != Succeeded {
        DrainQueue();
        DrainIgnoresCallbacks(before, callbacks);
        OneStep(before, CallbackDrains(done));
        DrainKeepsSlot(before);
        return [CallbackDrains(done)];
      }
      HeadOk(before);
      steps := PopAndStart(done, before);
    }

    /** The rest of the locked region: pop the head and start it, still under the
        lock. job.Start takes the slot, or is refused, and clears it again when the
        wake cannot be allocated. */
    method PopAndStart(ghost done: Done, ghost before: State) returns (ghost steps: seq<Step>)
      requires Snapshot() == before.(callbacks := before.callbacks - multiset{done})
      requires done in before.callbacks && !Drains(done) && !Locked(before) && queue != [] && queue[0] < |attempts|
      modifies this`attempts, this`queue, this`slot, this`started
      ensures IsRun(before, steps) && Snapshot() == After(before, steps) && !Locked(Snapshot())
      ensures old(slot).Held? ==> steps == [CallbackDispatchFails(done)]
      ensures old(slot).Idle? ==>
        steps in {[CallbackPops(done), DequeueLaunches(old(queue)[0])], [CallbackPops(done), DequeueFails(old(queue)[0])]}
    {
      hide Inv, IsRun, After, Next, Enabled;
      var next := queue[0];
      queue := queue[1..];
      if slot.Held? {
        attempts := attempts[next := attempts[next].(phase := DispatchFailed)];
        RefusalIs(before, done);
        OneStep(before, CallbackDispatchFails(done));
        return [CallbackDispatchFails(done)];
      }
      slot, attempts := Held(next), attempts[next := attempts[next].(phase := Dequeuing)];
      ghost var claimed := Snapshot();
      PopIs(before, done);
      var wakeReady: bool := *;
      if wakeReady {
        attempts, started := attempts[next := attempts[next].(phase := Running)], started + [next];
        DequeuesAre(claimed, next);
        TwoSteps(before, CallbackPops(done), DequeueLaunches(next));
        return [CallbackPops(done), DequeueLaunches(next)];
      }
      slot, attempts := Idle, attempts[next := attempts[next].(phase := DispatchFailed)];
      DequeuesAre(claimed, next);
      TwoSteps(before, CallbackPops(done), DequeueFails(next));
      return [CallbackPops(done), DequeueFails(next)];
    }

    /** The queue is emptied and its entries handed to the release loop. */
    method DrainQueue()
      modifies this`attempts, this`queue
      ensures Snapshot() == Drain(old(Snapshot()))
    {
      var all, drained := attempts, queue;
      attempts := seq(|all|, i requires 0 <= i < |all| => if i in drained then all[i].(phase := Releasing) else all[i]);
      queue := [];
    }

    /** The second locked region, after the popped entry could not be dispatched. */
    method DrainAfterFailedStart(id: nat)
      requires InPhase(Snapshot(), id, DispatchFailed) && !Locked(Snapshot())
      modifies this
      ensures Snapshot() == Next(old(Snapshot()), DrainAfterFailedDispatch(id))
    {
      attempts := attempts[id := attempts[id].(phase := Releasing)];
      DrainQueue();
    }

    /** The release loop outside the lock. */
    method ReleaseDrained(ids: seq<nat>)
      requires ReleasedUpTo(Snapshot(), ids, 0)
      modifies this
      ensures IsRun(old(Snapshot()), Releases(ids)) && Snapshot() == After(old(Snapshot()), Releases(ids))
      ensures ReleasedUpTo(Snapshot(), ids, |ids|)
    {
      ghost var first := Snapshot();
      assert Releases(ids[..0]) == [] && IsRun(first, []) && After(first, []) == first;
      hide Next, Enabled, IsRun, After, ReleasedUpTo;
      for i := 0 to |ids|
        invariant ReleasedUpTo(Snapshot(), ids, i)
        invariant IsRun(first, Releases(ids[..i])) && Snapshot() == After(first, Releases(ids[..i]))
      {
        ReleasesOneMore(first, ids, i);
        ReleaseOne(ids[i]);
      }
      assert ids[..|ids|] == ids;
    }

    /** releaseHold of one drained entry. */
    method ReleaseOne(id: nat)
      requires InPhase(Snapshot(), id, Releasing)
      modifies this
      ensures Snapshot() == Next(old(Snapshot()), Release(id))
    {
      SettleHold(id, false, Over(false));
      released := released + [id];
    }
  }

  /** The first n of some distinct drained entries are over, the others still to be released. */
  ghost predicate ReleasedUpTo(s: State, ids: seq<nat>, n: nat) {
    && (forall k, l | 0 <= k < l < |ids| :: ids[k] != ids[l])
    && (forall k | 0 <= k < |ids| :: InPhase(s, ids[k], if k < n then Over(false) else Releasing))
  }

  lemma StartIs(s: State, id: nat)
    requires InPhase(s, id, Preparing)
    ensures s.slot.Held? ==> Enabled(s, StartRefused(id)) && Next(s, StartRefused(id)) == Settle(s, id, false, Over(false))
    ensures s.slot.Idle? ==> Enabled(s, StartClaimsSlot(id))
    ensures s.slot.Idle? ==> Next(s, StartClaimsSlot(id)) == WithPhase(s, id, Starting).(slot := Held(id))
  {
    hide Settle;
  }

  lemma LaunchIs(s: State, id: nat)
    requires InPhase(s, id, Starting)
    ensures Enabled(s, StartLaunches(id)) && Enabled(s, StartFails(id))
    ensures Next(s, StartLaunches(id)) == WithPhase(s, id, Running)
    ensures Next(s, StartFails(id))
      == Settle(s, id, false, if s.attempts[id].kind == BlockingMerge then Inline(true) else Over(false)).(slot := Idle)
  {
    hide Settle;
  }

  lemma SettleIgnoresSlot(s: State, id: nat, phase: Phase)
    requires id < |s.attempts|
    ensures Settle(s.(slot := Idle), id, false, phase) == Settle(s, id, false, phase).(slot := Idle)
  {
  }

  lemma RefusalIs(s: State, d: Done)
    requires d in s.callbacks && !Drains(d) && !Locked(s) && s.queue != [] && s.queue[0] < |s.attempts| && s.slot.Held?
    ensures Enabled(s, CallbackDispatchFails(d))
    ensures !Locked(Next(s, CallbackDispatchFails(d)))
    ensures Next(s, CallbackDispatchFails(d))
      == WithPhase(s, s.queue[0], DispatchFailed).(callbacks := s.callbacks - multiset{d}, queue := s.queue[1..])
  {
  }

  lemma PopIs(s: State, d: Done)
    requires d in s.callbacks && !Drains(d) && s.queue != [] && s.queue[0] < |s.attempts| && s.slot.Idle?
    ensures Enabled(s, CallbackPops(d))
    ensures Next(s, CallbackPops(d)) == WithPhase(s, s.queue[0], Dequeuing).(
      callbacks := s.callbacks - multiset{d}, slot := Held(s.queue[0]), queue := s.queue[1..])
  {
  }

  lemma DequeuesAre(s: State, id: nat)
    requires InPhase(s, id, Dequeuing) && s.slot == Held(id)
    ensures Enabled(s, DequeueLaunches(id)) && Enabled(s, DequeueFails(id))
    ensures Next(s, DequeueLaunches(id)) == WithPhase(s, id, Running).(started := s.started + [id])
    ensures Next(s, DequeueFails(id)) == WithPhase(s, id, DispatchFailed).(slot := Idle)
    ensures !Locked(Next(s, DequeueLaunches(id))) && !Locked(Next(s, DequeueFails(id)))
  {
  }

  lemma DrainKeepsSlot(s: State)
    requires Inv(s) && !Locked(s)
    ensures !Locked(Drain(s))
  {
  }

  lemma DrainIgnoresCallbacks(s: State, callbacks: multiset<Done>)
    ensures Drain(s.(callbacks := callbacks)) == Drain(s).(callbacks := callbacks)
  {
    assert Drain(s.(callbacks := callbacks)).attempts == Drain(s).attempts;
  }

  function Releases(ids: seq<nat>): (steps: seq<Step>)
    ensures |steps| == |ids| && forall k | 0 <= k < |ids| :: steps[k] == Release(ids[k])
  {
    seq(|ids|, k requires 0 <= k < |ids| => Release(ids[k]))
  }

  lemma ReleasedOne(s: State, ids: seq<nat>, i: nat)
    requires i < |ids| && ReleasedUpTo(s, ids, i)
    ensures InPhase(s, ids[i], Releasing) && ReleasedUpTo(Next(s, Release(ids[i])), ids, i + 1)
  {
  }

  lemma ReleasesOneMore(first: State, ids: seq<nat>, i: nat)
    requires i < |ids| && IsRun(first, Releases(ids[..i])) && ReleasedUpTo(After(first, Releases(ids[..i])), ids, i)
    ensures var s := After(first, Releases(ids[..i]));
      && InPhase(s, ids[i], Releasing) && IsRun(first, Releases(ids[..i + 1]))
      && After(first, Releases(ids[..i + 1])) == Next(s, Release(ids[i])) && ReleasedUpTo(Next(s, Release(ids[i])), ids, i + 1)
  {
    ReleasedOne(After(first, Releases(ids[..i])), ids, i);
    hide Next, IsRun, After, ReleasedUpTo;
    RunSnoc(first, Releases(ids[..i]), Release(ids[i]));
    assert Releases(ids[..i + 1]) == Releases(ids[..i]) + [Release(ids[i])];
  }

  lemma OneStep(s: State, step: Step)
    requires Enabled(s, step)
    ensures IsRun(s, [step]) && After(s, [step]) == Next(s, step)
  {
    hide Enabled, Next;
    var none: seq<Step> := [];
    assert [step][1..] == none && IsRun(Next(s, step), none) && After(Next(s, step), none) == Next(s, step);
  }

  lemma {:induction false} RunSnoc(s: State, steps: seq<Step>, step: Step)
    requires IsRun(s, steps) && Enabled(After(s, steps), step)
    ensures IsRun(s, steps + [step]) && After(s, steps + [step]) == Next(After(s, steps), step)
    decreases |steps|
  {
    hide Next, Enabled;
    if steps == [] {
      assert (steps + [step])[1..] == steps;
    } else {
      RunSnoc(Next(s, steps[0]), steps[1..], step);
      assert (steps + [step])[1..] == steps[1..] + [step];
    }
  }
}
