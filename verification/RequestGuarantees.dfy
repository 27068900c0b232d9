/** The guarantees of the request lifecycle, for every run from an empty table. */
module RequestGuarantees {
  import opened Options
  import opened RequestModel
  import opened RequestRuns

  ghost predicate Reached(steps: seq<Step>, s: State) {
    s == After(Init(), steps)
  }

  /** Conservation: every registration is pending, claimed by exactly one task, answered by
      exactly one message or overwritten, and in only one of these places. */
  lemma Conservation(steps: seq<Step>, s: State, i: nat)
    requires Reached(steps, s) && i < |s.registered|
    ensures (if IsPending(s, i) then 1 else 0) + ClaimCount(s.tasks, i) + AnswerCount(s.sent, i)
      + (if i in s.replaced then 1 else 0) == 1
  {
    RunKeeps(steps);
    assert Places(s, i) == 1;
  }

  lemma {:induction false} AnsweredTwice(sent: seq<Reply>, j: nat, k: nat)
    requires j < k < |sent|
    ensures sent[j].identity == sent[k].identity ==> AnswerCount(sent, sent[k].identity) >= 2
  {
    var n := |sent| - 1;
    if k < n {
      AnsweredTwice(sent[..n], j, k);
    } else {
      AnsweredOnce(sent[..n], j);
    }
  }

  lemma {:induction false} AnsweredOnce(sent: seq<Reply>, j: nat)
    requires j < |sent|
    ensures AnswerCount(sent, sent[j].identity) >= 1
  {
    if j < |sent| - 1 {
      AnsweredOnce(sent[..|sent| - 1], j);
    }
  }

  /** No cross-talk: two messages never answer the same registration; every message answers
      a registration made under its id, and a result meant for one registration answers
      that one, even when its id has been used again since. */
  lemma NoCrossTalk(steps: seq<Step>, s: State, k: nat)
    requires Reached(steps, s) && k < |s.sent|
    ensures s.sent[k].identity < |s.registered|
    ensures s.registered[s.sent[k].identity].id == s.sent[k].id
    ensures s.sent[k].target.Some? ==> s.sent[k].target.value == s.sent[k].identity
    ensures forall j :: 0 <= j < k ==> s.sent[j].identity != s.sent[k].identity
  {
    RunKeeps(steps);
    assert Places(s, s.sent[k].identity) == 1;
    forall j | 0 <= j < k ensures s.sent[j].identity != s.sent[k].identity {
      AnsweredTwice(s.sent, j, k);
    }
  }

  /** Whoever answered a request, its flag is set by then: a future still waiting for it is
      dropped at its next poll and sends nothing. */
  lemma AnsweredIsWoken(steps: seq<Step>, s: State, k: nat, j: nat, ready: Option<Body>)
    requires Reached(steps, s) && k < |s.sent| && j < |s.tasks| && s.tasks[j].Waiting?
    requires s.tasks[j].identity == s.sent[k].identity
    ensures var s' := Next(s, Advance(j, ready));
      s'.tasks[j] == Finished(Some(s.sent[k].identity)) && s'.sent == s.sent && s'.started == s.started
  {
    RunKeeps(steps);
  }

  /** A flag is set only for a registration that is not pending or that a cancel is about
      to answer; so a request that may not be cancelled is never aborted while pending. */
  lemma AbortIsSafe(steps: seq<Step>, s: State, i: nat)
    requires Reached(steps, s) && i in s.aborted && IsPending(s, i)
    ensures CancelInFlight(s, i) && Cancellable(s.registered[i].name)
  {
    RunKeeps(steps);
    var k :| 0 <= k < |s.tasks| && Cancels(s.tasks[k], i);
    assert TaskOk(s, s.tasks[k]);
  }

  /** When nothing is left to do every registration is pending, answered exactly once or
      overwritten; and one that a finished task had a result or a future for is not
      pending. */
  lemma QuietMeansSettled(steps: seq<Step>, s: State, i: nat)
    requires Reached(steps, s) && i < |s.registered|
    requires forall k :: 0 <= k < |s.tasks| ==> s.tasks[k].Finished?
    ensures IsPending(s, i) || AnswerCount(s.sent, i) == 1 || i in s.replaced
    ensures Finished(Some(i)) in s.tasks ==> (AnswerCount(s.sent, i) == 1 <==> i !in s.replaced)
  {
    RunKeeps(steps);
    NoClaim(s.tasks, i);
    assert Places(s, i) == 1;
    if Finished(Some(i)) in s.tasks {
      var k :| 0 <= k < |s.tasks| && s.tasks[k] == Finished(Some(i));
      assert TaskOk(s, s.tasks[k]);
    }
  }

  // ------------------------------------------------------------ no lost result

  /** How far the future of task k, scheduled for registration i, got with the results it
      was polled ready with: still waiting, on the way with the result, or done. */
  ghost predicate Progress(s: State, k: nat, id: RequestId, i: nat, results: seq<Body>) {
    && k < |s.tasks| && Names(s, id, i)
    && match s.tasks[k]
       case Waiting(id', i') => id' == id && i' == i && results == []
       case Answering(id', target, body, cancels) =>
         id' == id && target == Some(i) && !cancels && results == [body]
       case Claimed(id', i', target, body) => id' == id && i' == i && target == Some(i) && results == [body]
       case Sending(id', i', target, body) => id' == id && i' == i && target == Some(i) && results == [body]
       case Finished(about) =>
         && about == Some(i)
         && if results == [] then i in s.aborted
            else |results| == 1 && (Reply(id, i, Some(i), results[0]) in s.sent || !IsPending(s, i))
       case _ => false
  }

  /** A poll of task k that is not stopped by the flag and gives a result. */
  predicate Delivers(s: State, step: Step, k: nat) {
    && step.Advance? && step.task == k && step.ready.Some?
    && k < |s.tasks| && s.tasks[k].Waiting? && s.tasks[k].identity !in s.aborted
  }

  /** The results taken from the future of task k. */
  function Given(s: State, steps: seq<Step>, k: nat): seq<Body> {
    if steps == [] then []
    else
      var n := |steps| - 1;
      Given(s, steps[..n], k) + if Delivers(After(s, steps[..n]), steps[n], k) then [steps[n].ready.value] else []
  }

  /** What a step does to the rest of the state: messages stay, registrations stay under
      their numbers, none becomes pending again, flags stay. */
  lemma StepGrows(s: State, step: Step)
    requires TableOk(s)
    ensures var s' := Next(s, step);
      && (forall r :: r in s.sent ==> r in s'.sent) && s.aborted <= s'.aborted
      && |s.registered| <= |s'.registered| && s'.registered[..|s.registered|] == s.registered
      && |s.tasks| <= |s'.tasks|
      && (forall j :: 0 <= j < |s.tasks| && step != Advance(j, if step.Advance? then step.ready else None) ==>
            s'.tasks[j] == s.tasks[j])
      && forall i: nat :: i < |s.registered| && IsPending(s', i) ==> IsPending(s, i)
  {
  }

  lemma ProgressOther(s: State, s': State, k: nat, id: RequestId, i: nat, results: seq<Body>)
    requires Progress(s, k, id, i, results)
    requires |s.tasks| <= |s'.tasks| && s'.tasks[k] == s.tasks[k] && s.aborted <= s'.aborted
    requires |s.registered| <= |s'.registered| && s'.registered[..|s.registered|] == s.registered
    requires forall r :: r in s.sent ==> r in s'.sent
    requires IsPending(s', i) ==> IsPending(s, i)
    ensures Progress(s', k, id, i, results)
  {
    assert s'.registered[i] == s'.registered[..|s.registered|][i];
  }

  lemma ProgressSelf(s: State, k: nat, ready: Option<Body>, id: RequestId, i: nat, results: seq<Body>)
    requires Progress(s, k, id, i, results)
    ensures Progress(Next(s, Advance(k, ready)), k, id, i,
                     results + if Delivers(s, Advance(k, ready), k) then [ready.value] else [])
  {
    var s' := Next(s, Advance(k, ready));
    if s.tasks[k].Sending? {
      assert s'.sent[|s.sent|] == Reply(id, i, Some(i), results[0]);
    }
    if s.tasks[k].Finished? {
      assert s'.tasks == s.tasks;
    }
  }

  lemma ProgressStep(s: State, step: Step, k: nat, id: RequestId, i: nat, results: seq<Body>)
    requires TableOk(s) && Progress(s, k, id, i, results)
    ensures Progress(Next(s, step), k, id, i,
                     results + if Delivers(s, step, k) then [step.ready.value] else [])
  {
    hide Next;
    if step.Advance? && step.task == k {
      ProgressSelf(s, k, step.ready, id, i, results);
    } else {
      StepGrows(s, step);
      ProgressOther(s, Next(s, step), k, id, i, results);
      assert results + [] == results;
    }
  }

  lemma {:induction false} ProgressRun(s: State, steps: seq<Step>, k: nat, id: RequestId, i: nat)
    requires Inv(s) && Progress(s, k, id, i, [])
    ensures Inv(After(s, steps)) && Progress(After(s, steps), k, id, i, Given(s, steps, k))
  {
    hide Next, Delivers;
    if steps != [] {
      var n := |steps| - 1;
      ProgressRun(s, steps[..n], k, id, i);
      NextKeeps(After(s, steps[..n]), steps[n]);
      ProgressStep(After(s, steps[..n]), steps[n], k, id, i, Given(s, steps[..n], k));
    }
  }

  /** No lost result, in every run from every reached state, whatever races with the future
      of registration i. While it waits no result was taken. Once a result is taken, it and
      no other is what its task carries, for i only. A task that is done was either stopped
      by the flag, with i gone or a cancel about to answer it, or its result is sent, or
      somebody else had claimed, answered or overwritten i before. */
  lemma ResultIsSent(before: seq<Step>, s: State, steps: seq<Step>, k: nat, id: RequestId, i: nat)
    requires Reached(before, s) && k < |s.tasks| && s.tasks[k] == Waiting(id, i)
    ensures var s', results := After(s, steps), Given(s, steps, k);
      && k < |s'.tasks|
      && match s'.tasks[k]
         case Waiting(id', i') => id' == id && i' == i && results == []
         case Finished(about) =>
           && about == Some(i)
           && if results == []
              then i in s'.aborted && (IsPending(s', i) ==> CancelInFlight(s', i))
              else || Reply(id, i, Some(i), results[0]) in s'.sent
                   || ClaimCount(s'.tasks, i) + AnswerCount(s'.sent, i) + (if i in s'.replaced then 1 else 0) == 1
         case Answering(id', target, body, _) => id' == id && target == Some(i) && results == [body]
         case Claimed(id', i', target, body) => id' == id && i' == i && target == Some(i) && results == [body]
         case Sending(id', i', target, body) => id' == id && i' == i && target == Some(i) && results == [body]
         case _ => false
  {
    RunKeeps(before);
    assert TaskOk(s, s.tasks[k]);
    ProgressRun(s, steps, k, id, i);
    var s' := After(s, steps);
    assert TaskOk(s', s'.tasks[k]);
    assert Places(s', i) == 1;
  }

  // ------------------------------------------------ one future per registration

  predicate IsArmed(t: Task) {
    (t.Tail? && t.armed) || t.Waiting?
  }

  /** The abort registration of a request is in one place: in the table, or with one task. */
  ghost predicate ArmsOk(s: State) {
    && (forall j, k :: 0 <= j < k < |s.tasks| && IsArmed(s.tasks[j]) && IsArmed(s.tasks[k]) ==>
          s.tasks[j].identity != s.tasks[k].identity)
    && (forall k, id :: 0 <= k < |s.tasks| && IsArmed(s.tasks[k]) && id in s.pending ==>
          s.pending[id].identity == s.tasks[k].identity ==> s.pending[id].taken)
  }

  lemma ArmsAdvance(s: State, k: nat, ready: Option<Body>)
    requires ArmsOk(s)
    ensures ArmsOk(Next(s, Advance(k, ready)))
  {
    if k < |s.tasks| {
      var t := Continue(s, s.tasks[k], ready).1;
      assert IsArmed(t) ==> IsArmed(s.tasks[k]) && t.identity == s.tasks[k].identity;
    }
  }

  lemma ArmsSchedule(s: State, id: RequestId, outcome: Scheduled)
    requires TableOk(s) && TasksOk(s) && ArmsOk(s)
    ensures ArmsOk(OnSchedule(s, id, outcome))
  {
    var s' := OnSchedule(s, id, outcome);
    if id in s.pending {
      assert forall j :: 0 <= j < |s.tasks| ==> s'.tasks[j] == s.tasks[j];
    }
  }

  lemma ArmsStep(s: State, step: Step)
    requires Inv(s) && ArmsOk(s)
    ensures ArmsOk(Next(s, step))
  {
    match step
    case Register(id, name) =>
      forall k | 0 <= k < |s.tasks| && IsArmed(s.tasks[k]) ensures s.tasks[k].identity < |s.registered| {
        assert TaskOk(s, s.tasks[k]);
      }
    case Schedule(id, outcome) => ArmsSchedule(s, id, outcome);
    case Advance(k, ready) => ArmsAdvance(s, k, ready);
    case _ =>
  }

  lemma {:induction false} ArmsRun(steps: seq<Step>)
    ensures ArmsOk(After(Init(), steps))
  {
    if steps != [] {
      ArmsRun(steps[..|steps| - 1]);
      RunKeeps(steps[..|steps| - 1]);
      ArmsStep(After(Init(), steps[..|steps| - 1]), steps[|steps| - 1]);
    }
  }

  /** Scheduling a future: it waits iff the request still has its abort registration, else
      it is dropped unpolled, although the request is still pending. */
  lemma SecondFutureIsDropped(s: State, id: RequestId)
    requires id in s.pending
    ensures var k := |s.tasks|;
      var s' := Next(Next(s, Schedule(id, Future)), Advance(k, None));
      && s'.pending == s.pending[id := s.pending[id].(taken := true)]
      && s'.sent == s.sent && s'.started == s.started
      && s'.tasks == s.tasks + [if s.pending[id].taken then Finished(None) else Waiting(id, s.pending[id].identity)]
  {
    var s1 := Next(s, Schedule(id, Future));
    assert s1.tasks[|s.tasks|] == Tail(id, s.pending[id].identity, !s.pending[id].taken, Future);
  }

  /** A future scheduled now ends unpolled, with the request still pending. */
  ghost predicate DropsFuture(s: State, id: RequestId) {
    var s' := Next(Next(s, Schedule(id, Future)), Advance(|s.tasks|, None));
    && s'.tasks == s.tasks + [Finished(None)]
    && s'.pending == s.pending && s'.sent == s.sent && s'.started == s.started
  }

  /** The abort registration is handed out once: in every run at most one future waits, or
      is going to wait, for a registration; while it does, any other future scheduled for
      the pending request is dropped unpolled. */
  lemma OneFutureWaits(steps: seq<Step>, s: State, j: nat, k: nat)
    requires Reached(steps, s) && j < |s.tasks| && k < |s.tasks|
    requires IsArmed(s.tasks[j]) && IsArmed(s.tasks[k]) && s.tasks[j].identity == s.tasks[k].identity
    ensures j == k
    ensures forall id :: id in s.pending ==>
      s.pending[id].identity == s.tasks[k].identity ==> DropsFuture(s, id)
  {
    ArmsRun(steps);
    forall id | id in s.pending && s.pending[id].identity == s.tasks[k].identity ensures DropsFuture(s, id) {
      SecondFutureIsDropped(s, id);
      assert s.pending[id := s.pending[id].(taken := true)] == s.pending;
    }
  }

  // ---------------------------------------------------------------- without rivals

  /** A task other than the waiting one that may still claim or abort registration i: a
      cancel of i, an answer for i or for whatever has its id, a result for i. Tasks of
      earlier registrations of the id are none. */
  predicate Rivals(t: Task, id: RequestId, i: nat) {
    match t
    case Cancelling(_, i') => i' == i
    case Answering(id', target, _, _) => id' == id && (target.None? || target == Some(i))
    case Tail(_, i', _, outcome) => i' == i && (outcome.Done? || outcome.Failed?)
    case _ => false
  }

  /** A step that brings no rival: cancels of a request that may not be cancelled and
      further futures do not. */
  predicate Harmless(step: Step, id: RequestId, name: string) {
    match step
    case Register(id', _) => id' != id
    case Cancel(id') => id' != id || !Cancellable(name)
    case Respond(id', _) => id' != id
    case Schedule(id', outcome) => id' != id || outcome.Future? || outcome.Gone?
    case Advance(_, _) => true
  }

  ghost predicate Unrivalled(s: State, k: nat, id: RequestId, i: nat) {
    forall j :: 0 <= j < |s.tasks| && j != k ==> !Rivals(s.tasks[j], id, i)
  }

  /** No other task holds the abort registration of i, and none will get it. */
  ghost predicate SoleArm(s: State, k: nat, id: RequestId, i: nat) {
    && (forall j :: 0 <= j < |s.tasks| && j != k && IsArmed(s.tasks[j]) ==> s.tasks[j].identity != i)
    && (id in s.pending && s.pending[id].identity == i ==> s.pending[id].taken)
  }

  /** The future of task k has registration i to itself. */
  ghost predicate Ours(s: State, k: nat, id: RequestId, i: nat, results: seq<Body>) {
    && Progress(s, k, id, i, results)
    && (s.tasks[k].Waiting? ==> IsPending(s, i) && i !in s.aborted)
    && (s.tasks[k].Answering? ==> IsPending(s, i))
    && (s.tasks[k].Finished? ==> |results| == 1 && Reply(id, i, Some(i), results[0]) in s.sent)
  }

  lemma UnrivalledStep(s: State, step: Step, k: nat, id: RequestId, i: nat)
    requires TableOk(s) && TasksOk(s) && Unrivalled(s, k, id, i) && SoleArm(s, k, id, i) && Names(s, id, i)
    requires k < |s.tasks| && Harmless(step, id, s.registered[i].name)
    ensures Unrivalled(Next(s, step), k, id, i) && SoleArm(Next(s, step), k, id, i)
  {
    var s' := Next(s, step);
    if step.Advance? && step.task < |s.tasks| {
      assert TaskOk(s, s.tasks[step.task]);
    }
  }

  /** A step of another task, which is no rival, leaves i pending and its flag clear. */
  lemma OthersLeave(s: State, step: Step, k: nat, id: RequestId, i: nat)
    requires Inv(s) && Unrivalled(s, k, id, i) && Names(s, id, i) && k < |s.tasks|
    requires Harmless(step, id, s.registered[i].name) && IsPending(s, i)
    requires step.Advance? ==> step.task != k
    ensures IsPending(Next(s, step), i) && (i !in s.aborted ==> i !in Next(s, step).aborted)
  {
    if step.Advance? && step.task < |s.tasks| {
      var t := s.tasks[step.task];
      assert TaskOk(s, t);
      if t.Claimed? {
        ClaimedIsGone(s, step.task);
      }
    }
  }

  lemma OursSelf(s: State, k: nat, ready: Option<Body>, id: RequestId, i: nat, results: seq<Body>)
    requires Ours(s, k, id, i, results)
    ensures Ours(Next(s, Advance(k, ready)), k, id, i,
                 results + if Delivers(s, Advance(k, ready), k) then [ready.value] else [])
  {
    var s' := Next(s, Advance(k, ready));
    ProgressSelf(s, k, ready, id, i, results);
    if s.tasks[k].Sending? {
      assert s'.sent[|s.sent|] == Reply(id, i, Some(i), results[0]);
    }
  }

  lemma OursStep(s: State, step: Step, k: nat, id: RequestId, i: nat, results: seq<Body>)
    requires Inv(s) && Ours(s, k, id, i, results) && Unrivalled(s, k, id, i)
    requires Harmless(step, id, s.registered[i].name)
    ensures Ours(Next(s, step), k, id, i,
                 results + if Delivers(s, step, k) then [step.ready.value] else [])
  {
    hide Next, Unrivalled, Harmless;
    if step.Advance? && step.task == k {
      OursSelf(s, k, step.ready, id, i, results);
    } else {
      ProgressStep(s, step, k, id, i, results);
      StepGrows(s, step);
      if IsPending(s, i) {
        OthersLeave(s, step, k, id, i);
      }
      assert results + [] == results;
    }
  }

  lemma {:induction false} OursRun(s: State, steps: seq<Step>, k: nat, id: RequestId, i: nat)
    requires Inv(s) && Unrivalled(s, k, id, i) && SoleArm(s, k, id, i) && Ours(s, k, id, i, [])
    requires forall j :: 0 <= j < |steps| ==> Harmless(steps[j], id, s.registered[i].name)
    ensures var s' := After(s, steps);
      && Inv(s') && Unrivalled(s', k, id, i) && SoleArm(s', k, id, i) && Ours(s', k, id, i, Given(s, steps, k))
      && s'.registered[i].name == s.registered[i].name
  {
    hide Next, Delivers, Unrivalled, SoleArm, Harmless;
    if steps != [] {
      var n := |steps| - 1;
      OursRun(s, steps[..n], k, id, i);
      var s1 := After(s, steps[..n]);
      NextKeeps(s1, steps[n]);
      StepGrows(s1, steps[n]);
      assert Next(s1, steps[n]).registered[..|s1.registered|][i] == s1.registered[i];
      UnrivalledStep(s1, steps[n], k, id, i);
      OursStep(s1, steps[n], k, id, i, Given(s, steps[..n], k));
    }
  }

  lemma UnrivalledIsClear(s: State, k: nat, id: RequestId, i: nat)
    requires Inv(s) && Unrivalled(s, k, id, i) && k < |s.tasks| && s.tasks[k].Waiting? && Names(s, id, i)
    ensures IsPending(s, i) ==> i !in s.aborted
  {
    forall j | 0 <= j < |s.tasks| ensures !Cancels(s.tasks[j], i) {
      assert TaskOk(s, s.tasks[j]);
    }
  }

  /** Without a rival the future of a pending registration is never dropped, also among
      stale tasks of earlier registrations of the id; when its task is done, exactly the
      result it gave has been sent for exactly this registration. */
  lemma UnrivalledResultIsSent(before: seq<Step>, s: State, steps: seq<Step>, k: nat, id: RequestId, i: nat)
    requires Reached(before, s) && k < |s.tasks| && s.tasks[k] == Waiting(id, i)
    requires IsPending(s, i) && Unrivalled(s, k, id, i)
    requires forall j :: 0 <= j < |steps| ==> Harmless(steps[j], id, s.registered[i].name)
    ensures var s', results := After(s, steps), Given(s, steps, k);
      && k < |s'.tasks| && (s'.tasks[k].Waiting? <==> results == [])
      && (s'.tasks[k].Finished? ==> |results| == 1 && Reply(id, i, Some(i), results[0]) in s'.sent)
  {
    RunKeeps(before);
    ArmsRun(before);
    assert TaskOk(s, s.tasks[k]);
    UnrivalledIsClear(s, k, id, i);
    OursRun(s, steps, k, id, i);
  }

  /** A future is dropped at a poll only if its registration is gone already or a cancel is
      about to answer it. */
  lemma DroppedForAReason(steps: seq<Step>, s: State, k: nat, ready: Option<Body>)
    requires Reached(steps, s) && k < |s.tasks| && s.tasks[k].Waiting?
    ensures Next(s, Advance(k, ready)).tasks[k].Finished? <==> s.tasks[k].identity in s.aborted
    ensures s.tasks[k].identity in s.aborted ==>
      !IsPending(s, s.tasks[k].identity) || CancelInFlight(s, s.tasks[k].identity)
  {
    RunKeeps(steps);
  }

  /** A future that was not polled before its flag was set is never started. */
  lemma {:induction false} NeverStarts(s: State, steps: seq<Step>, i: nat)
    requires i in s.aborted && i !in s.started
    ensures i in After(s, steps).aborted && i !in After(s, steps).started
  {
    if steps != [] {
      NeverStarts(s, steps[..|steps| - 1], i);
      StartsNot(After(s, steps[..|steps| - 1]), steps[|steps| - 1], i);
    }
  }

  lemma StartsNot(s: State, step: Step, i: nat)
    requires i in s.aborted && i !in s.started
    ensures i in Next(s, step).aborted && i !in Next(s, step).started
  {
  }

  /** A cancel that is not raced: the request is answered once, as cancelled, its flag is
      set, and it is not pending any more. */
  lemma CancelAlone(s: State, id: RequestId)
    requires id in s.pending && Cancellable(s.pending[id].name)
    ensures var k := |s.tasks|;
      var s' := After(s, [Cancel(id), Advance(k, None), Advance(k, None), Advance(k, None), Advance(k, None)]);
      && s'.sent == s.sent + [Reply(id, s.pending[id].identity, Some(s.pending[id].identity), CANCELLED)]
      && s'.pending == s.pending - {id} && s.pending[id].identity in s'.aborted
  {
    var go := Advance(|s.tasks|, None);
    var steps := [Cancel(id), go, go, go, go];
    assert steps[..4][..3] == steps[..3] && steps[..3][..2] == steps[..2];
    assert steps[..2][..1] == steps[..1] && steps[..1][..0] == [];
    assert After(s, steps[..1]) == Next(s, Cancel(id));
    assert After(s, steps[..2]) == Next(Next(s, Cancel(id)), go);
    assert After(s, steps[..3]) == Next(After(s, steps[..2]), go);
    assert After(s, steps[..4]) == Next(After(s, steps[..3]), go);
  }
}
