/** Every answer on its way arrives: results of handlers, cancels and direct answers, in
    every run, and every task that is given its turns ends. */
module RequestAnswers {
  import opened Options
  import opened RequestModel
  import opened RequestRuns
  import opened RequestGuarantees

  // ------------------------------------------------- answers for a registration

  /** Task k is bringing the answer to registration i, or it is done: then the answer is
      sent, or somebody else has claimed, answered or overwritten i. */
  ghost predicate Carries(s: State, k: nat, id: RequestId, i: nat, body: Body) {
    && k < |s.tasks| && Names(s, id, i)
    && match s.tasks[k]
       case Tail(id', i', _, outcome) => id' == id && i' == i && (outcome == Done(body) || outcome == Failed(body))
       case Cancelling(id', i') => id' == id && i' == i && body == Failure(-32800, "cancelled by client")
       case Answering(id', target, body', _) => id' == id && target == Some(i) && body' == body
       case Claimed(id', i', target, body') => id' == id && i' == i && target == Some(i) && body' == body
       case Sending(id', i', target, body') => id' == id && i' == i && target == Some(i) && body' == body
       case Finished(about) => about == Some(i) && (Reply(id, i, Some(i), body) in s.sent || !IsPending(s, i))
       case Waiting(_, _) => false
  }

  lemma CarriesSelf(s: State, k: nat, ready: Option<Body>, id: RequestId, i: nat, body: Body)
    requires TableOk(s) && Carries(s, k, id, i, body)
    ensures Carries(Next(s, Advance(k, ready)), k, id, i, body)
  {
    var s' := Next(s, Advance(k, ready));
    if s.tasks[k].Sending? {
      assert s'.sent[|s.sent|] == Reply(id, i, Some(i), body);
    }
    if s.tasks[k].Finished? {
      assert s'.tasks == s.tasks;
    }
  }

  lemma CarriesOther(s: State, s': State, k: nat, id: RequestId, i: nat, body: Body)
    requires Carries(s, k, id, i, body)
    requires |s.tasks| <= |s'.tasks| && s'.tasks[k] == s.tasks[k]
    requires |s.registered| <= |s'.registered| && s'.registered[..|s.registered|] == s.registered
    requires forall r :: r in s.sent ==> r in s'.sent
    requires IsPending(s', i) ==> IsPending(s, i)
    ensures Carries(s', k, id, i, body)
  {
    assert s'.registered[i] == s'.registered[..|s.registered|][i];
  }

  lemma CarriesStep(s: State, step: Step, k: nat, id: RequestId, i: nat, body: Body)
    requires TableOk(s) && Carries(s, k, id, i, body)
    ensures Carries(Next(s, step), k, id, i, body)
  {
    hide Next, Carries;
    if step.Advance? && step.task == k {
      CarriesSelf(s, k, step.ready, id, i, body);
    } else {
      StepGrows(s, step);
      assert k < |s.tasks| && i < |s.registered| by {
        CarriesInRange(s, k, id, i, body);
      }
      CarriesOther(s, Next(s, step), k, id, i, body);
    }
  }

  lemma CarriesInRange(s: State, k: nat, id: RequestId, i: nat, body: Body)
    requires Carries(s, k, id, i, body)
    ensures k < |s.tasks| && i < |s.registered|
  {
  }

  lemma {:induction false} CarriesRun(s: State, steps: seq<Step>, k: nat, id: RequestId, i: nat, body: Body)
    requires Inv(s) && Carries(s, k, id, i, body)
    ensures Inv(After(s, steps)) && Carries(After(s, steps), k, id, i, body)
  {
    hide Next, Carries;
    if steps != [] {
      var n := |steps| - 1;
      CarriesRun(s, steps[..n], k, id, i, body);
      NextKeeps(After(s, steps[..n]), steps[n]);
      CarriesStep(After(s, steps[..n]), steps[n], k, id, i, body);
    }
  }

  /** What the operations put on its way: the result or the error a handler has at once, and
      the answer of a cancel of a request that may be cancelled. */
  predicate Brings(s: State, step: Step, id: RequestId, body: Body) {
    && id in s.pending
    && match step
       case Schedule(id', outcome) => id' == id && (outcome == Done(body) || outcome == Failed(body))
       case Cancel(id') =>
         id' == id && Cancellable(s.pending[id].name) && body == Failure(-32800, "cancelled by client")
       case _ => false
  }

  /** No ready answer is lost, in every run from every reached state, whatever races with
      it: a handler has its result or error at once, or the client cancels. When the task
      is done its answer is sent, for this registration, or the registration was claimed by
      another task, answered or overwritten. */
  lemma ReadyAnswerIsSent(before: seq<Step>, s: State, step: Step, steps: seq<Step>, id: RequestId, body: Body)
    requires Reached(before, s) && Brings(s, step, id, body)
    ensures var k, i, s' := |s.tasks|, s.pending[id].identity, After(Next(s, step), steps);
      && k < |s'.tasks| && !s'.tasks[k].Waiting?
      && (s'.tasks[k].Finished? ==>
            || Reply(id, i, Some(i), body) in s'.sent
            || ClaimCount(s'.tasks, i) + AnswerCount(s'.sent, i) + (if i in s'.replaced then 1 else 0) == 1)
  {
    var k, i, s1 := |s.tasks|, s.pending[id].identity, Next(s, step);
    RunKeeps(before);
    NextKeeps(s, step);
    assert Names(s, id, i) && Carries(s1, k, id, i, body);
    CarriesRun(s1, steps, k, id, i, body);
    var s' := After(s1, steps);
    assert Places(s', i) == 1;
  }

  // -------------------------------------------------------------- direct answers

  /** Task k is bringing an answer for whatever is registered under the id. */
  ghost predicate CarriesDirect(s: State, k: nat, id: RequestId, body: Body, missed: bool) {
    && k < |s.tasks|
    && match s.tasks[k]
       case Answering(id', target, body', _) => id' == id && target == None && body' == body
       case Claimed(id', _, target, body') => id' == id && target == None && body' == body
       case Sending(id', _, target, body') => id' == id && target == None && body' == body
       case Finished(about) => about == None && (missed || exists i :: Reply(id, i, None, body) in s.sent)
       case _ => false
  }

  /** At some turn of task k in the run nothing was pending under the id. */
  ghost predicate Missed(s: State, steps: seq<Step>, k: nat, id: RequestId) {
    exists n :: 0 <= n < |steps| && steps[n].Advance? && steps[n].task == k && id !in After(s, steps[..n]).pending
  }

  lemma DirectStep(s: State, step: Step, k: nat, id: RequestId, body: Body, missed: bool)
    requires TableOk(s) && CarriesDirect(s, k, id, body, missed)
    ensures CarriesDirect(Next(s, step), k, id, body,
                          missed || (step.Advance? && step.task == k && id !in s.pending))
  {
    var s' := Next(s, step);
    if step.Advance? && step.task == k {
      if s.tasks[k].Sending? {
        assert s'.sent[|s.sent|] == Reply(id, s.tasks[k].identity, None, body);
      }
    } else {
      StepGrows(s, step);
      assert s'.tasks[k] == s.tasks[k];
    }
  }

  lemma {:induction false} DirectRun(s: State, steps: seq<Step>, k: nat, id: RequestId, body: Body)
    requires Inv(s) && CarriesDirect(s, k, id, body, false)
    ensures Inv(After(s, steps)) && CarriesDirect(After(s, steps), k, id, body, Missed(s, steps, k, id))
  {
    hide Next, CarriesDirect;
    if steps != [] {
      var n := |steps| - 1;
      var was := Missed(s, steps[..n], k, id);
      DirectRun(s, steps[..n], k, id, body);
      NextKeeps(After(s, steps[..n]), steps[n]);
      DirectStep(After(s, steps[..n]), steps[n], k, id, body, was);
      MissedMore(s, steps, k, id);
    }
  }

  lemma MissedMore(s: State, steps: seq<Step>, k: nat, id: RequestId)
    requires steps != []
    ensures var n := |steps| - 1;
      Missed(s, steps, k, id) <==>
        Missed(s, steps[..n], k, id)
        || (steps[n].Advance? && steps[n].task == k && id !in After(s, steps[..n]).pending)
  {
    var n := |steps| - 1;
    assert forall m :: 0 <= m < n ==> steps[..n][..m] == steps[..m] && steps[..n][m] == steps[m];
    if Missed(s, steps[..n], k, id) {
      var m :| 0 <= m < n && steps[..n][m].Advance? && steps[..n][m].task == k
        && id !in After(s, steps[..n][..m]).pending;
      assert id !in After(s, steps[..m]).pending;
    }
    if m :| 0 <= m < n && steps[m].Advance? && steps[m].task == k && id !in After(s, steps[..m]).pending {
      assert steps[..n][m].Advance? && id !in After(s, steps[..n][..m]).pending;
    }
  }

  /** A direct answer is sent, in every run from every reached state, unless at some turn of
      its task nothing was pending under the id any more. */
  lemma DirectAnswerIsSent(before: seq<Step>, s: State, steps: seq<Step>, id: RequestId, body: Body)
    requires Reached(before, s)
    ensures var k, s1 := |s.tasks|, Next(s, Respond(id, body));
      var s' := After(s1, steps);
      && k < |s'.tasks| && !s'.tasks[k].Waiting?
      && (s'.tasks[k].Finished? ==> (exists i :: Reply(id, i, None, body) in s'.sent) || Missed(s1, steps, k, id))
  {
    RunKeeps(before);
    NextKeeps(s, Respond(id, body));
    DirectRun(Next(s, Respond(id, body)), steps, |s.tasks|, id, body);
  }

  // ------------------------------------------------------------- every task ends

  /** How many turns a task needs at most, if its future is ready. */
  function Rank(t: Task): nat {
    match t
    case Tail(_, _, _, _) => 5
    case Waiting(_, _) => 4
    case Cancelling(_, _) => 4
    case Answering(_, _, _, _) => 3
    case Claimed(_, _, _, _) => 2
    case Sending(_, _, _, _) => 1
    case Finished(_) => 0
  }

  /** The turns of task k in which its future, if it waits for one, is ready. */
  function Turns(steps: seq<Step>, k: nat): nat {
    if steps == [] then 0
    else
      var last := steps[|steps| - 1];
      Turns(steps[..|steps| - 1], k) + if last.Advance? && last.task == k && last.ready.Some? then 1 else 0
  }

  lemma RankFalls(s: State, step: Step, k: nat)
    requires k < |s.tasks|
    ensures var s' := Next(s, step);
      && k < |s'.tasks| && Rank(s'.tasks[k]) <= Rank(s.tasks[k])
      && (step.Advance? && step.task == k && step.ready.Some? && Rank(s.tasks[k]) > 0 ==>
            Rank(s'.tasks[k]) < Rank(s.tasks[k]))
  {
  }

  /** A task that gets five turns with its future ready is done, whatever else happens. */
  lemma {:induction false} EveryTaskEnds(s: State, steps: seq<Step>, k: nat)
    requires k < |s.tasks|
    ensures var s' := After(s, steps);
      && k < |s'.tasks|
      && (Rank(s'.tasks[k]) == 0 || Rank(s'.tasks[k]) + Turns(steps, k) <= Rank(s.tasks[k]))
      && (Turns(steps, k) >= 5 ==> s'.tasks[k].Finished?)
  {
    hide Next;
    if steps != [] {
      var n := |steps| - 1;
      EveryTaskEnds(s, steps[..n], k);
      RankFalls(After(s, steps[..n]), steps[n], k);
    }
  }

  // ---------------------------------------------------- what may be cancelled

  /** All document queries may be cancelled, and two workspace queries; commands and the
      lifecycle of the server may not. */
  lemma MayBeCancelled(query: string)
    ensures Cancellable("textDocument/" + query)
    ensures Cancellable("workspace/symbol") && Cancellable("workspace/willRenameFiles")
    ensures !Cancellable("workspace/executeCommand") && !Cancellable("initialize") && !Cancellable("shutdown")
  {
    var prefix := "textDocument/";
    assert prefix <= prefix + query;
    assert prefix[0] == 't';
    assert "workspace/executeCommand"[0] == 'w' && "initialize"[0] == 'i' && "shutdown"[0] == 's';
    assert |"workspace/executeCommand"| == 24 && |"workspace/symbol"| == 16 && |"workspace/willRenameFiles"| == 25;
  }
}
