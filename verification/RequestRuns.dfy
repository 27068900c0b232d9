/** What every interleaving of the request tasks keeps. */
module RequestRuns {
  import opened Options
  import opened RequestModel

  // ------------------------------------------------------------------ invariant

  predicate IsPending(s: State, i: nat) {
    i < |s.registered| && s.registered[i].id in s.pending && s.pending[s.registered[i].id].identity == i
  }

  predicate Claims(t: Task, i: nat) {
    (t.Claimed? || t.Sending?) && t.identity == i
  }

  /** How many tasks have claimed registration i and not sent yet. */
  function ClaimCount(tasks: seq<Task>, i: nat): nat {
    if tasks == [] then 0
    else
      ClaimCount(tasks[..|tasks| - 1], i) + if Claims(tasks[|tasks| - 1], i) then 1 else 0
  }

  /** How many messages answer registration i. */
  function AnswerCount(sent: seq<Reply>, i: nat): nat {
    if sent == [] then 0
    else
      AnswerCount(sent[..|sent| - 1], i) + if sent[|sent| - 1].identity == i then 1 else 0
  }

  /** In how many of the four places registration i is. */
  function Places(s: State, i: nat): nat {
    (if IsPending(s, i) then 1 else 0) + ClaimCount(s.tasks, i) + AnswerCount(s.sent, i)
      + (if i in s.replaced then 1 else 0)
  }

  /** The table refers to registrations made under the same id. */
  ghost predicate TableOk(s: State) {
    forall id :: id in s.pending ==>
      && s.pending[id].identity < |s.registered|
      && s.registered[s.pending[id].identity] == Request(id, s.pending[id].name)
  }

  ghost predicate Names(s: State, id: RequestId, i: nat) {
    i < |s.registered| && s.registered[i].id == id
  }

  /** A cancel of i that has set its flag and not looked at the table yet. */
  predicate Cancels(t: Task, i: nat) {
    t.Answering? && t.cancels && t.target == Some(i)
  }

  ghost predicate CancelInFlight(s: State, i: nat) {
    exists k :: 0 <= k < |s.tasks| && Cancels(s.tasks[k], i)
  }

  ghost predicate TaskOk(s: State, t: Task) {
    match t
    case Cancelling(id, i) => Names(s, id, i) && Cancellable(s.registered[i].name)
    case Answering(id, target, _, cancels) =>
      && (target.Some? ==> Names(s, id, target.value))
      && (cancels ==> target.Some? && Cancellable(s.registered[target.value].name))
    case Claimed(id, i, target, _) => Names(s, id, i) && (target.Some? ==> target.value == i)
    case Sending(id, i, target, _) =>
      Names(s, id, i) && i in s.aborted && (target.Some? ==> target.value == i)
    case Tail(id, i, _, _) => Names(s, id, i)
    case Waiting(id, i) => Names(s, id, i)
    case Finished(about) =>
      about.Some? ==>
        && about.value < |s.registered|
        && (IsPending(s, about.value) ==> CancelInFlight(s, about.value))
  }

  ghost predicate TasksOk(s: State) {
    forall k :: 0 <= k < |s.tasks| ==> TaskOk(s, s.tasks[k])
  }

  ghost predicate RepliesOk(s: State) {
    forall k :: 0 <= k < |s.sent| ==>
      && Names(s, s.sent[k].id, s.sent[k].identity) && s.sent[k].identity in s.aborted
      && (s.sent[k].target.Some? ==> s.sent[k].target.value == s.sent[k].identity)
  }

  /** Every registration is in exactly one place, and only registrations are. */
  ghost predicate Conserved(s: State) {
    && (forall i: nat :: i < |s.registered| ==> Places(s, i) == 1)
    && (forall i :: i in s.replaced ==> i < |s.registered|)
  }

  ghost predicate AbortsOk(s: State) {
    forall i :: i in s.aborted ==>
      i < |s.registered| && (IsPending(s, i) ==> CancelInFlight(s, i))
  }

  ghost predicate Inv(s: State) {
    TableOk(s) && TasksOk(s) && RepliesOk(s) && Conserved(s) && AbortsOk(s)
  }

  // -------------------------------------------------------------------- counting

  lemma {:induction false} ClaimUpdate(tasks: seq<Task>, k: nat, t: Task, i: nat)
    requires k < |tasks|
    ensures ClaimCount(tasks[k := t], i) + (if Claims(tasks[k], i) then 1 else 0)
      == ClaimCount(tasks, i) + if Claims(t, i) then 1 else 0
  {
    var n := |tasks| - 1;
    if k < n {
      ClaimUpdate(tasks[..n], k, t, i);
      assert tasks[k := t][..n] == tasks[..n][k := t];
    } else {
      assert tasks[k := t][..n] == tasks[..n];
    }
  }

  lemma ClaimPush(tasks: seq<Task>, t: Task, i: nat)
    ensures ClaimCount(tasks + [t], i) == ClaimCount(tasks, i) + if Claims(t, i) then 1 else 0
  {
    assert (tasks + [t])[..|tasks|] == tasks;
  }

  lemma AnswerPush(sent: seq<Reply>, r: Reply, i: nat)
    ensures AnswerCount(sent + [r], i) == AnswerCount(sent, i) + if r.identity == i then 1 else 0
  {
    assert (sent + [r])[..|sent|] == sent;
  }

  lemma {:induction false} NoClaim(tasks: seq<Task>, i: nat)
    requires forall k :: 0 <= k < |tasks| ==> !Claims(tasks[k], i)
    ensures ClaimCount(tasks, i) == 0
  {
    if tasks != [] {
      NoClaim(tasks[..|tasks| - 1], i);
    }
  }

  lemma {:induction false} SomeClaim(tasks: seq<Task>, k: nat, i: nat)
    requires k < |tasks| && Claims(tasks[k], i)
    ensures ClaimCount(tasks, i) >= 1
  {
    if k < |tasks| - 1 {
      SomeClaim(tasks[..|tasks| - 1], k, i);
    }
  }

  lemma {:induction false} NoAnswer(sent: seq<Reply>, i: nat)
    requires forall k :: 0 <= k < |sent| ==> sent[k].identity != i
    ensures AnswerCount(sent, i) == 0
  {
    if sent != [] {
      NoAnswer(sent[..|sent| - 1], i);
    }
  }

  // --------------------------------------------------------------- registering

  lemma RegisterKeeps(s: State, id: RequestId, name: string)
    requires Inv(s)
    ensures Inv(OnRegister(s, id, name))
  {
    var s' := OnRegister(s, id, name);
    var n := |s.registered|;
    forall i: nat | i < n ensures IsPending(s', i) <==> IsPending(s, i) && s.registered[i].id != id {
    }
    forall i: nat | i < |s'.registered| ensures Places(s', i) == 1 {
      RegisterPlaces(s, id, name, i);
    }
    forall k | 0 <= k < |s'.tasks| ensures TaskOk(s', s'.tasks[k]) {
      StillInFlight(s, s');
      assert TaskOk(s, s.tasks[k]);
    }
    StillInFlight(s, s');
  }

  lemma StillInFlight(s: State, s': State)
    requires s'.tasks == s.tasks
    ensures forall i: nat :: CancelInFlight(s, i) ==> CancelInFlight(s', i)
  {
  }

  lemma RegisterPlaces(s: State, id: RequestId, name: string, i: nat)
    requires TableOk(s) && TasksOk(s) && RepliesOk(s) && Conserved(s) && i <= |s.registered|
    ensures Places(OnRegister(s, id, name), i) == 1
  {
    var s' := OnRegister(s, id, name);
    if i < |s.registered| {
      assert Places(s, i) == 1;
    } else {
      forall k | 0 <= k < |s.tasks| ensures !Claims(s.tasks[k], i) {
        assert TaskOk(s, s.tasks[k]);
      }
      NoClaim(s.tasks, i);
      NoAnswer(s.sent, i);
      assert id in s.pending ==> s.pending[id].identity < i;
    }
  }

  // ------------------------------------------------------------------ new tasks

  /** A new task that claims nothing, with the table as it is up to taken marks. */
  ghost predicate Spawned(s: State, s': State, t: Task) {
    && s' == s.(pending := s'.pending, tasks := s.tasks + [t])
    && s'.pending.Keys == s.pending.Keys
    && (forall id :: id in s.pending ==>
          s'.pending[id].identity == s.pending[id].identity && s'.pending[id].name == s.pending[id].name)
    && !t.Claimed? && !t.Sending? && !t.Finished? && TaskOk(s, t)
  }

  lemma SpawnKeeps(s: State, s': State, t: Task)
    requires Inv(s) && Spawned(s, s', t)
    ensures Inv(s')
  {
    forall i: nat | CancelInFlight(s, i) ensures CancelInFlight(s', i) {
      var k :| 0 <= k < |s.tasks| && Cancels(s.tasks[k], i);
      assert s'.tasks[k] == s.tasks[k];
    }
    forall i: nat | i < |s'.registered| ensures Places(s', i) == 1 {
      assert Places(s, i) == 1;
      ClaimPush(s.tasks, t, i);
    }
    forall k | 0 <= k < |s'.tasks| ensures TaskOk(s', s'.tasks[k]) {
      if k < |s.tasks| {
        assert TaskOk(s, s.tasks[k]);
      }
    }
  }

  // -------------------------------------------------------- sections of a task

  /** Replacing task k keeps the cancels in flight for i, unless it was one of them. */
  lemma InFlightUpdate(s: State, s': State, k: nat, t: Task, i: nat)
    requires k < |s.tasks| && s'.tasks == s.tasks[k := t]
    requires CancelInFlight(s, i) && !Cancels(s.tasks[k], i)
    ensures CancelInFlight(s', i)
  {
    var j :| 0 <= j < |s.tasks| && Cancels(s.tasks[j], i);
    assert s'.tasks[j] == s.tasks[j];
  }

  /** A task that claims nothing goes on without touching the table or the messages. Flags
      may be set for registrations whose cancel is now in flight. */
  lemma QuietKeeps(s: State, s': State, k: nat, t: Task)
    requires Inv(s) && k < |s.tasks|
    requires s' == s.(tasks := s.tasks[k := t], started := s'.started, aborted := s'.aborted)
    requires !s.tasks[k].Answering? && !s.tasks[k].Claimed? && !s.tasks[k].Sending?
    requires !t.Claimed? && !t.Sending? && TaskOk(s', t)
    requires s.aborted <= s'.aborted && forall i :: i in s'.aborted ==>
      i in s.aborted || (i < |s.registered| && CancelInFlight(s', i))
    ensures Inv(s')
  {
    forall i: nat | CancelInFlight(s, i) ensures CancelInFlight(s', i) {
      InFlightUpdate(s, s', k, t, i);
    }
    forall i: nat | i < |s'.registered| ensures Places(s', i) == 1 {
      assert Places(s, i) == 1;
      ClaimUpdate(s.tasks, k, t, i);
    }
    forall j | 0 <= j < |s'.tasks| ensures TaskOk(s', s'.tasks[j]) {
      if j != k {
        assert TaskOk(s, s.tasks[j]);
      }
    }
  }

  lemma FlagKeeps(s: State, k: nat, ready: Option<Body>)
    requires Inv(s) && k < |s.tasks| && s.tasks[k].Cancelling?
    ensures Inv(Next(s, Advance(k, ready)))
  {
    var s' := Next(s, Advance(k, ready));
    assert TaskOk(s, s.tasks[k]);
    assert Cancels(s'.tasks[k], s.tasks[k].identity);
    QuietKeeps(s, s', k, s'.tasks[k]);
  }

  lemma TailKeeps(s: State, k: nat, ready: Option<Body>)
    requires Inv(s) && k < |s.tasks| && (s.tasks[k].Tail? || s.tasks[k].Waiting? || s.tasks[k].Finished?)
    ensures Inv(Next(s, Advance(k, ready)))
  {
    var s' := Next(s, Advance(k, ready));
    assert TaskOk(s, s.tasks[k]);
    var t := s'.tasks[k];
    if t.Finished? && t.about.Some? && CancelInFlight(s, t.about.value) {
      InFlightUpdate(s, s', k, t, t.about.value);
    }
    QuietKeeps(s, s', k, t);
  }

  /** After a look at the table the target of the answer is not pending any more. */
  lemma AnsweredIsGone(s: State, s': State, k: nat, t: Task)
    requires Inv(s) && k < |s.tasks| && s.tasks[k].Answering?
    requires s'.registered == s.registered && s'.tasks == s.tasks[k := t]
    requires s'.pending == s.pending || s'.pending == s.pending - {s.tasks[k].id}
    requires s.tasks[k].id in s'.pending ==> !Current(s, s.tasks[k].id, s.tasks[k].target)
    ensures s.tasks[k].target.Some? ==> !IsPending(s', s.tasks[k].target.value)
    ensures forall i: nat :: IsPending(s', i) ==> IsPending(s, i)
    ensures forall i: nat :: CancelInFlight(s, i) && IsPending(s', i) ==> CancelInFlight(s', i)
  {
    assert TaskOk(s, s.tasks[k]);
    forall i: nat | CancelInFlight(s, i) && IsPending(s', i) ensures CancelInFlight(s', i) {
      InFlightUpdate(s, s', k, t, i);
    }
  }

  lemma MissKeeps(s: State, k: nat, ready: Option<Body>)
    requires Inv(s) && k < |s.tasks| && s.tasks[k].Answering?
    requires !Current(s, s.tasks[k].id, s.tasks[k].target)
    ensures Inv(Next(s, Advance(k, ready)))
  {
    var s' := Next(s, Advance(k, ready));
    assert TaskOk(s, s.tasks[k]);
    AnsweredIsGone(s, s', k, s'.tasks[k]);
    forall i: nat | i < |s'.registered| ensures Places(s', i) == 1 {
      assert Places(s, i) == 1;
      ClaimUpdate(s.tasks, k, s'.tasks[k], i);
    }
    forall j | 0 <= j < |s'.tasks| ensures TaskOk(s', s'.tasks[j]) {
      if j != k {
        assert TaskOk(s, s.tasks[j]);
      }
    }
  }

  lemma ClaimKeeps(s: State, k: nat, ready: Option<Body>)
    requires Inv(s) && k < |s.tasks| && s.tasks[k].Answering?
    requires Current(s, s.tasks[k].id, s.tasks[k].target)
    ensures Inv(Next(s, Advance(k, ready)))
  {
    var s' := Next(s, Advance(k, ready));
    var id := s.tasks[k].id;
    assert TaskOk(s, s.tasks[k]);
    AnsweredIsGone(s, s', k, s'.tasks[k]);
    forall i: nat | i < |s'.registered| ensures Places(s', i) == 1 {
      assert Places(s, i) == 1;
      ClaimUpdate(s.tasks, k, s'.tasks[k], i);
    }
    forall j | 0 <= j < |s'.tasks| ensures TaskOk(s', s'.tasks[j]) {
      if j != k {
        assert TaskOk(s, s.tasks[j]);
      }
    }
  }

  /** A claimed registration is not pending. */
  lemma ClaimedIsGone(s: State, k: nat)
    requires Inv(s) && k < |s.tasks| && (s.tasks[k].Claimed? || s.tasks[k].Sending?)
    ensures s.tasks[k].identity < |s.registered| && !IsPending(s, s.tasks[k].identity)
  {
    assert TaskOk(s, s.tasks[k]);
    SomeClaim(s.tasks, k, s.tasks[k].identity);
    assert Places(s, s.tasks[k].identity) == 1;
  }

  lemma ClaimedKeeps(s: State, k: nat, ready: Option<Body>)
    requires Inv(s) && k < |s.tasks| && (s.tasks[k].Claimed? || s.tasks[k].Sending?)
    ensures Inv(Next(s, Advance(k, ready)))
  {
    var s' := Next(s, Advance(k, ready));
    var t := s.tasks[k];
    assert TaskOk(s, t);
    ClaimedIsGone(s, k);
    forall i: nat | CancelInFlight(s, i) ensures CancelInFlight(s', i) {
      InFlightUpdate(s, s', k, s'.tasks[k], i);
    }
    forall i: nat | i < |s'.registered| ensures Places(s', i) == 1 {
      assert Places(s, i) == 1;
      ClaimUpdate(s.tasks, k, s'.tasks[k], i);
      if t.Sending? {
        AnswerPush(s.sent, Reply(t.id, t.identity, t.target, t.body), i);
      }
    }
    forall j | 0 <= j < |s'.tasks| ensures TaskOk(s', s'.tasks[j]) {
      if j != k {
        assert TaskOk(s, s.tasks[j]);
      }
    }
  }

  /** Every step keeps the invariant, whatever the interleaving. */
  lemma NextKeeps(s: State, step: Step)
    requires Inv(s)
    ensures Inv(Next(s, step))
  {
    match step
    case Register(id, name) => RegisterKeeps(s, id, name);
    case Cancel(id) =>
      if id in s.pending && Cancellable(s.pending[id].name) {
        SpawnKeeps(s, Next(s, step), Cancelling(id, s.pending[id].identity));
      }
    case Respond(id, body) => SpawnKeeps(s, Next(s, step), Answering(id, None, body, false));
    case Schedule(id, outcome) =>
      if id in s.pending {
        var p := s.pending[id];
        SpawnKeeps(s, Next(s, step), Tail(id, p.identity, !p.taken, outcome));
      }
    case Advance(k, ready) =>
      if k < |s.tasks| {
        match s.tasks[k] {
          case Cancelling(_, _) => FlagKeeps(s, k, ready);
          case Answering(id, target, _, _) =>
            if Current(s, id, target) {
              ClaimKeeps(s, k, ready);
            } else {
              MissKeeps(s, k, ready);
            }
          case Claimed(_, _, _, _) => ClaimedKeeps(s, k, ready);
          case Sending(_, _, _, _) => ClaimedKeeps(s, k, ready);
          case _ => TailKeeps(s, k, ready);
        }
      }
  }

  lemma {:induction false} RunKeeps(steps: seq<Step>)
    ensures Inv(After(Init(), steps))
  {
    if steps != [] {
      RunKeeps(steps[..|steps| - 1]);
      NextKeeps(After(Init(), steps[..|steps| - 1]), steps[|steps| - 1]);
    }
  }
}
