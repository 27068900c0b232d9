/** The lifecycle of client requests: registering, cancelling, answering directly and
    through scheduled futures race on a locked table. Every lock section is one step, and
    what happens between two sections of one task may be interleaved with anything. */
module RequestModel {
  import opened Options

  datatype RequestId = Number(number: int) | Text(text: string)

  datatype Body = Content(content: string) | Failure(code: int, message: string)

  const CANCELLED := Failure(-32800, "cancelled by client")

  /** A pending entry: the identity stands for its identity token and its abort flag, both
      fresh in every registration. taken says that a future holds its abort registration. */
  datatype Pending = Pending(name: string, identity: nat, taken: bool)

  datatype Request = Request(id: RequestId, name: string)

  /** What a handler hands to the scheduler. */
  datatype Scheduled = Done(body: Body) | Future | Gone | Failed(error: Body)

  /** A task between two of its atomic sections. */
  datatype Task =
    | Cancelling(id: RequestId, identity: nat)
    | Answering(id: RequestId, target: Option<nat>, body: Body, cancels: bool)
    | Claimed(id: RequestId, identity: nat, target: Option<nat>, body: Body)
    | Sending(id: RequestId, identity: nat, target: Option<nat>, body: Body)
    | Tail(id: RequestId, identity: nat, armed: bool, outcome: Scheduled)
    | Waiting(id: RequestId, identity: nat)
    | Finished(about: Option<nat>)

  /** A message sent: whose request it completed and whose result it carried, if it was
      sent on behalf of a particular registration. */
  datatype Reply = Reply(id: RequestId, identity: nat, target: Option<nat>, body: Body)

  /** The table, the abort flags that are set, the tasks and the messages sent; then the
      history: all registrations, the overwritten ones and the futures ever polled. */
  datatype State = State(
    pending: map<RequestId, Pending>,
    aborted: set<nat>,
    tasks: seq<Task>,
    sent: seq<Reply>,
    registered: seq<Request>,
    replaced: set<nat>,
    started: set<nat>)

  function Init(): State {
    State(map[], {}, [], [], [], {}, {})
  }

  /** Read-only queries; only they may be cancelled. */
  predicate Cancellable(name: string) {
    "textDocument/" <= name || name == "workspace/symbol" || name == "workspace/willRenameFiles"
  }

  datatype Step =
    | Register(id: RequestId, name: string)
    | Cancel(id: RequestId)
    | Respond(id: RequestId, body: Body)
    | Schedule(id: RequestId, outcome: Scheduled)
    | Advance(task: nat, ready: Option<Body>)

  function OnRegister(s: State, id: RequestId, name: string): State {
    s.(pending := s.pending[id := Pending(name, |s.registered|, false)],
       registered := s.registered + [Request(id, name)],
       replaced := if id in s.pending then s.replaced + {s.pending[id].identity} else s.replaced)
  }

  function OnCancel(s: State, id: RequestId): State {
    if id in s.pending && Cancellable(s.pending[id].name)
    then s.(tasks := s.tasks + [Cancelling(id, s.pending[id].identity)])
    else s
  }

  function OnRespond(s: State, id: RequestId, body: Body): State {
    s.(tasks := s.tasks + [Answering(id, None, body, false)])
  }

  /** The registration is captured before dispatch; its abort registration goes to the
      first future only. */
  function OnSchedule(s: State, id: RequestId, outcome: Scheduled): State {
    if id !in s.pending then s
    else
      var p := s.pending[id];
      s.(pending := s.pending[id := p.(taken := true)],
         tasks := s.tasks + [Tail(id, p.identity, !p.taken, outcome)])
  }

  /** Whether the table still holds what the answer is meant for. */
  predicate Current(s: State, id: RequestId, target: Option<nat>) {
    id in s.pending && (target.Some? ==> s.pending[id].identity == target.value)
  }

  /** The next section of a task. */
  function Continue(s: State, t: Task, ready: Option<Body>): (State, Task) {
    match t
    case Cancelling(id, identity) =>
      (s.(aborted := s.aborted + {identity}), Answering(id, Some(identity), CANCELLED, true))
    case Answering(id, target, body, _) =>
      if Current(s, id, target)
      then (s.(pending := s.pending - {id}), Claimed(id, s.pending[id].identity, target, body))
      else (s, Finished(target))
    case Claimed(id, identity, target, body) =>
      (s.(aborted := s.aborted + {identity}), Sending(id, identity, target, body))
    case Sending(id, identity, target, body) =>
      (s.(sent := s.sent + [Reply(id, identity, target, body)]), Finished(target))
    case Tail(id, identity, armed, outcome) =>
      (match outcome
       case Done(body) => (s, Answering(id, Some(identity), body, false))
       case Failed(error) => (s, Answering(id, Some(identity), error, false))
       case Gone => (s, Finished(None))
       case Future => (s, if armed then Waiting(id, identity) else Finished(None)))
    case Waiting(id, identity) =>
      if identity in s.aborted then (s, Finished(Some(identity)))
      else
        (s.(started := s.started + {identity}),
         if ready.Some? then Answering(id, Some(identity), ready.value, false) else t)
    case Finished(_) => (s, t)
  }

  function Next(s: State, step: Step): State {
    match step
    case Register(id, name) => OnRegister(s, id, name)
    case Cancel(id) => OnCancel(s, id)
    case Respond(id, body) => OnRespond(s, id, body)
    case Schedule(id, outcome) => OnSchedule(s, id, outcome)
    case Advance(k, ready) =>
      if k < |s.tasks| then
        var (s', t) := Continue(s, s.tasks[k], ready);
        s'.(tasks := s.tasks[k := t])
      else s
  }

  function After(s: State, steps: seq<Step>): State {
    if steps == [] then s else Next(After(s, steps[..|steps| - 1]), steps[|steps| - 1])
  }
}
