/** The request side of the language server client: its table of pending requests and the
    sections of its methods, proved against RequestModel. A task that a method leaves
    behind is run on section by section, in any order. */
module RequestClient {
  import opened Options
  import opened RequestModel

  /** The incoming half of the request queue. */
  class Incoming {
    var pending: map<RequestId, Pending>

    constructor ()
      ensures pending == map[]
    {
      pending := map[];
    }

    /** A registration under an id in use replaces the old one. */
    method Register(id: RequestId, data: Pending)
      modifies this
      ensures pending == old(pending)[id := data]
    {
      pending := pending[id := data];
    }

    method Get(id: RequestId) returns (data: Option<Pending>)
      ensures data == if id in pending then Some(pending[id]) else None
    {
      data := if id in pending then Some(pending[id]) else None;
    }

    method HasPending() returns (some: bool)
      ensures some <==> exists id :: id in pending
    {
      some := pending != map[];
      if some {
        var id :| id in pending;
      }
    }

    method Complete(id: RequestId) returns (data: Option<Pending>)
      modifies this
      ensures data == if id in old(pending) then Some(old(pending)[id]) else None
      ensures pending == old(pending) - {id}
    {
      data := if id in pending then Some(pending[id]) else None;
      pending := pending - {id};
    }
  }

  class LspClient {
    const incoming: Incoming
    /** The abort flags that are set; an abort handle is known by its identity. */
    var aborted: set<nat>
    /** Identities given out so far. */
    var identities: nat
    /** The tasks in hand, each between two of its sections. */
    var tasks: seq<Task>
    var sent: seq<Reply>

    /** The state with its history. */
    ghost var model: State

    ghost predicate Linked()
      reads this, incoming
    {
      && model.pending == incoming.pending
      && model.aborted == aborted
      && |model.registered| == identities
      && model.tasks == tasks
      && model.sent == sent
    }

    constructor ()
      ensures Linked() && fresh(incoming) && model == Init()
    {
      incoming := new Incoming();
      aborted, identities, tasks, sent := {}, 0, [], [];
      model := Init();
    }

    method RegisterRequest(name: string, id: RequestId)
      requires Linked()
      modifies this, incoming
      ensures Linked() && model == Next(old(model), RequestModel.Register(id, name))
    {
      incoming.Register(id, Pending(name, identities, false));
      identities := identities + 1;
      model := OnRegister(model, id, name);
    }

    /** The first section of a cancel; the rest is left as a task. */
    method CancelRequest(id: RequestId)
      requires Linked()
      modifies this
      ensures Linked() && model == Next(old(model), Cancel(id))
    {
      var found := incoming.Get(id);
      if found.Some? && Cancellable(found.value.name) {
        tasks := tasks + [Cancelling(id, found.value.identity)];
      }
      model := OnCancel(model, id);
    }

    /** A direct answer, for whatever is pending under the id. */
    method Respond(id: RequestId, body: Body)
      requires Linked()
      modifies this
      ensures Linked() && model == Next(old(model), RequestModel.Respond(id, body))
    {
      tasks := tasks + [Answering(id, None, body, false)];
      model := OnRespond(model, id, body);
    }

    /** Captures the registration and takes its abort registration. */
    method ScheduleTail(id: RequestId, outcome: Scheduled)
      requires Linked()
      modifies this, incoming
      ensures Linked() && model == Next(old(model), Schedule(id, outcome))
    {
      var found := incoming.Get(id);
      if found.Some? {
        var request := found.value;
        incoming.Register(id, request.(taken := true));
        tasks := tasks + [Tail(id, request.identity, !request.taken, outcome)];
      }
      model := OnSchedule(model, id, outcome);
    }

    /** The locked section of an answer: gives up if it is meant for another registration
        than the current one, else completes the request. */
    method RespondIfCurrent(id: RequestId, target: Option<nat>) returns (claimed: Option<Pending>)
      requires Linked()
      modifies incoming
      ensures claimed.Some? <==> Current(model, id, target)
      ensures incoming.pending == if claimed.Some? then model.pending - {id} else model.pending
      ensures claimed.Some? ==> claimed.value == model.pending[id]
    {
      if target.Some? {
        var current := incoming.Get(id);
        if current.None? || current.value.identity != target.value {
          return None;
        }
      }
      claimed := incoming.Complete(id);
      assert claimed.None? ==> incoming.pending == model.pending;
    }

    method Abort(identity: nat)
      modifies `aborted
      ensures aborted == old(aborted) + {identity}
    {
      aborted := aborted + {identity};
    }

    /** Runs the next section of task k; ready is the result of a future that is polled. */
    method Advance(k: nat, ready: Option<Body>)
      requires Linked() && k < |tasks|
      modifies this, incoming
      ensures Linked() && model == Next(old(model), RequestModel.Advance(k, ready))
    {
      ghost var s := model;
      match tasks[k] {
        case Cancelling(id, identity) =>
          Abort(identity);
          tasks := tasks[k := Answering(id, Some(identity), CANCELLED, true)];
        case Answering(id, target, body, _) =>
          var claimed := RespondIfCurrent(id, target);
          if claimed.Some? {
            tasks := tasks[k := Claimed(id, claimed.value.identity, target, body)];
          } else {
            tasks := tasks[k := Finished(target)];
          }
        case Claimed(id, identity, target, body) =>
          Abort(identity);
          tasks := tasks[k := Sending(id, identity, target, body)];
        case Sending(id, identity, target, body) =>
          sent := sent + [Reply(id, identity, target, body)];
          tasks := tasks[k := Finished(target)];
        case Tail(id, identity, armed, outcome) =>
          match outcome {
            case Done(body) => tasks := tasks[k := Answering(id, Some(identity), body, false)];
            case Failed(error) => tasks := tasks[k := Answering(id, Some(identity), error, false)];
            case Gone => tasks := tasks[k := Finished(None)];
            case Future => tasks := tasks[k := if armed then Waiting(id, identity) else Finished(None)];
          }
        case Waiting(id, identity) =>
          if identity in aborted {
            tasks := tasks[k := Finished(Some(identity))];
          } else if ready.Some? {
            tasks := tasks[k := Answering(id, Some(identity), ready.value, false)];
          }
        case Finished(_) =>
      }
      model := Next(s, RequestModel.Advance(k, ready));
    }
  }
}
