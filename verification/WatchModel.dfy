/** What the file watcher actor does, as functions on its state. The class
    WatchActor.NotifyActor is proved against these functions. Every answer of the
    environment (a read, a file test, a watch command, a hash map order) is an
    argument, so a theorem about all arguments is one about all environments. */
module WatchModel {
  import opened Options
  import opened Vfs

  datatype WatchState = Stable | EmptyOrRemoval(recheckAt: nat, payload: Reading)

  datatype Entry = Entry(
    lifetime: nat, watching: bool, seen: bool, state: WatchState, prev: Option<Reading>)

  datatype Recheck = Recheck(path: Path, tick: nat)

  datatype Command = Watch(path: Path, ok: bool) | Unwatch(path: Path, ok: bool)

  datatype Probe = Probe(path: Path, snapshot: Snapshot)

  /** A dependency with the answers its visit may ask for. */
  datatype Visit = Visit(path: Path, watchable: bool, watchOk: bool, snapshot: Snapshot)

  /** An entry met by the retain loop, with the answer to a possible unwatch. */
  datatype Drop = Drop(path: Path, unwatchOk: bool)

  /** The actor's fields, the changeset under construction and the history: the events
      sent, all reads, all watch commands, the fold of all insertions and removals made
      so far, the insertions in order, and the dependency sets received. */
  datatype State = State(
    hasWatcher: bool,
    lifetime: nat,
    tick: nat,
    entries: map<Path, Entry>,
    bag: multiset<Recheck>,
    draft: ChangeSet<Reading>,
    out: seq<FsEvent>,
    log: seq<Probe>,
    commands: seq<Command>,
    view: map<Path, Reading>,
    sent: seq<Insert<Reading>>,
    deps: seq<set<Path>>)

  function Init(hasWatcher: bool): State {
    State(hasWatcher, 1, 1, map[], multiset{}, NO_CHANGES, [], [], [], map[], [], [])
  }

  const WINDOW := 30

  // ------------------------------------------------------------------ one read

  datatype Outcome = Outcome(entry: Entry, emit: bool, recheck: bool)

  /** The decision taken on a fresh read of a watched path. */
  function UpdateEntry(e: Entry, tick: nat, file: Reading): Outcome {
    var emit := Outcome(e.(state := Stable, prev := Some(file)), true, false);
    var hold := Outcome(e.(state := EmptyOrRemoval(tick, file), prev := Some(file)), false, true);
    var skip := Outcome(e, false, false);
    if e.prev.None? then emit
    else
      match (e.prev.value.snapshot, file.snapshot)
      case (Err(_), Ok(_)) => emit
      case (was, Err(error)) =>
        (match e.state
         case Stable =>
           if error.NotFound? || error.Other? then hold
           else if was == Err(error) then skip
           else emit
         case EmptyOrRemoval(at, _) =>
           Outcome(e.(state := EmptyOrRemoval(at, file)), false, false))
      case (Ok(was), Ok(next)) =>
        if was == next then skip
        else if e.state.Stable? then (if next == [] then hold else emit)
        else if next == [] then skip
        else emit
  }

  /** Pushes an insertion onto the changeset under construction. */
  function Push(s: State, p: Path, file: Reading): State {
    s.(draft := s.draft.(inserts := s.draft.inserts + [Insert(p, file)]),
       view := s.view[p := file],
       sent := s.sent + [Insert(p, file)])
  }

  function Read(s: State, p: Path, snapshot: Snapshot): State {
    s.(log := s.log + [Probe(p, snapshot)])
  }

  /** A read of p, if p has an entry. */
  function ReadEntry(s: State, p: Path, snapshot: Snapshot): State {
    if p !in s.entries then s
    else
      var file := Reading(snapshot, |s.log|);
      var o := UpdateEntry(s.entries[p], s.tick, file);
      var s1 := Read(s, p, snapshot).(
        entries := s.entries[p := o.entry],
        bag := if o.recheck then s.bag + multiset{Recheck(p, s.tick)} else s.bag);
      if o.emit then Push(s1, p, file) else s1
  }

  function WatchIfNeeded(s: State, p: Path, contained: bool, watchable: bool, watchOk: bool): State {
    if p !in s.entries || !watchable || !s.hasWatcher then s
    else if contained && s.entries[p].watching then s
    else s.(commands := s.commands + [Watch(p, watchOk)],
            entries := s.entries[p := s.entries[p].(watching := watchOk)])
  }

  // -------------------------------------------------------- dependency updates

  function Begin(s: State, paths: set<Path>): State {
    s.(lifetime := s.lifetime + 1,
       entries := map p | p in s.entries :: s.entries[p].(seen := false),
       deps := s.deps + [paths])
  }

  /** The entry of p with the current lifetime, inserted when missing. */
  function Touched(s: State, p: Path): Entry {
    if p in s.entries then s.entries[p].(lifetime := s.lifetime)
    else Entry(s.lifetime, false, false, Stable, None)
  }

  function VisitOne(s: State, v: Visit): State {
    var e := Touched(s, v.path);
    if e.seen then s.(entries := s.entries[v.path := e])
    else
      var s1 := s.(entries := s.entries[v.path := e.(seen := true)]);
      if s.hasWatcher then
        ReadEntry(WatchIfNeeded(s1, v.path, v.path in s.entries, v.watchable, v.watchOk),
                  v.path, v.snapshot)
      else
        Push(Read(s1, v.path, v.snapshot), v.path, Reading(v.snapshot, |s.log|))
  }

  function VisitAll(s: State, visits: seq<Visit>): State {
    if visits == [] then s
    else VisitOne(VisitAll(s, visits[..|visits| - 1]), visits[|visits| - 1])
  }

  function UnwatchEntry(s: State, p: Path, ok: bool): State
    requires p in s.entries
  {
    s.(commands := s.commands + [Unwatch(p, ok)],
       entries := s.entries[p := s.entries[p].(watching := false)])
  }

  predicate Fresh(s: State, p: Path)
    requires p in s.entries
  {
    s.lifetime - s.entries[p].lifetime < WINDOW
  }

  function RetainOne(s: State, d: Drop): State {
    if d.path !in s.entries then s
    else
      var e := s.entries[d.path];
      var s1 := if !e.seen && e.watching && s.hasWatcher then UnwatchEntry(s, d.path, d.unwatchOk) else s;
      if Fresh(s, d.path) then s1
      else s1.(draft := s1.draft.(removes := s1.draft.removes + [d.path]),
               view := s1.view - {d.path},
               entries := s1.entries - {d.path})
  }

  function RetainAll(s: State, drops: seq<Drop>): State {
    if drops == [] then s
    else RetainOne(RetainAll(s, drops[..|drops| - 1]), drops[|drops| - 1])
  }

  function Visited(visits: seq<Visit>): set<Path> {
    set v | v in visits :: v.path
  }

  function UpdateWatches(s: State, visits: seq<Visit>, drops: seq<Drop>): State {
    RetainAll(VisitAll(Begin(s, Visited(visits)), visits), drops)
  }

  /** The retain loop meets every entry once, in any order. */
  predicate Enumerates(drops: seq<Drop>, keys: set<Path>) {
    && (forall i :: 0 <= i < |drops| ==> drops[i].path in keys)
    && (forall i, j :: 0 <= i < j < |drops| ==> drops[i].path != drops[j].path)
    && (forall p :: p in keys ==> exists i :: 0 <= i < |drops| && drops[i].path == p)
  }

  predicate Retainable(s: State, visits: seq<Visit>, drops: seq<Drop>) {
    Enumerates(drops, VisitAll(Begin(s, Visited(visits)), visits).entries.Keys)
  }

  // ------------------------------------------------------------------- handlers

  function Flush(s: State, isSync: bool): State {
    if s.draft.IsEmpty() then s
    else s.(out := s.out + [FsUpdate(s.draft, isSync)], draft := NO_CHANGES)
  }

  function FlushUpstream(s: State, event: UpstreamEvent): State {
    s.(out := s.out + [FsUpstreamUpdate(s.draft, event)], draft := NO_CHANGES)
  }

  function ReadAll(s: State, probes: seq<Probe>): State {
    if probes == [] then s
    else
      var last := probes[|probes| - 1];
      ReadEntry(ReadAll(s, probes[..|probes| - 1]), last.path, last.snapshot)
  }

  /** A removed file is implicitly unwatched by the backend; the entry follows. */
  function ForgetOne(s: State, d: Drop): State {
    if d.path !in s.entries || !s.entries[d.path].watching then s
    else UnwatchEntry(s, d.path, d.unwatchOk)
  }

  function ForgetAll(s: State, drops: seq<Drop>): State {
    if drops == [] then s
    else ForgetOne(ForgetAll(s, drops[..|drops| - 1]), drops[|drops| - 1])
  }

  /** The file is missing as far as the entry knows, and not watched. */
  predicate Pollable(s: State, p: Path) {
    && p in s.entries
    && s.entries[p].seen
    && !s.entries[p].watching
    && s.entries[p].prev.Some?
    && s.entries[p].prev.value.snapshot.Err?
    && s.entries[p].prev.value.snapshot.error.NotFound?
  }

  function PollOne(s: State, v: Visit): State {
    ReadEntry(WatchIfNeeded(s, v.path, true, v.watchable, v.watchOk), v.path, v.snapshot)
  }

  function PollAll(s: State, visits: seq<Visit>): State {
    if visits == [] then s
    else PollOne(PollAll(s, visits[..|visits| - 1]), visits[|visits| - 1])
  }

  /** A recheck that has waited long enough. It always closes the episode of its path and
      sends the payload only when its tick is the episode's. */
  function Fire(s: State, r: Recheck): State {
    var s0 := s.(bag := s.bag - multiset{r});
    if r.path !in s.entries then s0
    else
      var e := s.entries[r.path];
      var s1 := s0.(entries := s.entries[r.path := e.(state := Stable)]);
      if e.state.EmptyOrRemoval? && e.state.recheckAt == r.tick
      then Flush(Push(s1, r.path, e.state.payload), false)
      else s1
  }

  datatype RemovalKind = File | Folder | RemoveOther
  datatype RenameMode = From | To | Both | RenameOther
  datatype ModifyKind = ModifyAny | Data | Metadata | Name(mode: RenameMode) | ModifyOther
  datatype EventKind =
    | AnyKind | Access | Create | Modify(what: ModifyKind) | Remove(whom: RemovalKind) | OtherKind

  predicate Relevant(kind: EventKind) {
    match kind
    case AnyKind => true
    case Access => false
    case Create => true
    case Modify(m) => m.ModifyAny? || m.Data? || m.Name?
    case Remove(_) => true
    case OtherKind => false
  }

  predicate Unwatches(kind: EventKind) {
    kind == Remove(File) || kind == Modify(Name(From))
  }

  datatype Event =
    | OnSync(visits: seq<Visit>, drops: seq<Drop>)
    | OnUpstream(event: UpstreamEvent, visits: seq<Visit>, drops: seq<Drop>)
    | OnNotify(kind: EventKind, probes: seq<Probe>, forgets: seq<Drop>)
    | OnNotifyError
    | OnRecheck(recheck: Recheck, ready: bool)
    | OnPoll(visits: seq<Visit>)

  function VisitPaths(visits: seq<Visit>): seq<Path> {
    seq(|visits|, i requires 0 <= i < |visits| => visits[i].path)
  }

  function ProbePaths(probes: seq<Probe>): seq<Path> {
    seq(|probes|, i requires 0 <= i < |probes| => probes[i].path)
  }

  function DropPaths(drops: seq<Drop>): seq<Path> {
    seq(|drops|, i requires 0 <= i < |drops| => drops[i].path)
  }

  function Ticked(s: State): State {
    s.(tick := s.tick + 1)
  }

  /** Which events the environment can produce: rechecks come from the bag, backend
      events need a backend, a poll only collects known-missing files. */
  predicate Enabled(s: State, ev: Event) {
    var s := Ticked(s);
    match ev
    case OnSync(visits, drops) => Retainable(s, visits, drops)
    case OnUpstream(event, visits, drops) =>
      VisitPaths(visits) == event.invalidates && Retainable(s, visits, drops)
    case OnNotify(_, probes, forgets) => s.hasWatcher && ProbePaths(probes) == DropPaths(forgets)
    case OnNotifyError => s.hasWatcher
    case OnRecheck(r, _) => r in s.bag
    case OnPoll(visits) =>
      s.hasWatcher ==>
        forall i :: 0 <= i < |visits| ==> Pollable(s, visits[i].path)
  }

  /** One turn of the event loop. */
  function Step(s: State, ev: Event): State {
    var s := Ticked(s);
    match ev
    case OnSync(visits, drops) => Flush(UpdateWatches(s, visits, drops), true)
    case OnUpstream(event, visits, drops) => FlushUpstream(UpdateWatches(s, visits, drops), event)
    case OnNotify(kind, probes, forgets) =>
      if !Relevant(kind) then s
      else
        var s1 := ReadAll(s, probes);
        Flush(if Unwatches(kind) then ForgetAll(s1, forgets) else s1, false)
    case OnNotifyError => s
    case OnRecheck(r, ready) => if ready then Fire(s, r) else s
    case OnPoll(visits) => if s.hasWatcher then Flush(PollAll(s, visits), false) else s
  }
}
