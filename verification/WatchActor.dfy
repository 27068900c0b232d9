/** The file watcher actor: the entries it holds, its event handlers and their loops,
    proved against the functions of WatchModel. The environment is nondeterministic. */
module WatchActor {
  import opened Options
  import opened Vfs
  import opened WatchModel
  import WatchInvariant
  import WatchRuns

  /** Reads the file from disk, which may change between any two reads. */
  method Content(path: Path) returns (snapshot: Snapshot) {
    snapshot := *;
  }

  /** Whether the path is now an existing file. */
  method IsWatchableFile(path: Path) returns (watchable: bool) {
    watchable := *;
  }

  /** A watch or unwatch command to the backend, which may fail. */
  method TellBackend(path: Path) returns (ok: bool) {
    ok := *;
  }

  /** ReadEntry by its decision. */
  ghost function Noted(s: State, p: Path, snapshot: Snapshot, o: Outcome, file: Reading): (s': State)
    requires p in s.entries && file == Reading(snapshot, |s.log|)
    requires o == UpdateEntry(s.entries[p], s.tick, file)
    ensures s' == ReadEntry(s, p, snapshot)
  {
    s.(log := s.log + [Probe(p, snapshot)],
       entries := s.entries[p := o.entry],
       bag := if o.recheck then s.bag + multiset{Recheck(p, s.tick)} else s.bag,
       draft := if o.emit then s.draft.(inserts := s.draft.inserts + [Insert(p, file)]) else s.draft,
       view := if o.emit then s.view[p := file] else s.view,
       sent := if o.emit then s.sent + [Insert(p, file)] else s.sent)
  }

  // One more turn of each loop.

  lemma VisitsPush(s: State, visits: seq<Visit>, v: Visit)
    ensures VisitAll(s, visits + [v]) == VisitOne(VisitAll(s, visits), v)
    ensures VisitPaths(visits + [v]) == VisitPaths(visits) + [v.path]
  {
    assert (visits + [v])[..|visits|] == visits;
  }

  lemma PollsPush(s: State, visits: seq<Visit>, v: Visit)
    ensures PollAll(s, visits + [v]) == PollOne(PollAll(s, visits), v)
    ensures VisitPaths(visits + [v]) == VisitPaths(visits) + [v.path]
  {
    assert (visits + [v])[..|visits|] == visits;
  }

  lemma ProbesPush(s: State, probes: seq<Probe>, x: Probe)
    ensures ReadAll(s, probes + [x]) == ReadEntry(ReadAll(s, probes), x.path, x.snapshot)
    ensures ProbePaths(probes + [x]) == ProbePaths(probes) + [x.path]
  {
    assert (probes + [x])[..|probes|] == probes;
  }

  lemma DropsPush(s: State, drops: seq<Drop>, d: Drop)
    ensures RetainAll(s, drops + [d]) == RetainOne(RetainAll(s, drops), d)
  {
    assert (drops + [d])[..|drops|] == drops;
  }

  lemma ForgetsPush(s: State, drops: seq<Drop>, d: Drop)
    ensures ForgetAll(s, drops + [d]) == ForgetOne(ForgetAll(s, drops), d)
    ensures DropPaths(drops + [d]) == DropPaths(drops) + [d.path]
  {
    assert (drops + [d])[..|drops|] == drops;
  }

  function Only(i: Insert<Reading>): ChangeSet<Reading> {
    NO_CHANGES.(inserts := NO_CHANGES.inserts + [i])
  }

  /** What a recheck that is due does to the fields of the actor. */
  lemma FireFields(s: State, r: Recheck)
    requires s.draft == NO_CHANGES
    ensures var s' := Fire(s, r);
      && s'.hasWatcher == s.hasWatcher && s'.lifetime == s.lifetime && s'.tick == s.tick
      && s'.log == s.log && s'.bag == s.bag - multiset{r}
      && (r.path !in s.entries ==> s'.entries == s.entries && s'.out == s.out)
      && (r.path in s.entries ==>
            var e := s.entries[r.path];
            && s'.entries == s.entries[r.path := e.(state := Stable)]
            && s'.out ==
                 if e.state.EmptyOrRemoval? && e.state.recheckAt == r.tick
                 then s.out + [FsUpdate(Only(Insert(r.path, e.state.payload)), false)]
                 else s.out)
  {
  }

  class NotifyActor {
    const hasWatcher: bool
    var lifetime: nat
    var logicalTick: nat
    /** Rechecks in the internal channel or still sleeping before a resend. */
    var undetermined: multiset<Recheck>
    var watchedEntries: map<Path, Entry>
    /** Every event passed to the consumer's callback. */
    var events: seq<FsEvent>
    /** Numbers the reads, for the serials of readings. */
    var readCount: nat

    /** The state with its history. */
    ghost var model: State

    ghost predicate Linked()
      reads this
    {
      && model.hasWatcher == hasWatcher
      && model.lifetime == lifetime
      && model.tick == logicalTick
      && model.bag == undetermined
      && model.entries == watchedEntries
      && model.out == events
      && |model.log| == readCount
    }

    /** The object invariant between events. */
    ghost predicate Valid()
      reads this
    {
      Linked() && WatchRuns.Settled(model)
    }

    constructor (hasWatcher: bool)
      ensures Valid() && model == Init(hasWatcher)
    {
      this.hasWatcher := hasWatcher;
      lifetime, logicalTick := 1, 1;
      undetermined, watchedEntries, events := multiset{}, map[], [];
      readCount := 0;
      model := Init(hasWatcher);
      WatchRuns.InitSettled(hasWatcher);
    }

    /** Starts an episode: the snapshot is held back and a recheck is queued. */
    method Hold(path: Path, entry: Entry, file: Reading)
      modifies `watchedEntries, `undetermined
      ensures watchedEntries ==
        old(watchedEntries)[path := entry.(state := EmptyOrRemoval(logicalTick, file), prev := Some(file))]
      ensures undetermined == old(undetermined) + multiset{Recheck(path, logicalTick)}
    {
      watchedEntries := watchedEntries[path := entry.(state := EmptyOrRemoval(logicalTick, file), prev := Some(file))];
      undetermined := undetermined + multiset{Recheck(path, logicalTick)};
    }

    /** Reads a watched path and decides whether its content is sent now, held back for a
        recheck, or skipped. */
    method NotifyEntryUpdate(path: Path) returns (file: Option<Insert<Reading>>, ghost found: Snapshot)
      requires Linked()
      modifies this
      ensures Linked() && model == ReadEntry(old(model), path, found)
      ensures model.draft == match file
        case None => old(model.draft)
        case Some(x) => old(model.draft).(inserts := old(model.draft.inserts) + [x])
    {
      file, found := None, Ok([]);
      if path !in watchedEntries {
        return;
      }
      var entry := watchedEntries[path];
      var snapshot := Content(path);
      found := snapshot;
      var reading := Reading(snapshot, readCount);
      readCount := readCount + 1;
      ghost var o := UpdateEntry(entry, logicalTick, reading);
      model := Noted(model, path, snapshot, o, reading);
      assert !o.emit && !o.recheck && o.entry == entry ==> watchedEntries == watchedEntries[path := o.entry];
      match (entry.prev, snapshot) {
        case (None, _) =>
        case (Some(Reading(Err(_), _)), Ok(_)) =>
        case (Some(prev), Err(error)) =>
          match entry.state {
            case Stable =>
              if error.NotFound? || error.Other? {
                Hold(path, entry, reading);
                return;
              }
              if prev.snapshot == snapshot {
                return;
              }
            case EmptyOrRemoval(at, _) =>
              watchedEntries := watchedEntries[path := entry.(state := EmptyOrRemoval(at, reading))];
              return;
          }
        case (Some(Reading(Ok(was), _)), Ok(next)) =>
          if was == next {
            return;
          }
          match entry.state {
            case Stable =>
              if next == [] {
                Hold(path, entry, reading);
                return;
              }
            case EmptyOrRemoval(_, _) =>
              if next == [] {
                return;
              }
          }
      }
      watchedEntries := watchedEntries[path := entry.(state := Stable, prev := Some(reading))];
      file := Some(Insert(path, reading));
    }

    method WatchFileIfNeeded(path: Path, contained: bool) returns (ghost watchable: bool, ghost ok: bool)
      requires Linked()
      modifies this
      ensures Linked() && model == WatchIfNeeded(old(model), path, contained, watchable, ok)
    {
      watchable, ok := false, false;
      if path !in watchedEntries {
        return;
      }
      var entry := watchedEntries[path];
      var isFile := IsWatchableFile(path);
      watchable := isFile;
      if !isFile {
        return;
      }
      if !contained || !entry.watching {
        if hasWatcher {
          var watching := TellBackend(path);
          ok := watching;
          watchedEntries := watchedEntries[path := entry.(watching := watching)];
        }
      }
      model := WatchIfNeeded(model, path, contained, watchable, ok);
    }

    /** Visits one dependency: a new lifetime, a watch and a read. */
    method VisitDependency(path: Path, changeset: ChangeSet<Reading>)
      returns (changes: ChangeSet<Reading>, ghost v: Visit)
      requires Linked() && changeset == model.draft
      modifies this
      ensures Linked() && v.path == path
      ensures model == VisitOne(old(model), v) && changes == model.draft
    {
      ghost var s := model;
      ghost var watchable, ok := false, false;
      var contained := path in watchedEntries;
      var entry := if contained then watchedEntries[path].(lifetime := lifetime)
                   else Entry(lifetime, false, false, Stable, None);
      watchedEntries := watchedEntries[path := entry];
      model := model.(entries := watchedEntries);
      changes, v := changeset, Visit(path, false, false, Ok([]));
      if entry.seen {
        return;
      }
      watchedEntries := watchedEntries[path := entry.(seen := true)];
      model := model.(entries := watchedEntries);
      assert model == s.(entries := s.entries[path := entry.(seen := true)]);
      if hasWatcher {
        watchable, ok := WatchFileIfNeeded(path, contained);
        ghost var found;
        var file;
        file, found := NotifyEntryUpdate(path);
        v := Visit(path, watchable, ok, found);
        if file.Some? {
          changes := changes.(inserts := changes.inserts + [file.value]);
        }
      } else {
        var snapshot := Content(path);
        v := Visit(path, false, false, snapshot);
        model := Push(Read(model, path, snapshot), path, Reading(snapshot, readCount));
        changes := changes.(inserts := changes.inserts + [Insert(path, Reading(snapshot, readCount))]);
        readCount := readCount + 1;
      }
    }

    /** One turn of the retain loop. */
    method RetainEntry(path: Path, changeset: ChangeSet<Reading>)
      returns (changes: ChangeSet<Reading>, ghost d: Drop)
      requires Linked() && changeset == model.draft && path in watchedEntries
      modifies this
      ensures Linked() && d.path == path
      ensures model == RetainOne(old(model), d) && changes == model.draft
      ensures old(watchedEntries).Keys - {path} <= watchedEntries.Keys
    {
      ghost var s := model;
      changes, d := changeset, Drop(path, false);
      var entry := watchedEntries[path];
      if !entry.seen && entry.watching {
        if hasWatcher {
          var ok := TellBackend(path);
          d := Drop(path, ok);
          watchedEntries := watchedEntries[path := entry.(watching := false)];
        }
      }
      var recent := lifetime - entry.lifetime < WINDOW;
      if !recent {
        changes := changes.(removes := changes.removes + [path]);
        watchedEntries := watchedEntries - {path};
      }
      model := RetainOne(model, d);
    }

    /** Marks every entry as unseen. */
    method MarkUnseen()
      modifies `watchedEntries
      ensures watchedEntries ==
        map p | p in old(watchedEntries) :: old(watchedEntries)[p].(seen := false)
    {
      ghost var start := watchedEntries;
      var todo := watchedEntries.Keys;
      while todo != {}
        invariant todo <= start.Keys && watchedEntries.Keys == start.Keys
        invariant forall p :: p in start ==>
          watchedEntries[p] == if p in todo then start[p] else start[p].(seen := false)
        decreases todo
      {
        var p :| p in todo;
        watchedEntries := watchedEntries[p := watchedEntries[p].(seen := false)];
        todo := todo - {p};
      }
    }

    method VisitDependencies(paths: seq<Path>)
      returns (changeset: ChangeSet<Reading>, ghost visits: seq<Visit>)
      requires Linked() && model.draft == NO_CHANGES
      modifies this
      ensures Linked() && VisitPaths(visits) == paths
      ensures model == VisitAll(old(model), visits) && changeset == model.draft
    {
      hide VisitOne;
      ghost var begun := model;
      changeset, visits := NO_CHANGES, [];
      for i := 0 to |paths|
        invariant Linked() && model == VisitAll(begun, visits) && changeset == model.draft
        invariant VisitPaths(visits) == paths[..i]
      {
        ghost var v;
        changeset, v := VisitDependency(paths[i], changeset);
        VisitsPush(begun, visits, v);
        visits := visits + [v];
      }
    }

    /** The retain loop: it meets every entry once, in any order. */
    method RetainEntries(changeset: ChangeSet<Reading>)
      returns (changes: ChangeSet<Reading>, ghost drops: seq<Drop>)
      requires Linked() && changeset == model.draft
      modifies this
      ensures Linked() && Enumerates(drops, old(model).entries.Keys)
      ensures model == RetainAll(old(model), drops) && changes == model.draft
    {
      hide RetainOne;
      ghost var visited := model;
      changes, drops := changeset, [];
      var todo := watchedEntries.Keys;
      while todo != {}
        invariant Linked() && model == RetainAll(visited, drops) && changes == model.draft
        invariant todo <= watchedEntries.Keys && todo <= visited.entries.Keys
        invariant Enumerates(drops, visited.entries.Keys - todo)
        decreases todo
      {
        var p :| p in todo;
        ghost var d;
        changes, d := RetainEntry(p, changes);
        EnumeratesMore(drops, visited.entries.Keys, todo, d);
        DropsPush(visited, drops, d);
        drops := drops + [d];
        todo := todo - {p};
      }
      assert visited.entries.Keys - todo == visited.entries.Keys;
    }

    /** Takes a new set of dependencies: visits each, then drops the watches of the rest
        and the entries unseen for thirty updates. */
    method UpdateWatches(paths: seq<Path>)
      returns (changeset: ChangeSet<Reading>, ghost visits: seq<Visit>, ghost drops: seq<Drop>)
      requires Linked() && model.draft == NO_CHANGES
      modifies this
      ensures Linked() && VisitPaths(visits) == paths && Retainable(old(model), visits, drops)
      ensures model == WatchModel.UpdateWatches(old(model), visits, drops)
      ensures changeset == model.draft
    {
      lifetime := lifetime + 1;
      MarkUnseen();
      model := Begin(model, set p | p in paths);
      changeset, visits := VisitDependencies(paths);
      VisitedIs(visits, paths);
      changeset, drops := RetainEntries(changeset);
    }

    /** Calls the consumer back with a non-empty changeset. */
    method Send(changeset: ChangeSet<Reading>, isSync: bool)
      requires Linked() && changeset == model.draft
      modifies this
      ensures Linked() && model == Flush(old(model), isSync)
    {
      if !changeset.IsEmpty() {
        events := events + [FsUpdate(changeset, isSync)];
      }
      model := Flush(model, isSync);
    }

    method Tick()
      requires Linked()
      modifies this
      ensures Linked() && model == Ticked(old(model))
    {
      logicalTick := logicalTick + 1;
      model := Ticked(model);
    }

    /** The message SyncDependency. */
    method OnSyncDependency(paths: seq<Path>) returns (ghost ev: Event)
      requires Valid()
      modifies this
      ensures ev.OnSync? && VisitPaths(ev.visits) == paths
      ensures Valid() && Enabled(old(model), ev) && model == Step(old(model), ev)
    {
      ghost var start := model;
      Tick();
      ghost var visits, drops;
      var changeset;
      changeset, visits, drops := UpdateWatches(paths);
      Send(changeset, true);
      ev := OnSync(visits, drops);
      WatchRuns.StepKeeps(start, ev);
    }

    /** The message UpstreamUpdate: the answer carries the event back, whatever changed. */
    method OnUpstreamUpdate(event: UpstreamEvent) returns (ghost ev: Event)
      requires Valid()
      modifies this
      ensures ev.OnUpstream? && ev.event == event
      ensures Valid() && Enabled(old(model), ev) && model == Step(old(model), ev)
    {
      ghost var start := model;
      Tick();
      ghost var visits, drops;
      var changeset;
      changeset, visits, drops := UpdateWatches(event.invalidates);
      events := events + [FsUpstreamUpdate(changeset, event)];
      model := FlushUpstream(model, event);
      ev := OnUpstream(event, visits, drops);
      WatchRuns.StepKeeps(start, ev);
    }

    method ReadPaths(paths: seq<Path>) returns (changeset: ChangeSet<Reading>, ghost probes: seq<Probe>)
      requires Linked() && model.draft == NO_CHANGES
      modifies this
      ensures Linked() && ProbePaths(probes) == paths
      ensures model == ReadAll(old(model), probes) && changeset == model.draft
    {
      hide ReadEntry;
      ghost var start := model;
      changeset, probes := NO_CHANGES, [];
      for i := 0 to |paths|
        invariant Linked() && model == ReadAll(start, probes) && changeset == model.draft
        invariant ProbePaths(probes) == paths[..i]
      {
        ghost var found;
        var file;
        file, found := NotifyEntryUpdate(paths[i]);
        if file.Some? {
          changeset := changeset.(inserts := changeset.inserts + [file.value]);
        }
        ProbesPush(start, probes, Probe(paths[i], found));
        probes := probes + [Probe(paths[i], found)];
      }
    }

    /** The backend drops its watch on a removed file; the entry must follow to be
        watched again later. */
    method ForgetPath(path: Path) returns (ghost d: Drop)
      requires Linked()
      modifies this
      ensures Linked() && d.path == path && model == ForgetOne(old(model), d)
    {
      d := Drop(path, false);
      if path in watchedEntries && watchedEntries[path].watching {
        var ok := TellBackend(path);
        d := Drop(path, ok);
        watchedEntries := watchedEntries[path := watchedEntries[path].(watching := false)];
      }
      model := ForgetOne(model, d);
    }

    method ForgetPaths(paths: seq<Path>) returns (ghost forgets: seq<Drop>)
      requires Linked()
      modifies this
      ensures Linked() && DropPaths(forgets) == paths
      ensures model == ForgetAll(old(model), forgets)
    {
      hide ForgetOne;
      ghost var start := model;
      forgets := [];
      for i := 0 to |paths|
        invariant Linked() && model == ForgetAll(start, forgets)
        invariant DropPaths(forgets) == paths[..i]
      {
        ghost var d := ForgetPath(paths[i]);
        ForgetsPush(start, forgets, d);
        forgets := forgets + [d];
      }
    }

    /** An event of the backend: every path is read; a removed one is unwatched. */
    method NotifyEvent(kind: EventKind, paths: seq<Path>) returns (ghost ev: Event)
      requires Linked() && model.draft == NO_CHANGES && hasWatcher
      modifies this
      ensures ev.OnNotify? && ev.kind == kind && ProbePaths(ev.probes) == paths
      ensures Linked() && Enabled(old(model), ev) && model == Step(old(model), ev)
    {
      Tick();
      ghost var probes := seq(|paths|, i requires 0 <= i < |paths| => Probe(paths[i], Ok([])));
      ghost var forgets := seq(|paths|, i requires 0 <= i < |paths| => Drop(paths[i], false));
      assert ProbePaths(probes) == paths == DropPaths(forgets);
      if Relevant(kind) {
        var changeset;
        changeset, probes := ReadPaths(paths);
        if Unwatches(kind) {
          ghost var read := model;
          forgets := ForgetPaths(paths);
          ForgetDraft(read, forgets);
        }
        Send(changeset, false);
      }
      ev := OnNotify(kind, probes, forgets);
    }

    method OnNotifyEvent(kind: EventKind, paths: seq<Path>) returns (ghost ev: Event)
      requires Valid() && hasWatcher
      modifies this
      ensures ev.OnNotify? && ev.kind == kind && ProbePaths(ev.probes) == paths
      ensures Valid() && Enabled(old(model), ev) && model == Step(old(model), ev)
    {
      ev := NotifyEvent(kind, paths);
      WatchRuns.StepKeeps(old(model), ev);
    }

    /** A recheck that is due closes its episode, and sends the payload if it is the
        episode's own. */
    method CloseEpisode(r: Recheck)
      requires Linked() && model.draft == NO_CHANGES && r in undetermined
      modifies this
      ensures Linked() && model == Fire(old(model), r)
    {
      hide Fire;
      FireFields(model, r);
      undetermined := undetermined - multiset{r};
      model := Fire(model, r);
      if r.path in watchedEntries {
        var entry := watchedEntries[r.path];
        watchedEntries := watchedEntries[r.path := entry.(state := Stable)];
        match entry.state {
          case Stable =>
          case EmptyOrRemoval(at, payload) =>
            if at == r.tick {
              var changeset := NO_CHANGES.(inserts := NO_CHANGES.inserts + [Insert(r.path, payload)]);
              events := events + [FsUpdate(changeset, false)];
            }
        }
      }
    }

    /** A recheck arrives; one that comes too early is sent again after a sleep. */
    method RecheckNotifyEvent(r: Recheck, ready: bool)
      requires Linked() && model.draft == NO_CHANGES && r in undetermined
      modifies this
      ensures Linked() && model == Step(old(model), OnRecheck(r, ready))
    {
      hide Fire;
      Tick();
      if ready {
        CloseEpisode(r);
      }
    }

    method OnRecheckEvent(r: Recheck, ready: bool)
      requires Valid() && r in undetermined
      modifies this
      ensures Valid() && model == Step(old(model), OnRecheck(r, ready))
    {
      RecheckNotifyEvent(r, ready);
      WatchRuns.StepKeeps(old(model), OnRecheck(r, ready));
    }

    /** The periodic poll for files that could not be watched while missing. */
    method OnPollMissing() returns (ghost ev: Event, ghost existing: set<Path>)
      requires Valid()
      modifies this
      ensures ev.OnPoll?
      ensures hasWatcher ==> forall p ::
        p in Visited(ev.visits) <==>
          && p in old(watchedEntries) && old(watchedEntries[p]).seen && !old(watchedEntries[p]).watching
          && old(watchedEntries[p]).prev.Some? && old(watchedEntries[p]).prev.value.snapshot.Err?
          && old(watchedEntries[p]).prev.value.snapshot.error.NotFound? && p in existing
      ensures Valid() && Enabled(old(model), ev) && model == Step(old(model), ev)
    {
      ghost var start := model;
      Tick();
      ghost var ticked := model;
      existing := {};
      if !hasWatcher {
        ev := OnPoll([]);
        WatchRuns.StepKeeps(start, ev);
        return;
      }
      var paths;
      paths, existing := Candidates();
      var changeset;
      ghost var visits;
      changeset, visits := PollPaths(paths);
      ev := OnPoll(visits);
      PolledAre(ticked, visits, paths);
      VisitedIs(visits, paths);
      Send(changeset, false);
      WatchRuns.StepKeeps(start, ev);
    }

    /** Watches and reads one of the files. */
    method PollFile(path: Path, changeset: ChangeSet<Reading>)
      returns (changes: ChangeSet<Reading>, ghost v: Visit)
      requires Linked() && changeset == model.draft
      modifies this
      ensures Linked() && v.path == path
      ensures model == PollOne(old(model), v) && changes == model.draft
    {
      changes := changeset;
      ghost var watchable, ok, found;
      watchable, ok := WatchFileIfNeeded(path, true);
      var file;
      file, found := NotifyEntryUpdate(path);
      if file.Some? {
        changes := changes.(inserts := changes.inserts + [file.value]);
      }
      v := Visit(path, watchable, ok, found);
    }

    method PollPaths(paths: seq<Path>) returns (changeset: ChangeSet<Reading>, ghost visits: seq<Visit>)
      requires Linked() && model.draft == NO_CHANGES
      modifies this
      ensures Linked() && VisitPaths(visits) == paths
      ensures model == PollAll(old(model), visits) && changeset == model.draft
    {
      hide PollOne;
      ghost var start := model;
      changeset, visits := NO_CHANGES, [];
      for i := 0 to |paths|
        invariant Linked() && model == PollAll(start, visits) && changeset == model.draft
        invariant VisitPaths(visits) == paths[..i]
      {
        ghost var v;
        changeset, v := PollFile(paths[i], changeset);
        PollsPush(start, visits, v);
        visits := visits + [v];
      }
    }

    /** The known-missing files that exist again, each once, in any order. */
    method Candidates() returns (paths: seq<Path>, ghost existing: set<Path>)
      requires Linked()
      ensures forall p :: p in paths <==>
        && p in watchedEntries && watchedEntries[p].seen && !watchedEntries[p].watching
        && watchedEntries[p].prev.Some? && watchedEntries[p].prev.value.snapshot.Err?
        && watchedEntries[p].prev.value.snapshot.error.NotFound? && p in existing
      ensures forall i, j :: 0 <= i < j < |paths| ==> paths[i] != paths[j]
    {
      paths, existing := [], {};
      var todo := watchedEntries.Keys;
      while todo != {}
        invariant todo <= watchedEntries.Keys && existing !! todo
        invariant forall p :: p in paths <==> Pollable(model, p) && p in existing
        invariant forall i, j :: 0 <= i < j < |paths| ==> paths[i] != paths[j]
        decreases todo
      {
        var p :| p in todo;
        todo := todo - {p};
        var entry := watchedEntries[p];
        if entry.seen && !entry.watching && IsKnownMissing(entry) {
          var watchable := IsWatchableFile(p);
          if watchable {
            paths := paths + [p];
            existing := existing + {p};
          }
        }
      }
    }
  }

  lemma PolledAre(s: State, visits: seq<Visit>, paths: seq<Path>)
    requires VisitPaths(visits) == paths && forall i :: 0 <= i < |paths| ==> Pollable(s, paths[i])
    ensures forall i :: 0 <= i < |visits| ==> Pollable(s, visits[i].path)
  {
    forall i | 0 <= i < |visits| ensures Pollable(s, visits[i].path) {
      assert VisitPaths(visits)[i] == visits[i].path;
    }
  }

  lemma EnumeratesMore(drops: seq<Drop>, keys: set<Path>, todo: set<Path>, d: Drop)
    requires Enumerates(drops, keys - todo) && d.path in todo && todo <= keys
    ensures Enumerates(drops + [d], keys - (todo - {d.path}))
  {
    var drops', met := drops + [d], keys - (todo - {d.path});
    assert drops'[|drops|].path == d.path;
    forall p | p in met ensures exists i :: 0 <= i < |drops'| && drops'[i].path == p {
      if p != d.path {
        assert p in keys - todo;
        var i :| 0 <= i < |drops| && drops[i].path == p;
        assert drops'[i].path == p;
      }
    }
  }

  lemma {:induction false} ForgetDraft(s: State, drops: seq<Drop>)
    ensures ForgetAll(s, drops).draft == s.draft
  {
    if drops != [] {
      ForgetDraft(s, drops[..|drops| - 1]);
    }
  }

  predicate IsKnownMissing(entry: Entry) {
    entry.prev.Some? && entry.prev.value.snapshot.Err? && entry.prev.value.snapshot.error.NotFound?
  }

  lemma VisitedIs(visits: seq<Visit>, paths: seq<Path>)
    requires VisitPaths(visits) == paths
    ensures Visited(visits) == set p | p in paths
  {
    forall p | p in paths ensures p in Visited(visits) {
      var i :| 0 <= i < |paths| && paths[i] == p;
      assert VisitPaths(visits)[i] == visits[i].path;
    }
    forall v | v in visits ensures v.path in paths {
      var i :| 0 <= i < |visits| && visits[i] == v;
      assert VisitPaths(visits)[i] == v.path;
    }
  }
}
