/** What every step of the watcher keeps, path by path, and the proof that it does. */
module WatchInvariant {
  import opened Options
  import opened Vfs
  import opened WatchModel

  /** r is a read of p that took place. */
  ghost predicate Logged(s: State, p: Path, r: Reading) {
    r.serial < |s.log| && s.log[r.serial] == Probe(p, r.snapshot)
  }

  /** Everything sent for p comes from reads before k. */
  ghost predicate SentBefore(s: State, p: Path, k: nat) {
    forall i :: 0 <= i < |s.sent| && s.sent[i].path == p ==> s.sent[i].value.serial < k
  }

  /** From read k on, no read of p found content. */
  ghost predicate NoContentSince(s: State, p: Path, k: nat) {
    forall i :: k <= i < |s.log| && s.log[i].path == p ==> !NonEmpty(s.log[i].snapshot)
  }

  /** Read i is the latest of p. */
  ghost predicate LatestRead(s: State, p: Path, i: nat) {
    && i < |s.log| && s.log[i].path == p
    && forall j :: i < j < |s.log| ==> s.log[j].path != p
  }

  /** If the latest read of p found content, it found this. */
  ghost predicate LastContent(s: State, p: Path, found: Snapshot) {
    forall i: nat :: LatestRead(s, p, i) && NonEmpty(s.log[i].snapshot) ==> s.log[i].snapshot == found
  }

  /** The snapshots sent for a path come from strictly increasing reads of that path. */
  ghost predicate SentOk(s: State) {
    && (forall i :: 0 <= i < |s.sent| ==> Logged(s, s.sent[i].path, s.sent[i].value))
    && (forall i, j :: 0 <= i < j < |s.sent| && s.sent[i].path == s.sent[j].path ==>
          s.sent[i].value.serial < s.sent[j].value.serial)
  }

  /** The payload of an episode is the latest erroneous read since it began; the read it
      began with, if there is none. */
  ghost predicate LatestError(s: State, p: Path, began: Reading, payload: Reading) {
    && (payload == began || payload.snapshot.Err?)
    && forall j :: payload.serial < j < |s.log| && s.log[j].path == p ==> s.log[j].snapshot.Ok?
  }

  /** An episode that began with an error is ended by any other read. */
  ghost predicate ErrorsOnly(s: State, p: Path, began: Reading) {
    began.snapshot.Err? ==>
      forall j :: began.serial < j < |s.log| && s.log[j].path == p ==> s.log[j].snapshot.Err?
  }

  /** An open episode: its recheck is queued and is the newest of the path, its payload is
      newer than everything sent, and no read of it contradicts it. */
  ghost predicate EpisodeOk(s: State, p: Path, began: Reading, at: nat, payload: Reading) {
    && Recheck(p, at) in s.bag
    && at <= s.tick
    && (forall r :: r in s.bag && r.path == p ==> r.tick <= at)
    && Logged(s, p, began) && Logged(s, p, payload)
    && began.serial <= payload.serial
    && SentBefore(s, p, began.serial)
    && NoContentSince(s, p, began.serial)
    && LatestError(s, p, began, payload) && ErrorsOnly(s, p, began)
  }

  ghost predicate EntryOk(s: State, p: Path, e: Entry) {
    && e.lifetime <= s.lifetime
    && (e.watching ==> s.hasWatcher)
    && (e.prev.Some? ==>
          s.hasWatcher && Logged(s, p, e.prev.value) && p in s.view && LastContent(s, p, e.prev.value.snapshot))
    && match e.state
       case Stable =>
         e.prev.Some? && NonEmpty(e.prev.value.snapshot) ==> s.view[p] == e.prev.value
       case EmptyOrRemoval(at, payload) =>
         e.prev.Some? && EpisodeOk(s, p, e.prev.value, at, payload)
  }

  /** Without a watcher every read is shown at once. */
  ghost predicate ViewOk(s: State, p: Path) {
    p in s.view ==>
      && p in s.entries && Logged(s, p, s.view[p]) && Insert(p, s.view[p]) in s.sent
      && (!s.hasWatcher ==> LatestRead(s, p, s.view[p].serial))
  }

  /** The paths a watch command succeeded for and no unwatch was tried since. */
  function Held(commands: seq<Command>): set<Path> {
    if commands == [] then {}
    else
      var h := Held(commands[..|commands| - 1]);
      match commands[|commands| - 1]
      case Watch(p, ok) => if ok then h + {p} else h
      case Unwatch(p, _) => h - {p}
  }

  /** The paths the operating system watches when commands do what they report. */
  function OsWatched(commands: seq<Command>): set<Path> {
    if commands == [] then {}
    else
      var h := OsWatched(commands[..|commands| - 1]);
      match commands[|commands| - 1]
      case Watch(p, ok) => if ok then h + {p} else h
      case Unwatch(p, ok) => if ok then h - {p} else h
  }

  /** The paths whose last settled command is an unwatch that reported an error. */
  function Stray(commands: seq<Command>): set<Path> {
    if commands == [] then {}
    else
      var h := Stray(commands[..|commands| - 1]);
      match commands[|commands| - 1]
      case Watch(p, ok) => if ok then h - {p} else h
      case Unwatch(p, ok) => if ok then h - {p} else h + {p}
  }

  /** No path is watched twice, none is unwatched that is not watched. */
  ghost predicate Disciplined(commands: seq<Command>) {
    commands != [] ==>
      var before := commands[..|commands| - 1];
      && Disciplined(before)
      && match commands[|commands| - 1]
         case Watch(p, _) => p !in Held(before)
         case Unwatch(p, _) => p in Held(before)
  }

  ghost predicate LedgerOk(s: State, p: Path) {
    p in Held(s.commands) <==> p in s.entries && s.entries[p].watching
  }

  ghost predicate PathOk(s: State, p: Path) {
    && (p in s.entries ==> EntryOk(s, p, s.entries[p]))
    && ViewOk(s, p)
    && LedgerOk(s, p)
  }

  /** All insertions of the events, in the order the consumer receives them. */
  function Inserts(events: seq<FsEvent>): seq<Insert<Reading>> {
    if events == [] then []
    else Inserts(events[..|events| - 1]) + events[|events| - 1].changes.inserts
  }

  /** The changesets sent, and the one under construction, amount to the view. */
  ghost predicate FoldOk(s: State) {
    && s.view == Apply(Consumer(s.out), s.draft)
    && s.sent == Inserts(s.out) + s.draft.inserts
  }

  ghost predicate Core(s: State) {
    && SentOk(s)
    && (forall r :: r in s.bag ==> r.tick <= s.tick)
    && Disciplined(s.commands)
    && FoldOk(s)
    && forall p :: PathOk(s, p)
  }

  // -------------------------------------------------------------------- frames

  /** s' extends the log of s by reads that do not concern q. */
  ghost predicate LogExtends(s: State, s': State, q: Path) {
    && |s.log| <= |s'.log|
    && (forall i :: 0 <= i < |s.log| ==> s'.log[i] == s.log[i])
    && (forall i :: |s.log| <= i < |s'.log| ==> s'.log[i].path != q)
  }

  ghost predicate SentExtends(s: State, s': State, q: Path) {
    && |s.sent| <= |s'.sent|
    && (forall i :: 0 <= i < |s.sent| ==> s'.sent[i] == s.sent[i])
    && (forall i :: |s.sent| <= i < |s'.sent| ==> s'.sent[i].path != q)
  }

  /** Nothing PathOk(_, q) talks about differs between s and s'. */
  ghost predicate SameFor(s: State, s': State, q: Path) {
    && s'.hasWatcher == s.hasWatcher
    && s.lifetime <= s'.lifetime && s.tick <= s'.tick
    && (q in s'.entries <==> q in s.entries)
    && (q in s.entries ==> s'.entries[q] == s.entries[q])
    && (q in s'.view <==> q in s.view)
    && (q in s.view ==> s'.view[q] == s.view[q])
    && (forall r: Recheck :: r.path == q ==> (r in s'.bag <==> r in s.bag))
    && LogExtends(s, s', q)
    && SentExtends(s, s', q)
    && (q in Held(s'.commands) <==> q in Held(s.commands))
  }

  lemma EpisodeFrame(s: State, s': State, q: Path, began: Reading, at: nat, payload: Reading)
    requires EpisodeOk(s, q, began, at, payload) && SameFor(s, s', q)
    ensures EpisodeOk(s', q, began, at, payload)
  {
  }

  lemma LastContentFrame(s: State, s': State, q: Path, found: Snapshot)
    requires LastContent(s, q, found) && LogExtends(s, s', q)
    ensures LastContent(s', q, found)
  {
    forall i: nat | LatestRead(s', q, i) && NonEmpty(s'.log[i].snapshot)
      ensures s'.log[i].snapshot == found
    {
      assert LatestRead(s, q, i);
    }
  }

  lemma PathFrame(s: State, s': State, q: Path)
    requires PathOk(s, q) && SameFor(s, s', q)
    ensures PathOk(s', q)
  {
    if q in s.entries && s.entries[q].prev.Some? {
      LastContentFrame(s, s', q, s.entries[q].prev.value.snapshot);
    }
    if q in s.entries && s.entries[q].state.EmptyOrRemoval? {
      var e := s.entries[q];
      EpisodeFrame(s, s', q, e.prev.value, e.state.recheckAt, e.state.payload);
    }
    if q in s.view {
      var i :| 0 <= i < |s.sent| && s.sent[i] == Insert(q, s.view[q]);
      assert s'.sent[i] == s.sent[i];
    }
  }

  // --------------------------------------------------------- one micro step each

  /** The four ways a read can go. */
  lemma UpdateEntryCases(e: Entry, tick: nat, file: Reading)
    ensures var o := UpdateEntry(e, tick, file);
      || o == Outcome(e.(state := Stable, prev := Some(file)), true, false)
      || (e.prev.Some? && e.state.Stable? && !NonEmpty(file.snapshot) &&
          o == Outcome(e.(state := EmptyOrRemoval(tick, file), prev := Some(file)), false, true))
      || (e.prev.Some? && e.state.EmptyOrRemoval? && file.snapshot.Err? &&
          o == Outcome(e.(state := EmptyOrRemoval(e.state.recheckAt, file)), false, false))
      || (e.prev.Some? && o == Outcome(e, false, false) &&
          (e.state.EmptyOrRemoval? ==> file.snapshot.Ok? && e.prev.value.snapshot.Ok?) &&
          (NonEmpty(file.snapshot) ==> file.snapshot == e.prev.value.snapshot))
  {
  }

  /** What a read does to the state before anything is pushed. */
  function Noted(s: State, p: Path, snapshot: Snapshot, e: Entry, recheck: bool): State {
    Read(s, p, snapshot).(
      entries := s.entries[p := e],
      bag := if recheck then s.bag + multiset{Recheck(p, s.tick)} else s.bag)
  }

  lemma ReadSameFor(s: State, p: Path, snapshot: Snapshot, e: Entry, recheck: bool, q: Path)
    requires q != p
    ensures SameFor(s, Noted(s, p, snapshot, e, recheck), q)
    ensures SameFor(s, Push(Noted(s, p, snapshot, e, recheck), p, Reading(snapshot, |s.log|)), q)
  {
  }

  lemma EmitPath(s: State, p: Path, snapshot: Snapshot, e: Entry)
    requires PathOk(s, p) && p in s.entries && s.hasWatcher
    requires e == s.entries[p].(state := Stable, prev := Some(Reading(snapshot, |s.log|)))
    ensures PathOk(Push(Noted(s, p, snapshot, e, false), p, Reading(snapshot, |s.log|)), p)
  {
    var file := Reading(snapshot, |s.log|);
    var s' := Push(Noted(s, p, snapshot, e, false), p, file);
    assert s'.log[|s.log|] == Probe(p, snapshot);
    assert s'.sent[|s.sent|] == Insert(p, file);
  }

  lemma HoldPath(s: State, p: Path, snapshot: Snapshot, e: Entry)
    requires PathOk(s, p) && p in s.entries && SentOk(s)
    requires forall r :: r in s.bag ==> r.tick <= s.tick
    requires s.entries[p].prev.Some? && !NonEmpty(snapshot)
    requires var file := Reading(snapshot, |s.log|);
      e == s.entries[p].(state := EmptyOrRemoval(s.tick, file), prev := Some(file))
    ensures PathOk(Noted(s, p, snapshot, e, true), p)
  {
    var s' := Noted(s, p, snapshot, e, true);
    assert s'.log[|s.log|] == Probe(p, snapshot);
    ViewFrame(s, s', p);
    assert EpisodeOk(s', p, e.prev.value, s.tick, e.prev.value);
  }

  lemma ViewFrame(s: State, s': State, p: Path)
    requires ViewOk(s, p)
    requires s'.view == s.view && s'.sent == s.sent && (p in s.entries ==> p in s'.entries)
    requires s'.hasWatcher == s.hasWatcher && (s.hasWatcher || s'.log == s.log)
    requires |s.log| <= |s'.log| && (forall i :: 0 <= i < |s.log| ==> s'.log[i] == s.log[i])
    ensures ViewOk(s', p)
  {
  }

  lemma KeepPath(s: State, p: Path, snapshot: Snapshot, e: Entry)
    requires PathOk(s, p) && p in s.entries
    requires var was := s.entries[p]; var file := Reading(snapshot, |s.log|);
      && was.prev.Some?
      && ((was.state.EmptyOrRemoval? && snapshot.Err? &&
           e == was.(state := EmptyOrRemoval(was.state.recheckAt, file)))
          || (e == was && (was.state.EmptyOrRemoval? ==> snapshot.Ok? && was.prev.value.snapshot.Ok?) &&
              (NonEmpty(snapshot) ==> snapshot == was.prev.value.snapshot)))
    ensures PathOk(Noted(s, p, snapshot, e, false), p)
  {
    var s' := Noted(s, p, snapshot, e, false);
    var was := s.entries[p];
    assert s'.log[|s.log|] == Probe(p, snapshot);
    ViewFrame(s, s', p);
    if was.state.EmptyOrRemoval? {
      assert EpisodeOk(s, p, was.prev.value, was.state.recheckAt, was.state.payload);
      assert s.log[was.prev.value.serial] == Probe(p, was.prev.value.snapshot);
      assert EpisodeOk(s', p, was.prev.value, was.state.recheckAt, e.state.payload);
    }
  }

  lemma ReadEntryPath(s: State, p: Path, snapshot: Snapshot)
    requires SentOk(s) && PathOk(s, p) && p in s.entries && s.hasWatcher
    requires forall r :: r in s.bag ==> r.tick <= s.tick
    ensures PathOk(ReadEntry(s, p, snapshot), p)
  {
    var e := s.entries[p];
    var file := Reading(snapshot, |s.log|);
    var o := UpdateEntry(e, s.tick, file);
    UpdateEntryCases(e, s.tick, file);
    if o.emit {
      EmitPath(s, p, snapshot, o.entry);
    } else if o.recheck {
      HoldPath(s, p, snapshot, o.entry);
    } else {
      KeepPath(s, p, snapshot, o.entry);
    }
  }

  /** Sending a reading newer than everything sent for its path. */
  lemma PushSent(s: State, p: Path, r: Reading)
    requires SentOk(s) && Logged(s, p, r) && SentBefore(s, p, r.serial)
    ensures SentOk(Push(s, p, r))
  {
  }

  lemma NotedSent(s: State, p: Path, snapshot: Snapshot, e: Entry, recheck: bool)
    requires SentOk(s)
    ensures var s' := Noted(s, p, snapshot, e, recheck);
      SentOk(s') && SentBefore(s', p, |s.log|) && Logged(s', p, Reading(snapshot, |s.log|))
  {
  }

  lemma ReadEntryKeeps(s: State, p: Path, snapshot: Snapshot)
    requires Core(s) && s.hasWatcher
    ensures Core(ReadEntry(s, p, snapshot))
  {
    hide PathOk, SentOk, UpdateEntry;
    if p in s.entries {
      var s' := ReadEntry(s, p, snapshot);
      var file := Reading(snapshot, |s.log|);
      var o := UpdateEntry(s.entries[p], s.tick, file);
      var s1 := Noted(s, p, snapshot, o.entry, o.recheck);
      assert s' == if o.emit then Push(s1, p, file) else s1;
      NotedSent(s, p, snapshot, o.entry, o.recheck);
      PushSent(s1, p, file);
      ApplyPushInsert(Consumer(s.out), s.draft, Insert(p, file));
      forall q ensures PathOk(s', q) {
        assert PathOk(s, q);
        ReadEntryOther(s, p, snapshot, q);
      }
    }
  }

  lemma ReadEntryOther(s: State, p: Path, snapshot: Snapshot, q: Path)
    requires SentOk(s) && PathOk(s, p) && PathOk(s, q) && p in s.entries && s.hasWatcher
    requires forall r :: r in s.bag ==> r.tick <= s.tick
    ensures PathOk(ReadEntry(s, p, snapshot), q)
  {
    hide PathOk, SentOk, UpdateEntry, SameFor;
    if q == p {
      ReadEntryPath(s, p, snapshot);
    } else {
      var file := Reading(snapshot, |s.log|);
      var o := UpdateEntry(s.entries[p], s.tick, file);
      ReadSameFor(s, p, snapshot, o.entry, o.recheck, q);
      PathFrame(s, ReadEntry(s, p, snapshot), q);
    }
  }

  lemma TickKeeps(s: State)
    requires Core(s)
    ensures Core(Ticked(s))
  {
    var s' := Ticked(s);
    forall p ensures PathOk(s', p) {
      assert PathOk(s, p);
      PathFrame(s, s', p);
    }
  }

  lemma CommandAppend(commands: seq<Command>, c: Command)
    ensures (commands + [c])[..|commands|] == commands
    ensures Held(commands + [c]) ==
      if c.Watch? then (if c.ok then Held(commands) + {c.path} else Held(commands))
      else Held(commands) - {c.path}
  {
  }

  /** Changing flags and lifetime of one entry, with at most one command for its path. */
  lemma FlagsKeep(s: State, p: Path, e: Entry, commands: seq<Command>)
    requires Core(s) && Disciplined(commands)
    requires forall q :: q != p ==> (q in Held(commands) <==> q in Held(s.commands))
    requires p in Held(commands) <==> e.watching
    requires e.lifetime <= s.lifetime && (e.watching ==> s.hasWatcher)
    requires if p in s.entries
      then e.state == s.entries[p].state && e.prev == s.entries[p].prev
      else e.state.Stable? && e.prev.None?
    ensures Core(s.(entries := s.entries[p := e], commands := commands))
  {
    var s' := s.(entries := s.entries[p := e], commands := commands);
    forall q ensures PathOk(s', q) {
      assert PathOk(s, q);
      if q != p {
        PathFrame(s, s', q);
      } else {
        ViewFrame(s, s', p);
        if e.state.EmptyOrRemoval? {
          assert EpisodeOk(s, p, e.prev.value, e.state.recheckAt, e.state.payload);
          assert EpisodeOk(s', p, e.prev.value, e.state.recheckAt, e.state.payload);
        }
      }
    }
  }

  lemma WatchIfNeededKeeps(s: State, p: Path, contained: bool, watchable: bool, watchOk: bool)
    requires Core(s)
    requires !contained && p in s.entries ==> !s.entries[p].watching
    ensures Core(WatchIfNeeded(s, p, contained, watchable, watchOk))
  {
    assert PathOk(s, p);
    if p in s.entries && watchable && s.hasWatcher && !(contained && s.entries[p].watching) {
      CommandAppend(s.commands, Watch(p, watchOk));
      FlagsKeep(s, p, s.entries[p].(watching := watchOk), s.commands + [Watch(p, watchOk)]);
    }
  }

  lemma UnwatchKeeps(s: State, p: Path, ok: bool)
    requires Core(s) && p in s.entries && s.entries[p].watching
    ensures Core(UnwatchEntry(s, p, ok))
  {
    assert PathOk(s, p);
    CommandAppend(s.commands, Unwatch(p, ok));
    FlagsKeep(s, p, s.entries[p].(watching := false), s.commands + [Unwatch(p, ok)]);
  }

  lemma BeginKeeps(s: State, paths: set<Path>)
    requires Core(s)
    ensures Core(Begin(s, paths))
  {
    var s' := Begin(s, paths);
    forall q ensures PathOk(s', q) {
      assert PathOk(s, q);
      ViewFrame(s, s', q);
      if q in s.entries && s.entries[q].state.EmptyOrRemoval? {
        var e := s.entries[q];
        assert EpisodeOk(s, q, e.prev.value, e.state.recheckAt, e.state.payload);
        assert EpisodeOk(s', q, e.prev.value, e.state.recheckAt, e.state.payload);
      }
    }
  }

  /** Without a watcher every visit pushes what it reads. */
  lemma DirectKeeps(s: State, p: Path, snapshot: Snapshot)
    requires Core(s) && !s.hasWatcher && p in s.entries
    requires s.entries[p].prev.None? && s.entries[p].state.Stable?
    ensures Core(Push(Read(s, p, snapshot), p, Reading(snapshot, |s.log|)))
  {
    var file := Reading(snapshot, |s.log|);
    var s1 := Noted(s, p, snapshot, s.entries[p], false);
    assert s1 == Read(s, p, snapshot) by { assert s.entries[p := s.entries[p]] == s.entries; }
    var s' := Push(s1, p, file);
    NotedSent(s, p, snapshot, s.entries[p], false);
    PushSent(s1, p, file);
    ApplyPushInsert(Consumer(s.out), s.draft, Insert(p, file));
    assert s'.sent[|s.sent|] == Insert(p, file);
    forall q ensures PathOk(s', q) {
      assert PathOk(s, q);
      if q != p {
        ReadSameFor(s, p, snapshot, s.entries[p], false, q);
        PathFrame(s, s', q);
      }
    }
  }

  /** Without a watcher no entry ever leaves its initial state. */
  ghost predicate Idle(s: State) {
    !s.hasWatcher ==>
      forall p :: p in s.entries ==> s.entries[p].prev.None? && s.entries[p].state.Stable?
  }

  /** Between visits every entry is in the view, and has been read if there is a watcher. */
  ghost predicate Whole(s: State) {
    && s.entries.Keys == s.view.Keys
    && (s.hasWatcher ==> forall p :: p in s.entries ==> s.entries[p].prev.Some?)
    && Idle(s)
  }

  /** The fields a read of p leaves alone, and what it does to the others. */
  ghost predicate ReadShape(s: State, s': State, p: Path, snapshot: Snapshot) {
    var file := Insert(p, Reading(snapshot, |s.log|));
    && s'.hasWatcher == s.hasWatcher && s'.lifetime == s.lifetime && s'.tick == s.tick
    && s'.out == s.out && s'.deps == s.deps && s'.draft.removes == s.draft.removes
    && s'.log == s.log + [Probe(p, snapshot)]
    && ((s'.draft.inserts == s.draft.inserts && s'.view == s.view)
        || (s'.draft.inserts == s.draft.inserts + [file] && s'.view == s.view[p := file.value]))
    && (NonEmpty(snapshot) ==>
          s'.draft.inserts == s.draft.inserts + [file] || s'.view == s.view)
  }

  /** p gets an entry with these flags; the other entries stay. */
  ghost predicate EntryShape(s: State, s': State, p: Path, lifetime: nat, seen: bool) {
    && s'.entries.Keys == s.entries.Keys + {p}
    && (forall q :: q in s.entries && q != p ==> s'.entries[q] == s.entries[q])
    && s'.entries[p].lifetime == lifetime && s'.entries[p].seen == seen
  }

  lemma ReadEntryShape(s: State, p: Path, snapshot: Snapshot)
    requires p in s.entries
    ensures var s' := ReadEntry(s, p, snapshot);
      && ReadShape(s, s', p, snapshot)
      && EntryShape(s, s', p, s.entries[p].lifetime, s.entries[p].seen)
      && s'.entries[p].prev.Some? && s'.entries[p].watching == s.entries[p].watching
      && s'.commands == s.commands
      && (s.entries[p].prev.None? ==> p in s'.view)
  {
    UpdateEntryCases(s.entries[p], s.tick, Reading(snapshot, |s.log|));
  }

  lemma VisitOneShape(s: State, v: Visit)
    ensures var s' := VisitOne(s, v);
      && EntryShape(s, s', v.path, s.lifetime, true)
      && (if Touched(s, v.path).seen
          then s' == s.(entries := s'.entries)
          else ReadShape(s, s', v.path, v.snapshot))
      && (s.hasWatcher ==> (s'.entries[v.path].prev.Some? || Touched(s, v.path).seen))
      && (s.hasWatcher && Touched(s, v.path).prev.None? && !Touched(s, v.path).seen ==> v.path in s'.view)
      && (!s.hasWatcher ==>
            && s'.entries[v.path].prev == Touched(s, v.path).prev
            && s'.entries[v.path].state == Touched(s, v.path).state
            && (!Touched(s, v.path).seen ==> v.path in s'.view))
  {
    var p := v.path;
    var e := Touched(s, p);
    if !e.seen {
      var s1 := s.(entries := s.entries[p := e.(seen := true)]);
      if s.hasWatcher {
        ReadEntryShape(WatchIfNeeded(s1, p, p in s.entries, v.watchable, v.watchOk), p, v.snapshot);
      }
    }
  }

  lemma VisitOneCore(s: State, v: Visit)
    requires Core(s) && Idle(s)
    ensures Core(VisitOne(s, v))
  {
    var p := v.path;
    assert PathOk(s, p);
    var e := Touched(s, p);
    if e.seen {
      FlagsKeep(s, p, e, s.commands);
    } else {
      FlagsKeep(s, p, e.(seen := true), s.commands);
      var s1 := s.(entries := s.entries[p := e.(seen := true)]);
      if s.hasWatcher {
        WatchIfNeededKeeps(s1, p, p in s.entries, v.watchable, v.watchOk);
        var s2 := WatchIfNeeded(s1, p, p in s.entries, v.watchable, v.watchOk);
        ReadEntryKeeps(s2, p, v.snapshot);
      } else {
        DirectKeeps(s1, p, v.snapshot);
      }
    }
  }

  lemma VisitOneWhole(s: State, v: Visit)
    requires Whole(s)
    ensures Whole(VisitOne(s, v))
  {
    VisitOneShape(s, v);
  }

  lemma VisitOneKeeps(s: State, v: Visit)
    requires Core(s) && Whole(s)
    ensures Core(VisitOne(s, v)) && Whole(VisitOne(s, v))
  {
    VisitOneCore(s, v);
    VisitOneWhole(s, v);
  }

  /** During an update only fresh entries are inserted, and nothing inserted is removed. */
  ghost predicate DraftFresh(s: State) {
    && (forall i :: 0 <= i < |s.draft.inserts| ==>
          s.draft.inserts[i].path in s.entries && Fresh(s, s.draft.inserts[i].path))
    && (forall p :: p in s.draft.removes ==> p !in s.entries)
  }

  lemma VisitOneDraft(s: State, v: Visit)
    requires DraftFresh(s) && s.draft.removes == []
    ensures DraftFresh(VisitOne(s, v)) && VisitOne(s, v).draft.removes == []
  {
    VisitOneShape(s, v);
  }

  lemma RemoveKeeps(s: State, p: Path)
    requires Core(s) && p in s.entries && !s.entries[p].watching
    requires p !in InsertedPaths(s.draft.inserts)
    ensures Core(s.(draft := s.draft.(removes := s.draft.removes + [p]),
                    view := s.view - {p}, entries := s.entries - {p}))
  {
    var s' := s.(draft := s.draft.(removes := s.draft.removes + [p]),
                 view := s.view - {p}, entries := s.entries - {p});
    ApplyPushRemove(Consumer(s.out), s.draft, p);
    forall q ensures PathOk(s', q) {
      assert PathOk(s, q);
      if q != p {
        PathFrame(s, s', q);
      }
    }
  }

  lemma RetainOneCore(s: State, d: Drop)
    requires Core(s) && DraftFresh(s)
    requires forall p :: p in s.entries && !Fresh(s, p) ==> !s.entries[p].seen
    ensures Core(RetainOne(s, d))
  {
    var p := d.path;
    if p in s.entries {
      assert PathOk(s, p);
      var e := s.entries[p];
      var s1 := if !e.seen && e.watching && s.hasWatcher then UnwatchEntry(s, p, d.unwatchOk) else s;
      if !e.seen && e.watching && s.hasWatcher {
        UnwatchKeeps(s, p, d.unwatchOk);
      }
      if !Fresh(s, p) {
        RemoveKeeps(s1, p);
      }
    }
  }

  lemma RetainOneWhole(s: State, d: Drop)
    requires Whole(s) && DraftFresh(s)
    ensures Whole(RetainOne(s, d)) && DraftFresh(RetainOne(s, d))
  {
  }

  lemma RetainOneKeeps(s: State, d: Drop)
    requires Core(s) && Whole(s) && DraftFresh(s)
    requires forall p :: p in s.entries && !Fresh(s, p) ==> !s.entries[p].seen
    ensures Core(RetainOne(s, d)) && Whole(RetainOne(s, d)) && DraftFresh(RetainOne(s, d))
  {
    hide Core, Whole, DraftFresh, RetainOne;
    RetainOneCore(s, d);
    RetainOneWhole(s, d);
  }

  lemma WatchingNeedsWatcher(s: State, p: Path)
    requires Core(s)
    ensures p in s.entries && s.entries[p].watching ==> s.hasWatcher
  {
    assert PathOk(s, p);
  }
}
