/** What the watcher notices and watches: no change of a file it reads is lost, every event
    that may mean a change makes it read, and every dependency that can be watched is. */
module WatchChanges {
  import opened Options
  import opened Vfs
  import opened WatchModel
  import opened WatchInvariant
  import opened WatchRuns
  import opened WatchGuarantees
  import opened WatchMissing

  // -------------------------------------------------------------------- one read

  /** The reading of p is shown, or is the payload of an episode that began at the tick. */
  ghost predicate Noticed(s: State, p: Path, file: Reading, tick: nat) {
    && p in s.entries
    && if s.entries[p].state.Stable? then p in s.view && s.view[p] == file
       else s.entries[p].state == EmptyOrRemoval(tick, file) && Recheck(p, tick) in s.bag
  }

  /** A change is never lost: a read of a stable entry that differs from the one before is
      sent at once, or an episode begins with it. */
  lemma ChangeIsNoticed(s: State, p: Path, snapshot: Snapshot)
    requires p in s.entries && s.entries[p].state.Stable? && s.entries[p].prev.Some?
    requires snapshot != s.entries[p].prev.value.snapshot
    ensures var file, s' := Reading(snapshot, |s.log|), ReadEntry(s, p, snapshot);
      && Noticed(s', p, file, s.tick) && s'.entries[p].prev == Some(file)
      && s'.sent == s.sent + if s'.entries[p].state.Stable? then [Insert(p, file)] else []
  {
  }

  /** What may be one half of a save: no file or an unclassified error, or an empty file
      where there was content. */
  predicate MayBeTransient(was: Snapshot, found: Snapshot) {
    match found
    case Err(error) => error.NotFound? || error.Other?
    case Ok(bytes) => bytes == [] && was.Ok? && was.bytes != []
  }

  /** Exactly these reads of a stable entry begin an episode; of the others exactly the
      changes are sent. */
  lemma EpisodeBeginsIff(s: State, p: Path, snapshot: Snapshot)
    requires p in s.entries && s.entries[p].state.Stable? && s.entries[p].prev.Some?
    ensures var was, s' := s.entries[p].prev.value.snapshot, ReadEntry(s, p, snapshot);
      && (s'.entries[p].state.EmptyOrRemoval? <==> MayBeTransient(was, snapshot))
      && (s'.sent != s.sent <==> snapshot != was && !MayBeTransient(was, snapshot))
      && s'.bag == s.bag + if MayBeTransient(was, snapshot) then multiset{Recheck(p, s.tick)} else multiset{}
  {
  }

  /** In an episode an error becomes the payload; a file ends it if the episode began with
      an error or the file has changed since. */
  lemma EpisodeGoesOn(s: State, p: Path, snapshot: Snapshot)
    requires PathOk(s, p) && p in s.entries && s.entries[p].state.EmptyOrRemoval?
    ensures s.entries[p].prev.Some?
    ensures var e, file, s' := s.entries[p], Reading(snapshot, |s.log|), ReadEntry(s, p, snapshot);
      if snapshot.Err? then
        s'.entries[p] == e.(state := EmptyOrRemoval(e.state.recheckAt, file)) && s'.sent == s.sent
      else if snapshot != e.prev.value.snapshot then
        s'.entries[p] == e.(state := Stable, prev := Some(file)) && s'.sent == s.sent + [Insert(p, file)]
      else s'.entries[p] == e && s'.sent == s.sent
  {
    OpenEpisode(s, p);
  }

  // ------------------------------------------------------------- a backend event

  lemma ReadOf(s: State, q: Path, snapshot: Snapshot, p: Path)
    requires q != p && p in s.entries
    ensures var s' := ReadEntry(s, q, snapshot);
      && p in s'.entries && s'.entries[p] == s.entries[p] && s'.tick == s.tick
      && (p in s'.view <==> p in s.view) && (p in s.view ==> s'.view[p] == s.view[p])
      && (forall r: Recheck :: r in s.bag && r.path == p ==> r in s'.bag) && LogExtends(s, s', p)
  {
    hide ReadEntry;
    ReadElsewhere(s, q, snapshot, p);
    if q in s.entries {
      ReadEntryShape(s, q, snapshot);
    } else {
      ReadNothing(s, q, snapshot);
    }
  }

  lemma {:induction false} ReadsOf(s: State, probes: seq<Probe>, p: Path)
    requires p in s.entries && forall j :: 0 <= j < |probes| ==> probes[j].path != p
    ensures var s' := ReadAll(s, probes);
      p in s'.entries && s'.entries[p] == s.entries[p] && s'.tick == s.tick
  {
    hide ReadEntry;
    if probes != [] {
      var n := |probes| - 1;
      ReadsOf(s, probes[..n], p);
      ReadOf(ReadAll(s, probes[..n]), probes[n].path, probes[n].snapshot, p);
    }
  }

  /** The change is among many reads. */
  lemma {:induction false} ReadsNotice(s: State, probes: seq<Probe>, k: nat, p: Path) returns (i: nat)
    requires p in s.entries && s.entries[p].state.Stable? && s.entries[p].prev.Some?
    requires k < |probes| && probes[k].path == p && probes[k].snapshot != s.entries[p].prev.value.snapshot
    requires forall j :: 0 <= j < |probes| && j != k ==> probes[j].path != p
    ensures var s' := ReadAll(s, probes);
      && LatestRead(s', p, i) && s'.log[i].snapshot == probes[k].snapshot
      && Noticed(s', p, Reading(probes[k].snapshot, i), s.tick)
  {
    hide ReadEntry;
    var n := |probes| - 1;
    var s1 := ReadAll(s, probes[..n]);
    if k == n {
      ReadsOf(s, probes[..n], p);
      i := |s1.log|;
      ChangeIsNoticed(s1, p, probes[n].snapshot);
      ReadLogged(s1, p, probes[n].snapshot);
    } else {
      i := ReadsNotice(s, probes[..n], k, p);
      ReadOf(s1, probes[n].path, probes[n].snapshot, p);
    }
  }

  lemma {:induction false} ForgetsKeep(s: State, drops: seq<Drop>)
    ensures var s' := ForgetAll(s, drops);
      && s'.entries.Keys == s.entries.Keys && s'.view == s.view && s'.bag == s.bag && s'.log == s.log
      && forall p :: p in s.entries ==> s'.entries[p].(watching := s.entries[p].watching) == s.entries[p]
  {
    if drops != [] {
      ForgetsKeep(s, drops[..|drops| - 1]);
    }
  }

  lemma FlushKeepsAll(s: State, isSync: bool)
    ensures var s' := Flush(s, isSync);
      s'.entries == s.entries && s'.bag == s.bag && s'.log == s.log && s'.view == s.view && s'.tick == s.tick
  {
  }

  /** A backend event that reads p once and finds it changed. */
  lemma EventNotices(s: State, kind: EventKind, probes: seq<Probe>, forgets: seq<Drop>, k: nat, p: Path)
    returns (i: nat)
    requires p in s.entries && s.entries[p].state.Stable? && s.entries[p].prev.Some? && Relevant(kind)
    requires k < |probes| && probes[k].path == p && probes[k].snapshot != s.entries[p].prev.value.snapshot
    requires forall j :: 0 <= j < |probes| && j != k ==> probes[j].path != p
    ensures var s' := Step(s, OnNotify(kind, probes, forgets));
      && LatestRead(s', p, i) && s'.log[i].snapshot == probes[k].snapshot
      && Noticed(s', p, Reading(probes[k].snapshot, i), s.tick + 1)
  {
    hide ReadAll, ForgetAll, Flush;
    var s0 := Ticked(s);
    var s1 := ReadAll(s0, probes);
    var s2 := if Unwatches(kind) then ForgetAll(s1, forgets) else s1;
    i := ReadsNotice(s0, probes, k, p);
    ForgetsKeep(s1, forgets);
    FlushKeepsAll(s2, false);
  }

  /** A change, of whatever kind, reaches the consumer: a backend event reads p once and
      finds it changed. Once the rechecks are drained, in any order, the consumer sees that
      very reading iff it was sent at once or the recheck of its own episode was the first
      of p. */
  lemma ChangeIsShownIff(hasWatcher: bool, evs: seq<Event>, s: State, kind: EventKind, probes: seq<Probe>,
                         forgets: seq<Drop>, k: nat, order: seq<Recheck>, p: Path) returns (i: nat)
    requires Reached(hasWatcher, evs, s)
    requires p in s.entries && s.entries[p].state.Stable? && s.entries[p].prev.Some? && Relevant(kind)
    requires Enabled(s, OnNotify(kind, probes, forgets))
    requires k < |probes| && probes[k].path == p && probes[k].snapshot != s.entries[p].prev.value.snapshot
    requires forall j :: 0 <= j < |probes| && j != k ==> probes[j].path != p
    requires multiset(order) == Step(s, OnNotify(kind, probes, forgets)).bag
    ensures var s1 := Step(s, OnNotify(kind, probes, forgets));
      var s2 := After(s1, Rechecks(order));
      && LatestRead(s1, p, i) && s1.log[i].snapshot == probes[k].snapshot
      && p in s1.entries && p in Consumer(s2.out)
      && (Consumer(s2.out)[p] == Reading(probes[k].snapshot, i)
          <==> s1.entries[p].state.Stable? || FirstOf(order, p) == Some(Recheck(p, s.tick + 1)))
  {
    hide Step, Enabled, Reached, Settled, Relevant;
    var ev := OnNotify(kind, probes, forgets);
    var s1 := Step(s, ev);
    i := EventNotices(s, kind, probes, forgets, k, p);
    ReachMore(hasWatcher, evs, s, ev);
    ReachedSettled(hasWatcher, evs + [ev], s1);
    if s1.entries[p].state.Stable? {
      StableStays(s1, order, p);
    } else {
      EpisodeShownIff(hasWatcher, evs + [ev], s1, order, p);
    }
  }

  /** A drain does not touch what is shown of a stable entry. */
  lemma StableStays(s: State, order: seq<Recheck>, p: Path)
    requires Settled(s) && multiset(order) <= s.bag && p in s.entries && s.entries[p].state.Stable?
    ensures var s' := After(s, Rechecks(order));
      && p in s.view && p in Consumer(s'.out) && Consumer(s'.out)[p] == s.view[p]
  {
    Drain(s, order);
    RunFacts(s, Rechecks(order));
    hide Settled;
    assert DrainOutcome(s, After(s, Rechecks(order)), FirstOf(order, p), p);
  }

  // ------------------------------------------------- an empty file after an error

  /** No read of p since read n gave an error. */
  ghost predicate NoErrorSince(s: State, p: Path, n: nat) {
    forall j :: n < j < |s.log| && s.log[j].path == p ==> s.log[j].snapshot.Ok?
  }

  /** What an open episode is going to show is what was read last, exactly if that was an
      error or nothing but the file it began with was read since it began. A file found
      empty, then in error, then empty again is shown with the error. */
  lemma PayloadIsLatestIff(hasWatcher: bool, evs: seq<Event>, s: State, p: Path, i: nat)
    requires Reached(hasWatcher, evs, s) && LatestRead(s, p, i)
    requires p in s.entries && s.entries[p].state.EmptyOrRemoval?
    ensures s.entries[p].prev.Some?
    ensures s.entries[p].state.payload.snapshot == s.log[i].snapshot
      <==> s.log[i].snapshot.Err? || NoErrorSince(s, p, s.entries[p].prev.value.serial)
  {
    ReachedSettled(hasWatcher, evs, s);
    OwnEpisode(s, p);
    hide Reached, Settled;
    LatestInEpisode(s, p, s.entries[p].prev.value, s.entries[p].state.recheckAt, s.entries[p].state.payload, i);
  }

  lemma LatestInEpisode(s: State, p: Path, began: Reading, at: nat, payload: Reading, i: nat)
    requires EpisodeOk(s, p, began, at, payload) && LatestRead(s, p, i)
    ensures payload.snapshot == s.log[i].snapshot <==> s.log[i].snapshot.Err? || NoErrorSince(s, p, began.serial)
  {
    assert s.log[payload.serial] == Probe(p, payload.snapshot) && s.log[began.serial] == Probe(p, began.snapshot);
    assert began.serial <= payload.serial <= i;
    assert !NonEmpty(s.log[i].snapshot) && !NonEmpty(began.snapshot);
    if i > payload.serial {
      assert s.log[i].snapshot.Ok? && began.snapshot.Ok?;
    }
  }

  /** A run in which an empty file is shown as missing although every recheck has fired and
      it was read last: truncated, in error for one read, and there again. */
  lemma EmptyShownMissing(p: Path, text: Snapshot) returns (evs: seq<Event>, s: State, i: nat)
    requires NonEmpty(text)
    ensures Reached(true, evs, s) && s.bag == multiset{} && p in s.entries && s.entries[p].state.Stable?
    ensures LatestRead(s, p, i) && s.log[i].snapshot == Ok([])
    ensures p in s.view && s.view[p].snapshot == Err(NotFound(p))
  {
    hide Reached;
    var empty, gone := Reading(Ok([]), 1), Reading(Err(NotFound(p)), 2);
    var e0 := Entry(2, true, true, Stable, Some(Reading(text, 0)));
    var log0, log1 := [Probe(p, text)], [Probe(p, text), Probe(p, empty.snapshot)];
    var log2 := log1 + [Probe(p, gone.snapshot)];
    evs, s := FirstSync(p, text);
    TruncateEffect(s, p, e0, log0, Reading(text, 0));
    evs, s := NotifyOne(evs, s, p, empty.snapshot);
    var e1 := e0.(state := EmptyOrRemoval(3, empty), prev := Some(empty));
    assert log0 + [Probe(p, empty.snapshot)] == log1;
    EpisodeReadEffect(s, p, e1, s.bag, log1, Reading(text, 0), gone.snapshot);
    evs, s := NotifyOne(evs, s, p, gone.snapshot);
    var e2 := e1.(state := EmptyOrRemoval(3, gone));
    EpisodeReadEffect(s, p, e2, s.bag, log2, Reading(text, 0), empty.snapshot);
    evs, s := NotifyOne(evs, s, p, empty.snapshot);
    i := 3;
    var r := Recheck(p, 3);
    assert s.log[3] == Probe(p, empty.snapshot);
    OwnRecheckEffect(s, p, e2, s.log, Reading(text, 0), r);
    ReachMore(true, evs, s, OnRecheck(r, true));
    evs, s := evs + [OnRecheck(r, true)], Step(s, OnRecheck(r, true));
  }

  lemma ReachMore(hasWatcher: bool, evs: seq<Event>, s: State, ev: Event)
    requires Reached(hasWatcher, evs, s) && Enabled(s, ev)
    ensures Reached(hasWatcher, evs + [ev], Step(s, ev))
  {
    RunPush(Init(hasWatcher), evs, ev);
  }

  lemma TruncateEffect(s: State, p: Path, e: Entry, log: seq<Probe>, shown: Reading)
    requires Alone(s, s.tick, p, e, multiset{}, log, shown) && e.state.Stable?
    requires e.prev.Some? && NonEmpty(e.prev.value.snapshot)
    ensures var empty := Reading(Ok([]), |log|);
      Alone(Flush(ReadEntry(Ticked(s), p, empty.snapshot), false), s.tick + 1, p,
            e.(state := EmptyOrRemoval(s.tick + 1, empty), prev := Some(empty)),
            multiset{Recheck(p, s.tick + 1)}, log + [Probe(p, empty.snapshot)], shown)
  {
  }

  lemma EpisodeReadEffect(s: State, p: Path, e: Entry, bag: multiset<Recheck>, log: seq<Probe>, shown: Reading,
                          found: Snapshot)
    requires Alone(s, s.tick, p, e, bag, log, shown) && e.state.EmptyOrRemoval? && e.prev.Some?
    requires e.prev.value.snapshot == Ok([]) && (found.Err? || found == Ok([]))
    ensures var e' := if found.Err? then e.(state := EmptyOrRemoval(e.state.recheckAt, Reading(found, |log|))) else e;
      Alone(Flush(ReadEntry(Ticked(s), p, found), false), s.tick + 1, p, e', bag, log + [Probe(p, found)], shown)
  {
  }

  lemma OwnRecheckEffect(s: State, p: Path, e: Entry, log: seq<Probe>, shown: Reading, r: Recheck)
    requires Alone(s, s.tick, p, e, multiset{r}, log, shown) && e.state.EmptyOrRemoval?
    requires r == Recheck(p, e.state.recheckAt)
    ensures Enabled(s, OnRecheck(r, true))
    ensures var s' := Step(s, OnRecheck(r, true));
      && s'.entries == map[p := e.(state := Stable)] && s'.bag == multiset{} && s'.log == log
      && s'.view == map[p := e.state.payload]
  {
  }

  // ------------------------------------------------------- what makes it read

  /** The probes of paths that have an entry. */
  function Known(probes: seq<Probe>, keys: set<Path>): seq<Probe> {
    if probes == [] then []
    else
      var rest, last := Known(probes[..|probes| - 1], keys), probes[|probes| - 1];
      if last.path in keys then rest + [last] else rest
  }

  lemma {:induction false} ReadsKnown(s: State, probes: seq<Probe>)
    ensures var s' := ReadAll(s, probes);
      && s'.log == s.log + Known(probes, s.entries.Keys) && s'.entries.Keys == s.entries.Keys
      && forall p :: p in s.entries ==> s'.entries[p].watching == s.entries[p].watching
  {
    hide ReadEntry;
    if probes != [] {
      var n := |probes| - 1;
      ReadsKnown(s, probes[..n]);
      var s1 := ReadAll(s, probes[..n]);
      if probes[n].path in s1.entries {
        ReadEntryShape(s1, probes[n].path, probes[n].snapshot);
      } else {
        ReadNothing(s1, probes[n].path, probes[n].snapshot);
      }
    }
  }

  lemma ReadNothing(s: State, p: Path, snapshot: Snapshot)
    requires p !in s.entries
    ensures ReadEntry(s, p, snapshot) == s
  {
  }

  /** Creations, removals, renames, changes of content and unclassified events make the
      watcher read every path of theirs that it has an entry for; accesses, changes of
      metadata and other changes make it do nothing. */
  lemma EventReads(s: State, kind: EventKind, probes: seq<Probe>, forgets: seq<Drop>)
    ensures var s' := Step(s, OnNotify(kind, probes, forgets));
      match kind
      case Access => s' == Ticked(s)
      case OtherKind => s' == Ticked(s)
      case Modify(Metadata) => s' == Ticked(s)
      case Modify(ModifyOther) => s' == Ticked(s)
      case _ => s'.log == s.log + Known(probes, s.entries.Keys)
  {
    hide ReadAll, ForgetAll, Flush;
    var s1 := ReadAll(Ticked(s), probes);
    ReadsKnown(Ticked(s), probes);
    ForgetsKeep(s1, forgets);
    FlushKeepsAll(s1, false);
    FlushKeepsAll(ForgetAll(s1, forgets), false);
  }

  /** A removed file, or one renamed away, is not watched any more; no other event changes
      what is watched. */
  lemma EventUnwatchesIff(s: State, kind: EventKind, probes: seq<Probe>, forgets: seq<Drop>, p: Path)
    requires p in s.entries
    ensures var s' := Step(s, OnNotify(kind, probes, forgets));
      && p in s'.entries
      && (s'.entries[p].watching <==>
            && s.entries[p].watching
            && !((kind == Remove(File) || kind == Modify(Name(From)))
                 && exists i :: 0 <= i < |forgets| && forgets[i].path == p))
  {
    hide ReadAll, ForgetAll, Flush;
    var s1 := ReadAll(Ticked(s), probes);
    ReadsKnown(Ticked(s), probes);
    ForgetsUnwatch(s1, forgets, p);
    FlushKeepsAll(s1, false);
    FlushKeepsAll(ForgetAll(s1, forgets), false);
  }

  lemma {:induction false} ForgetsUnwatch(s: State, drops: seq<Drop>, p: Path)
    requires p in s.entries
    ensures var s' := ForgetAll(s, drops);
      && p in s'.entries
      && (s'.entries[p].watching <==>
            s.entries[p].watching && !exists i :: 0 <= i < |drops| && drops[i].path == p)
  {
    if drops != [] {
      ForgetsUnwatch(s, drops[..|drops| - 1], p);
    }
  }

  // -------------------------------------------------------------- what it watches

  lemma PollWatches(s: State, v: Visit)
    requires s.hasWatcher && v.path in s.entries && !s.entries[v.path].watching
    ensures var s' := PollOne(s, v);
      && s'.hasWatcher && s'.log == s.log + [Probe(v.path, v.snapshot)] && s'.entries.Keys == s.entries.Keys
      && s'.entries[v.path].watching == (v.watchable && v.watchOk)
      && forall q :: q in s.entries && q != v.path ==> s'.entries[q].watching == s.entries[q].watching
  {
    hide ReadEntry;
    ReadEntryShape(WatchIfNeeded(s, v.path, true, v.watchable, v.watchOk), v.path, v.snapshot);
  }

  function Probes(visits: seq<Visit>): seq<Probe> {
    seq(|visits|, i requires 0 <= i < |visits| => Probe(visits[i].path, visits[i].snapshot))
  }

  lemma IsPollable(s: State, p: Path)
    requires Pollable(s, p)
    ensures p in s.entries && !s.entries[p].watching
  {
  }

  /** A path not polled keeps its watch. */
  lemma {:induction false} PollsOf(s: State, visits: seq<Visit>, q: Path)
    requires s.hasWatcher && forall i :: 0 <= i < |visits| ==> Pollable(s, visits[i].path)
    requires forall i, j :: 0 <= i < j < |visits| ==> visits[i].path != visits[j].path
    requires forall i :: 0 <= i < |visits| ==> visits[i].path != q
    ensures var s' := PollAll(s, visits);
      && s'.hasWatcher && s'.log == s.log + Probes(visits) && s'.entries.Keys == s.entries.Keys
      && (q in s.entries ==> s'.entries[q].watching == s.entries[q].watching)
  {
    hide PollOne, Pollable;
    if visits != [] {
      var n := |visits| - 1;
      PollsOf(s, visits[..n], q);
      PollsOf(s, visits[..n], visits[n].path);
      IsPollable(s, visits[n].path);
      PollWatches(PollAll(s, visits[..n]), visits[n]);
      assert Probes(visits) == Probes(visits[..n]) + [Probe(visits[n].path, visits[n].snapshot)];
    }
  }

  lemma {:induction false} PollsWatch(s: State, visits: seq<Visit>, k: nat)
    requires s.hasWatcher && forall i :: 0 <= i < |visits| ==> Pollable(s, visits[i].path)
    requires forall i, j :: 0 <= i < j < |visits| ==> visits[i].path != visits[j].path
    requires k < |visits|
    ensures var s' := PollAll(s, visits);
      && s'.log == s.log + Probes(visits) && s'.entries.Keys == s.entries.Keys
      && visits[k].path in s'.entries
      && s'.entries[visits[k].path].watching == (visits[k].watchable && visits[k].watchOk)
    decreases |visits|
  {
    hide PollOne, Pollable;
    var n := |visits| - 1;
    var s1 := PollAll(s, visits[..n]);
    IsPollable(s, visits[n].path);
    IsPollable(s, visits[k].path);
    PollsOf(s, visits[..n], visits[n].path);
    PollWatches(s1, visits[n]);
    assert Probes(visits) == Probes(visits[..n]) + [Probe(visits[n].path, visits[n].snapshot)];
    if k < n {
      PollsWatch(s, visits[..n], k);
    }
  }

  /** A poll reads every file it collected, and watches those that can be watched now. */
  lemma PolledIsWatched(s: State, visits: seq<Visit>, i: nat)
    requires s.hasWatcher && Enabled(s, OnPoll(visits)) && i < |visits|
    requires forall i, j :: 0 <= i < j < |visits| ==> visits[i].path != visits[j].path
    ensures var s' := Step(s, OnPoll(visits));
      && s'.log == s.log + Probes(visits) && s'.entries.Keys == s.entries.Keys
      && visits[i].path in s'.entries
      && s'.entries[visits[i].path].watching == (visits[i].watchable && visits[i].watchOk)
  {
    hide PollAll, Flush;
    var s0 := Ticked(s);
    PollsWatch(s0, visits, i);
    FlushKeepsAll(PollAll(s0, visits), false);
  }

  /** Visit i is the first one of its path. */
  ghost predicate FirstVisitOf(visits: seq<Visit>, i: nat) {
    i < |visits| && forall j :: 0 <= j < i ==> visits[j].path != visits[i].path
  }

  predicate Watches(s: State, p: Path) {
    p in s.entries && s.entries[p].watching
  }

  lemma VisitWatches(s: State, v: Visit, p: Path)
    ensures var s' := VisitOne(s, v);
      && s'.hasWatcher == s.hasWatcher
      && (v.path != p ==> (p in s'.entries <==> p in s.entries) && (p in s.entries ==> s'.entries[p] == s.entries[p]))
      && (v.path == p ==>
            && p in s'.entries && s'.entries[p].seen
            && s'.entries[p].watching ==
                 (Watches(s, p)
                  || (s.hasWatcher && !(p in s.entries && s.entries[p].seen) && v.watchable && v.watchOk)))
  {
    VisitOneShape(s, v);
    if v.path == p && !Touched(s, p).seen && s.hasWatcher {
      var s1 := s.(entries := s.entries[p := Touched(s, p).(seen := true)]);
      ReadEntryShape(WatchIfNeeded(s1, p, p in s.entries, v.watchable, v.watchOk), p, v.snapshot);
    }
  }

  lemma {:induction false} VisitsWatch(s: State, visits: seq<Visit>, i: nat)
    requires forall q :: q in s.entries ==> !s.entries[q].seen
    requires FirstVisitOf(visits, i)
    ensures var p, s' := visits[i].path, VisitAll(s, visits);
      && s'.hasWatcher == s.hasWatcher && p in s'.entries && s'.entries[p].seen
      && s'.entries[p].watching == (Watches(s, p) || (s.hasWatcher && visits[i].watchable && visits[i].watchOk))
    decreases |visits|
  {
    hide VisitOne;
    var n, p := |visits| - 1, visits[i].path;
    var s1 := VisitAll(s, visits[..n]);
    if i == n {
      Unvisited(s, visits[..n], p);
    } else {
      VisitsWatch(s, visits[..n], i);
    }
    VisitWatches(s1, visits[n], p);
  }

  lemma {:induction false} Unvisited(s: State, visits: seq<Visit>, p: Path)
    requires forall j :: 0 <= j < |visits| ==> visits[j].path != p
    ensures var s' := VisitAll(s, visits);
      && s'.hasWatcher == s.hasWatcher && (p in s'.entries <==> p in s.entries)
      && (p in s.entries ==> s'.entries[p] == s.entries[p])
  {
    hide VisitOne;
    if visits != [] {
      var n := |visits| - 1;
      Unvisited(s, visits[..n], p);
      VisitWatches(VisitAll(s, visits[..n]), visits[n], p);
    }
  }

  lemma {:induction false} SeenStays(s: State, drops: seq<Drop>, p: Path)
    requires p in s.entries && s.entries[p].seen && Fresh(s, p)
    ensures var s' := RetainAll(s, drops);
      p in s'.entries && s'.entries[p] == s.entries[p] && s'.lifetime == s.lifetime
  {
    if drops != [] {
      SeenStays(s, drops[..|drops| - 1], p);
    }
  }

  /** After an update a dependency is watched iff it was before, or there is a backend and
      the watch command given at its first visit succeeded. */
  lemma DependencyIsWatchedIff(s: State, visits: seq<Visit>, drops: seq<Drop>, i: nat)
    requires Settled(s) && Retainable(s, visits, drops) && FirstVisitOf(visits, i)
    ensures var p, s' := visits[i].path, UpdateWatches(s, visits, drops);
      && p in s'.entries && s'.entries[p].seen
      && (s'.entries[p].watching <==>
            Watches(s, p) || (s.hasWatcher && visits[i].watchable && visits[i].watchOk))
  {
    hide VisitAll, RetainAll, Core, WindowOk, EventsDisjoint;
    var p, s0 := visits[i].path, Begin(s, Visited(visits));
    assert visits[i] in visits;
    BeginKeeps(s, Visited(visits));
    VisitAllKeeps(s0, visits);
    VisitsWatch(s0, visits, i);
    SeenStays(VisitAll(s0, visits), drops, p);
  }
}
