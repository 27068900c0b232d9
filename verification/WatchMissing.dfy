/** How a removed file comes to be shown as missing, and how it may fail to be. */
module WatchMissing {
  import opened Options
  import opened Vfs
  import opened WatchModel
  import opened WatchInvariant
  import opened WatchRuns
  import opened WatchGuarantees

  /** The episode of p began at tick at, and no recheck of another episode of p is queued. */
  ghost predicate OpenSince(s: State, p: Path, at: nat) {
    && p in s.entries
    && s.entries[p].prev.Some?
    && s.entries[p].state.EmptyOrRemoval?
    && s.entries[p].state.recheckAt == at
    && forall r :: r in s.bag && r.path == p ==> r.tick == at
  }

  /** The same, with the error for payload. */
  ghost predicate MissingSince(s: State, p: Path, at: nat, error: FileError) {
    OpenSince(s, p, at) && s.entries[p].state.payload.snapshot == Err(error)
  }

  /** From s to s' the episode of p stays open and does not lose the error for payload. */
  ghost predicate StaysOpen(s: State, s': State, p: Path, at: nat, error: FileError) {
    OpenSince(s', p, at) && (MissingSince(s, p, at, error) ==> MissingSince(s', p, at, error))
  }

  ghost predicate LogPrefix(s: State, s': State) {
    |s.log| <= |s'.log| && forall i :: 0 <= i < |s.log| ==> s'.log[i] == s.log[i]
  }

  /** Every read of p between s and s' gives the error. */
  ghost predicate ReadsGive(s: State, s': State, p: Path, error: FileError) {
    && LogPrefix(s, s')
    && forall i :: |s.log| <= i < |s'.log| && s'.log[i].path == p ==>
         s'.log[i].snapshot == Err(error)
  }

  lemma MissingRead(s: State, q: Path, snapshot: Snapshot, p: Path, at: nat, error: FileError)
    requires OpenSince(s, p, at)
    requires ReadsGive(s, ReadEntry(s, q, snapshot), p, error)
    ensures StaysOpen(s, ReadEntry(s, q, snapshot), p, at, error)
  {
    hide ReadEntry;
    if q == p {
      ReadLogged(s, p, snapshot);
      assert ReadEntry(s, p, snapshot).log[|s.log|] == Probe(p, snapshot);
      ReadHere(s, p, snapshot);
    } else {
      ReadElsewhere(s, q, snapshot, p);
    }
  }

  lemma ReadLogged(s: State, p: Path, snapshot: Snapshot)
    requires p in s.entries
    ensures ReadEntry(s, p, snapshot).log == s.log + [Probe(p, snapshot)]
  {
  }

  /** An erroneous read of a path whose episode is open only replaces the payload. */
  lemma ReadHere(s: State, p: Path, snapshot: Snapshot)
    requires p in s.entries && s.entries[p].prev.Some? && s.entries[p].state.EmptyOrRemoval? && snapshot.Err?
    ensures var e, s' := s.entries[p], ReadEntry(s, p, snapshot);
      && s'.entries == s.entries[p := e.(state := EmptyOrRemoval(e.state.recheckAt, Reading(snapshot, |s.log|)))]
      && s'.bag == s.bag
  {
  }

  lemma ReadElsewhere(s: State, q: Path, snapshot: Snapshot, p: Path)
    requires q != p && p in s.entries
    ensures var s' := ReadEntry(s, q, snapshot);
      && p in s'.entries && s'.entries[p] == s.entries[p]
      && forall r: Recheck :: r.path == p ==> (r in s'.bag <==> r in s.bag)
  {
  }

  lemma MissingVisit(s: State, v: Visit, p: Path, at: nat, error: FileError)
    requires OpenSince(s, p, at)
    requires ReadsGive(s, VisitOne(s, v), p, error) && s.hasWatcher
    ensures StaysOpen(s, VisitOne(s, v), p, at, error)
  {
    var e := Touched(s, v.path);
    if !e.seen {
      var s1 := s.(entries := s.entries[v.path := e.(seen := true)]);
      var s2 := WatchIfNeeded(s1, v.path, v.path in s.entries, v.watchable, v.watchOk);
      assert StaysOpen(s, s2, p, at, error) && s2.log == s.log;
      MissingRead(s2, v.path, v.snapshot, p, at, error);
    }
  }

  lemma MissingPoll(s: State, v: Visit, p: Path, at: nat, error: FileError)
    requires OpenSince(s, p, at)
    requires ReadsGive(s, PollOne(s, v), p, error)
    ensures StaysOpen(s, PollOne(s, v), p, at, error)
  {
    var s2 := WatchIfNeeded(s, v.path, true, v.watchable, v.watchOk);
    assert StaysOpen(s, s2, p, at, error) && s2.log == s.log;
    MissingRead(s2, v.path, v.snapshot, p, at, error);
  }

  // Each loop only appends to the log, and keeps what it finds.

  lemma VisitLog(s: State, v: Visit)
    ensures LogPrefix(s, VisitOne(s, v)) && VisitOne(s, v).hasWatcher == s.hasWatcher
  {
    VisitOneShape(s, v);
  }

  lemma {:induction false} VisitsLog(s: State, visits: seq<Visit>)
    ensures LogPrefix(s, VisitAll(s, visits)) && VisitAll(s, visits).hasWatcher == s.hasWatcher
  {
    if visits != [] {
      VisitsLog(s, visits[..|visits| - 1]);
      VisitLog(VisitAll(s, visits[..|visits| - 1]), visits[|visits| - 1]);
    }
  }

  lemma {:induction false} MissingVisits(s: State, visits: seq<Visit>, p: Path, at: nat, error: FileError)
    requires OpenSince(s, p, at) && s.hasWatcher
    requires ReadsGive(s, VisitAll(s, visits), p, error)
    ensures StaysOpen(s, VisitAll(s, visits), p, at, error)
  {
    if visits != [] {
      var s1 := VisitAll(s, visits[..|visits| - 1]);
      VisitsLog(s, visits[..|visits| - 1]);
      VisitLog(s1, visits[|visits| - 1]);
      MissingVisits(s, visits[..|visits| - 1], p, at, error);
      MissingVisit(s1, visits[|visits| - 1], p, at, error);
    }
  }

  lemma {:induction false} MissingRetain(s: State, drops: seq<Drop>, p: Path, at: nat, error: FileError)
    requires OpenSince(s, p, at)
    requires p in RetainAll(s, drops).entries
    ensures StaysOpen(s, RetainAll(s, drops), p, at, error) && RetainAll(s, drops).log == s.log
  {
    hide RetainOne, OpenSince, MissingSince;
    if drops != [] {
      var s1 := RetainAll(s, drops[..|drops| - 1]);
      RetainOnly(s1, drops[|drops| - 1]);
      MissingRetain(s, drops[..|drops| - 1], p, at, error);
      MissingDrop(s, s1, drops[|drops| - 1], p, at, error);
    }
  }

  lemma RetainOnly(s: State, d: Drop)
    ensures RetainOne(s, d).entries.Keys <= s.entries.Keys && RetainOne(s, d).log == s.log
  {
  }

  lemma MissingDrop(s: State, s1: State, d: Drop, p: Path, at: nat, error: FileError)
    requires StaysOpen(s, s1, p, at, error)
    requires p in RetainOne(s1, d).entries
    ensures StaysOpen(s, RetainOne(s1, d), p, at, error)
  {
    RetainKept(s1, d, p);
    hide RetainOne;
  }

  lemma RetainKept(s: State, d: Drop, p: Path)
    requires p in s.entries && p in RetainOne(s, d).entries
    ensures var s' := RetainOne(s, d);
      s'.bag == s.bag && s'.entries[p] == s.entries[p].(watching := s'.entries[p].watching)
  {
  }

  lemma {:induction false} RetainLog(s: State, drops: seq<Drop>)
    ensures RetainAll(s, drops).log == s.log
  {
    if drops != [] {
      RetainLog(s, drops[..|drops| - 1]);
    }
  }

  lemma {:induction false} ReadsLog(s: State, probes: seq<Probe>)
    ensures LogPrefix(s, ReadAll(s, probes))
  {
    if probes != [] {
      ReadsLog(s, probes[..|probes| - 1]);
    }
  }

  lemma {:induction false} MissingReads(s: State, probes: seq<Probe>, p: Path, at: nat, error: FileError)
    requires OpenSince(s, p, at)
    requires ReadsGive(s, ReadAll(s, probes), p, error)
    ensures StaysOpen(s, ReadAll(s, probes), p, at, error)
  {
    if probes != [] {
      var last := probes[|probes| - 1];
      var s1 := ReadAll(s, probes[..|probes| - 1]);
      ReadsLog(s, probes[..|probes| - 1]);
      assert LogPrefix(s1, ReadEntry(s1, last.path, last.snapshot));
      MissingReads(s, probes[..|probes| - 1], p, at, error);
      MissingRead(s1, last.path, last.snapshot, p, at, error);
    }
  }

  lemma {:induction false} MissingForgets(s: State, drops: seq<Drop>, p: Path, at: nat, error: FileError)
    requires OpenSince(s, p, at)
    ensures StaysOpen(s, ForgetAll(s, drops), p, at, error) && ForgetAll(s, drops).log == s.log
  {
    if drops != [] {
      MissingForgets(s, drops[..|drops| - 1], p, at, error);
    }
  }

  lemma {:induction false} PollsLog(s: State, visits: seq<Visit>)
    ensures LogPrefix(s, PollAll(s, visits))
  {
    if visits != [] {
      PollsLog(s, visits[..|visits| - 1]);
    }
  }

  lemma {:induction false} MissingPolls(s: State, visits: seq<Visit>, p: Path, at: nat, error: FileError)
    requires OpenSince(s, p, at)
    requires ReadsGive(s, PollAll(s, visits), p, error)
    ensures StaysOpen(s, PollAll(s, visits), p, at, error)
  {
    if visits != [] {
      var v := visits[|visits| - 1];
      var s1 := PollAll(s, visits[..|visits| - 1]);
      PollsLog(s, visits[..|visits| - 1]);
      assert LogPrefix(s1, PollOne(s1, v));
      MissingPolls(s, visits[..|visits| - 1], p, at, error);
      MissingPoll(s1, v, p, at, error);
    }
  }

  lemma MissingUpdate(s: State, visits: seq<Visit>, drops: seq<Drop>, p: Path, at: nat, error: FileError)
    requires OpenSince(s, p, at) && s.hasWatcher
    requires p in UpdateWatches(s, visits, drops).entries
    requires ReadsGive(s, UpdateWatches(s, visits, drops), p, error)
    ensures StaysOpen(s, UpdateWatches(s, visits, drops), p, at, error)
  {
    var s0 := Begin(s, Visited(visits));
    RetainLog(VisitAll(s0, visits), drops);
    MissingVisits(s0, visits, p, at, error);
    MissingRetain(VisitAll(s0, visits), drops, p, at, error);
  }

  lemma MissingNotify(s: State, unwatch: bool, probes: seq<Probe>, forgets: seq<Drop>, p: Path, at: nat,
                      error: FileError)
    requires OpenSince(s, p, at)
    requires var s1 := ReadAll(s, probes);
      ReadsGive(s, if unwatch then ForgetAll(s1, forgets) else s1, p, error)
    ensures var s1 := ReadAll(s, probes);
      StaysOpen(s, if unwatch then ForgetAll(s1, forgets) else s1, p, at, error)
  {
    ForgetLog(ReadAll(s, probes), forgets);
    MissingReads(s, probes, p, at, error);
    MissingForgets(ReadAll(s, probes), forgets, p, at, error);
  }

  lemma MissingOther(s: State, r: Recheck, p: Path, at: nat, error: FileError)
    requires OpenSince(s, p, at) && r.path != p
    ensures StaysOpen(s, Fire(s, r), p, at, error)
  {
    FireOther(s, r, p);
    hide Fire;
  }

  lemma FireOther(s: State, r: Recheck, p: Path)
    requires p in s.entries && r.path != p
    ensures var s' := Fire(s, r);
      p in s'.entries && s'.entries[p] == s.entries[p] && s'.bag == s.bag - multiset{r}
  {
  }

  /** Sending the changeset changes nothing the episode depends on. */
  lemma FlushOnly(s: State, isSync: bool)
    ensures var s' := Flush(s, isSync); s'.entries == s.entries && s'.bag == s.bag && s'.log == s.log
  {
  }

  /** The clock and the changeset do not matter. */
  lemma SameOpen(s: State, s': State, p: Path, at: nat, error: FileError)
    requires s'.entries == s.entries && s'.bag == s.bag
    ensures OpenSince(s', p, at) == OpenSince(s, p, at)
    ensures MissingSince(s', p, at, error) == MissingSince(s, p, at, error)
  {
  }

  /** Any event but the recheck of p itself leaves the episode of p as it is, when p stays
      watched and what it reads of p is the error. */
  lemma MissingStep(s: State, ev: Event, p: Path, at: nat, error: FileError)
    requires OpenSince(s, p, at) && s.hasWatcher && s.draft == NO_CHANGES
    requires p in Step(s, ev).entries && ReadsGive(s, Step(s, ev), p, error)
    requires !(ev.OnRecheck? && ev.ready && ev.recheck.path == p)
    ensures StaysOpen(s, Step(s, ev), p, at, error)
  {
    hide OpenSince, MissingSince, UpdateWatches, ReadAll, ForgetAll, PollAll, Fire, Flush;
    var s0 := Ticked(s);
    SameOpen(s, s0, p, at, error);
    match ev
    case OnSync(visits, drops) =>
      var s1 := UpdateWatches(s0, visits, drops);
      FlushOnly(s1, true);
      MissingUpdate(s0, visits, drops, p, at, error);
      SameOpen(s1, Step(s, ev), p, at, error);
    case OnUpstream(_, visits, drops) =>
      MissingUpdate(s0, visits, drops, p, at, error);
      SameOpen(UpdateWatches(s0, visits, drops), Step(s, ev), p, at, error);
    case OnNotify(kind, probes, forgets) =>
      if Relevant(kind) {
        var s1 := ReadAll(s0, probes);
        var s2 := if Unwatches(kind) then ForgetAll(s1, forgets) else s1;
        FlushOnly(s2, false);
        MissingNotify(s0, Unwatches(kind), probes, forgets, p, at, error);
        SameOpen(s2, Step(s, ev), p, at, error);
      }
    case OnNotifyError =>
    case OnRecheck(r, ready) =>
      if ready {
        MissingOther(s0, r, p, at, error);
      }
    case OnPoll(visits) =>
      var s1 := PollAll(s0, visits);
      FlushOnly(s1, false);
      MissingPolls(s0, visits, p, at, error);
      SameOpen(s1, Step(s, ev), p, at, error);
  }

  lemma {:induction false} ForgetLog(s: State, drops: seq<Drop>)
    ensures ForgetAll(s, drops).log == s.log
  {
    if drops != [] {
      ForgetLog(s, drops[..|drops| - 1]);
    }
  }

  /** Along the run p stays watched, its reads give the error and its recheck does not fire. */
  ghost predicate Undisturbed(s: State, evs: seq<Event>, p: Path, error: FileError) {
    evs != [] ==>
      var n := |evs| - 1;
      && Undisturbed(s, evs[..n], p, error)
      && p in After(s, evs).entries
      && ReadsGive(After(s, evs[..n]), After(s, evs), p, error)
      && !(evs[n].OnRecheck? && evs[n].ready && evs[n].recheck.path == p)
  }

  lemma RunFacts(s: State, evs: seq<Event>)
    requires Settled(s) && Admissible(s, evs)
    ensures var s' := After(s, evs);
      && s'.hasWatcher == s.hasWatcher && s'.draft == NO_CHANGES
      && s'.entries.Keys == s'.view.Keys && s'.view == Consumer(s'.out)
  {
    RunKeeps(s, evs);
    RunWatcher(s, evs);
    var out := After(s, evs).out;
    assert Consumer(out) - (set q | q in NO_CHANGES.removes) == Consumer(out);
  }

  lemma {:induction false} MissingRun(s: State, evs: seq<Event>, p: Path, at: nat, error: FileError)
    requires Settled(s) && s.hasWatcher && Admissible(s, evs)
    requires OpenSince(s, p, at) && Undisturbed(s, evs, p, error)
    ensures StaysOpen(s, After(s, evs), p, at, error)
  {
    if evs != [] {
      var n := |evs| - 1;
      MissingRun(s, evs[..n], p, at, error);
      RunFacts(s, evs[..n]);
      MissingStep(After(s, evs[..n]), evs[n], p, at, error);
    }
  }

  lemma MissingFires(s: State, p: Path, at: nat, error: FileError, r: Recheck)
    requires MissingSince(s, p, at, error) && r.path == p && r in s.bag
    requires s.draft == NO_CHANGES && s.entries.Keys == s.view.Keys
    ensures var s' := Fire(s, r);
      p in s'.view && s'.view[p].snapshot == Err(error) && p in s'.entries && s'.entries[p].state.Stable?
  {
    FireEffect(s, r);
  }

  lemma MissingTicked(s: State, p: Path, at: nat, error: FileError)
    requires MissingSince(s, p, at, error)
    ensures MissingSince(Ticked(s), p, at, error)
  {
  }

  lemma ErrorIsShown(s: State, evs: seq<Event>, p: Path, at: nat, error: FileError, r: Recheck)
    requires Settled(s) && Admissible(s, evs) && MissingSince(After(s, evs), p, at, error)
    requires r.path == p && r in After(s, evs).bag
    ensures var s' := Step(After(s, evs), OnRecheck(r, true));
      && p in Consumer(s'.out) && Consumer(s'.out)[p].snapshot == Err(error)
      && p in s'.entries && s'.entries[p].state.Stable?
  {
    hide Settled, MissingSince, Fire;
    RunFacts(s, evs);
    MissingTicked(After(s, evs), p, at, error);
    MissingFires(Ticked(After(s, evs)), p, at, error, r);
    RunPush(s, evs, OnRecheck(r, true));
    RunFacts(s, evs + [OnRecheck(r, true)]);
  }

  /** An episode that holds the error already: after any undisturbed run, also one without
      reads, whichever recheck of p fires first makes the consumer see the error. */
  lemma HeldErrorConverges(before: seq<Event>, s: State, evs: seq<Event>, p: Path, at: nat,
                           error: FileError, r: Recheck)
    requires Reached(true, before, s) && MissingSince(s, p, at, error)
    requires Admissible(s, evs) && Undisturbed(s, evs, p, error)
    requires r.path == p && r in After(s, evs).bag
    ensures var s' := Step(After(s, evs), OnRecheck(r, true));
      && p in Consumer(s'.out) && Consumer(s'.out)[p].snapshot == Err(error)
      && p in s'.entries && s'.entries[p].state.Stable?
  {
    ReachedSettled(true, before, s);
    MissingRun(s, evs, p, at, error);
    ErrorIsShown(s, evs, p, at, error, r);
  }

  /** From read n on p was read, and every read of it gave the error. */
  ghost predicate ReadsErrorFrom(s: State, p: Path, n: nat, error: FileError) {
    && (exists j :: n <= j < |s.log| && s.log[j].path == p)
    && forall j :: n <= j < |s.log| && s.log[j].path == p ==> s.log[j].snapshot == Err(error)
  }

  /** The payload of an open episode is the latest read of its path, when the reads from
      some point on gave an error. */
  lemma PayloadIsLatestError(s: State, p: Path, n: nat, error: FileError)
    requires Settled(s) && p in s.entries && s.entries[p].state.EmptyOrRemoval?
    requires ReadsErrorFrom(s, p, n, error)
    ensures s.entries[p].state.payload.snapshot == Err(error)
    ensures LatestRead(s, p, s.entries[p].state.payload.serial)
  {
    var e := s.entries[p];
    assert PathOk(s, p);
    assert EpisodeOk(s, p, e.prev.value, e.state.recheckAt, e.state.payload);
    hide PathOk, Core, Settled;
    var j :| n <= j < |s.log| && s.log[j].path == p;
    assert s.log[e.state.payload.serial] == Probe(p, e.state.payload.snapshot);
  }

  /** Missing-file convergence, from the reads alone: an episode of p is open and no recheck
      of another one is queued; p stays watched and its recheck does not fire along the run;
      from some point on p was read, and every read gave the error. Then whichever recheck
      of p fires first makes the consumer see the error. */
  lemma MissingFileConverges(before: seq<Event>, s: State, evs: seq<Event>, p: Path, at: nat, n: nat,
                             error: FileError, r: Recheck)
    requires Reached(true, before, s) && OpenSince(s, p, at)
    requires Admissible(s, evs) && Undisturbed(s, evs, p, error)
    requires ReadsErrorFrom(After(s, evs), p, n, error)
    requires r.path == p && r in After(s, evs).bag
    ensures var s' := Step(After(s, evs), OnRecheck(r, true));
      && p in Consumer(s'.out) && Consumer(s'.out)[p].snapshot == Err(error)
      && p in s'.entries && s'.entries[p].state.Stable?
  {
    hide Settled, Undisturbed;
    ReachedSettled(true, before, s);
    MissingRun(s, evs, p, at, error);
    RunKeeps(s, evs);
    PayloadIsLatestError(After(s, evs), p, n, error);
    ErrorIsShown(s, evs, p, at, error, r);
  }

  /** Draining shows an open episode exactly when its own recheck is the first of its path
      to fire: a stale recheck before it closes the episode silently. */
  lemma EpisodeShownIff(hasWatcher: bool, evs: seq<Event>, s: State, order: seq<Recheck>, p: Path)
    requires Reached(hasWatcher, evs, s) && multiset(order) == s.bag
    requires p in s.entries && s.entries[p].state.EmptyOrRemoval?
    ensures var s' := After(s, Rechecks(order));
      && p in Consumer(s'.out)
      && (Consumer(s'.out)[p] == s.entries[p].state.payload
          <==> FirstOf(order, p) == Some(Recheck(p, s.entries[p].state.recheckAt)))
  {
    ReachedSettled(hasWatcher, evs, s);
    PayloadIsNew(s, p);
    Drain(s, order);
    RunFacts(s, Rechecks(order));
    hide Settled;
    assert DrainOutcome(s, After(s, Rechecks(order)), FirstOf(order, p), p);
    FirstOfIs(order, p);
    assert Recheck(p, s.entries[p].state.recheckAt) in multiset(order);
  }

  /** The payload of an open episode is not what is shown, and its recheck is queued. */
  lemma PayloadIsNew(s: State, p: Path)
    requires Settled(s) && p in s.entries && s.entries[p].state.EmptyOrRemoval?
    ensures p in s.view && s.view[p] != s.entries[p].state.payload
    ensures Recheck(p, s.entries[p].state.recheckAt) in s.bag
  {
    var e := s.entries[p];
    assert PathOk(s, p);
    assert EpisodeOk(s, p, e.prev.value, e.state.recheckAt, e.state.payload);
    var i :| 0 <= i < |s.sent| && s.sent[i] == Insert(p, s.view[p]);
  }

  lemma {:induction false} FirstOfIs(order: seq<Recheck>, p: Path)
    ensures FirstOf(order, p).Some? ==> FirstOf(order, p).value in order && FirstOf(order, p).value.path == p
    ensures FirstOf(order, p).None? ==> forall r :: r in order ==> r.path != p
  {
    if order != [] {
      FirstOfIs(order[1..], p);
    }
  }

  /** A run to a single watched file p, seen in full. */
  ghost predicate Single(evs: seq<Event>, s: State, p: Path, e: Entry, bag: multiset<Recheck>,
                         log: seq<Probe>, shown: Reading) {
    Reached(true, evs, s) && Alone(s, |evs| + 1, p, e, bag, log, shown)
  }

  ghost predicate Alone(s: State, tick: nat, p: Path, e: Entry, bag: multiset<Recheck>,
                        log: seq<Probe>, shown: Reading) {
    && s.hasWatcher && s.draft == NO_CHANGES && s.tick == tick && s.lifetime == 2
    && s.entries == map[p := e] && s.bag == bag && s.log == log
    && s.view == map[p := shown]
  }

  lemma RunPush(s: State, evs: seq<Event>, ev: Event)
    requires Admissible(s, evs) && Enabled(After(s, evs), ev)
    ensures Admissible(s, evs + [ev]) && After(s, evs + [ev]) == Step(After(s, evs), ev)
  {
    assert (evs + [ev])[..|evs|] == evs;
  }

  /** The visits of the first update. */
  lemma FirstVisit(p: Path, found: Snapshot)
    ensures var v := VisitAll(Begin(Ticked(Init(true)), {p}), [Visit(p, true, true, found)]);
      && v.entries == map[p := Entry(2, true, true, Stable, Some(Reading(found, 0)))]
      && v.view == map[p := Reading(found, 0)] && v.log == [Probe(p, found)]
      && v.bag == multiset{} && v.hasWatcher && v.tick == 2 && v.lifetime == 2
      && RetainAll(v, [Drop(p, true)]) == v
  {
    var visits, drops := [Visit(p, true, true, found)], [Drop(p, true)];
    var b := Begin(Ticked(Init(true)), {p});
    assert visits[..0] == [] && drops[..0] == [];
    assert VisitAll(b, visits) == VisitOne(VisitAll(b, visits[..0]), visits[0]);
    var v := VisitAll(b, visits);
    assert RetainAll(v, drops) == RetainOne(RetainAll(v, drops[..0]), drops[0]);
  }

  lemma FirstStep(p: Path, found: Snapshot)
    ensures var ev := OnSync([Visit(p, true, true, found)], [Drop(p, true)]);
      && Enabled(Init(true), ev)
      && Alone(Step(Init(true), ev), 2, p, Entry(2, true, true, Stable, Some(Reading(found, 0))), multiset{},
               [Probe(p, found)], Reading(found, 0))
  {
    hide VisitAll, RetainAll;
    var visits, drops := [Visit(p, true, true, found)], [Drop(p, true)];
    assert Visited(visits) == {p};
    FirstVisit(p, found);
    assert drops[0].path == p;
  }

  lemma FirstSync(p: Path, found: Snapshot) returns (evs: seq<Event>, s: State)
    ensures |evs| == 1
    ensures Single(evs, s, p, Entry(2, true, true, Stable, Some(Reading(found, 0))), multiset{},
                   [Probe(p, found)], Reading(found, 0))
  {
    var ev := OnSync([Visit(p, true, true, found)], [Drop(p, true)]);
    FirstStep(p, found);
    hide Step, Enabled;
    RunPush(Init(true), [], ev);
    evs, s := [] + [ev], Step(Init(true), ev);
  }

  lemma NotifyOne(evs: seq<Event>, s: State, p: Path, found: Snapshot)
    returns (evs': seq<Event>, s': State)
    requires Reached(true, evs, s) && s.hasWatcher
    ensures |evs'| == |evs| + 1 && Reached(true, evs', s')
    ensures s' == Flush(ReadEntry(Ticked(s), p, found), false)
  {
    var probes, drops := [Probe(p, found)], [Drop(p, true)];
    assert ProbePaths(probes) == [p] == DropPaths(drops);
    assert ReadAll(Ticked(s), probes[..0]) == Ticked(s);
    assert ReadAll(Ticked(s), probes) == ReadEntry(Ticked(s), p, found);
    s' := Step(s, OnNotify(AnyKind, probes, drops));
    evs' := evs + [OnNotify(AnyKind, probes, drops)];
    RunPush(Init(true), evs, OnNotify(AnyKind, probes, drops));
  }

  lemma VanishEffect(s: State, p: Path, e: Entry, bag: multiset<Recheck>, log: seq<Probe>, shown: Reading)
    requires Alone(s, s.tick, p, e, bag, log, shown) && e.state.Stable? && e.prev.Some?
    ensures var gone := Reading(Err(NotFound(p)), |log|);
      Alone(Flush(ReadEntry(Ticked(s), p, gone.snapshot), false), s.tick + 1, p,
            e.(state := EmptyOrRemoval(s.tick + 1, gone), prev := Some(gone)),
            bag + multiset{Recheck(p, s.tick + 1)}, log + [Probe(p, gone.snapshot)], shown)
  {
  }

  lemma ReturnEffect(s: State, p: Path, e: Entry, bag: multiset<Recheck>, log: seq<Probe>, shown: Reading,
                     found: Snapshot)
    requires Alone(s, s.tick, p, e, bag, log, shown)
    requires e.prev.Some? && e.prev.value.snapshot.Err? && found.Ok?
    ensures var back := Reading(found, |log|);
      Alone(Flush(ReadEntry(Ticked(s), p, found), false), s.tick + 1, p,
            e.(state := Stable, prev := Some(back)), bag, log + [Probe(p, found)], back)
  {
  }

  /** A stable file is found missing: an episode begins, nothing is sent. */
  lemma Vanishes(evs: seq<Event>, s: State, p: Path, e: Entry, bag: multiset<Recheck>,
                 log: seq<Probe>, shown: Reading) returns (evs': seq<Event>, s': State)
    requires Single(evs, s, p, e, bag, log, shown) && e.state.Stable? && e.prev.Some?
    ensures |evs'| == |evs| + 1
    ensures var gone := Reading(Err(NotFound(p)), |log|);
      Single(evs', s', p, e.(state := EmptyOrRemoval(|evs'| + 1, gone), prev := Some(gone)),
             bag + multiset{Recheck(p, |evs'| + 1)}, log + [Probe(p, gone.snapshot)], shown)
  {
    VanishEffect(s, p, e, bag, log, shown);
    evs', s' := NotifyOne(evs, s, p, Err(NotFound(p)));
  }

  /** It is found again: the episode ends and the content is sent. */
  lemma Returns(evs: seq<Event>, s: State, p: Path, e: Entry, bag: multiset<Recheck>,
                log: seq<Probe>, shown: Reading, found: Snapshot)
    returns (evs': seq<Event>, s': State)
    requires Single(evs, s, p, e, bag, log, shown)
    requires e.prev.Some? && e.prev.value.snapshot.Err? && found.Ok?
    ensures |evs'| == |evs| + 1
    ensures var back := Reading(found, |log|);
      Single(evs', s', p, e.(state := Stable, prev := Some(back)), bag,
             log + [Probe(p, found)], back)
  {
    ReturnEffect(s, p, e, bag, log, shown, found);
    evs', s' := NotifyOne(evs, s, p, found);
  }

  /** A recheck that is not the open episode's closes it without a send. */
  lemma FiresSilently(evs: seq<Event>, s: State, p: Path, e: Entry, bag: multiset<Recheck>,
                      log: seq<Probe>, shown: Reading, tick: nat)
    returns (evs': seq<Event>, s': State)
    requires Single(evs, s, p, e, bag, log, shown) && Recheck(p, tick) in bag
    requires e.state.EmptyOrRemoval? ==> e.state.recheckAt != tick
    ensures |evs'| == |evs| + 1
    ensures Single(evs', s', p, e.(state := Stable), bag - multiset{Recheck(p, tick)}, log, shown)
  {
    s' := Step(s, OnRecheck(Recheck(p, tick), true));
    evs' := evs + [OnRecheck(Recheck(p, tick), true)];
    RunPush(Init(true), evs, OnRecheck(Recheck(p, tick), true));
  }

  /** Removed, restored and removed again: two rechecks of p are queued. */
  lemma RemovedTwice(p: Path, text: Snapshot) returns (evs: seq<Event>, s: State, e: Entry)
    requires text.Ok?
    ensures |evs| == 4 && e.state.EmptyOrRemoval? && e.state.recheckAt == 5
    ensures var gone := Probe(p, Err(NotFound(p)));
      Single(evs, s, p, e, multiset{Recheck(p, 3), Recheck(p, 5)},
             [Probe(p, text), gone, Probe(p, text), gone], Reading(text, 2))
  {
    hide Reached;
    var gone := Err(NotFound(p));
    var e0 := Entry(2, true, true, Stable, Some(Reading(text, 0)));
    evs, s := FirstSync(p, text);
    evs, s := Vanishes(evs, s, p, e0, multiset{}, [Probe(p, text)], Reading(text, 0));
    var lost := Reading(gone, 1);
    var e1 := e0.(state := EmptyOrRemoval(3, lost), prev := Some(lost));
    assert Recheck(p, 3) in s.bag && s.log == [Probe(p, text), Probe(p, gone)];
    evs, s := Returns(evs, s, p, e1, s.bag, s.log, Reading(text, 0), text);
    var e2 := e0.(prev := Some(Reading(text, 2)));
    evs, s := Vanishes(evs, s, p, e2, s.bag, s.log, Reading(text, 2));
    e := s.entries[p];
  }

  /** A run that meets the conditions above: a watched file is removed and shown as missing
      once its recheck fires. */
  lemma RemovalIsShown(p: Path, text: Snapshot) returns (evs: seq<Event>, s: State)
    ensures Reached(true, evs, s)
    ensures p in Consumer(s.out) && Consumer(s.out)[p].snapshot == Err(NotFound(p))
  {
    var e0 := Entry(2, true, true, Stable, Some(Reading(text, 0)));
    var r := Recheck(p, 3);
    evs, s := FirstSync(p, text);
    evs, s := Vanishes(evs, s, p, e0, multiset{}, [Probe(p, text)], Reading(text, 0));
    assert s.log[1] == Probe(p, Err(NotFound(p)));
    MissingFileConverges(evs, s, [], p, 3, 1, NotFound(p), r);
    RunPush(Init(true), evs, OnRecheck(r, true));
    evs, s := evs + [OnRecheck(r, true)], Step(s, OnRecheck(r, true));
  }

  /** A run in which a removed file stays shown with its content although every recheck
      has fired: removed, restored and removed again within one recheck delay. */
  lemma StaleRecheckHidesRemoval(p: Path, text: Snapshot)
    returns (evs: seq<Event>, s: State, i: nat)
    requires NonEmpty(text)
    ensures Reached(true, evs, s) && s.bag == multiset{}
    ensures p in s.entries && LatestRead(s, p, i) && s.log[i].snapshot == Err(NotFound(p))
    ensures p in s.view && s.view[p].snapshot == text
  {
    var e: Entry;
    evs, s, e := RemovedTwice(p, text);
    var log, bag := s.log, s.bag;
    evs, s := FiresSilently(evs, s, p, e, bag, log, Reading(text, 2), 3);
    bag := bag - multiset{Recheck(p, 3)};
    assert bag == multiset{Recheck(p, 5)};
    evs, s := FiresSilently(evs, s, p, e.(state := Stable), bag, log, Reading(text, 2), 5);
    i := 3;
  }
}
