/** Whole events and whole runs of the watcher: what holds between any two events, and
    the guarantees that follow for every run. */
module WatchRuns {
  import opened Options
  import opened Vfs
  import opened WatchModel
  import opened WatchInvariant

  // ---------------------------------------------------------------- the visits

  /** Dependencies visited so far carry the current lifetime; the others are untouched. */
  ghost predicate VisitedSince(s0: State, s: State, paths: set<Path>) {
    && s.hasWatcher == s0.hasWatcher && s.lifetime == s0.lifetime && s.deps == s0.deps
    && s.tick == s0.tick && s.out == s0.out && s.draft.removes == s0.draft.removes
    && s.entries.Keys == s0.entries.Keys + paths
    && (forall p :: p in s.entries ==>
          if p in paths then s.entries[p].lifetime == s.lifetime && s.entries[p].seen
          else s.entries[p] == s0.entries[p])
  }

  lemma {:induction false} VisitAllKeeps(s: State, visits: seq<Visit>)
    requires Core(s) && Whole(s) && DraftFresh(s) && s.draft.removes == []
    ensures var s' := VisitAll(s, visits);
      Core(s') && Whole(s') && DraftFresh(s') && VisitedSince(s, s', Visited(visits))
  {
    hide Core, Whole, DraftFresh, VisitOne;
    if visits != [] {
      var n := |visits| - 1;
      VisitAllKeeps(s, visits[..n]);
      assert visits == visits[..n] + [visits[n]];
      assert Visited(visits) == Visited(visits[..n]) + {visits[n].path};
      var s1 := VisitAll(s, visits[..n]);
      VisitOneKeeps(s1, visits[n]);
      VisitOneDraft(s1, visits[n]);
      VisitedStep(s, s1, Visited(visits[..n]), visits[n]);
    }
  }

  lemma VisitedStep(s0: State, s: State, paths: set<Path>, v: Visit)
    requires VisitedSince(s0, s, paths)
    ensures VisitedSince(s0, VisitOne(s, v), paths + {v.path})
  {
    VisitOneShape(s, v);
  }

  // ------------------------------------------------------------ the retain loop

  /** What the retain loop has done to the paths it met. */
  ghost predicate RetainedSince(s0: State, s: State, met: set<Path>) {
    && s.hasWatcher == s0.hasWatcher && s.lifetime == s0.lifetime && s.deps == s0.deps
    && s.tick == s0.tick && s.out == s0.out && s.draft.inserts == s0.draft.inserts
    && s.log == s0.log
    && (forall p :: p in s.entries <==> p in s0.entries && (p in met ==> Fresh(s0, p)))
    && (forall p :: p in s.entries ==>
          if p in met && !s0.entries[p].seen && s0.hasWatcher
          then s.entries[p] == s0.entries[p].(watching := false)
          else s.entries[p] == s0.entries[p])
    && (forall p :: p in s.draft.removes <==>
          p in s0.draft.removes || (p in met && p in s0.entries && !Fresh(s0, p)))
    && (forall p :: p in s.entries ==> p in s.view && p in s0.view && s.view[p] == s0.view[p])
  }

  lemma {:induction false} RetainAllKeeps(s: State, drops: seq<Drop>)
    requires Core(s) && Whole(s) && DraftFresh(s)
    requires forall p :: p in s.entries && !Fresh(s, p) ==> !s.entries[p].seen
    ensures var s' := RetainAll(s, drops);
      && Core(s') && Whole(s') && DraftFresh(s')
      && RetainedSince(s, s', set d | d in drops :: d.path)
  {
    hide Core, Whole, DraftFresh, RetainOne;
    if drops != [] {
      var n := |drops| - 1;
      RetainAllKeeps(s, drops[..n]);
      assert drops == drops[..n] + [drops[n]];
      var met := set d | d in drops[..n] :: d.path;
      assert (set d | d in drops :: d.path) == met + {drops[n].path};
      var s1 := RetainAll(s, drops[..n]);
      assert RetainedSince(s, s1, met);
      NothingStaleSeen(s, s1, met);
      RetainOneKeeps(s1, drops[n]);
      WatchingNeedsWatcher(s, drops[n].path);
      WatchingNeedsWatcher(s1, drops[n].path);
      RetainStep(s, s1, met, drops[n]);
    } else {
      RetainedNone(s);
    }
  }

  lemma RetainedNone(s: State)
    requires Whole(s)
    ensures RetainedSince(s, s, {})
  {
  }

  lemma NothingStaleSeen(s0: State, s: State, met: set<Path>)
    requires RetainedSince(s0, s, met)
    requires forall p :: p in s0.entries && !Fresh(s0, p) ==> !s0.entries[p].seen
    ensures forall p :: p in s.entries && !Fresh(s, p) ==> !s.entries[p].seen
  {
  }

  lemma RetainStep(s0: State, s: State, met: set<Path>, d: Drop)
    requires RetainedSince(s0, s, met)
    requires d.path in s.entries && s.entries[d.path].watching ==> s.hasWatcher
    requires d.path in s0.entries && s0.entries[d.path].watching ==> s.hasWatcher
    ensures RetainedSince(s0, RetainOne(s, d), met + {d.path})
  {
    if d.path in s.entries {
      RetainMet(s0, s, met, d);
    }
  }

  lemma RetainMet(s0: State, s: State, met: set<Path>, d: Drop)
    requires RetainedSince(s0, s, met) && d.path in s.entries
    requires s.entries[d.path].watching || s0.entries[d.path].watching ==> s.hasWatcher
    ensures RetainedSince(s0, RetainOne(s, d), met + {d.path})
  {
    var s' := RetainOne(s, d);
    assert Fresh(s, d.path) == Fresh(s0, d.path);
    assert s.entries[d.path] == s0.entries[d.path] || d.path in met;
  }

  // ------------------------------------------------------------ dependency sets

  /** p is in one of the last thirty dependency sets. */
  ghost predicate InWindow(deps: seq<set<Path>>, p: Path) {
    exists k :: |deps| - 30 <= k < |deps| && 0 <= k && p in deps[k]
  }

  /** Lifetimes date the last dependency set that mentions the path. */
  ghost predicate DatesOk(s: State, p: Path) {
    && (p in s.entries ==>
          && 2 <= s.entries[p].lifetime <= s.lifetime
          && s.entries[p].lifetime - 2 < |s.deps|
          && p in s.deps[s.entries[p].lifetime - 2]
          && Fresh(s, p)
          && forall k :: s.entries[p].lifetime - 2 < k < |s.deps| ==> p !in s.deps[k])
    && (p !in s.entries ==> !InWindow(s.deps, p))
  }

  ghost predicate WindowOk(s: State) {
    s.lifetime == |s.deps| + 1 && forall p :: DatesOk(s, p)
  }

  /** No changeset removes what it inserts. */
  ghost predicate EventsDisjoint(events: seq<FsEvent>) {
    forall k, i :: 0 <= k < |events| && 0 <= i < |events[k].changes.inserts| ==>
      events[k].changes.inserts[i].path !in events[k].changes.removes
  }

  /** What holds between any two events of the event loop. */
  ghost predicate Settled(s: State) {
    && Core(s) && Whole(s) && WindowOk(s) && EventsDisjoint(s.out)
    && s.draft == NO_CHANGES
    && forall p :: p in s.entries && s.entries[p].watching ==> s.entries[p].seen
  }

  /** An update before its changeset is sent. */
  ghost predicate Updated(s0: State, s: State, visits: seq<Visit>) {
    && Core(s) && Whole(s) && WindowOk(s) && DraftFresh(s)
    && s.deps == s0.deps + [Visited(visits)]
    && s.out == s0.out && s.hasWatcher == s0.hasWatcher && s.tick == s0.tick
    && (forall p :: p in s.entries && s.entries[p].watching ==> s.entries[p].seen)
    && Visited(visits) <= s.entries.Keys
  }

  lemma UpdateWatchesKeeps(s: State, visits: seq<Visit>, drops: seq<Drop>)
    requires Settled(s) && Retainable(s, visits, drops)
    ensures Updated(s, UpdateWatches(s, visits, drops), visits)
  {
    var s0 := Begin(s, Visited(visits));
    BeginKeeps(s, Visited(visits));
    VisitAllKeeps(s0, visits);
    var s1 := VisitAll(s0, visits);
    VisitedFresh(s0, s1, Visited(visits));
    RetainAllKeeps(s1, drops);
    var s2 := RetainAll(s1, drops);
    forall p ensures p in s2.entries && s2.entries[p].watching ==> s2.hasWatcher {
      assert PathOk(s2, p);
    }
    UpdateFacts(s, visits, drops, s1, s2);
  }

  lemma VisitedFresh(s0: State, s1: State, paths: set<Path>)
    requires VisitedSince(s0, s1, paths)
    requires forall p :: p in s0.entries ==> !s0.entries[p].seen
    ensures forall p :: p in s1.entries && !Fresh(s1, p) ==> !s1.entries[p].seen
    ensures forall p :: p in paths ==> p in s1.entries && Fresh(s1, p)
  {
  }

  lemma UpdateFacts(s: State, visits: seq<Visit>, drops: seq<Drop>, s1: State, s2: State)
    requires WindowOk(s)
    requires VisitedSince(Begin(s, Visited(visits)), s1, Visited(visits))
    requires Enumerates(drops, s1.entries.Keys)
    requires RetainedSince(s1, s2, set d | d in drops :: d.path)
    requires forall p :: p in s2.entries && s2.entries[p].watching ==> s2.hasWatcher
    ensures WindowOk(s2)
    ensures forall p :: p in s2.entries && s2.entries[p].watching ==> s2.entries[p].seen
    ensures Visited(visits) <= s2.entries.Keys
    ensures s2.deps == s.deps + [Visited(visits)]
    ensures s2.out == s.out && s2.hasWatcher == s.hasWatcher && s2.tick == s.tick
  {
    var met := set d | d in drops :: d.path;
    forall p | p in s1.entries ensures p in met {
      var i :| 0 <= i < |drops| && drops[i].path == p;
      assert drops[i] in drops;
    }
    VisitedFresh(Begin(s, Visited(visits)), s1, Visited(visits));
    forall p ensures DatesOk(s2, p) {
      Dates(s, s1, s2, Visited(visits), p);
    }
  }

  lemma Dates(s: State, s1: State, s2: State, paths: set<Path>, p: Path)
    requires WindowOk(s)
    requires VisitedSince(Begin(s, paths), s1, paths)
    requires s2.lifetime == s1.lifetime && s2.deps == s1.deps
    requires p in s2.entries <==> p in s1.entries && Fresh(s1, p)
    requires p in s2.entries ==> s2.entries[p].lifetime == s1.entries[p].lifetime
    ensures DatesOk(s2, p)
  {
    assert DatesOk(s, p);
    var n := |s.deps|;
    assert s2.deps[n] == paths && s2.deps[..n] == s.deps;
    assert forall k :: 0 <= k < n ==> s2.deps[k] == s.deps[k];
    if p !in s2.entries {
      forall k | |s2.deps| - WINDOW <= k < |s2.deps| && 0 <= k ensures p !in s2.deps[k] {
        if p in s.entries {
          assert s.entries[p].lifetime - 2 < k;
        } else if k < n {
          assert !(|s.deps| - WINDOW <= k < |s.deps| && 0 <= k && p in s.deps[k]);
        }
      }
    }
  }

  // ------------------------------------------------------------- the other loops

  /** What reads, polls and implicit unwatches leave alone. */
  ghost predicate SameShape(s0: State, s: State) {
    SameFlags(s0, s) && s.draft.removes == s0.draft.removes && s.out == s0.out
  }

  ghost predicate SameFlags(s0: State, s: State) {
    && s.hasWatcher == s0.hasWatcher && s.lifetime == s0.lifetime && s.deps == s0.deps
    && s.tick == s0.tick
    && s.entries.Keys == s0.entries.Keys
    && forall p :: p in s.entries ==>
         && s.entries[p].lifetime == s0.entries[p].lifetime
         && s.entries[p].seen == s0.entries[p].seen
         && (s.entries[p].watching && !s0.entries[p].watching ==> s.entries[p].seen)
  }

  lemma {:induction false} ReadAllKeeps(s: State, probes: seq<Probe>)
    requires Core(s) && Whole(s) && s.hasWatcher
    ensures var s' := ReadAll(s, probes); Core(s') && Whole(s') && SameShape(s, s')
  {
    hide Core, Whole, ReadEntry;
    if probes != [] {
      var n := |probes| - 1;
      ReadAllKeeps(s, probes[..n]);
      var s1 := ReadAll(s, probes[..n]);
      ReadEntryKeeps(s1, probes[n].path, probes[n].snapshot);
      ShownHasEntry(ReadEntry(s1, probes[n].path, probes[n].snapshot), probes[n].path);
      ReadStep(s, s1, probes[n].path, probes[n].snapshot);
    }
  }

  lemma ShownHasEntry(s: State, p: Path)
    requires Core(s)
    ensures p in s.view ==> p in s.entries
    ensures p in s.entries && s.entries[p].prev.Some? ==> p in s.view
  {
    assert PathOk(s, p);
  }

  lemma ReadStep(s0: State, s: State, p: Path, snapshot: Snapshot)
    requires Whole(s) && s.hasWatcher && SameShape(s0, s)
    requires p in ReadEntry(s, p, snapshot).view ==> p in ReadEntry(s, p, snapshot).entries
    ensures Whole(ReadEntry(s, p, snapshot)) && SameShape(s0, ReadEntry(s, p, snapshot))
  {
    if p in s.entries {
      ReadEntryShape(s, p, snapshot);
    }
  }

  lemma {:induction false} ForgetAllKeeps(s: State, drops: seq<Drop>)
    requires Core(s) && Whole(s)
    ensures var s' := ForgetAll(s, drops); Core(s') && Whole(s') && SameShape(s, s')
  {
    hide Core, Whole, ForgetOne;
    if drops != [] {
      var n := |drops| - 1;
      ForgetAllKeeps(s, drops[..n]);
      var s1 := ForgetAll(s, drops[..n]);
      ForgetKeeps(s1, drops[n]);
      ForgetStep(s, s1, drops[n]);
    }
  }

  lemma ForgetKeeps(s: State, d: Drop)
    requires Core(s)
    ensures Core(ForgetOne(s, d))
  {
    hide Core;
    if d.path in s.entries && s.entries[d.path].watching {
      UnwatchKeeps(s, d.path, d.unwatchOk);
    }
  }

  lemma ForgetStep(s0: State, s: State, d: Drop)
    requires Whole(s) && SameShape(s0, s)
    ensures Whole(ForgetOne(s, d)) && SameShape(s0, ForgetOne(s, d))
  {
  }

  lemma PollOneKeeps(s: State, v: Visit)
    requires Core(s) && Whole(s) && s.hasWatcher && v.path in s.entries
    ensures Core(PollOne(s, v)) && v.path in PollOne(s, v).view
  {
    hide Core, ReadEntry;
    var s1 := WatchIfNeeded(s, v.path, true, v.watchable, v.watchOk);
    WatchIfNeededKeeps(s, v.path, true, v.watchable, v.watchOk);
    ReadEntryKeeps(s1, v.path, v.snapshot);
    ReadEntryShape(s1, v.path, v.snapshot);
    ShownHasEntry(PollOne(s, v), v.path);
  }

  lemma PollStep(s0: State, s: State, v: Visit)
    requires Whole(s) && s.hasWatcher && SameShape(s0, s)
    requires v.path in s.entries && s.entries[v.path].seen
    requires v.path in PollOne(s, v).view
    ensures Whole(PollOne(s, v)) && SameShape(s0, PollOne(s, v))
  {
    var s1 := WatchIfNeeded(s, v.path, true, v.watchable, v.watchOk);
    assert Whole(s1) && SameShape(s0, s1);
    ReadStep(s0, s1, v.path, v.snapshot);
  }

  lemma {:induction false} PollAllKeeps(s: State, visits: seq<Visit>)
    requires Core(s) && Whole(s) && s.hasWatcher
    requires forall i :: 0 <= i < |visits| ==> Pollable(s, visits[i].path)
    ensures var s' := PollAll(s, visits); Core(s') && Whole(s') && SameShape(s, s')
  {
    hide Core, Whole, PollOne;
    if visits != [] {
      var n := |visits| - 1;
      PollAllKeeps(s, visits[..n]);
      assert Pollable(s, visits[n].path);
      var s1 := PollAll(s, visits[..n]);
      PollOneKeeps(s1, visits[n]);
      PollStep(s, s1, visits[n]);
    }
  }

  /** Sending the changeset under construction. */
  lemma FlushKeeps(s: State, e: FsEvent)
    requires Core(s) && e.changes == s.draft
    ensures Core(s.(out := s.out + [e], draft := NO_CHANGES))
  {
    var s' := s.(out := s.out + [e], draft := NO_CHANGES);
    ConsumerAppend(s.out, e);
    assert s'.out[..|s.out|] == s.out;
    assert Consumer(s'.out) - (set p | p in NO_CHANGES.removes) == Consumer(s'.out);
    forall p ensures PathOk(s', p) {
      assert PathOk(s, p);
      PathFrame(s, s', p);
    }
  }

  lemma SettleBy(s0: State, s: State)
    requires WindowOk(s0) && SameFlags(s0, s)
    requires forall p :: p in s0.entries && s0.entries[p].watching ==> s0.entries[p].seen
    ensures WindowOk(s)
    ensures forall p :: p in s.entries && s.entries[p].watching ==> s.entries[p].seen
  {
    forall p ensures DatesOk(s, p) {
      assert DatesOk(s0, p);
      assert s.deps == s0.deps;
    }
  }

  // ------------------------------------------------------------------- rechecks

  /** The entry after its recheck: the episode is closed, with or without a send. */
  function Closed(s: State, r: Recheck): State {
    var s0 := s.(bag := s.bag - multiset{r});
    if r.path in s.entries
    then s0.(entries := s.entries[r.path := s.entries[r.path].(state := Stable)])
    else s0
  }

  lemma ClosedSameFor(s: State, r: Recheck, q: Path)
    requires q != r.path
    ensures SameFor(s, Closed(s, r), q)
  {
  }

  lemma ClosedKeeps(s: State, r: Recheck)
    requires Core(s)
    ensures Core(Closed(s, r))
  {
    var s' := Closed(s, r);
    forall q ensures PathOk(s', q) {
      assert PathOk(s, q);
      if q != r.path {
        ClosedSameFor(s, r, q);
        PathFrame(s, s', q);
      } else {
        ViewFrame(s, s', q);
        if q in s.entries && s.entries[q].state.EmptyOrRemoval? {
          var e := s.entries[q];
          assert EpisodeOk(s, q, e.prev.value, e.state.recheckAt, e.state.payload);
          assert s.log[e.prev.value.serial] == Probe(q, e.prev.value.snapshot);
        }
      }
    }
  }

  /** Sending the payload of a closed episode. */
  lemma PayloadKeeps(s: State, p: Path, payload: Reading)
    requires Core(s) && p in s.entries
    requires s.entries[p].state.Stable? && s.entries[p].prev.Some?
    requires !NonEmpty(s.entries[p].prev.value.snapshot)
    requires Logged(s, p, payload) && SentBefore(s, p, payload.serial)
    ensures Core(Push(s, p, payload))
  {
    var s' := Push(s, p, payload);
    assert PathOk(s, p);
    PushSent(s, p, payload);
    ApplyPushInsert(Consumer(s.out), s.draft, Insert(p, payload));
    assert s'.sent[|s.sent|] == Insert(p, payload);
    forall q ensures PathOk(s', q) {
      assert PathOk(s, q);
      if q != p {
        PathFrame(s, s', q);
      }
    }
  }

  lemma FireCore(s: State, r: Recheck)
    requires Core(s) && s.draft == NO_CHANGES
    ensures Core(Fire(s, r))
  {
    ClosedKeeps(s, r);
    assert PathOk(s, r.path);
    if r.path in s.entries {
      var e := s.entries[r.path];
      if e.state.EmptyOrRemoval? && e.state.recheckAt == r.tick {
        assert EpisodeOk(s, r.path, e.prev.value, r.tick, e.state.payload);
        assert s.log[e.prev.value.serial] == Probe(r.path, e.prev.value.snapshot);
        PayloadKeeps(Closed(s, r), r.path, e.state.payload);
        var s2 := Push(Closed(s, r), r.path, e.state.payload);
        FlushKeeps(s2, FsUpdate(s2.draft, false));
      }
    }
  }

  lemma FireShape(s: State, r: Recheck)
    requires Whole(s) && s.draft == NO_CHANGES && EventsDisjoint(s.out)
    requires r.path in s.entries && s.entries[r.path].state.EmptyOrRemoval? ==> s.hasWatcher
    ensures var s' := Fire(s, r);
      Whole(s') && s'.draft == NO_CHANGES && SameFlags(s, s') && EventsDisjoint(s'.out)
  {
    assert SameFlags(s, Closed(s, r)) && Whole(Closed(s, r));
  }

  lemma FireKeeps(s: State, r: Recheck)
    requires Settled(s)
    ensures Settled(Fire(s, r))
  {
    FireCore(s, r);
    assert PathOk(s, r.path);
    FireShape(s, r);
    SettleBy(s, Fire(s, r));
  }

  // --------------------------------------------------------------------- events

  lemma InitSettled(hasWatcher: bool)
    ensures Settled(Init(hasWatcher))
  {
    var s := Init(hasWatcher);
    forall p ensures PathOk(s, p) && DatesOk(s, p) {
    }
  }

  lemma FlushUpdate(s0: State, s: State, visits: seq<Visit>, e: FsEvent)
    requires Updated(s0, s, visits) && e.changes == s.draft && EventsDisjoint(s.out)
    ensures Settled(s.(out := s.out + [e], draft := NO_CHANGES))
  {
    FlushKeeps(s, e);
    SettleBy(s, s.(out := s.out + [e], draft := NO_CHANGES));
  }

  lemma FlushSettles(s0: State, s: State)
    requires Settled(s0) && Core(s) && Whole(s) && SameShape(s0, s)
    ensures Settled(Flush(s, false))
  {
    SettleBy(s0, s);
    if !s.draft.IsEmpty() {
      FlushKeeps(s, FsUpdate(s.draft, false));
      SettleBy(s, Flush(s, false));
    }
  }

  lemma TickSettles(s: State)
    requires Settled(s)
    ensures Settled(Ticked(s))
  {
    TickKeeps(s);
    forall p ensures DatesOk(Ticked(s), p) {
      assert DatesOk(s, p);
    }
  }

  lemma SyncKeeps(s: State, visits: seq<Visit>, drops: seq<Drop>)
    requires Settled(s) && Retainable(s, visits, drops)
    ensures Settled(Flush(UpdateWatches(s, visits, drops), true))
  {
    UpdateWatchesKeeps(s, visits, drops);
    var s1 := UpdateWatches(s, visits, drops);
    FlushUpdate(s, s1, visits, FsUpdate(s1.draft, true));
  }

  lemma UpstreamKeeps(s: State, event: UpstreamEvent, visits: seq<Visit>, drops: seq<Drop>)
    requires Settled(s) && Retainable(s, visits, drops)
    ensures Settled(FlushUpstream(UpdateWatches(s, visits, drops), event))
  {
    UpdateWatchesKeeps(s, visits, drops);
    var s1 := UpdateWatches(s, visits, drops);
    FlushUpdate(s, s1, visits, FsUpstreamUpdate(s1.draft, event));
  }

  lemma NotifyKeeps(s: State, unwatch: bool, probes: seq<Probe>, forgets: seq<Drop>)
    requires Settled(s) && s.hasWatcher
    ensures var s1 := ReadAll(s, probes);
      Settled(Flush(if unwatch then ForgetAll(s1, forgets) else s1, false))
  {
    ReadAllKeeps(s, probes);
    ForgetAllKeeps(ReadAll(s, probes), forgets);
    FlushSettles(s, if unwatch then ForgetAll(ReadAll(s, probes), forgets) else ReadAll(s, probes));
  }

  lemma PollKeeps(s: State, visits: seq<Visit>)
    requires Settled(s) && s.hasWatcher
    requires forall i :: 0 <= i < |visits| ==> Pollable(s, visits[i].path)
    ensures Settled(Flush(PollAll(s, visits), false))
  {
    PollAllKeeps(s, visits);
    FlushSettles(s, PollAll(s, visits));
  }

  /** Every event the environment can produce keeps the actor settled. */
  lemma StepKeeps(s: State, ev: Event)
    requires Settled(s) && Enabled(s, ev)
    ensures Settled(Step(s, ev))
  {
    var s0 := Ticked(s);
    TickSettles(s);
    match ev
    case OnSync(visits, drops) => SyncKeeps(s0, visits, drops);
    case OnUpstream(event, visits, drops) => UpstreamKeeps(s0, event, visits, drops);
    case OnNotify(kind, probes, forgets) => NotifyKeeps(s0, Unwatches(kind), probes, forgets);
    case OnNotifyError =>
    case OnRecheck(r, _) => FireKeeps(s0, r);
    case OnPoll(visits) =>
      if s.hasWatcher {
        PollKeeps(s0, visits);
      }
  }

  // ----------------------------------------------------------------------- runs

  function After(s: State, evs: seq<Event>): State {
    if evs == [] then s else Step(After(s, evs[..|evs| - 1]), evs[|evs| - 1])
  }

  predicate Admissible(s: State, evs: seq<Event>) {
    evs != [] ==>
      && Admissible(s, evs[..|evs| - 1])
      && Enabled(After(s, evs[..|evs| - 1]), evs[|evs| - 1])
  }

  lemma {:induction false} RunKeeps(s: State, evs: seq<Event>)
    requires Settled(s) && Admissible(s, evs)
    ensures Settled(After(s, evs))
  {
    if evs != [] {
      RunKeeps(s, evs[..|evs| - 1]);
      StepKeeps(After(s, evs[..|evs| - 1]), evs[|evs| - 1]);
    }
  }
}
