/** The guarantees of the watcher, for every run from start-up. */
module WatchGuarantees {
  import opened Options
  import opened Vfs
  import opened WatchModel
  import opened WatchInvariant
  import opened WatchRuns

  /** s is reached from start-up by a run. */
  ghost predicate Reached(hasWatcher: bool, evs: seq<Event>, s: State) {
    Admissible(Init(hasWatcher), evs) && s == After(Init(hasWatcher), evs)
  }

  lemma ReachedSettled(hasWatcher: bool, evs: seq<Event>, s: State)
    requires Reached(hasWatcher, evs, s)
    ensures Settled(s) && s.view == Consumer(s.out) && s.sent == Inserts(s.out)
    ensures s.hasWatcher == hasWatcher
  {
    InitSettled(hasWatcher);
    RunKeeps(Init(hasWatcher), evs);
    assert Consumer(s.out) - (set p | p in NO_CHANGES.removes) == Consumer(s.out);
    RunWatcher(Init(hasWatcher), evs);
  }

  lemma {:induction false} RunWatcher(s: State, evs: seq<Event>)
    requires Settled(s) && Admissible(s, evs)
    ensures After(s, evs).hasWatcher == s.hasWatcher
  {
    if evs != [] {
      var n := |evs| - 1;
      RunWatcher(s, evs[..n]);
      RunKeeps(s, evs[..n]);
      StepWatcher(After(s, evs[..n]), evs[n]);
    }
  }

  lemma StepWatcher(s: State, ev: Event)
    requires Settled(s) && Enabled(s, ev)
    ensures Step(s, ev).hasWatcher == s.hasWatcher
  {
    hide Core, Whole, WindowOk, DraftFresh, Retainable, Pollable, EventsDisjoint;
    TickSettles(s);
    var s0 := Ticked(s);
    match ev
    case OnSync(visits, drops) => UpdateWatchesKeeps(s0, visits, drops);
    case OnUpstream(_, visits, drops) => UpdateWatchesKeeps(s0, visits, drops);
    case OnNotify(_, probes, forgets) =>
      ReadAllKeeps(s0, probes);
      ForgetAllKeeps(ReadAll(s0, probes), forgets);
    case OnNotifyError =>
    case OnRecheck(_, _) =>
    case OnPoll(visits) =>
      if s.hasWatcher {
        PollAllKeeps(s0, visits);
      }
  }

  /** An open episode has its recheck queued and began with a read that found no content. */
  lemma OpenEpisode(s: State, p: Path)
    requires PathOk(s, p) && p in s.entries
    ensures s.entries[p].state.EmptyOrRemoval? ==>
      && Recheck(p, s.entries[p].state.recheckAt) in s.bag
      && s.entries[p].prev.Some?
      && !NonEmpty(s.entries[p].prev.value.snapshot)
  {
    var e := s.entries[p];
    if e.state.EmptyOrRemoval? {
      assert EpisodeOk(s, p, e.prev.value, e.state.recheckAt, e.state.payload);
      assert s.log[e.prev.value.serial] == Probe(p, e.prev.value.snapshot);
    }
  }

  lemma SettledContent(s: State, p: Path, i: nat)
    requires Settled(s)
    requires p in s.entries && LatestRead(s, p, i) && NonEmpty(s.log[i].snapshot)
    ensures p in Consumer(s.out) && Consumer(s.out)[p].snapshot == s.log[i].snapshot
    ensures s.entries[p].state.Stable?
  {
    assert PathOk(s, p);
    OpenEpisode(s, p);
    assert Consumer(s.out) - (set q | q in NO_CHANGES.removes) == Consumer(s.out);
  }

  /** One-read synchronisation: at every moment, for every watched path whose latest read
      found content, the consumer sees exactly that content, whatever truncations,
      deletions, stale rechecks and expiries came before. */
  lemma ContentIsShown(hasWatcher: bool, evs: seq<Event>, s: State, p: Path, i: nat)
    requires Reached(hasWatcher, evs, s)
    requires p in s.entries && LatestRead(s, p, i) && NonEmpty(s.log[i].snapshot)
    ensures p in Consumer(s.out) && Consumer(s.out)[p].snapshot == s.log[i].snapshot
    ensures s.entries[p].state.Stable?
  {
    ReachedSettled(hasWatcher, evs, s);
    SettledContent(s, p, i);
  }

  /** A previous snapshot with content is what the consumer sees, and no episode is open. */
  lemma PreviousContentIsShown(hasWatcher: bool, evs: seq<Event>, s: State, p: Path)
    requires Reached(hasWatcher, evs, s)
    requires p in s.entries && s.entries[p].prev.Some?
    requires NonEmpty(s.entries[p].prev.value.snapshot)
    ensures s.entries[p].state.Stable?
    ensures p in Consumer(s.out) && Consumer(s.out)[p] == s.entries[p].prev.value
  {
    ReachedSettled(hasWatcher, evs, s);
    assert PathOk(s, p);
    OpenEpisode(s, p);
  }

  /** Never back in time: what is sent for a path comes from strictly increasing reads of
      that path. */
  lemma NeverBackInTime(hasWatcher: bool, evs: seq<Event>, s: State, i: nat, j: nat)
    requires Reached(hasWatcher, evs, s)
    requires i < j < |Inserts(s.out)| && Inserts(s.out)[i].path == Inserts(s.out)[j].path
    ensures Inserts(s.out)[i].value.serial < Inserts(s.out)[j].value.serial < |s.log|
    ensures s.log[Inserts(s.out)[j].value.serial]
      == Probe(Inserts(s.out)[j].path, Inserts(s.out)[j].value.snapshot)
  {
    ReachedSettled(hasWatcher, evs, s);
    assert Logged(s, s.sent[j].path, s.sent[j].value);
  }

  /** Watch ledger: the entries marked as watching are exactly what the operating system
      watches, up to the paths whose last unwatch reported an error; no path is watched
      twice; only dependencies of the last update are watched. */
  lemma WatchLedger(hasWatcher: bool, evs: seq<Event>, s: State)
    requires Reached(hasWatcher, evs, s)
    ensures var watching := set p | p in s.entries && s.entries[p].watching;
      && OsWatched(s.commands) == watching + Stray(s.commands)
      && watching !! Stray(s.commands)
      && forall p :: p in watching ==> s.entries[p].seen
    ensures Disciplined(s.commands)
  {
    ReachedSettled(hasWatcher, evs, s);
    var watching := set p | p in s.entries && s.entries[p].watching;
    forall p ensures p in watching <==> p in Held(s.commands) {
      assert PathOk(s, p);
    }
    LedgerSplits(s.commands);
  }

  /** Commands that do what they report: the system watches what is held, plus the strays. */
  lemma {:induction false} LedgerSplits(commands: seq<Command>)
    requires Disciplined(commands)
    ensures OsWatched(commands) == Held(commands) + Stray(commands)
    ensures Held(commands) !! Stray(commands)
  {
    if commands != [] {
      LedgerSplits(commands[..|commands| - 1]);
    }
  }

  /** With unwatches that always succeed the ledger is exact. */
  lemma {:induction false} NoStrays(commands: seq<Command>)
    requires forall i :: 0 <= i < |commands| && commands[i].Unwatch? ==> commands[i].ok
    ensures Stray(commands) == {}
  {
    if commands != [] {
      NoStrays(commands[..|commands| - 1]);
    }
  }

  /** Thirty-update window: the entries are the union of the last thirty dependency sets
      and the domain of the consumer's view; ages never underflow; no changeset both
      inserts and removes a path. */
  lemma ThirtyUpdateWindow(hasWatcher: bool, evs: seq<Event>, s: State)
    requires Reached(hasWatcher, evs, s)
    ensures forall p :: p in s.entries <==> InWindow(s.deps, p)
    ensures s.entries.Keys == Consumer(s.out).Keys
    ensures forall p :: p in s.entries ==> s.entries[p].lifetime <= s.lifetime
    ensures EventsDisjoint(s.out)
  {
    ReachedSettled(hasWatcher, evs, s);
    hide Reached, Core, EventsDisjoint;
    forall p ensures p in s.entries <==> InWindow(s.deps, p) {
      assert DatesOk(s, p);
      EntryInWindow(s, p);
    }
    forall p | p in s.entries ensures s.entries[p].lifetime <= s.lifetime {
      assert DatesOk(s, p);
    }
  }

  lemma EntryInWindow(s: State, p: Path)
    requires DatesOk(s, p) && s.lifetime == |s.deps| + 1
    ensures p in s.entries <==> InWindow(s.deps, p)
  {
    if p in s.entries {
      var k := s.entries[p].lifetime - 2;
      assert |s.deps| - WINDOW <= k < |s.deps| && p in s.deps[k];
    }
  }

  // ------------------------------------------------------------------- no limbo

  function Rechecks(order: seq<Recheck>): seq<Event> {
    seq(|order|, i requires 0 <= i < |order| => OnRecheck(order[i], true))
  }

  /** Every open episode has its own recheck queued. */
  lemma EveryEpisodeIsQueued(hasWatcher: bool, evs: seq<Event>, s: State, p: Path)
    requires Reached(hasWatcher, evs, s)
    requires p in s.entries && s.entries[p].state.EmptyOrRemoval?
    ensures Recheck(p, s.entries[p].state.recheckAt) in s.bag
  {
    ReachedSettled(hasWatcher, evs, s);
    assert PathOk(s, p);
    OpenEpisode(s, p);
  }

  /** The first recheck of p in an order. */
  function FirstOf(order: seq<Recheck>, p: Path): Option<Recheck> {
    if order == [] then None
    else if order[0].path == p then Some(order[0])
    else FirstOf(order[1..], p)
  }

  /** What draining the rechecks in some order does to the episode of p: it is closed by
      the first recheck of p, and shown exactly when that one is the episode's own. */
  ghost predicate DrainOutcome(s: State, s': State, first: Option<Recheck>, p: Path)
    requires p in s.entries && p in s'.entries && p in s.view && p in s'.view
  {
    var e := s.entries[p];
    && s'.entries[p].prev == e.prev
    && (first.None? ==> s'.entries[p] == e && s'.view[p] == s.view[p])
    && (first.Some? ==>
          && s'.entries[p].state.Stable?
          && s'.view[p] ==
               (if e.state.EmptyOrRemoval? && e.state.recheckAt == first.value.tick
                then e.state.payload else s.view[p]))
  }

  /** A drain leaves the reads and the watched paths alone. */
  ghost predicate Drained(s: State, s': State, order: seq<Recheck>) {
    && s'.bag == s.bag - multiset(order) && s'.log == s.log
    && s'.entries.Keys == s.entries.Keys == s.view.Keys == s'.view.Keys
    && s'.draft == NO_CHANGES
    && forall p :: p in s.entries ==> DrainOutcome(s, s', FirstOf(order, p), p)
  }

  lemma FireEffect(s: State, r: Recheck)
    requires s.draft == NO_CHANGES && s.entries.Keys == s.view.Keys
    ensures var s' := Fire(s, r);
      && s'.bag == s.bag - multiset{r} && s'.log == s.log && s'.draft == NO_CHANGES
      && s'.entries.Keys == s.entries.Keys == s'.view.Keys
      && (forall p :: p in s.entries && p != r.path ==>
            s'.entries[p] == s.entries[p] && s'.view[p] == s.view[p])
      && (r.path in s.entries ==> DrainOutcome(s, s', Some(r), r.path))
  {
    if r.path in s.entries {
      var e := s.entries[r.path];
      if e.state.EmptyOrRemoval? && e.state.recheckAt == r.tick {
        assert Fire(s, r).view == s.view[r.path := e.state.payload];
      } else {
        assert Fire(s, r).view == s.view;
      }
    }
  }

  lemma DrainedNone(s: State)
    requires Settled(s)
    ensures Drained(s, s, [])
  {
  }

  lemma DrainStep(s: State, s1: State, order: seq<Recheck>, r: Recheck)
    requires Drained(s, s1, order)
    ensures Drained(s, Fire(Ticked(s1), r), order + [r])
  {
    var s' := Fire(Ticked(s1), r);
    FireEffect(Ticked(s1), r);
    assert multiset(order + [r]) == multiset(order) + multiset{r};
    forall p | p in s.entries ensures DrainOutcome(s, s', FirstOf(order + [r], p), p) {
      FirstOfAppend(order, r, p);
      assert DrainOutcome(s, s1, FirstOf(order, p), p);
    }
  }

  lemma NextIsQueued(s: State, s1: State, order: seq<Recheck>)
    requires order != [] && multiset(order) <= s.bag && Drained(s, s1, order[..|order| - 1])
    ensures order[|order| - 1] in s1.bag
  {
    var n := |order| - 1;
    assert order == order[..n] + [order[n]];
  }

  /** Draining the rechecks in any order is always possible, closes every episode, and
      shows the payload of an episode iff its own recheck is the first of its path. */
  lemma {:induction false} Drain(s: State, order: seq<Recheck>)
    requires Settled(s) && multiset(order) <= s.bag
    ensures Admissible(s, Rechecks(order)) && Settled(After(s, Rechecks(order)))
    ensures Drained(s, After(s, Rechecks(order)), order)
  {
    hide Settled, Fire, Drained;
    if order == [] {
      assert multiset(order) == multiset{};
      DrainedNone(s);
    } else {
      var n := |order| - 1;
      assert order == order[..n] + [order[n]];
      assert Rechecks(order)[..n] == Rechecks(order[..n]);
      Drain(s, order[..n]);
      var s1 := After(s, Rechecks(order[..n]));
      NextIsQueued(s, s1, order);
      StepKeeps(s1, OnRecheck(order[n], true));
      DrainStep(s, s1, order[..n], order[n]);
    }
  }

  lemma {:induction false} FirstOfAppend(order: seq<Recheck>, r: Recheck, p: Path)
    ensures FirstOf(order + [r], p) ==
      if FirstOf(order, p).Some? then FirstOf(order, p)
      else if r.path == p then Some(r) else None
  {
    if order != [] {
      assert (order + [r])[1..] == order[1..] + [r];
      FirstOfAppend(order[1..], r, p);
    }
  }

  /** No limbo: draining every queued recheck, in any order, leaves every entry stable. */
  lemma NoLimbo(hasWatcher: bool, evs: seq<Event>, s: State, order: seq<Recheck>)
    requires Reached(hasWatcher, evs, s) && multiset(order) == s.bag
    ensures Admissible(s, Rechecks(order))
    ensures var s' := After(s, Rechecks(order));
      s'.bag == multiset{} && forall p :: p in s'.entries ==> s'.entries[p].state.Stable?
  {
    ReachedSettled(hasWatcher, evs, s);
    Drain(s, order);
    var s' := After(s, Rechecks(order));
    forall p | p in s'.entries ensures s'.entries[p].state.Stable? {
      assert PathOk(s', p);
      OpenEpisode(s', p);
    }
  }

  /** A recheck that sends was never contradicted: no read of the path since the episode
      began found content, and the consumer sees the latest erroneous one of these reads,
      or the one the episode began with if there is none; it is newer than all the consumer
      saw before. */
  lemma RecheckIsNotContradicted(hasWatcher: bool, evs: seq<Event>, s: State, r: Recheck)
    requires Reached(hasWatcher, evs, s) && r in s.bag
    ensures var s' := Step(s, OnRecheck(r, true));
      s'.out != s.out ==>
        && r.path in s.entries && s.entries[r.path].state.EmptyOrRemoval?
        && s.entries[r.path].state.recheckAt == r.tick && s.entries[r.path].prev.Some?
        && var began, payload := s.entries[r.path].prev.value, s.entries[r.path].state.payload;
        && NoContentSince(s, r.path, began.serial)
        && began.serial <= payload.serial && Logged(s, r.path, payload)
        && SentBefore(s, r.path, began.serial) && LatestError(s, r.path, began, payload)
        && r.path in Consumer(s'.out) && Consumer(s'.out)[r.path] == payload
  {
    hide Reached;
    ReachedSettled(hasWatcher, evs, s);
    StepKeeps(s, OnRecheck(r, true));
    var s' := Step(s, OnRecheck(r, true));
    SettledView(s');
    FireSends(Ticked(s), r);
    hide Fire;
    if s'.out != s.out {
      OwnEpisode(s, r.path);
    }
  }

  lemma SettledView(s: State)
    requires Settled(s)
    ensures s.view == Consumer(s.out)
  {
    assert Consumer(s.out) - (set p | p in NO_CHANGES.removes) == Consumer(s.out);
  }

  /** A recheck sends only when it is the open episode's own. */
  lemma FireSends(s: State, r: Recheck)
    ensures Fire(s, r).out != s.out ==>
      && r.path in s.entries && s.entries[r.path].state.EmptyOrRemoval?
      && s.entries[r.path].state.recheckAt == r.tick
      && r.path in Fire(s, r).view && Fire(s, r).view[r.path] == s.entries[r.path].state.payload
  {
  }

  lemma OwnEpisode(s: State, p: Path)
    requires Settled(s) && p in s.entries && s.entries[p].state.EmptyOrRemoval?
    ensures s.entries[p].prev.Some?
    ensures EpisodeOk(s, p, s.entries[p].prev.value, s.entries[p].state.recheckAt, s.entries[p].state.payload)
  {
    assert PathOk(s, p);
  }
}
