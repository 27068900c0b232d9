/** What reaches the watcher and the projects besides memory events: announced dependencies
    are read and watched, forks come and go by their ids, buffers come before the disk. */
module Announcements {
  import opened Options
  import opened Vfs
  import opened CompilerModel
  import opened Composition
  import opened SystemGuarantees
  import W = WatchModel
  import WI = WatchInvariant
  import WR = WatchRuns
  import WC = WatchChanges

  // --------------------------------------------------------------- dependencies

  /** The messages sent stay sent, in order. */
  lemma {:induction false} MessagesStay(s: Sys, steps: seq<Step>)
    requires Possible(s, steps)
    ensures var s' := After(s, steps);
      |s.c.depTx| <= |s'.c.depTx| && s'.c.depTx[..|s.c.depTx|] == s.c.depTx
  {
    if steps != [] {
      var n := |steps| - 1;
      MessagesStay(s, steps[..n]);
      var s1 := After(s, steps[..n]);
      MessagesStep(s1, steps[n]);
      var tx1, tx2 := s1.c.depTx, After(s, steps).c.depTx;
      assert tx2[..|s.c.depTx|] == tx2[..|tx1|][..|s.c.depTx|];
    }
  }

  lemma MessagesStep(s: Sys, step: Step)
    requires Enabled(s, step)
    ensures |s.c.depTx| <= |Next(s, step).c.depTx| && Next(s, step).c.depTx[..|s.c.depTx|] == s.c.depTx
  {
    hide W.Step, W.Enabled, Direct, Invalidated;
  }

  /** Some dedicate has the id. */
  predicate HasDedicate(s: State, id: string) {
    exists i :: 0 <= i < |s.dedicates| && s.dedicates[i].id == id
  }

  /** A finished compilation announces its dependencies, and so does a dedicate that goes. */
  predicate Announces(s: Sys, step: Step, deps: seq<Path>) {
    match step
    case Compiled(deps') => deps' == deps
    case Settle(id, deps') => deps' == deps && HasDedicate(s.c, id)
    case Restart(id, deps') => deps' == deps && HasDedicate(s.c, id)
    case _ => false
  }

  /** The announcement is on its way: the watcher will come to it. */
  lemma AnnouncedOnce(s: Sys, step: Step, deps: seq<Path>)
    requires Enabled(s, step) && Announces(s, step, deps)
    ensures Next(s, step).c.depTx == s.c.depTx + [SyncDependency(deps)]
  {
  }

  lemma VisitedAll(visits: seq<W.Visit>, deps: seq<Path>, p: Path) returns (i: nat)
    requires W.VisitPaths(visits) == deps && p in deps
    ensures WC.FirstVisitOf(visits, i) && visits[i].path == p
  {
    var k :| 0 <= k < |deps| && deps[k] == p;
    assert W.VisitPaths(visits)[k] == visits[k].path == p;
    i := FirstVisit(visits, p, k);
  }

  lemma {:induction false} FirstVisit(visits: seq<W.Visit>, p: Path, k: nat) returns (i: nat)
    requires k < |visits| && visits[k].path == p
    ensures WC.FirstVisitOf(visits, i) && visits[i].path == p
  {
    if j :| 0 <= j < k && visits[j].path == p {
      i := FirstVisit(visits, p, j);
    } else {
      i := k;
    }
  }

  /** The watcher's turn for announced dependencies: each is read, shown, and watched if it
      was before or can be. */
  lemma TurnReads(w: W.State, visits: seq<W.Visit>, drops: seq<W.Drop>, i: nat)
    requires WR.Settled(w) && W.Enabled(w, W.OnSync(visits, drops)) && WC.FirstVisitOf(visits, i)
    ensures var p, w' := visits[i].path, W.Step(w, W.OnSync(visits, drops));
      && p in w'.entries && w'.entries[p].seen && p in Consumer(w'.out)
      && (exists j :: |w.log| <= j < |w'.log| && w'.log[j].path == p)
      && (w'.entries[p].watching <==>
            WC.Watches(w, p) || (w.hasWatcher && visits[i].watchable && visits[i].watchOk))
  {
    var p, w0 := visits[i].path, W.Ticked(w);
    var w1 := W.UpdateWatches(w0, visits, drops);
    WR.TickSettles(w);
    WC.DependencyIsWatchedIff(w0, visits, drops, i);
    TurnLogs(w0, visits, drops, p, i);
    WR.StepKeeps(w, W.OnSync(visits, drops));
    WC.FlushKeepsAll(w1, true);
    SettledShows(W.Step(w, W.OnSync(visits, drops)), p);
  }

  lemma TurnLogs(w: W.State, visits: seq<W.Visit>, drops: seq<W.Drop>, p: Path, i: nat)
    requires i < |visits| && visits[i].path == p
    ensures var w' := W.UpdateWatches(w, visits, drops);
      exists j :: |w.log| <= j < |w'.log| && w'.log[j].path == p
  {
    var w0 := W.Begin(w, W.Visited(visits));
    assert visits[i] in visits;
    var w1 := W.VisitAll(w0, visits);
    RoundTripReads(w0, visits, p);
    RetainKeepsLog(w1, drops);
    var j :| |w.log| <= j < |w1.log| && w1.log[j].path == p;
    assert W.UpdateWatches(w, visits, drops).log[j].path == p;
  }

  lemma {:induction false} RetainKeepsLog(w: W.State, drops: seq<W.Drop>)
    ensures W.RetainAll(w, drops).log == w.log
  {
    if drops != [] {
      RetainKeepsLog(w, drops[..|drops| - 1]);
    }
  }

  lemma SettledShows(w: W.State, p: Path)
    requires WR.Settled(w) && p in w.entries
    ensures p in Consumer(w.out)
  {
    assert Consumer(w.out) - (set q | q in NO_CHANGES.removes) == Consumer(w.out);
  }

  /** Announced dependencies reach the watcher, in every run: whatever both parties do in
      between, in the turn in which the watcher takes the announcement it reads each of
      them, shows it, and watches it if it did before or its watch command succeeds. */
  lemma AnnouncedIsRead(hasWatcher: bool, steps: seq<Step>, s: Sys, step: Step, deps: seq<Path>,
                        between: seq<Step>, visits: seq<W.Visit>, drops: seq<W.Drop>, p: Path) returns (i: nat)
    requires Reached(hasWatcher, steps, s) && Enabled(s, step) && Announces(s, step, deps) && p in deps
    requires Possible(Next(s, step), between) && After(Next(s, step), between).taken == |s.c.depTx|
    requires Enabled(After(Next(s, step), between), Take(visits, drops))
    ensures i < |visits| && visits[i].path == p
    ensures var w := After(Next(s, step), between).w;
      var w' := Next(After(Next(s, step), between), Take(visits, drops)).w;
      && p in w'.entries && w'.entries[p].seen && p in Consumer(w'.out)
      && (exists j :: |w.log| <= j < |w'.log| && w'.log[j].path == p)
      && (w'.entries[p].watching <==>
            WC.Watches(w, p) || (w.hasWatcher && visits[i].watchable && visits[i].watchOk))
  {
    hide ChannelsOk, ProjectsOk, EstimateOk, LineOk, DirtyOk, WR.Settled, Invalidated, Received, Delivered, Announces;
    var s1 := Next(s, step);
    var s2 := After(s1, between);
    ReachedInv(hasWatcher, steps, s);
    NextKeeps(s, step);
    RunKeeps(s1, between);
    AnnouncedOnce(s, step, deps);
    MessagesStay(s1, between);
    assert s2.c.depTx[..|s1.c.depTx|][|s.c.depTx|] == SyncDependency(deps);
    hide Reached, W.Step;
    i := VisitedAll(visits, deps, p);
    TurnReads(s2.w, visits, drops, i);
  }

  // ------------------------------------------------------------------ dedicates

  ghost predicate DistinctIds(dedicates: seq<Project>) {
    forall i, j :: 0 <= i < j < |dedicates| ==> dedicates[i].id != dedicates[j].id
  }

  /** The projects with other ids. */
  function Without(dedicates: seq<Project>, id: string): seq<Project> {
    if dedicates == [] then []
    else (if dedicates[0].id == id then [] else [dedicates[0]]) + Without(dedicates[1..], id)
  }

  lemma {:induction false} WithoutNone(dedicates: seq<Project>, id: string)
    requires forall i :: 0 <= i < |dedicates| ==> dedicates[i].id != id
    ensures Without(dedicates, id) == dedicates
  {
    if dedicates != [] {
      WithoutNone(dedicates[1..], id);
      assert dedicates == [dedicates[0]] + dedicates[1..];
    }
  }

  lemma {:induction false} WithoutFirst(dedicates: seq<Project>, id: string)
    requires DistinctIds(dedicates)
    ensures var i := Find(dedicates, id);
      Without(dedicates, id) == if i == |dedicates| then dedicates else dedicates[..i] + dedicates[i + 1..]
  {
    if dedicates != [] {
      var i := Find(dedicates, id);
      if dedicates[0].id == id {
        WithoutNone(dedicates[1..], id);
      } else {
        WithoutFirst(dedicates[1..], id);
        assert dedicates == [dedicates[0]] + dedicates[1..];
        assert i < |dedicates| ==> dedicates[..i] == [dedicates[0]] + dedicates[1..][..i - 1];
      }
    }
  }

  lemma {:induction false} WithoutIds(dedicates: seq<Project>, id: string)
    requires DistinctIds(dedicates)
    ensures DistinctIds(Without(dedicates, id))
    ensures forall proj :: proj in Without(dedicates, id) <==> proj in dedicates && proj.id != id
  {
    if dedicates != [] {
      var rest := Without(dedicates[1..], id);
      WithoutIds(dedicates[1..], id);
      assert dedicates == [dedicates[0]] + dedicates[1..];
      forall j | 0 <= j < |rest| ensures rest[j].id != dedicates[0].id {
        assert rest[j] in dedicates[1..];
      }
    }
  }

  function Ids(dedicates: seq<Project>): seq<string> {
    seq(|dedicates|, i requires 0 <= i < |dedicates| => dedicates[i].id)
  }

  lemma SameIds(a: seq<Project>, b: seq<Project>)
    requires Ids(a) == Ids(b) && DistinctIds(a)
    ensures DistinctIds(b)
  {
    assert |a| == |b|;
    forall i | 0 <= i < |a| ensures a[i].id == b[i].id {
      assert Ids(a)[i] == Ids(b)[i];
    }
  }

  lemma IdsStay(s: Sys, step: Step)
    requires Enabled(s, step) && !step.Settle? && !step.Restart? && !step.Clear?
    ensures Ids(Next(s, step).c.dedicates) == Ids(s.c.dedicates)
  {
    hide W.Step, W.Enabled, ApplyMemory, Invalidated, NextEstimate;
  }

  lemma SettledIs(c: State, id: string, deps: seq<Path>)
    requires DistinctIds(c.dedicates)
    ensures OnRemove(c, id, deps).dedicates == Without(c.dedicates, id)
    ensures OnRemove(c, id, deps).primary == c.primary
    ensures DistinctIds(Without(c.dedicates, id))
    ensures forall proj :: proj in Without(c.dedicates, id) ==> proj.id != id
  {
    hide DistinctIds, Without;
    WithoutFirst(c.dedicates, id);
    WithoutIds(c.dedicates, id);
  }

  lemma AppendedIds(dedicates: seq<Project>, proj: Project)
    requires DistinctIds(dedicates) && forall other :: other in dedicates ==> other.id != proj.id
    ensures DistinctIds(dedicates + [proj])
  {
  }

  /** What comes and goes by id: a settled dedicate is dropped and no other one, in their
      order; a restarted one is the primary's fork in place of the old one. */
  lemma ById(s: Sys, step: Step)
    requires DistinctIds(s.c.dedicates) && Enabled(s, step)
    ensures DistinctIds(Next(s, step).c.dedicates)
    ensures step.Settle? ==> Next(s, step).c.dedicates == Without(s.c.dedicates, step.id)
    ensures step.Restart? ==>
      Next(s, step).c.dedicates == Without(s.c.dedicates, step.id) + [s.c.primary.(id := step.id)]
    ensures step.Clear? ==> Next(s, step).c.dedicates == []
  {
    hide Without, Find, W.Step, W.Enabled, Received, Delivered;
    match step
    case Settle(id, deps) => SettledIs(s.c, id, deps);
    case Restart(id, deps) =>
      SettledIs(s.c, id, deps);
      AppendedIds(Without(s.c.dedicates, id), s.c.primary.(id := id));
    case Clear => assert DistinctIds([]);
    case _ =>
      hide DistinctIds;
      IdsStay(s, step);
      SameIds(s.c.dedicates, Next(s, step).c.dedicates);
  }

  lemma {:induction false} DistinctRun(s: Sys, steps: seq<Step>)
    requires Possible(s, steps) && DistinctIds(s.c.dedicates)
    ensures DistinctIds(After(s, steps).c.dedicates)
  {
    hide DistinctIds, Next, Enabled;
    if steps != [] {
      DistinctRun(s, steps[..|steps| - 1]);
      ById(After(s, steps[..|steps| - 1]), steps[|steps| - 1]);
    }
  }

  /** In every run no two dedicates have the same id: a settled id is gone for good until it
      is started again, all others stay as they are, and a restarted one reads what the
      primary reads. */
  lemma DedicatesById(hasWatcher: bool, steps: seq<Step>, s: Sys, id: string, deps: seq<Path>)
    requires Reached(hasWatcher, steps, s)
    ensures DistinctIds(s.c.dedicates)
    ensures Next(s, Settle(id, deps)).c.dedicates == Without(s.c.dedicates, id)
    ensures Next(s, Restart(id, deps)).c.dedicates == Without(s.c.dedicates, id) + [s.c.primary.(id := id)]
    ensures forall proj :: proj in Without(s.c.dedicates, id) <==> proj in s.c.dedicates && proj.id != id
  {
    DistinctRun(Composition.Init(hasWatcher), steps);
    ById(s, Settle(id, deps));
    ById(s, Restart(id, deps));
    WithoutIds(s.c.dedicates, id);
  }

  // -------------------------------------------------------------- what is read

  /** In every run a project reads at a path the editor buffer that the applied events call
      for; only where there is none, what the watcher's delivered changesets show. */
  lemma BufferComesFirst(hasWatcher: bool, steps: seq<Step>, s: Sys, proj: Project, p: Path)
    requires Reached(hasWatcher, steps, s) && IsProject(s, proj)
    ensures s.delivered <= |s.w.out|
    ensures var buffer, shown := At(Buffers(AppliedEvents(s.c.applied)), p), Consumer(s.w.out[..s.delivered]);
      && (buffer.Some? ==> Effective(proj, p) == buffer)
      && (buffer.None? && p in shown ==> Effective(proj, p) == Some(shown[p].snapshot))
      && (buffer.None? && p !in shown ==> Effective(proj, p) == None)
  {
    ExactlyOnce(hasWatcher, steps, s);
  }

  /** Exactly when a received event is applied on the spot: the mark is clean, everything it
      removes it also inserts, and a new start keeps every buffer there is. Otherwise it is
      sent to the watcher. */
  lemma AppliedAtOnceIff(hasWatcher: bool, steps: seq<Step>, s: Sys, event: MemoryEvent, invalidates: seq<Path>)
    requires Reached(hasWatcher, steps, s) && Enabled(s, Receive(event, invalidates))
    ensures var c, serial := Next(s, Receive(event, invalidates)).c, |s.c.received|;
      var inserted := set i | 0 <= i < |event.changes.inserts| :: event.changes.inserts[i].path;
      if s.c.dirty == 0 && (forall p :: p in event.changes.removes ==> p in inserted)
         && (event.Sync? ==> Buffers(s.c.received).Keys <= inserted)
      then c.applied == s.c.applied + [Applied(serial, event, false)] && c.depTx == s.c.depTx
      else
        && c.applied == s.c.applied
        && c.depTx == s.c.depTx + [UpstreamUpdate(UpstreamEvent(invalidates, TaggedMemoryEvent(1, event, serial)))]
  {
    ReachedInv(hasWatcher, steps, s);
    DirectIff(s.c, event);
  }

  lemma DirectIff(c: State, event: MemoryEvent)
    ensures var inserted := set i | 0 <= i < |event.changes.inserts| :: event.changes.inserts[i].path;
      Direct(c, event) <==>
        c.dirty == 0 && (forall p :: p in event.changes.removes ==> p in inserted)
        && (event.Sync? ==> c.estimated <= inserted)
  {
    var gone := Invalidated(c.estimated, event);
    if gone == {} {
      forall p | p in event.changes.removes ensures p in InsertedKeys(event.changes) {
        assert p !in gone;
      }
      forall p | event.Sync? && p in c.estimated ensures p in InsertedKeys(event.changes) {
        assert p !in gone;
      }
    }
  }
}
