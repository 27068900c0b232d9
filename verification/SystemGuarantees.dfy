/** The guarantees of the composed system, for every run from start-up. */
module SystemGuarantees {
  import opened Options
  import opened Vfs
  import opened CompilerModel
  import opened Composition
  import W = WatchModel
  import WI = WatchInvariant
  import WR = WatchRuns
  import WG = WatchGuarantees

  ghost predicate Reached(hasWatcher: bool, steps: seq<Step>, s: Sys) {
    Possible(Composition.Init(hasWatcher), steps) && s == After(Composition.Init(hasWatcher), steps)
  }

  lemma ReachedInv(hasWatcher: bool, steps: seq<Step>, s: Sys)
    requires Reached(hasWatcher, steps, s)
    ensures Inv(s)
  {
    InitInv(hasWatcher);
    RunKeeps(Composition.Init(hasWatcher), steps);
  }

  predicate IsProject(s: Sys, proj: Project) {
    proj == s.c.primary || proj in s.c.dedicates
  }

  /** Exactly once: the received memory events are the disjoint union of those applied and
      those under way; every project, whenever it was forked, holds what the applied ones
      make of the editor buffers and what the delivered changesets make of the disk. */
  lemma ExactlyOnce(hasWatcher: bool, steps: seq<Step>, s: Sys)
    requires Reached(hasWatcher, steps, s)
    ensures multiset(SerialsOf(s.c.applied)) + multiset(Tags(InFlight(s)))
      == multiset(Range(|s.c.received|))
    ensures AppliedOk(s.c.applied, s.c.received)
    ensures s.delivered <= |s.w.out|
    ensures forall proj :: IsProject(s, proj) ==>
      && proj.shadow == Buffers(AppliedEvents(s.c.applied))
      && proj.disk == Consumer(s.w.out[..s.delivered])
  {
    ReachedInv(hasWatcher, steps, s);
    assert Line(s) == SerialsOf(s.c.applied) + Tags(InFlight(s));
  }

  /** Delayed events are applied in the order of receipt among themselves. */
  lemma DelayedInOrder(hasWatcher: bool, steps: seq<Step>, s: Sys)
    requires Reached(hasWatcher, steps, s)
    ensures Increasing(RoundTrips(s.c.applied) + Tags(InFlight(s)))
  {
    hide Reached;
    ReachedInv(hasWatcher, steps, s);
    TagsInOrder(s);
  }

  lemma TagsInOrder(s: Sys)
    requires LineOk(s)
    ensures Increasing(RoundTrips(s.c.applied) + Tags(InFlight(s)))
  {
    hide LineShape, AppliedOk, Line, RoundTrips, Asked, Back, Increasing;
    var tags := Tags(Asked(s.c.depTx));
    assert Tags(InFlight(s)) == tags[Back(s)..];
    assert tags[..Back(s)] + tags[Back(s)..] == tags;
  }

  /** The overall order is the order of receipt exactly when no event was applied directly
      while another one was under way. */
  lemma OrderIff(hasWatcher: bool, steps: seq<Step>, s: Sys)
    requires Reached(hasWatcher, steps, s)
    ensures Line(s) == Range(|s.c.received|) <==> !s.bypassed
  {
    ReachedInv(hasWatcher, steps, s);
    if s.bypassed {
      var i, j :| 0 <= i < j < |Line(s)| && Line(s)[i] > Line(s)[j];
      assert Range(|s.c.received|) != Line(s);
    }
  }

  /** No prefix of the run has two delayed events under way. */
  ghost predicate NeverTwo(s: Sys, steps: seq<Step>)
    requires Possible(s, steps)
  {
    && |InFlight(After(s, steps))| <= 1
    && (steps != [] ==> NeverTwo(s, steps[..|steps| - 1]))
  }

  /** While something is under way the compiler knows. */
  ghost predicate Aware(s: Sys) {
    !s.bypassed && (InFlight(s) != [] ==> s.c.dirty == 1)
  }

  lemma AwareReceive(s: Sys, event: MemoryEvent, invalidates: seq<Path>)
    requires Aware(s) && DirtyOk(s) && LineOk(s)
    ensures Aware(Received(s, event, invalidates))
  {
    var s' := Received(s, event, invalidates);
    if Direct(s.c, event) {
      DirectShape(s, s', event);
    }
  }

  lemma AwareDeliver(s: Sys)
    requires Aware(s) && ChannelsOk(s) && s.delivered < |s.w.out|
    requires |InFlight(s)| <= 1
    ensures Aware(Delivered(s))
  {
    DeliverSteps(s);
    InFlightOk(s);
  }

  /** A step that neither receives nor delivers. */
  lemma AwareOther(s: Sys, s': Sys)
    requires Aware(s) && s'.bypassed == s.bypassed && s'.c.dirty == s.c.dirty
    requires Asked(s'.c.depTx) == Asked(s.c.depTx) && s'.delivered == s.delivered <= |s.w.out|
    requires OutGrows(s, s'.w)
    ensures Aware(s')
  {
    assert s'.w.out[..s.delivered] == s.w.out[..s.delivered];
  }

  lemma OutGrowsBy(s: Sys, step: Step)
    requires Enabled(s, step)
    ensures OutGrows(s, Next(s, step).w)
  {
    hide W.Step;
    match step {
      case Take(visits, drops) => WatcherSends(s.w, Reaction(s.c.depTx[s.taken], visits, drops));
      case Watch(ev) => WatcherSends(s.w, ev);
      case _ =>
    }
  }

  lemma AwareStep(s: Sys, step: Step)
    requires Inv(s) && Enabled(s, step) && Aware(s) && |InFlight(s)| <= 1
    ensures Aware(Next(s, step))
  {
    hide W.Step, WR.Settled;
    match step
    case Receive(event, invalidates) => AwareReceive(s, event, invalidates);
    case Deliver => AwareDeliver(s);
    case Settle(id, deps) =>
      AskedPush(s.c.depTx, SyncDependency(deps));
      AwareOther(s, Next(s, step));
    case Restart(id, deps) =>
      AskedPush(s.c.depTx, SyncDependency(deps));
      AwareOther(s, Next(s, step));
    case Compiled(deps) =>
      AskedPush(s.c.depTx, SyncDependency(deps));
      AwareOther(s, Next(s, step));
    case _ =>
      OutGrowsBy(s, step);
      AwareOther(s, Next(s, step));
  }

  lemma {:induction false} AwareRun(s: Sys, steps: seq<Step>)
    requires Inv(s) && Aware(s) && Possible(s, steps) && NeverTwo(s, steps)
    ensures Aware(After(s, steps))
  {
    if steps != [] {
      var n := |steps| - 1;
      AwareRun(s, steps[..n]);
      RunKeeps(s, steps[..n]);
      AwareStep(After(s, steps[..n]), steps[n]);
    }
  }

  /** In a run that never has two delayed events under way, every event is applied in the
      order of receipt. */
  lemma NeverTwoInOrder(hasWatcher: bool, steps: seq<Step>, s: Sys)
    requires Reached(hasWatcher, steps, s) && NeverTwo(Composition.Init(hasWatcher), steps)
    ensures Line(s) == Range(|s.c.received|)
  {
    InitInv(hasWatcher);
    AwareRun(Composition.Init(hasWatcher), steps);
    OrderIff(hasWatcher, steps, s);
  }

  // ---------------------------------------------------------------- the buffers

  function At(buffers: map<Path, Snapshot>, p: Path): Option<Snapshot> {
    if p in buffers then Some(buffers[p]) else None
  }

  predicate Mentions(event: MemoryEvent, p: Path) {
    event.Sync? || p in event.changes.removes || p in InsertedKeys(event.changes)
  }

  /** The last event that mentions the path. */
  function LastMention(events: seq<MemoryEvent>, p: Path): Option<MemoryEvent> {
    if events == [] then None
    else if Mentions(events[|events| - 1], p) then Some(events[|events| - 1])
    else LastMention(events[..|events| - 1], p)
  }

  /** What an event, taken alone, says of the path; no event says that there is no buffer. */
  function Says(event: Option<MemoryEvent>, p: Path): Option<Snapshot> {
    if event.None? then None else At(ApplyMemory(map[], event.value), p)
  }

  lemma {:induction false} InsertAllSame(m: map<Path, Snapshot>, m': map<Path, Snapshot>,
                                         inserts: seq<Insert<Snapshot>>, p: Path)
    requires At(m, p) == At(m', p) || exists i :: 0 <= i < |inserts| && inserts[i].path == p
    ensures At(InsertAll(m, inserts), p) == At(InsertAll(m', inserts), p)
  {
    if inserts != [] {
      var n := |inserts| - 1;
      if inserts[n].path != p {
        assert forall i :: 0 <= i < |inserts| && inserts[i].path == p ==> inserts[..n][i].path == p;
        InsertAllSame(m, m', inserts[..n], p);
      }
    }
  }

  /** An event that mentions the path decides its buffer alone, another one leaves it. */
  lemma EventAt(m: map<Path, Snapshot>, event: MemoryEvent, p: Path)
    ensures At(ApplyMemory(m, event), p) == if Mentions(event, p) then Says(Some(event), p) else At(m, p)
  {
    var c := event.changes;
    var m0 := if event.Sync? then map[] else m;
    var removed := set q | q in c.removes;
    if Mentions(event, p) {
      if p in InsertedKeys(c) {
        var i :| 0 <= i < |c.inserts| && c.inserts[i].path == p;
      }
      InsertAllSame(m0 - removed, map[] - removed, c.inserts, p);
    } else {
      InsertAllAt(m - removed, c.inserts, p);
      forall x | x in c.inserts ensures x.path != p {
        var i :| 0 <= i < |c.inserts| && c.inserts[i] == x;
        assert c.inserts[i].path in InsertedKeys(c);
      }
    }
  }

  /** The buffer of a path is what the last event that mentions it says. */
  lemma {:induction false} BuffersAt(events: seq<MemoryEvent>, p: Path)
    ensures At(Buffers(events), p) == Says(LastMention(events, p), p)
  {
    if events != [] {
      var n := |events| - 1;
      BuffersAt(events[..n], p);
      EventAt(Buffers(events[..n]), events[n], p);
    }
  }

  /** Path by path, in every run: a project holds the buffer that the editor's events call
      for iff the last applied event and the last received event that mention the path say
      the same of it; in particular if they are the same event. */
  lemma BufferIsRightIff(hasWatcher: bool, steps: seq<Step>, s: Sys, proj: Project, p: Path)
    requires Reached(hasWatcher, steps, s) && IsProject(s, proj)
    ensures var applied := AppliedEvents(s.c.applied);
      && (At(proj.shadow, p) == At(Buffers(s.c.received), p) <==> Agree(applied, s.c.received, p))
      && (LastMention(applied, p) == LastMention(s.c.received, p) ==> Agree(applied, s.c.received, p))
  {
    ExactlyOnce(hasWatcher, steps, s);
    BuffersAt(AppliedEvents(s.c.applied), p);
    BuffersAt(s.c.received, p);
  }

  /** The last events of both lists that mention the path say the same of it. */
  predicate Agree(a: seq<MemoryEvent>, b: seq<MemoryEvent>, p: Path) {
    Says(LastMention(a, p), p) == Says(LastMention(b, p), p)
  }

  lemma BuffersSameIff(a: seq<MemoryEvent>, b: seq<MemoryEvent>)
    ensures Buffers(a) == Buffers(b) <==> forall p :: Agree(a, b, p)
  {
    forall p ensures Agree(a, b, p) <==> At(Buffers(a), p) == At(Buffers(b), p) {
      BuffersAt(a, p);
      BuffersAt(b, p);
    }
    hide Agree;
    if forall p :: Agree(a, b, p) {
      forall p ensures (p in Buffers(a) <==> p in Buffers(b)) && (p in Buffers(a) ==> Buffers(a)[p] == Buffers(b)[p]) {
        assert Agree(a, b, p);
      }
    }
  }

  /** Draining the channels returns the dirty mark to 0 and leaves nothing unapplied. The
      projects then hold the buffers the editor sent iff, for every path, the last event
      that mentions it in the order of application says what the last one in the order of
      receipt says; so they do if no event was bypassed. */
  lemma DrainedIsClean(hasWatcher: bool, steps: seq<Step>, s: Sys)
    requires Reached(hasWatcher, steps, s)
    requires s.taken == |s.c.depTx| && s.delivered == |s.w.out|
    ensures s.c.dirty == 0 && InFlight(s) == []
    ensures multiset(SerialsOf(s.c.applied)) == multiset(Range(|s.c.received|))
    ensures !s.bypassed ==> s.c.primary.shadow == Buffers(s.c.received)
    ensures s.c.primary.shadow == Buffers(s.c.received) <==>
      forall p :: Agree(AppliedEvents(s.c.applied), s.c.received, p)
  {
    DrainedIsDone(hasWatcher, steps, s);
    ExactlyOnce(hasWatcher, steps, s);
    assert IsProject(s, s.c.primary);
    BuffersSameIff(AppliedEvents(s.c.applied), s.c.received);
  }

  lemma DrainedIsDone(hasWatcher: bool, steps: seq<Step>, s: Sys)
    requires Reached(hasWatcher, steps, s)
    requires s.taken == |s.c.depTx| && s.delivered == |s.w.out|
    ensures s.c.dirty == 0 && InFlight(s) == []
    ensures multiset(SerialsOf(s.c.applied)) == multiset(Range(|s.c.received|))
    ensures !s.bypassed ==> AppliedEvents(s.c.applied) == s.c.received
  {
    ReachedInv(hasWatcher, steps, s);
    assert s.c.depTx[..s.taken] == s.c.depTx && s.w.out[..s.delivered] == s.w.out;
    assert InFlight(s) == [];
    if !s.bypassed {
      AllInOrder(s);
    }
  }

  lemma AllInOrder(s: Sys)
    requires InFlight(s) == [] && AppliedOk(s.c.applied, s.c.received)
    requires LineShape(Line(s), |s.c.received|, false)
    ensures AppliedEvents(s.c.applied) == s.c.received
  {
    var serials := SerialsOf(s.c.applied);
    assert Line(s) == serials == Range(|s.c.received|);
    forall i | 0 <= i < |s.c.applied| ensures s.c.applied[i].event == s.c.received[i] {
      assert serials[i] == s.c.applied[i].serial == i;
    }
    assert |serials| == |s.c.received|;
  }

  /** The shadow estimate is the domain of the buffers after all received events; the paths
      an event asks the watcher to read cover every path it uncovers and none it leaves
      covered; a direct event uncovers nothing. */
  lemma EstimateIsExact(hasWatcher: bool, steps: seq<Step>, s: Sys, event: MemoryEvent)
    requires Reached(hasWatcher, steps, s)
    ensures s.c.estimated == Buffers(s.c.received).Keys
    ensures var before, after := Buffers(s.c.received).Keys, Buffers(s.c.received + [event]).Keys;
      && before - after <= Invalidated(s.c.estimated, event)
      && Invalidated(s.c.estimated, event) !! after
      && (Direct(s.c, event) ==> before <= after)
  {
    ReachedInv(hasWatcher, steps, s);
    BuffersPush(s.c.received, event);
    ApplyKeys(if event.Sync? then map[] else Buffers(s.c.received), event.changes);
    var before, after := Buffers(s.c.received).Keys, Buffers(s.c.received + [event]).Keys;
    forall p | Direct(s.c, event) && p in before ensures p in after {
      assert p !in Invalidated(s.c.estimated, event);
    }
  }

  // --------------------------------------------------------------- buffer close

  /** What the watcher sent stays sent. */
  lemma {:induction false} OutIsKept(s: Sys, steps: seq<Step>)
    requires Possible(s, steps)
    ensures var s' := After(s, steps);
      |s.w.out| <= |s'.w.out| && s'.w.out[..|s.w.out|] == s.w.out
  {
    if steps != [] {
      var n := |steps| - 1;
      OutIsKept(s, steps[..n]);
      var s1 := After(s, steps[..n]);
      OutGrowsBy(s1, steps[n]);
      var out1, out2 := s1.w.out, After(s, steps).w.out;
      assert out2[..|s.w.out|] == out2[..|out1|][..|s.w.out|];
    }
  }

  /** The watcher takes a delayed event that invalidates p, and its latest read of p finds
      content: then the consumer's view of p is that content once the answer arrives. */
  lemma AnswerShowsContent(s: Sys, visits: seq<W.Visit>, drops: seq<W.Drop>, p: Path, i: nat)
    requires Inv(s) && Enabled(s, Take(visits, drops))
    requires s.c.depTx[s.taken].UpstreamUpdate? && p in s.c.depTx[s.taken].event.invalidates
    requires var w := Next(s, Take(visits, drops)).w;
      WI.LatestRead(w, p, i) && NonEmpty(w.log[i].snapshot)
    ensures var w := Next(s, Take(visits, drops)).w;
      p in Consumer(w.out) && Consumer(w.out)[p].snapshot == w.log[i].snapshot
  {
    var event := s.c.depTx[s.taken].event;
    var ev := W.OnUpstream(event, visits, drops);
    var w0 := W.Ticked(s.w);
    WR.TickSettles(s.w);
    WR.UpdateWatchesKeeps(w0, visits, drops);
    var k :| 0 <= k < |event.invalidates| && event.invalidates[k] == p;
    assert W.VisitPaths(visits)[k] == visits[k].path == p;
    assert visits[k] in visits;
    assert p in W.Visited(visits);
    WR.StepKeeps(s.w, ev);
    WG.SettledContent(W.Step(s.w, ev), p, i);
  }

  /** Every invalidated path is read in the round trip. */
  lemma RoundTripReads(w: W.State, visits: seq<W.Visit>, p: Path)
    requires p in W.Visited(visits)
    requires forall q :: q in w.entries ==> !w.entries[q].seen
    ensures var w' := W.VisitAll(w, visits);
      exists i :: |w.log| <= i < |w'.log| && w'.log[i].path == p
  {
    VisitedIsRead(w, visits, p);
  }

  lemma {:induction false} VisitedIsRead(w: W.State, visits: seq<W.Visit>, p: Path)
    requires forall q :: q in w.entries ==> !w.entries[q].seen
    ensures var w' := W.VisitAll(w, visits);
      && |w.log| <= |w'.log|
      && (p in w'.entries && w'.entries[p].seen ==>
            exists i :: |w.log| <= i < |w'.log| && w'.log[i].path == p)
      && (p in W.Visited(visits) ==> p in w'.entries && w'.entries[p].seen)
  {
    if visits != [] {
      var n := |visits| - 1;
      VisitedIsRead(w, visits[..n], p);
      var w1 := W.VisitAll(w, visits[..n]);
      var w2 := W.VisitAll(w, visits);
      WI.VisitOneShape(w1, visits[n]);
      assert visits == visits[..n] + [visits[n]];
      if p in w1.entries && w1.entries[p].seen {
        var i :| |w.log| <= i < |w1.log| && w1.log[i].path == p;
        assert w2.log[i].path == p;
      } else if visits[n].path == p {
        assert w2.log[|w1.log|] == W.Probe(p, visits[n].snapshot);
      }
    }
  }

  /** Delivering an answer that invalidates p uncovers p in every project. */
  lemma DeliveryUncovers(s: Sys, p: Path)
    requires ChannelsOk(s) && ProjectsOk(s) && s.delivered < |s.w.out|
    requires s.w.out[s.delivered].FsUpstreamUpdate?
    requires p in s.w.out[s.delivered].upstream.invalidates
    requires p in Consumer(s.w.out[..s.delivered + 1])
    ensures forall proj :: IsProject(Delivered(s), proj) ==>
      Effective(proj, p) == Some(Consumer(s.w.out[..s.delivered + 1])[p].snapshot)
  {
    var s' := Delivered(s);
    var e := s.w.out[s.delivered];
    assert Uncovers(e.upstream);
    var event := e.upstream.tagged.event;
    ApplyKeys(if event.Sync? then map[] else s.c.primary.shadow, event.changes);
    assert p !in s'.c.primary.shadow;
    DeliverProjects(s);
  }

  /** The answer at the end of what the watcher sent, delivered later. */
  lemma LaterDelivery(s: Sys, between: seq<Step>, p: Path)
    requires Inv(s) && Possible(s, between)
    requires s.w.out != [] && p in Consumer(s.w.out)
    requires var e := s.w.out[|s.w.out| - 1];
      e.FsUpstreamUpdate? && p in e.upstream.invalidates
    requires After(s, between).delivered == |s.w.out| - 1
    ensures var s3 := After(s, between);
      && Enabled(s3, Deliver)
      && forall proj :: IsProject(Delivered(s3), proj) ==>
           Effective(proj, p) == Some(Consumer(s.w.out)[p].snapshot)
  {
    var s3 := After(s, between);
    RunKeeps(s, between);
    OutIsKept(s, between);
    var n := |s.w.out| - 1;
    assert s3.w.out[..n + 1] == s.w.out;
    assert s3.w.out[n] == s.w.out[n];
    DeliveryUncovers(s3, p);
  }

  /** Buffer close, end to end: a delayed memory event invalidates p; in the round trip the
      watcher's read of p finds content. Whatever both parties do in between, right after
      the answer is delivered every project reads exactly that content at p. */
  lemma BufferClose(hasWatcher: bool, steps: seq<Step>, s: Sys,
                    visits: seq<W.Visit>, drops: seq<W.Drop>, between: seq<Step>,
                    p: Path, i: nat)
    requires Reached(hasWatcher, steps, s) && Enabled(s, Take(visits, drops))
    requires s.c.depTx[s.taken].UpstreamUpdate? && p in s.c.depTx[s.taken].event.invalidates
    requires var w := Next(s, Take(visits, drops)).w;
      WI.LatestRead(w, p, i) && NonEmpty(w.log[i].snapshot)
    requires Possible(Next(s, Take(visits, drops)), between)
    requires After(Next(s, Take(visits, drops)), between).delivered == |s.w.out|
    ensures var s3 := After(Next(s, Take(visits, drops)), between);
      && Enabled(s3, Deliver)
      && forall proj :: IsProject(Next(s3, Deliver), proj) ==>
           Effective(proj, p) == Some(Next(s, Take(visits, drops)).w.log[i].snapshot)
  {
    ReachedInv(hasWatcher, steps, s);
    AnswerShowsContent(s, visits, drops, p, i);
    WatcherSends(s.w, Reaction(s.c.depTx[s.taken], visits, drops));
    NextKeeps(s, Take(visits, drops));
    LaterDelivery(Next(s, Take(visits, drops)), between, p);
  }
}
