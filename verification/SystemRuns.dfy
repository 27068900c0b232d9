/** Runs of the composed system that meet the conditions of its guarantees, and runs that
    show what it does not guarantee. */
module SystemRuns {
  import opened Options
  import opened Vfs
  import opened CompilerModel
  import opened Composition
  import opened SystemGuarantees
  import W = WatchModel
  import WI = WatchInvariant

  lemma OneMore(hasWatcher: bool, steps: seq<Step>, s: Sys, step: Step)
    requires Reached(hasWatcher, steps, s) && Enabled(s, step)
    ensures Reached(hasWatcher, steps + [step], Next(s, step))
  {
    assert (steps + [step])[..|steps|] == steps;
  }

  /** The watcher's turn for a message that asks for the only path it may know. */
  lemma TakeFirst(w: W.State, p: Path, found: Snapshot)
    requires !w.hasWatcher && w.entries.Keys <= {p}
    ensures var visits, drops := [W.Visit(p, false, false, found)], [W.Drop(p, false)];
      && W.VisitPaths(visits) == [p]
      && (forall event: UpstreamEvent :: event.invalidates == [p] ==>
            W.Enabled(w, W.OnUpstream(event, visits, drops)))
  {
    var v, visits := W.Visit(p, false, false, found), [W.Visit(p, false, false, found)];
    var w0 := W.Begin(W.Ticked(w), W.Visited(visits));
    assert visits[..0] == [] && W.VisitAll(w0, visits) == W.VisitOne(W.VisitAll(w0, visits[..0]), v);
    assert W.VisitAll(w0, visits).entries.Keys == {p};
    var drops := [W.Drop(p, false)];
    assert drops[0].path == p;
  }

  /** What the watcher reads and keeps in its turn for a path it has not seen. */
  lemma TakeReads(w: W.State, event: UpstreamEvent, p: Path, found: Snapshot)
    requires w == W.Init(false)
    ensures var w' := W.Step(w, W.OnUpstream(event, [W.Visit(p, false, false, found)], [W.Drop(p, false)]));
      w'.log == [W.Probe(p, found)] && w'.entries.Keys == {p} && !w'.hasWatcher
  {
    var visits, drops := [W.Visit(p, false, false, found)], [W.Drop(p, false)];
    var w0 := W.Begin(W.Ticked(w), W.Visited(visits));
    assert visits[..0] == [] && drops[..0] == [];
    assert W.VisitAll(w0, visits) == W.VisitOne(W.VisitAll(w0, visits[..0]), visits[0]);
    var w1 := W.VisitAll(w0, visits);
    assert W.RetainAll(w1, drops) == W.RetainOne(W.RetainAll(w1, drops[..0]), drops[0]);
  }

  /** The state after two events that each remove p, which nothing covers. */
  lemma TwoAsked(p: Path, remove: MemoryEvent) returns (steps: seq<Step>, s: Sys)
    requires remove == Update(ChangeSet([p], []))
    ensures Reached(false, steps, s) && s.w == W.Init(false) && s.taken == 0 && s.delivered == 0 && !s.bypassed
    ensures s.c.dirty == 1 && s.c.received == [remove, remove] && s.c.applied == []
    ensures s.c.depTx == [UpstreamUpdate(UpstreamEvent([p], TaggedMemoryEvent(1, remove, 0))),
                          UpstreamUpdate(UpstreamEvent([p], TaggedMemoryEvent(1, remove, 1)))]
  {
    var receive := Receive(remove, [p]);
    assert forall estimated :: Invalidated(estimated, remove) == {p} by {
      assert RemovedPaths(remove.changes) == {p} && InsertedKeys(remove.changes) == {};
    }
    var s0 := Composition.Init(false);
    var s1 := Next(s0, receive);
    OneMore(false, [], s0, receive);
    OneMore(false, [] + [receive], s1, receive);
    steps, s := [] + [receive] + [receive], Next(s1, receive);
    assert s.c.estimated == {};
  }

  /** The watcher takes a delayed event and answers it. */
  lemma TakeAnswers(s: Sys, visits: seq<W.Visit>, drops: seq<W.Drop>)
    requires Enabled(s, Take(visits, drops)) && s.c.depTx[s.taken].UpstreamUpdate?
    ensures var s', n := Next(s, Take(visits, drops)), |s.w.out|;
      && s'.c == s.c && s'.taken == s.taken + 1 && s'.delivered == s.delivered
      && s'.w == W.Step(s.w, W.OnUpstream(s.c.depTx[s.taken].event, visits, drops))
      && |s'.w.out| == n + 1 && s'.w.out[..n] == s.w.out
      && s'.w.out[n].FsUpstreamUpdate? && s'.w.out[n].upstream == s.c.depTx[s.taken].event
  {
    WatcherSends(s.w, Reaction(s.c.depTx[s.taken], visits, drops));
    hide W.Step, W.Enabled;
  }

  /** The compiler takes the answer and applies the event. */
  lemma AnswerApplied(s: Sys)
    requires s.delivered < |s.w.out| && s.w.out[s.delivered].FsUpstreamUpdate?
    ensures var s', t := Next(s, Deliver), s.w.out[s.delivered].upstream.tagged;
      && s'.w == s.w && s'.taken == s.taken && s'.delivered == s.delivered + 1
      && s'.c.received == s.c.received && s'.c.depTx == s.c.depTx
      && s'.c.dirty == (if t.logicalTick == s.c.dirty then 0 else s.c.dirty)
      && SerialsOf(s'.c.applied) == SerialsOf(s.c.applied) + [t.serial]
  {
  }

  /** The first of two delayed events returns: its return clears the dirty mark. */
  lemma FirstReturns(s: Sys, p: Path, found: Snapshot)
    requires s.w == W.Init(false) && s.taken == 0 && s.delivered == 0 && |s.c.depTx| == 2
    requires s.c.depTx[0].UpstreamUpdate? && s.c.depTx[1].UpstreamUpdate?
    requires s.c.depTx[0].event.invalidates == [p]
    requires s.c.depTx[0].event.tagged.logicalTick == s.c.dirty && s.c.applied == []
    ensures var take := Take([W.Visit(p, false, false, found)], [W.Drop(p, false)]);
      && Enabled(s, take) && Enabled(Next(s, take), Deliver)
      && var s' := Next(Next(s, take), Deliver);
      && s'.c.dirty == 0 && s'.c.received == s.c.received && s'.c.depTx == s.c.depTx
      && SerialsOf(s'.c.applied) == [s.c.depTx[0].event.tagged.serial]
      && InFlight(s') == [s.c.depTx[1].event.tagged]
      && s'.taken == 1 && s'.delivered == 1 == |s'.w.out| && !s'.w.hasWatcher && s'.w.entries.Keys == {p}
  {
    var visits, drops := [W.Visit(p, false, false, found)], [W.Drop(p, false)];
    TakeFirst(s.w, p, found);
    TakeReads(s.w, s.c.depTx[0].event, p, found);
    hide W.Step, W.Enabled, InFlight, SerialsOf;
    assert Enabled(s, Take(visits, drops));
    TakeAnswers(s, visits, drops);
    var s1 := Next(s, Take(visits, drops));
    hide Next;
    AnswerApplied(s1);
    NothingApplied();
    InFlightAfterOne(Next(s1, Deliver));
  }

  lemma NothingApplied()
    ensures SerialsOf([]) == []
  {
  }

  /** A run in which the order of receipt is broken: two delayed events are under way, the
      first return clears the dirty mark, and a third event overtakes the second. */
  lemma Overtaken(p: Path, q: Path, found: Snapshot) returns (steps: seq<Step>, s: Sys)
    ensures Reached(false, steps, s)
    ensures SerialsOf(s.c.applied) == [0, 2] && Tags(InFlight(s)) == [1] && s.bypassed
    ensures s.c.received == [Update(ChangeSet([p], [])), Update(ChangeSet([p], [])),
                             Update(ChangeSet([], [Insert(q, found)]))]
    ensures |s.c.depTx| == 2 && s.c.depTx[1].UpstreamUpdate? && s.c.depTx[1].event.invalidates == [p]
    ensures s.taken == 1 && s.delivered == 1 == |s.w.out| && !s.w.hasWatcher && s.w.entries.Keys == {p}
  {
    var remove, insert := Update(ChangeSet([p], [])), Update(ChangeSet([], [Insert(q, found)]));
    steps, s := TwoAsked(p, remove);
    var take := Take([W.Visit(p, false, false, found)], [W.Drop(p, false)]);
    FirstReturns(s, p, found);
    hide Reached, Next, Enabled, InFlight, SerialsOf;
    OneMore(false, steps, s, take);
    steps, s := steps + [take], Next(s, take);
    OneMore(false, steps, s, Deliver);
    steps, s := steps + [Deliver], Next(s, Deliver);
    ThirdPasses(s, insert);
    OneMore(false, steps, s, Receive(insert, []));
    steps, s := steps + [Receive(insert, [])], Next(s, Receive(insert, []));
  }

  /** The second of the two returns as well, and both channels are empty. */
  lemma SecondReturns(s: Sys, p: Path, found: Snapshot)
    requires s.taken == 1 && |s.c.depTx| == 2 && s.delivered == 1 == |s.w.out|
    requires s.c.depTx[1].UpstreamUpdate? && s.c.depTx[1].event.invalidates == [p]
    requires !s.w.hasWatcher && s.w.entries.Keys <= {p}
    ensures var take := Take([W.Visit(p, false, false, found)], [W.Drop(p, false)]);
      && Enabled(s, take) && Enabled(Next(s, take), Deliver)
      && var s' := Next(Next(s, take), Deliver);
      && s'.c.received == s.c.received && s'.taken == |s'.c.depTx| && s'.delivered == |s'.w.out|
      && SerialsOf(s'.c.applied) == SerialsOf(s.c.applied) + [s.c.depTx[1].event.tagged.serial]
  {
    var visits, drops := [W.Visit(p, false, false, found)], [W.Drop(p, false)];
    TakeFirst(s.w, p, found);
    hide W.Step, W.Enabled, SerialsOf;
    assert Enabled(s, Take(visits, drops));
    TakeAnswers(s, visits, drops);
    var s1 := Next(s, Take(visits, drops));
    hide Next;
    AnswerApplied(s1);
  }

  /** Twice removed and then reopened, the buffer of a file is lost: its insertion overtakes
      the second removal. With nothing left under way the projects have no buffer for p,
      while the estimate, and the editor, do. */
  lemma ReopenedBufferIsLost(p: Path, buffer: Snapshot) returns (steps: seq<Step>, s: Sys)
    ensures Reached(false, steps, s) && s.taken == |s.c.depTx| && s.delivered == |s.w.out|
    ensures p !in s.c.primary.shadow && p in s.c.estimated
    ensures At(Buffers(s.c.received), p) == Some(buffer)
  {
    hide Reached;
    steps, s := Overtaken(p, p, buffer);
    ReachedInv(false, steps, s);
    SecondIsUnderWay(s);
    SecondReturns(s, p, buffer);
    var take := Take([W.Visit(p, false, false, buffer)], [W.Drop(p, false)]);
    var s1 := Next(s, take);
    hide Next, Enabled, Inv;
    OneMore(false, steps, s, take);
    OneMore(false, steps + [take], s1, Deliver);
    steps, s := steps + [take] + [Deliver], Next(s1, Deliver);
    RemovedLast(steps, s, p, buffer);
  }

  /** Where the removals end up around the insertion, the buffer is gone. */
  lemma RemovedLast(steps: seq<Step>, s: Sys, p: Path, buffer: Snapshot)
    requires Reached(false, steps, s) && SerialsOf(s.c.applied) == [0, 2, 1]
    requires s.c.received == [Update(ChangeSet([p], [])), Update(ChangeSet([p], [])),
                              Update(ChangeSet([], [Insert(p, buffer)]))]
    ensures p !in s.c.primary.shadow && p in s.c.estimated
    ensures At(Buffers(s.c.received), p) == Some(buffer)
  {
    var remove, insert := Update(ChangeSet([p], [])), Update(ChangeSet([], [Insert(p, buffer)]));
    ExactlyOnce(false, steps, s);
    assert IsProject(s, s.c.primary);
    EstimateIsExact(false, steps, s, remove);
    hide Reached, Buffers, SerialsOf, AppliedEvents;
    LateRemoval(s.c.applied, s.c.received, remove, insert, p);
  }

  /** The removal applied last takes the buffer away, received last comes the insertion. */
  lemma LateRemoval(applied: seq<Applied>, received: seq<MemoryEvent>, remove: MemoryEvent, insert: MemoryEvent,
                    p: Path)
    requires AppliedOk(applied, received) && SerialsOf(applied) == [0, 2, 1]
    requires received == [remove, remove, insert] && remove == Update(ChangeSet([p], []))
    requires insert.Update? && insert.changes.removes == [] && |insert.changes.inserts| == 1
    requires insert.changes.inserts[0].path == p
    ensures p !in Buffers(AppliedEvents(applied))
    ensures At(Buffers(received), p) == Some(insert.changes.inserts[0].value)
  {
    var events := AppliedEvents(applied);
    assert |events| == |SerialsOf(applied)| == 3;
    assert SerialsOf(applied)[2] == applied[2].serial && events[2] == remove;
    BuffersPush(events[..2], events[2]);
    assert events == events[..2] + [events[2]];
    BuffersPush(received[..2], insert);
    assert received == received[..2] + [insert];
  }

  /** The delayed event under way is the second message. */
  lemma SecondIsUnderWay(s: Sys)
    requires Inv(s) && |s.c.depTx| == 2 && s.c.depTx[1].UpstreamUpdate?
    requires Tags(InFlight(s)) == [1] && s.taken == 1 && s.delivered == 1 == |s.w.out|
    ensures s.c.depTx[1].event.tagged.serial == 1
  {
    var m := s.c.depTx[1];
    assert s.c.depTx == s.c.depTx[..1] + [m];
    AskedPush(s.c.depTx[..1], m);
    assert s.w.out[..1] == s.w.out;
    assert InFlight(s) == Asked(s.c.depTx)[Back(s)..] == [m.event.tagged];
    assert Tags(InFlight(s))[0] == m.event.tagged.serial;
  }

  lemma ThirdPasses(s: Sys, event: MemoryEvent)
    requires event.Update? && event.changes.removes == [] && s.c.dirty == 0 && InFlight(s) != []
    ensures Enabled(s, Receive(event, []))
    ensures var s' := Next(s, Receive(event, []));
      && SerialsOf(s'.c.applied) == SerialsOf(s.c.applied) + [|s.c.received|]
      && InFlight(s') == InFlight(s) && s'.bypassed
      && s'.c.received == s.c.received + [event] && s'.c.depTx == s.c.depTx
      && s'.w == s.w && s'.taken == s.taken && s'.delivered == s.delivered
  {
    assert RemovedPaths(event.changes) == {};
    assert Invalidated(s.c.estimated, event) == {};
    assert Back(Next(s, Receive(event, []))) == Back(s);
  }

  lemma InFlightAfterOne(s: Sys)
    requires |s.c.depTx| == 2 && s.c.depTx[0].UpstreamUpdate? && s.c.depTx[1].UpstreamUpdate?
    requires |s.w.out| == 1 && s.w.out[0].FsUpstreamUpdate? && s.delivered == 1
    ensures InFlight(s) == [s.c.depTx[1].event.tagged]
  {
    var m0, m1 := s.c.depTx[0], s.c.depTx[1];
    assert s.c.depTx == [] + [m0] + [m1];
    AskedPush([], m0);
    AskedPush([] + [m0], m1);
    var out := s.w.out[..1];
    assert out[..0] == [] && out[0] == s.w.out[0];
    assert Answered(out) == Answered(out[..0]) + [out[0].upstream.tagged];
    assert Back(s) == 1;
  }

  /** The state after a buffer was opened over p and closed again. */
  lemma OpenedAndClosed(p: Path, buffer: Snapshot) returns (steps: seq<Step>, s: Sys)
    ensures Reached(false, steps, s) && s.w == W.Init(false) && s.taken == 0 && s.delivered == 0
    ensures |s.c.depTx| == 1 && s.c.depTx[0].UpstreamUpdate? && s.c.depTx[0].event.invalidates == [p]
  {
    var open, close := Update(ChangeSet([], [Insert(p, buffer)])), Update(ChangeSet([p], []));
    assert RemovedPaths(open.changes) == {} && RemovedPaths(close.changes) == {p};
    assert InsertedKeys(open.changes) == {p} by {
      assert open.changes.inserts[0].path == p;
    }
    assert InsertedKeys(close.changes) == {};
    var s0 := Composition.Init(false);
    OneMore(false, [], s0, Receive(open, []));
    var s1 := Next(s0, Receive(open, []));
    assert s1.c.estimated == {p};
    OneMore(false, [] + [Receive(open, [])], s1, Receive(close, [p]));
    steps, s := [] + [Receive(open, [])] + [Receive(close, [p])], Next(s1, Receive(close, [p]));
  }

  /** A run that meets these conditions: a buffer is opened over p and closed again, and
      the primary then reads what the disk holds. */
  lemma CloseShowsDisk(p: Path, buffer: Snapshot, found: Snapshot) returns (steps: seq<Step>, s: Sys)
    requires NonEmpty(found)
    ensures Reached(false, steps, s) && Effective(s.c.primary, p) == Some(found)
  {
    steps, s := OpenedAndClosed(p, buffer);
    var visits, drops := [W.Visit(p, false, false, found)], [W.Drop(p, false)];
    TakeFirst(s.w, p, found);
    TakeReads(s.w, s.c.depTx[0].event, p, found);
    assert WI.LatestRead(Next(s, Take(visits, drops)).w, p, 0);
    BufferClose(false, steps, s, visits, drops, [], p, 0);
    hide Reached, Next, Enabled;
    OneMore(false, steps, s, Take(visits, drops));
    steps, s := steps + [Take(visits, drops)], Next(s, Take(visits, drops));
    OneMore(false, steps, s, Deliver);
    steps, s := steps + [Deliver], Next(s, Deliver);
    assert IsProject(s, s.c.primary);
  }
}
