/** The compiler and the watcher, composed over two lossless channels in order. Every
    interleaving of their steps is a run. */
module Composition {
  import opened Options
  import opened Vfs
  import opened CompilerModel
  import W = WatchModel
  import WI = WatchInvariant
  import WR = WatchRuns

  /** Both parties keep all they ever sent; taken and delivered count what arrived.
      bypassed records whether a memory event was applied directly while another one was
      still under way. */
  datatype Sys = Sys(w: W.State, c: State, taken: nat, delivered: nat, bypassed: bool)

  function Init(hasWatcher: bool): Sys {
    Sys(W.Init(hasWatcher), CompilerModel.Init(), 0, 0, false)
  }

  datatype Step =
    | Receive(event: MemoryEvent, invalidates: seq<Path>)
    | Restart(id: string, deps: seq<Path>)
    | Settle(id: string, deps: seq<Path>)
    | Clear
    | Compiled(deps: seq<Path>)
    | Deliver
    | Take(visits: seq<W.Visit>, drops: seq<W.Drop>)
    | Watch(ev: W.Event)

  /** The watcher's reaction to a message. */
  function Reaction(m: NotifyMessage, visits: seq<W.Visit>, drops: seq<W.Drop>): W.Event {
    match m
    case SyncDependency(_) => W.OnSync(visits, drops)
    case UpstreamUpdate(e) => W.OnUpstream(e, visits, drops)
  }

  predicate Enabled(s: Sys, step: Step) {
    match step
    case Receive(event, invalidates) =>
      (set p | p in invalidates) == Invalidated(s.c.estimated, event)
    case Deliver => s.delivered < |s.w.out|
    case Take(visits, drops) =>
      && s.taken < |s.c.depTx|
      && var m := s.c.depTx[s.taken];
      && W.VisitPaths(visits) == (if m.SyncDependency? then m.paths else m.event.invalidates)
      && W.Enabled(s.w, Reaction(m, visits, drops))
    case Watch(ev) => !ev.OnSync? && !ev.OnUpstream? && W.Enabled(s.w, ev)
    case _ => true
  }

  function Received(s: Sys, event: MemoryEvent, invalidates: seq<Path>): Sys {
    s.(c := OnMemory(s.c, event, invalidates),
       bypassed := s.bypassed || (Direct(s.c, event) && InFlight(s) != []))
  }

  function Delivered(s: Sys): Sys
    requires s.delivered < |s.w.out|
  {
    s.(c := OnFs(s.c, s.w.out[s.delivered]), delivered := s.delivered + 1)
  }

  function Next(s: Sys, step: Step): Sys
    requires Enabled(s, step)
  {
    match step
    case Receive(event, invalidates) => Received(s, event, invalidates)
    case Restart(id, deps) => s.(c := OnRestart(s.c, id, deps))
    case Settle(id, deps) => s.(c := OnRemove(s.c, id, deps))
    case Clear => s.(c := OnClear(s.c))
    case Compiled(deps) => s.(c := OnCompiled(s.c, deps))
    case Deliver => Delivered(s)
    case Take(visits, drops) =>
      s.(w := W.Step(s.w, Reaction(s.c.depTx[s.taken], visits, drops)), taken := s.taken + 1)
    case Watch(ev) => s.(w := W.Step(s.w, ev))
  }

  // ------------------------------------------------------------- delayed events

  /** The delayed memory events among the messages to the watcher. */
  function Asked(messages: seq<NotifyMessage>): seq<TaggedMemoryEvent> {
    if messages == [] then []
    else
      var rest, m := Asked(messages[..|messages| - 1]), messages[|messages| - 1];
      if m.UpstreamUpdate? then rest + [m.event.tagged] else rest
  }

  /** The delayed memory events among the events from the watcher. */
  function Answered(events: seq<FsEvent>): seq<TaggedMemoryEvent> {
    if events == [] then []
    else
      var rest, e := Answered(events[..|events| - 1]), events[|events| - 1];
      if e.FsUpstreamUpdate? then rest + [e.upstream.tagged] else rest
  }

  /** How many delayed events came back to the compiler. */
  function Back(s: Sys): nat {
    if s.delivered <= |s.w.out| then |Answered(s.w.out[..s.delivered])| else 0
  }

  /** The delayed memory events under way, in either channel, oldest first. */
  function InFlight(s: Sys): seq<TaggedMemoryEvent> {
    var asked := Asked(s.c.depTx);
    if Back(s) <= |asked| then asked[Back(s)..] else []
  }

  lemma {:induction false} AnsweredPrefix(events: seq<FsEvent>, n: nat)
    requires n <= |events|
    ensures |Answered(events[..n])| <= |Answered(events)|
    ensures Answered(events)[..|Answered(events[..n])|] == Answered(events[..n])
  {
    if n < |events| {
      var k := |events| - 1;
      AnsweredPrefix(events[..k], n);
      assert events[..k][..n] == events[..n];
    } else {
      assert events[..n] == events;
    }
  }

  lemma {:induction false} AskedPrefix(messages: seq<NotifyMessage>, n: nat)
    requires n <= |messages|
    ensures |Asked(messages[..n])| <= |Asked(messages)|
    ensures Asked(messages)[..|Asked(messages[..n])|] == Asked(messages[..n])
  {
    if n < |messages| {
      var k := |messages| - 1;
      AskedPrefix(messages[..k], n);
      assert messages[..k][..n] == messages[..n];
    } else {
      assert messages[..n] == messages;
    }
  }

  // ------------------------------------------------------------------ invariant

  /** The editor buffers after the events. */
  function Buffers(events: seq<MemoryEvent>): map<Path, Snapshot> {
    if events == [] then map[]
    else ApplyMemory(Buffers(events[..|events| - 1]), events[|events| - 1])
  }

  function AppliedEvents(applied: seq<Applied>): seq<MemoryEvent> {
    seq(|applied|, i requires 0 <= i < |applied| => applied[i].event)
  }

  /** An invalidated path is one the event uncovers. */
  ghost predicate Uncovers(e: UpstreamEvent) {
    forall p :: p in e.invalidates ==>
      && p !in InsertedKeys(e.tagged.event.changes)
      && (e.tagged.event.Sync? || p in e.tagged.event.changes.removes)
  }

  ghost predicate MessageOk(c: State, m: NotifyMessage) {
    m.UpstreamUpdate? ==>
      var t := m.event.tagged;
      && Uncovers(m.event)
      && t.logicalTick == 1
      && t.serial < |c.received| && c.received[t.serial] == t.event
  }

  /** The channels are lossless and in order, and carry well-formed messages. */
  ghost predicate ChannelsOk(s: Sys) {
    && s.taken <= |s.c.depTx| && s.delivered <= |s.w.out|
    && Answered(s.w.out) == Asked(s.c.depTx[..s.taken])
    && (forall i :: 0 <= i < |s.c.depTx| ==> MessageOk(s.c, s.c.depTx[i]))
    && (forall k :: 0 <= k < |s.w.out| && s.w.out[k].FsUpstreamUpdate? ==> Uncovers(s.w.out[k].upstream))
  }

  /** Every project has the primary's VFS; its shadow is what the applied events make of
      it, its disk view is what the delivered events make of it. */
  ghost predicate ProjectsOk(s: Sys) {
    && s.delivered <= |s.w.out|
    && s.c.primary.shadow == Buffers(AppliedEvents(s.c.applied))
    && s.c.primary.disk == Consumer(s.w.out[..s.delivered])
    && forall i :: 0 <= i < |s.c.dedicates| ==>
         s.c.dedicates[i].shadow == s.c.primary.shadow && s.c.dedicates[i].disk == s.c.primary.disk
  }

  ghost predicate EstimateOk(s: Sys) {
    s.c.estimated == Buffers(s.c.received).Keys
  }

  function SerialsOf(applied: seq<Applied>): seq<nat> {
    seq(|applied|, i requires 0 <= i < |applied| => applied[i].serial)
  }

  function Tags(tagged: seq<TaggedMemoryEvent>): seq<nat> {
    seq(|tagged|, i requires 0 <= i < |tagged| => tagged[i].serial)
  }

  /** All memory events in the order the projects will have applied them: those applied,
      then those under way. */
  function Line(s: Sys): seq<nat> {
    SerialsOf(s.c.applied) + Tags(InFlight(s))
  }

  function Range(n: nat): seq<nat> {
    seq(n, i => i)
  }

  /** The applied events that made the round trip. */
  function RoundTrips(applied: seq<Applied>): seq<nat> {
    if applied == [] then []
    else
      var rest, a := RoundTrips(applied[..|applied| - 1]), applied[|applied| - 1];
      if a.delayed then rest + [a.serial] else rest
  }

  ghost predicate Increasing(xs: seq<nat>) {
    forall i, j :: 0 <= i < j < |xs| ==> xs[i] < xs[j]
  }

  ghost predicate Inverted(xs: seq<nat>) {
    exists i, j :: 0 <= i < j < |xs| && xs[i] > xs[j]
  }

  /** The line holds 0, .., n-1 once each: in that order, unless an event was bypassed. */
  ghost predicate LineShape(line: seq<nat>, n: nat, bypassed: bool) {
    && multiset(line) == multiset(Range(n))
    && if bypassed then Inverted(line) else line == Range(n)
  }

  ghost predicate AppliedOk(applied: seq<Applied>, received: seq<MemoryEvent>) {
    forall i :: 0 <= i < |applied| ==>
      applied[i].serial < |received| && received[applied[i].serial] == applied[i].event
  }

  ghost predicate TagsOk(tags: seq<nat>, n: nat) {
    Increasing(tags) && forall i :: 0 <= i < |tags| ==> tags[i] < n
  }

  /** Conservation and order of the memory events. */
  ghost predicate LineOk(s: Sys) {
    && LineShape(Line(s), |s.c.received|, s.bypassed)
    && AppliedOk(s.c.applied, s.c.received)
    && TagsOk(Tags(Asked(s.c.depTx)), |s.c.received|)
    && Back(s) <= |Asked(s.c.depTx)|
    && RoundTrips(s.c.applied) == Tags(Asked(s.c.depTx))[..Back(s)]
  }

  ghost predicate DirtyOk(s: Sys) {
    s.c.logicalTick == 1 && s.c.dirty <= 1 && (s.c.dirty == 1 ==> InFlight(s) != [])
  }

  ghost predicate Inv(s: Sys) {
    && WR.Settled(s.w)
    && ChannelsOk(s) && ProjectsOk(s) && EstimateOk(s) && LineOk(s) && DirtyOk(s)
  }

  // ------------------------------------------------------------ memory events

  lemma ApplyKeys<V>(m: map<Path, V>, c: ChangeSet<V>)
    ensures Apply(m, c).Keys == m.Keys - RemovedPaths(c) + InsertedKeys(c)
  {
    var removed := set p | p in c.removes;
    forall p ensures p in Apply(m, c) <==> p in m.Keys - RemovedPaths(c) + InsertedKeys(c) {
      InsertAllAt(m - removed, c.inserts, p);
      if p in InsertedKeys(c) {
        var i :| 0 <= i < |c.inserts| && c.inserts[i].path == p;
        assert c.inserts[i] in c.inserts;
      }
    }
  }

  lemma NextEstimateIs(shadow: map<Path, Snapshot>, event: MemoryEvent)
    ensures NextEstimate(shadow.Keys, event) == ApplyMemory(shadow, event).Keys
  {
    ApplyKeys(if event.Sync? then map[] else shadow, event.changes);
  }

  lemma AskedPush(messages: seq<NotifyMessage>, m: NotifyMessage)
    ensures Asked(messages + [m]) ==
      if m.UpstreamUpdate? then Asked(messages) + [m.event.tagged] else Asked(messages)
  {
    assert (messages + [m])[..|messages|] == messages;
  }

  lemma BuffersPush(events: seq<MemoryEvent>, e: MemoryEvent)
    ensures Buffers(events + [e]) == ApplyMemory(Buffers(events), e)
  {
    assert (events + [e])[..|events|] == events;
  }

  lemma AppliedPush(applied: seq<Applied>, a: Applied)
    ensures AppliedEvents(applied + [a]) == AppliedEvents(applied) + [a.event]
    ensures SerialsOf(applied + [a]) == SerialsOf(applied) + [a.serial]
    ensures RoundTrips(applied + [a]) ==
      if a.delayed then RoundTrips(applied) + [a.serial] else RoundTrips(applied)
  {
    assert (applied + [a])[..|applied|] == applied;
  }

  lemma RangePush(n: nat)
    ensures Range(n + 1) == Range(n) + [n]
  {
  }

  /** An element put anywhere keeps an inversion; in front of a smaller one it makes one. */
  lemma InversionStays(a: seq<nat>, n: nat, b: seq<nat>)
    ensures Inverted(a + b) ==> Inverted(a + [n] + b)
    ensures b != [] && b[0] < n ==> Inverted(a + [n] + b)
  {
    var line := a + [n] + b;
    if Inverted(a + b) {
      var i, j :| 0 <= i < j < |a + b| && (a + b)[i] > (a + b)[j];
      var i', j' := if i < |a| then i else i + 1, if j < |a| then j else j + 1;
      assert line[i'] == (a + b)[i] && line[j'] == (a + b)[j];
    }
    if b != [] && b[0] < n {
      assert line[|a|] == n && line[|a| + 1] == b[0];
    }
  }

  /** The next event joins the line behind those done and in front of those going. */
  lemma LineInsert(done: seq<nat>, going: seq<nat>, n: nat, bypassed: bool)
    requires LineShape(done + going, n, bypassed)
    ensures LineShape(done + [n] + going, n + 1, bypassed || going != [])
  {
    RangePush(n);
    InversionStays(done, n, going);
    if going != [] {
      assert (done + going)[|done|] == going[0];
      assert going[0] in multiset(done + going);
      assert going[0] in Range(n);
    } else {
      assert done + going == done && done + [n] + going == done + [n];
    }
  }

  /** Received by the compiler and applied at once. */
  ghost predicate AppliedNow(s: Sys, s': Sys, event: MemoryEvent) {
    && s'.c.received == s.c.received + [event]
    && s'.c.applied == s.c.applied + [Applied(|s.c.received|, event, false)]
    && s'.c.depTx == s.c.depTx && s'.c.dirty == s.c.dirty && s'.c.logicalTick == s.c.logicalTick
    && s'.w == s.w && s'.delivered == s.delivered
    && s'.bypassed == (s.bypassed || InFlight(s) != [])
  }

  /** Received by the compiler and sent to the watcher. */
  ghost predicate SentOut(s: Sys, s': Sys, event: MemoryEvent, m: NotifyMessage) {
    && m.UpstreamUpdate?
    && m.event.tagged == TaggedMemoryEvent(s.c.logicalTick, event, |s.c.received|)
    && s'.c.received == s.c.received + [event]
    && s'.c.applied == s.c.applied
    && s'.c.depTx == s.c.depTx + [m] && s'.c.dirty == s.c.logicalTick == s'.c.logicalTick
    && s'.w == s.w && s'.delivered == s.delivered
    && s'.bypassed == s.bypassed
  }

  lemma DirectLine(s: Sys, s': Sys, event: MemoryEvent)
    requires LineOk(s) && DirtyOk(s) && AppliedNow(s, s', event)
    ensures LineOk(s') && DirtyOk(s')
  {
    var n := |s.c.received|;
    DirectShape(s, s', event);
    AppliedPush(s.c.applied, Applied(n, event, false));
    AppliedMore(s.c.applied, s.c.received, Applied(n, event, false));
  }

  lemma DirectShape(s: Sys, s': Sys, event: MemoryEvent)
    requires LineShape(Line(s), |s.c.received|, s.bypassed) && AppliedNow(s, s', event)
    ensures LineShape(Line(s'), |s'.c.received|, s'.bypassed)
    ensures InFlight(s') == InFlight(s)
  {
    var n := |s.c.received|;
    var going := Tags(InFlight(s));
    AppliedPush(s.c.applied, Applied(n, event, false));
    assert Back(s') == Back(s);
    assert Line(s') == SerialsOf(s.c.applied) + [n] + going;
    LineInsert(SerialsOf(s.c.applied), going, n, s.bypassed);
    assert |going| == |InFlight(s)|;
  }

  /** A step that neither receives, asks nor delivers. */
  lemma SameLine(s: Sys, s': Sys)
    requires LineOk(s) && DirtyOk(s)
    requires s'.c.received == s.c.received && s'.c.applied == s.c.applied
    requires s'.c.logicalTick == s.c.logicalTick && s'.c.dirty == s.c.dirty
    requires Asked(s'.c.depTx) == Asked(s.c.depTx) && s'.bypassed == s.bypassed
    requires Back(s') == Back(s)
    ensures LineOk(s') && DirtyOk(s')
  {
    assert InFlight(s') == InFlight(s) && Line(s') == Line(s);
  }

  lemma AppliedMore(applied: seq<Applied>, received: seq<MemoryEvent>, a: Applied)
    requires AppliedOk(applied, received) && a.serial == |received|
    ensures AppliedOk(applied + [a], received + [a.event])
  {
  }

  lemma DelayedShape(s: Sys, s': Sys, event: MemoryEvent, m: NotifyMessage)
    requires LineShape(Line(s), |s.c.received|, s.bypassed) && Back(s) <= |Asked(s.c.depTx)|
    requires SentOut(s, s', event, m)
    ensures InFlight(s') == InFlight(s) + [m.event.tagged]
    ensures LineShape(Line(s'), |s'.c.received|, s'.bypassed)
  {
    hide LineShape;
    var n := |s.c.received|;
    AskedPush(s.c.depTx, m);
    assert InFlight(s') == InFlight(s) + [m.event.tagged];
    assert Line(s) == Line(s) + [] && Line(s') == Line(s) + [n] + [];
    LineInsert(Line(s), [], n, s.bypassed);
  }

  lemma DelayedTags(s: Sys, s': Sys, event: MemoryEvent, m: NotifyMessage)
    requires TagsOk(Tags(Asked(s.c.depTx)), |s.c.received|) && Back(s) <= |Asked(s.c.depTx)|
    requires SentOut(s, s', event, m)
    ensures TagsOk(Tags(Asked(s'.c.depTx)), |s'.c.received|) && Back(s) <= |Asked(s'.c.depTx)|
    ensures Tags(Asked(s'.c.depTx))[..Back(s)] == Tags(Asked(s.c.depTx))[..Back(s)]
  {
    AskedPush(s.c.depTx, m);
    assert Tags(Asked(s'.c.depTx)) == Tags(Asked(s.c.depTx)) + [|s.c.received|];
  }

  lemma DelayedLine(s: Sys, s': Sys, event: MemoryEvent, m: NotifyMessage)
    requires LineOk(s) && DirtyOk(s) && SentOut(s, s', event, m)
    ensures LineOk(s') && DirtyOk(s')
  {
    DelayedShape(s, s', event, m);
    DelayedTags(s, s', event, m);
    assert Back(s') == Back(s);
  }

  lemma ReceiveLine(s: Sys, event: MemoryEvent, invalidates: seq<Path>)
    requires LineOk(s) && DirtyOk(s)
    ensures LineOk(Received(s, event, invalidates)) && DirtyOk(Received(s, event, invalidates))
  {
    var s' := Received(s, event, invalidates);
    if Direct(s.c, event) {
      DirectLine(s, s', event);
    } else {
      DelayedLine(s, s', event, s'.c.depTx[|s.c.depTx|]);
    }
  }

  lemma ReceiveChannels(s: Sys, event: MemoryEvent, invalidates: seq<Path>)
    requires ChannelsOk(s) && s.c.logicalTick == 1
    requires (set p | p in invalidates) == Invalidated(s.c.estimated, event)
    ensures ChannelsOk(Received(s, event, invalidates))
  {
    var s' := Received(s, event, invalidates);
    assert s'.c.depTx[..s.taken] == s.c.depTx[..s.taken];
    forall i | 0 <= i < |s'.c.depTx| ensures MessageOk(s'.c, s'.c.depTx[i]) {
      if i < |s.c.depTx| {
        assert MessageOk(s.c, s.c.depTx[i]);
      } else {
        forall p | p in invalidates ensures p in Invalidated(s.c.estimated, event) {
        }
      }
    }
  }

  lemma ReceiveProjects(s: Sys, event: MemoryEvent, invalidates: seq<Path>)
    requires ProjectsOk(s)
    ensures ProjectsOk(Received(s, event, invalidates))
  {
    var s' := Received(s, event, invalidates);
    if Direct(s.c, event) {
      DirectProjects(s, s', event);
    } else {
      assert s'.c.dedicates == s.c.dedicates && s'.c.primary == s.c.primary;
    }
  }

  lemma DirectProjects(s: Sys, s': Sys, event: MemoryEvent)
    requires ProjectsOk(s)
    requires s'.w == s.w && s'.delivered == s.delivered
    requires s'.c.applied == s.c.applied + [Applied(|s.c.received|, event, false)]
    requires s'.c.primary == Remember(s.c.primary, event)
    requires s'.c.dedicates == RememberAll(s.c.dedicates, event)
    ensures ProjectsOk(s')
  {
    hide Buffers, AppliedEvents, ApplyMemory, Consumer;
    AppliedPush(s.c.applied, Applied(|s.c.received|, event, false));
    BuffersPush(AppliedEvents(s.c.applied), event);
    forall i | 0 <= i < |s'.c.dedicates|
      ensures s'.c.dedicates[i] == Remember(s.c.dedicates[i], event)
    {
    }
  }

  lemma ReceiveEstimate(s: Sys, event: MemoryEvent, invalidates: seq<Path>)
    requires EstimateOk(s)
    ensures EstimateOk(Received(s, event, invalidates))
  {
    NextEstimateIs(Buffers(s.c.received), event);
    BuffersPush(s.c.received, event);
    assert Received(s, event, invalidates).c.received == s.c.received + [event];
  }

  // ------------------------------------------------------------------- delivery

  lemma DeliverSteps(s: Sys)
    requires ChannelsOk(s) && s.delivered < |s.w.out|
    ensures var e := s.w.out[s.delivered];
      && Back(s) <= |Asked(s.c.depTx)|
      && (if e.FsUpstreamUpdate?
          then InFlight(s) != [] && InFlight(s)[0] == e.upstream.tagged
            && Back(Delivered(s)) == Back(s) + 1
            && InFlight(Delivered(s)) == InFlight(s)[1..]
          else Back(Delivered(s)) == Back(s) && InFlight(Delivered(s)) == InFlight(s))
  {
    var asked, e := Asked(s.c.depTx), s.w.out[s.delivered];
    OldestAnswered(s);
    hide ChannelsOk, Asked, Answered;
    if e.FsUpstreamUpdate? {
      assert asked[Back(s)..][1..] == asked[Back(s) + 1..];
    }
  }

  /** What comes back next is the oldest message not answered yet. */
  lemma OldestAnswered(s: Sys)
    requires ChannelsOk(s) && s.delivered < |s.w.out|
    ensures var e, asked := s.w.out[s.delivered], Asked(s.c.depTx);
      && Back(s) <= |asked|
      && Back(Delivered(s)) == Back(s) + (if e.FsUpstreamUpdate? then 1 else 0)
      && (e.FsUpstreamUpdate? ==> Back(s) < |asked| && asked[Back(s)] == e.upstream.tagged)
  {
    var d := s.delivered;
    var out, asked := s.w.out, Asked(s.c.depTx);
    AnsweredPush(out, d);
    AnsweredPrefix(out, d);
    AnsweredPrefix(out, d + 1);
    AskedPrefix(s.c.depTx, s.taken);
    hide Asked, Answered, Uncovers, MessageOk;
    assert Answered(out) == asked[..|Answered(out)|];
    if out[d].FsUpstreamUpdate? {
      assert Answered(out[..d + 1])[Back(s)] == out[d].upstream.tagged;
      assert Answered(out)[..|Answered(out[..d + 1])|][Back(s)] == Answered(out)[Back(s)];
      assert asked[..|Answered(out)|][Back(s)] == asked[Back(s)];
    }
  }

  lemma AnsweredPush(out: seq<FsEvent>, d: nat)
    requires d < |out|
    ensures Answered(out[..d + 1]) ==
      Answered(out[..d]) + if out[d].FsUpstreamUpdate? then [out[d].upstream.tagged] else []
  {
    assert out[..d + 1][..d] == out[..d] && out[..d + 1][d] == out[d];
  }

  lemma DeliverLine(s: Sys)
    requires ChannelsOk(s) && LineOk(s) && DirtyOk(s) && s.delivered < |s.w.out|
    ensures LineOk(Delivered(s)) && DirtyOk(Delivered(s))
  {
    var s' := Delivered(s);
    var e := s.w.out[s.delivered];
    DeliverSteps(s);
    if e.FsUpstreamUpdate? {
      DeliverTagged(s);
    } else {
      assert Line(s') == Line(s);
    }
  }

  lemma DeliverTagged(s: Sys)
    requires ChannelsOk(s) && LineOk(s) && DirtyOk(s) && s.delivered < |s.w.out|
    requires s.w.out[s.delivered].FsUpstreamUpdate?
    ensures LineOk(Delivered(s)) && DirtyOk(Delivered(s))
  {
    hide LineShape, TagsOk, AppliedOk, RoundTrips, Line;
    var s' := Delivered(s);
    var t := s.w.out[s.delivered].upstream.tagged;
    Returns(s, t);
    ReturnedLine(s, s', t);
    ReturnedTrips(s, s', t);
    AppliedOnce(s.c.applied, s.c.received, Applied(t.serial, t.event, true));
  }

  /** The oldest event under way comes back to the compiler, which applies it. */
  ghost predicate Returned(s: Sys, s': Sys, t: TaggedMemoryEvent) {
    && InFlight(s) != [] && InFlight(s)[0] == t && InFlight(s') == InFlight(s)[1..]
    && Back(s') == Back(s) + 1 <= |Asked(s.c.depTx)|
    && s'.c.applied == s.c.applied + [Applied(t.serial, t.event, true)]
    && s'.c.depTx == s.c.depTx && s'.c.received == s.c.received && s'.bypassed == s.bypassed
    && s'.c.logicalTick == s.c.logicalTick && s'.c.dirty == 0
    && t.serial < |s.c.received| && s.c.received[t.serial] == t.event
  }

  lemma Returns(s: Sys, t: TaggedMemoryEvent)
    requires ChannelsOk(s) && DirtyOk(s) && s.delivered < |s.w.out|
    requires s.w.out[s.delivered].FsUpstreamUpdate? && t == s.w.out[s.delivered].upstream.tagged
    ensures Returned(s, Delivered(s), t)
  {
    hide ChannelsOk, Asked, Answered;
    DeliverSteps(s);
    InFlightOk(s);
    assert InFlight(s)[0] == t;
  }

  lemma ReturnedLine(s: Sys, s': Sys, t: TaggedMemoryEvent)
    requires Returned(s, s', t)
    ensures Line(s') == Line(s)
  {
    hide InFlight, Back, RoundTrips;
    AppliedPush(s.c.applied, Applied(t.serial, t.event, true));
    assert Tags(InFlight(s)) == [t.serial] + Tags(InFlight(s'));
  }

  lemma ReturnedTrips(s: Sys, s': Sys, t: TaggedMemoryEvent)
    requires Returned(s, s', t) && RoundTrips(s.c.applied) == Tags(Asked(s.c.depTx))[..Back(s)]
    ensures RoundTrips(s'.c.applied) == Tags(Asked(s'.c.depTx))[..Back(s')]
  {
    hide Back, Asked, RoundTrips;
    AppliedPush(s.c.applied, Applied(t.serial, t.event, true));
    var asked := Tags(Asked(s.c.depTx));
    assert asked[Back(s)] == t.serial;
    assert asked[..Back(s) + 1] == asked[..Back(s)] + [t.serial];
  }

  lemma AppliedOnce(applied: seq<Applied>, received: seq<MemoryEvent>, a: Applied)
    requires AppliedOk(applied, received) && a.serial < |received| && received[a.serial] == a.event
    ensures AppliedOk(applied + [a], received)
  {
  }

  lemma {:induction false} AskedOk(c: State, n: nat)
    requires n <= |c.depTx|
    requires forall i :: 0 <= i < |c.depTx| ==> MessageOk(c, c.depTx[i])
    ensures forall k :: 0 <= k < |Asked(c.depTx[..n])| ==>
      var t := Asked(c.depTx[..n])[k];
      t.logicalTick == 1 && t.serial < |c.received| && c.received[t.serial] == t.event
  {
    if n > 0 {
      AskedOk(c, n - 1);
      assert c.depTx[..n][..n - 1] == c.depTx[..n - 1];
      assert MessageOk(c, c.depTx[n - 1]);
    }
  }

  lemma InFlightOk(s: Sys)
    requires ChannelsOk(s)
    ensures forall k :: 0 <= k < |InFlight(s)| ==>
      var t := InFlight(s)[k];
      t.logicalTick == 1 && t.serial < |s.c.received| && s.c.received[t.serial] == t.event
  {
    AskedOk(s.c, |s.c.depTx|);
    assert s.c.depTx[..|s.c.depTx|] == s.c.depTx;
  }

  lemma DeliverProjects(s: Sys)
    requires ProjectsOk(s) && s.delivered < |s.w.out|
    ensures ProjectsOk(Delivered(s))
  {
    hide Buffers, AppliedEvents, ApplyMemory, Apply, Consumer;
    var s' := Delivered(s);
    var d := s.delivered;
    var e := s.w.out[d];
    assert s.w.out[..d + 1] == s.w.out[..d] + [e];
    ConsumerAppend(s.w.out[..d], e);
    if e.FsUpstreamUpdate? {
      AppliedPush(s.c.applied, Applied(e.upstream.tagged.serial, e.upstream.tagged.event, true));
      BuffersPush(AppliedEvents(s.c.applied), e.upstream.tagged.event);
    }
    assert s'.c.primary == OnFsProject(s.c.primary, e);
    forall i | 0 <= i < |s'.c.dedicates|
      ensures s'.c.dedicates[i] == OnFsProject(s.c.dedicates[i], e)
    {
    }
  }

  // -------------------------------------------------------------------- watcher

  // The loops of the watcher send nothing themselves.

  lemma {:induction false} VisitsSend(w: W.State, visits: seq<W.Visit>)
    ensures W.VisitAll(w, visits).out == w.out
  {
    if visits != [] {
      VisitsSend(w, visits[..|visits| - 1]);
      WI.VisitOneShape(W.VisitAll(w, visits[..|visits| - 1]), visits[|visits| - 1]);
    }
  }

  lemma {:induction false} RetainSends(w: W.State, drops: seq<W.Drop>)
    ensures W.RetainAll(w, drops).out == w.out
  {
    if drops != [] {
      RetainSends(w, drops[..|drops| - 1]);
    }
  }

  lemma {:induction false} ReadsSend(w: W.State, probes: seq<W.Probe>)
    ensures W.ReadAll(w, probes).out == w.out
  {
    if probes != [] {
      ReadsSend(w, probes[..|probes| - 1]);
    }
  }

  lemma {:induction false} ForgetsSend(w: W.State, drops: seq<W.Drop>)
    ensures W.ForgetAll(w, drops).out == w.out
  {
    if drops != [] {
      ForgetsSend(w, drops[..|drops| - 1]);
    }
  }

  lemma {:induction false} PollsSend(w: W.State, visits: seq<W.Visit>)
    ensures W.PollAll(w, visits).out == w.out
  {
    if visits != [] {
      PollsSend(w, visits[..|visits| - 1]);
    }
  }

  /** Nothing, or one update that answers no message; it is not empty, and it says whether
      a message asked for it. */
  ghost predicate SendsUpdate(before: seq<FsEvent>, after: seq<FsEvent>, isSync: bool) {
    after == before
    || (after != [] && after == before + [after[|after| - 1]] && after[|after| - 1].FsUpdate?
        && !after[|after| - 1].changes.IsEmpty() && after[|after| - 1].isSync == isSync)
  }

  /** One answer to the event. */
  ghost predicate SendsAnswer(before: seq<FsEvent>, after: seq<FsEvent>, event: UpstreamEvent) {
    && after != [] && after == before + [after[|after| - 1]]
    && after[|after| - 1].FsUpstreamUpdate? && after[|after| - 1].upstream == event
  }

  lemma NotifySends(w: W.State, unwatch: bool, probes: seq<W.Probe>, forgets: seq<W.Drop>)
    ensures var w1 := W.ReadAll(w, probes);
      SendsUpdate(w.out, W.Flush(if unwatch then W.ForgetAll(w1, forgets) else w1, false).out, false)
  {
    ReadsSend(w, probes);
    ForgetsSend(W.ReadAll(w, probes), forgets);
  }

  lemma UpdateSends(w: W.State, visits: seq<W.Visit>, drops: seq<W.Drop>)
    ensures W.UpdateWatches(w, visits, drops).out == w.out
  {
    var w0 := W.Begin(w, W.Visited(visits));
    VisitsSend(w0, visits);
    RetainSends(W.VisitAll(w0, visits), drops);
  }

  lemma FireSends(w: W.State, r: W.Recheck)
    ensures SendsUpdate(w.out, W.Fire(w, r).out, false)
  {
  }

  /** The events a watcher step sends. */
  lemma WatcherSends(w: W.State, ev: W.Event)
    ensures var out := W.Step(w, ev).out;
      if ev.OnUpstream? then SendsAnswer(w.out, out, ev.event) else SendsUpdate(w.out, out, ev.OnSync?)
  {
    var w0 := W.Ticked(w);
    match ev
    case OnSync(visits, drops) => UpdateSends(w0, visits, drops);
    case OnUpstream(_, visits, drops) => UpdateSends(w0, visits, drops);
    case OnNotify(kind, probes, forgets) => NotifySends(w0, W.Unwatches(kind), probes, forgets);
    case OnNotifyError =>
    case OnRecheck(r, _) => FireSends(w0, r);
    case OnPoll(visits) => PollsSend(w0, visits);
  }

  /** The watcher sends something or nothing; nothing it sent before changes. */
  ghost predicate OutGrows(s: Sys, w: W.State) {
    |s.w.out| <= |w.out| <= |s.w.out| + 1 && w.out[..|s.w.out|] == s.w.out
  }

  lemma WatcherSame(s: Sys, w: W.State, taken: nat)
    requires ProjectsOk(s) && LineOk(s) && DirtyOk(s) && OutGrows(s, w)
    ensures var s' := s.(w := w, taken := taken);
      ProjectsOk(s') && LineOk(s') && DirtyOk(s')
  {
    assert w.out[..s.delivered] == s.w.out[..s.delivered];
    SameLine(s, s.(w := w, taken := taken));
  }

  lemma QuietChannels(s: Sys, w: W.State, taken: nat)
    requires ChannelsOk(s) && OutGrows(s, w)
    requires |w.out| > |s.w.out| ==> w.out[|s.w.out|].FsUpdate?
    requires taken <= |s.c.depTx| && Asked(s.c.depTx[..taken]) == Asked(s.c.depTx[..s.taken])
    ensures ChannelsOk(s.(w := w, taken := taken))
  {
    if |w.out| == |s.w.out| {
      assert w.out == s.w.out;
    }
    forall k | 0 <= k < |w.out| && w.out[k].FsUpstreamUpdate? ensures Uncovers(w.out[k].upstream) {
      assert w.out[k] == s.w.out[k];
    }
  }

  lemma AnswerChannels(s: Sys, w: W.State)
    requires ChannelsOk(s) && OutGrows(s, w) && |w.out| > |s.w.out|
    requires s.taken < |s.c.depTx| && s.c.depTx[s.taken].UpstreamUpdate?
    requires w.out[|s.w.out|].FsUpstreamUpdate? && w.out[|s.w.out|].upstream == s.c.depTx[s.taken].event
    ensures ChannelsOk(s.(w := w, taken := s.taken + 1))
  {
    var m := s.c.depTx[s.taken];
    assert MessageOk(s.c, m);
    assert s.c.depTx[..s.taken + 1] == s.c.depTx[..s.taken] + [m];
    AskedPush(s.c.depTx[..s.taken], m);
    forall k | 0 <= k < |w.out| && w.out[k].FsUpstreamUpdate? ensures Uncovers(w.out[k].upstream) {
      if k < |s.w.out| {
        assert w.out[k] == s.w.out[k];
      }
    }
  }

  lemma TakeChannels(s: Sys, w: W.State, m: NotifyMessage)
    requires ChannelsOk(s) && OutGrows(s, w)
    requires s.taken < |s.c.depTx| && s.c.depTx[s.taken] == m
    requires if m.UpstreamUpdate?
      then |w.out| > |s.w.out| && w.out[|s.w.out|].FsUpstreamUpdate? && w.out[|s.w.out|].upstream == m.event
      else |w.out| > |s.w.out| ==> w.out[|s.w.out|].FsUpdate?
    ensures ChannelsOk(s.(w := w, taken := s.taken + 1))
  {
    if m.UpstreamUpdate? {
      AnswerChannels(s, w);
    } else {
      assert s.c.depTx[..s.taken + 1] == s.c.depTx[..s.taken] + [m];
      AskedPush(s.c.depTx[..s.taken], m);
      QuietChannels(s, w, s.taken + 1);
    }
  }

  lemma TakeKeeps(s: Sys, visits: seq<W.Visit>, drops: seq<W.Drop>)
    requires Inv(s) && Enabled(s, Take(visits, drops))
    ensures Inv(Next(s, Take(visits, drops)))
  {
    hide WR.Settled, W.Step;
    var m := s.c.depTx[s.taken];
    var ev := Reaction(m, visits, drops);
    var w := W.Step(s.w, ev);
    WR.StepKeeps(s.w, ev);
    WatcherSends(s.w, ev);
    WatcherSame(s, w, s.taken + 1);
    TakeChannels(s, w, m);
  }

  /** A message to the watcher that carries no memory event. */
  lemma SyncMessage(s: Sys, c: State, deps: seq<Path>)
    requires ChannelsOk(s) && LineOk(s) && DirtyOk(s) && EstimateOk(s)
    requires c.depTx == s.c.depTx + [SyncDependency(deps)]
    requires c.logicalTick == s.c.logicalTick && c.dirty == s.c.dirty && c.estimated == s.c.estimated
    requires c.received == s.c.received && c.applied == s.c.applied
    ensures var s' := s.(c := c);
      ChannelsOk(s') && LineOk(s') && DirtyOk(s') && EstimateOk(s')
  {
    AskedPush(s.c.depTx, SyncDependency(deps));
    SameLine(s, s.(c := c));
    assert c.depTx[..s.taken] == s.c.depTx[..s.taken];
    forall i | 0 <= i < |c.depTx| ensures MessageOk(c, c.depTx[i]) {
      if i < |s.c.depTx| {
        assert MessageOk(s.c, s.c.depTx[i]);
      }
    }
  }

  lemma RemoveKeeps(s: Sys, id: string, deps: seq<Path>)
    requires Inv(s)
    ensures Inv(s.(c := OnRemove(s.c, id, deps)))
  {
    hide WR.Settled, ChannelsOk, ProjectsOk, EstimateOk, LineOk, DirtyOk;
    var c := OnRemove(s.c, id, deps);
    RemoveProjects(s, id, deps);
    if Find(s.c.dedicates, id) < |s.c.dedicates| {
      SyncMessage(s, c, deps);
    }
  }

  lemma RemoveProjects(s: Sys, id: string, deps: seq<Path>)
    requires ProjectsOk(s)
    ensures ProjectsOk(s.(c := OnRemove(s.c, id, deps)))
  {
  }

  lemma SameChannels(s: Sys, c: State)
    requires ChannelsOk(s) && LineOk(s) && DirtyOk(s) && EstimateOk(s)
    requires c.(dedicates := s.c.dedicates) == s.c
    ensures var s' := s.(c := c);
      ChannelsOk(s') && LineOk(s') && DirtyOk(s') && EstimateOk(s')
  {
    SameLine(s, s.(c := c));
    forall i | 0 <= i < |c.depTx| ensures MessageOk(c, c.depTx[i]) {
      assert MessageOk(s.c, s.c.depTx[i]);
    }
  }

  lemma RestartKeeps(s: Sys, id: string, deps: seq<Path>)
    requires Inv(s)
    ensures Inv(s.(c := OnRestart(s.c, id, deps)))
  {
    RemoveKeeps(s, id, deps);
    SameChannels(s.(c := OnRemove(s.c, id, deps)), OnRestart(s.c, id, deps));
  }

  lemma ClearKeeps(s: Sys)
    requires Inv(s)
    ensures Inv(s.(c := OnClear(s.c)))
  {
    SameChannels(s, OnClear(s.c));
  }

  lemma CompiledKeeps(s: Sys, deps: seq<Path>)
    requires Inv(s)
    ensures Inv(s.(c := OnCompiled(s.c, deps)))
  {
    SyncMessage(s, OnCompiled(s.c, deps), deps);
  }

  lemma ReceiveKeeps(s: Sys, event: MemoryEvent, invalidates: seq<Path>)
    requires Inv(s) && Enabled(s, Receive(event, invalidates))
    ensures Inv(Received(s, event, invalidates))
  {
    ReceiveLine(s, event, invalidates);
    ReceiveChannels(s, event, invalidates);
    ReceiveProjects(s, event, invalidates);
    ReceiveEstimate(s, event, invalidates);
  }

  lemma DeliverKeeps(s: Sys)
    requires Inv(s) && s.delivered < |s.w.out|
    ensures Inv(Delivered(s))
  {
    DeliverLine(s);
    DeliverProjects(s);
  }

  lemma WatchKeeps(s: Sys, ev: W.Event)
    requires Inv(s) && Enabled(s, Watch(ev))
    ensures Inv(Next(s, Watch(ev)))
  {
    hide WR.Settled, W.Step, LineOk, DirtyOk;
    WR.StepKeeps(s.w, ev);
    WatcherSends(s.w, ev);
    WatcherSame(s, W.Step(s.w, ev), s.taken);
    QuietChannels(s, W.Step(s.w, ev), s.taken);
  }

  /** Every step of the composed system keeps the invariant. */
  lemma NextKeeps(s: Sys, step: Step)
    requires Inv(s) && Enabled(s, step)
    ensures Inv(Next(s, step))
  {
    hide Inv;
    match step
    case Receive(event, invalidates) => ReceiveKeeps(s, event, invalidates);
    case Restart(id, deps) => RestartKeeps(s, id, deps);
    case Settle(id, deps) => RemoveKeeps(s, id, deps);
    case Clear => ClearKeeps(s);
    case Compiled(deps) => CompiledKeeps(s, deps);
    case Deliver => DeliverKeeps(s);
    case Take(visits, drops) => TakeKeeps(s, visits, drops);
    case Watch(ev) => WatchKeeps(s, ev);
  }

  // ----------------------------------------------------------------------- runs

  function After(s: Sys, steps: seq<Step>): Sys
    requires Possible(s, steps)
    decreases |steps|, 1
  {
    if steps == [] then s else Next(After(s, steps[..|steps| - 1]), steps[|steps| - 1])
  }

  predicate Possible(s: Sys, steps: seq<Step>)
    decreases |steps|, 0
  {
    steps != [] ==>
      && Possible(s, steps[..|steps| - 1])
      && Enabled(After(s, steps[..|steps| - 1]), steps[|steps| - 1])
  }

  lemma InitInv(hasWatcher: bool)
    ensures Inv(Init(hasWatcher))
  {
    WR.InitSettled(hasWatcher);
    assert Line(Init(hasWatcher)) == [] == Range(0);
  }

  lemma {:induction false} RunKeeps(s: Sys, steps: seq<Step>)
    requires Inv(s) && Possible(s, steps)
    ensures Inv(After(s, steps))
  {
    if steps != [] {
      RunKeeps(s, steps[..|steps| - 1]);
      NextKeeps(After(s, steps[..|steps| - 1]), steps[|steps| - 1]);
    }
  }
}
