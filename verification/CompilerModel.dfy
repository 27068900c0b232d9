/** What the project compiler does with memory events and file system events, as
    functions on its state. The class Compiler.ProjectCompiler is proved against them. */
module CompilerModel {
  import opened Options
  import opened Vfs

  /** A project instance, as far as its VFS goes. */
  datatype Project = Project(id: string, shadow: map<Path, Snapshot>, disk: map<Path, Reading>)

  /** What the project reads at a path: the editor buffer, else the watcher's view. Nothing
      means that the project falls back to reading the disk itself. */
  function Effective(proj: Project, p: Path): Option<Snapshot> {
    if p in proj.shadow then Some(proj.shadow[p])
    else if p in proj.disk then Some(proj.disk[p].snapshot)
    else None
  }

  /** A memory event that reached the projects, directly or after a round trip. */
  datatype Applied = Applied(serial: nat, event: MemoryEvent, delayed: bool)

  /** The compiler's fields and the history: all messages ever sent to the watcher, the
      memory events received and those applied. */
  datatype State = State(
    logicalTick: nat,
    dirty: nat,
    estimated: set<Path>,
    primary: Project,
    dedicates: seq<Project>,
    depTx: seq<NotifyMessage>,
    received: seq<MemoryEvent>,
    applied: seq<Applied>)

  const PRIMARY := "primary"

  function Init(): State {
    State(1, 0, {}, Project(PRIMARY, map[], map[]), [], [], [], [])
  }

  function RemovedPaths<V>(c: ChangeSet<V>): set<Path> {
    set p | p in c.removes
  }

  function InsertedKeys<V>(c: ChangeSet<V>): set<Path> {
    set i | 0 <= i < |c.inserts| :: c.inserts[i].path
  }

  /** The paths the watcher has to read again before the event may be applied. */
  function Invalidated(estimated: set<Path>, event: MemoryEvent): set<Path> {
    (if event.Sync? then estimated else {}) + RemovedPaths(event.changes)
      - InsertedKeys(event.changes)
  }

  function NextEstimate(estimated: set<Path>, event: MemoryEvent): set<Path> {
    (if event.Sync? then {} else estimated) - RemovedPaths(event.changes)
      + InsertedKeys(event.changes)
  }

  function Remember(proj: Project, event: MemoryEvent): Project {
    proj.(shadow := ApplyMemory(proj.shadow, event))
  }

  function RememberAll(projects: seq<Project>, event: MemoryEvent): seq<Project> {
    seq(|projects|, i requires 0 <= i < |projects| => Remember(projects[i], event))
  }

  /** No path is uncovered and no delayed event is known to be under way. */
  predicate Direct(s: State, event: MemoryEvent) {
    Invalidated(s.estimated, event) == {} && s.dirty == 0
  }

  function OnMemory(s: State, event: MemoryEvent, invalidates: seq<Path>): State {
    var serial := |s.received|;
    var s1 := s.(received := s.received + [event], estimated := NextEstimate(s.estimated, event));
    if Direct(s, event) then
      s1.(primary := Remember(s.primary, event),
          dedicates := RememberAll(s.dedicates, event),
          applied := s.applied + [Applied(serial, event, false)])
    else
      s1.(dirty := s.logicalTick,
          depTx := s.depTx + [UpstreamUpdate(UpstreamEvent(
            invalidates, TaggedMemoryEvent(s.logicalTick, event, serial)))])
  }

  /** The delayed memory event first, the watcher's changes after it. */
  function OnFsProject(proj: Project, e: FsEvent): Project {
    var proj1 := if e.FsUpstreamUpdate? then Remember(proj, e.upstream.tagged.event) else proj;
    proj1.(disk := Apply(proj1.disk, e.changes))
  }

  function OnFs(s: State, e: FsEvent): State {
    s.(primary := OnFsProject(s.primary, e),
       dedicates := seq(|s.dedicates|, i requires 0 <= i < |s.dedicates| => OnFsProject(s.dedicates[i], e)),
       dirty := if e.FsUpstreamUpdate? && e.upstream.tagged.logicalTick == s.dirty then 0 else s.dirty,
       applied :=
         if e.FsUpstreamUpdate?
         then s.applied + [Applied(e.upstream.tagged.serial, e.upstream.tagged.event, true)]
         else s.applied)
  }

  /** The first dedicate with the id, or the number of dedicates. */
  function Find(dedicates: seq<Project>, id: string): (i: nat)
    ensures i <= |dedicates|
    ensures i < |dedicates| ==> dedicates[i].id == id
    ensures forall j :: 0 <= j < i ==> dedicates[j].id != id
  {
    if dedicates == [] || dedicates[0].id == id then 0 else 1 + Find(dedicates[1..], id)
  }

  /** Dependencies are announced when a dedicate goes; an unknown id changes nothing. */
  function OnRemove(s: State, id: string, deps: seq<Path>): State {
    var i := Find(s.dedicates, id);
    if i == |s.dedicates| then s
    else s.(dedicates := s.dedicates[..i] + s.dedicates[i + 1..],
            depTx := s.depTx + [SyncDependency(deps)])
  }

  /** A new dedicate starts from a copy of the primary's VFS. */
  function OnRestart(s: State, id: string, deps: seq<Path>): State {
    var s1 := OnRemove(s, id, deps);
    s1.(dedicates := s1.dedicates + [s.primary.(id := id)])
  }

  function OnClear(s: State): State {
    s.(dedicates := [])
  }

  function OnCompiled(s: State, deps: seq<Path>): State {
    s.(depTx := s.depTx + [SyncDependency(deps)])
  }
}
