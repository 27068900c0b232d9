/** The project compiler: its handling of memory and file system interrupts and of
    dedicated projects, proved against the functions of CompilerModel. */
module Compiler {
  import opened Options
  import opened Vfs
  import opened CompilerModel

  /** Applies a memory event to the buffers of a project, change by change. */
  method ApplyMemoryChanges(proj: Project, event: MemoryEvent) returns (changed: Project)
    ensures changed == Remember(proj, event)
  {
    var shadow := if event.Sync? then map[] else proj.shadow;
    ghost var start := shadow;
    var changes := event.changes;
    for i := 0 to |changes.removes|
      invariant shadow == start - (set p | p in changes.removes[..i])
    {
      assert changes.removes[..i + 1] == changes.removes[..i] + [changes.removes[i]];
      shadow := shadow - {changes.removes[i]};
    }
    assert changes.removes[..|changes.removes|] == changes.removes;
    ghost var removed := shadow;
    for i := 0 to |changes.inserts|
      invariant shadow == InsertAll(removed, changes.inserts[..i])
    {
      assert changes.inserts[..i + 1][..i] == changes.inserts[..i];
      shadow := shadow[changes.inserts[i].path := changes.inserts[i].value];
    }
    assert changes.inserts[..|changes.inserts|] == changes.inserts;
    changed := proj.(shadow := shadow);
  }

  /** The paths of a set, each once, in any order. */
  method Collect(paths: set<Path>) returns (list: seq<Path>)
    ensures (set p | p in list) == paths && |list| == |paths|
  {
    list := [];
    var todo := paths;
    while todo != {}
      invariant (set p | p in list) == paths - todo && todo <= paths
      invariant |list| + |todo| == |paths|
      decreases todo
    {
      var p :| p in todo;
      assert (set q | q in list + [p]) == (set q | q in list) + {p};
      list := list + [p];
      todo := todo - {p};
    }
  }

  /** The index where a linear search stops is the one the model finds. */
  lemma {:induction false} FindIs(dedicates: seq<Project>, id: string, i: nat)
    requires i <= |dedicates|
    requires i < |dedicates| ==> dedicates[i].id == id
    requires forall j :: 0 <= j < i ==> dedicates[j].id != id
    ensures Find(dedicates, id) == i
  {
    if i > 0 {
      FindIs(dedicates[1..], id, i - 1);
    }
  }

  class ProjectCompiler {
    var logicalTick: nat
    var dirtyShadowLogicalTick: nat
    var estimatedShadowFiles: set<Path>
    var primary: Project
    var dedicates: seq<Project>
    /** Every message sent to the watcher. */
    var depTx: seq<NotifyMessage>

    /** Numbers the memory events, for the serials of delayed ones. */
    var receivedCount: nat

    /** The state with its history. */
    ghost var model: State

    ghost predicate Linked()
      reads this
    {
      && model.logicalTick == logicalTick
      && model.dirty == dirtyShadowLogicalTick
      && model.estimated == estimatedShadowFiles
      && model.primary == primary
      && model.dedicates == dedicates
      && model.depTx == depTx
      && |model.received| == receivedCount
    }

    constructor ()
      ensures Linked() && model == CompilerModel.Init()
    {
      logicalTick, dirtyShadowLogicalTick, estimatedShadowFiles := 1, 0, {};
      primary, dedicates, depTx := Project(PRIMARY, map[], map[]), [], [];
      receivedCount := 0;
      model := CompilerModel.Init();
    }

    /** Emulates the event on the estimate and collects the files to invalidate. */
    method EmulateMemory(event: MemoryEvent) returns (files: set<Path>)
      modifies `estimatedShadowFiles
      ensures files == Invalidated(old(estimatedShadowFiles), event)
      ensures estimatedShadowFiles == NextEstimate(old(estimatedShadowFiles), event)
    {
      files := {};
      if event.Sync? {
        files, estimatedShadowFiles := estimatedShadowFiles, files;
      }
      ghost var files0, estimate0 := files, estimatedShadowFiles;
      var changes := event.changes;
      for i := 0 to |changes.removes|
        invariant files == files0 + (set p | p in changes.removes[..i])
        invariant estimatedShadowFiles == estimate0 - (set p | p in changes.removes[..i])
      {
        assert changes.removes[..i + 1] == changes.removes[..i] + [changes.removes[i]];
        estimatedShadowFiles := estimatedShadowFiles - {changes.removes[i]};
        files := files + {changes.removes[i]};
      }
      assert changes.removes[..|changes.removes|] == changes.removes;
      ghost var files1, estimate1 := files, estimatedShadowFiles;
      for i := 0 to |changes.inserts|
        invariant files == files1 - (set j | 0 <= j < i :: changes.inserts[j].path)
        invariant estimatedShadowFiles == estimate1 + (set j | 0 <= j < i :: changes.inserts[j].path)
      {
        estimatedShadowFiles := estimatedShadowFiles + {changes.inserts[i].path};
        files := files - {changes.inserts[i].path};
      }
    }

    /** Applies a memory event to the primary and to every dedicate. */
    method ApplyToAll(event: MemoryEvent)
      modifies `primary, `dedicates
      ensures primary == Remember(old(primary), event)
      ensures dedicates == RememberAll(old(dedicates), event)
    {
      primary := ApplyMemoryChanges(primary, event);
      ghost var start := dedicates;
      for i := 0 to |dedicates|
        invariant |dedicates| == |start| && primary == Remember(old(primary), event)
        invariant forall j :: 0 <= j < |start| ==>
          dedicates[j] == if j < i then Remember(start[j], event) else start[j]
      {
        var changed := ApplyMemoryChanges(dedicates[i], event);
        dedicates := dedicates[i := changed];
      }
    }

    /** The interrupt Memory. */
    method ProcessMemory(event: MemoryEvent) returns (ghost invalidates: seq<Path>)
      requires Linked()
      modifies this
      ensures Linked() && model == OnMemory(old(model), event, invalidates)
      ensures (set p | p in invalidates) == Invalidated(old(model).estimated, event)
    {
      hide Invalidated, NextEstimate, Remember, RememberAll;
      var files := EmulateMemory(event);
      invalidates := [];
      if files == {} && dirtyShadowLogicalTick == 0 {
        ApplyToAll(event);
      } else {
        dirtyShadowLogicalTick := logicalTick;
        var list := Collect(files);
        var tagged := TaggedMemoryEvent(logicalTick, event, receivedCount);
        depTx := depTx + [UpstreamUpdate(UpstreamEvent(list, tagged))];
        invalidates := list;
      }
      receivedCount := receivedCount + 1;
      model := OnMemory(model, event, invalidates);
    }

    /** The delayed memory event of an answer, if it carries one, for one project. The
        first project to see it clears the dirty mark. */
    method ApplyDelayedMemoryChanges(proj: Project, e: FsEvent) returns (changed: Project)
      modifies `dirtyShadowLogicalTick
      ensures changed == if e.FsUpstreamUpdate? then Remember(proj, e.upstream.tagged.event) else proj
      ensures dirtyShadowLogicalTick ==
        if e.FsUpstreamUpdate? && e.upstream.tagged.logicalTick == old(dirtyShadowLogicalTick) then 0
        else old(dirtyShadowLogicalTick)
    {
      changed := proj;
      if e.FsUpstreamUpdate? {
        if e.upstream.tagged.logicalTick == dirtyShadowLogicalTick {
          dirtyShadowLogicalTick := 0;
        }
        changed := ApplyMemoryChanges(proj, e.upstream.tagged.event);
      }
    }

    /** The interrupt Fs. */
    method ProcessFs(e: FsEvent)
      requires Linked()
      modifies this
      ensures Linked() && model == OnFs(old(model), e)
    {
      ghost var start, dirty := dedicates, dirtyShadowLogicalTick;
      ghost var cleared :=
        if e.FsUpstreamUpdate? && e.upstream.tagged.logicalTick == dirty then 0 else dirty;
      var proj := ApplyDelayedMemoryChanges(primary, e);
      primary := proj.(disk := Apply(proj.disk, e.changes));
      for i := 0 to |dedicates|
        invariant |dedicates| == |start| && dirtyShadowLogicalTick == cleared
        invariant primary == OnFsProject(old(primary), e)
        invariant model == old(model) && model.depTx == depTx && |model.received| == receivedCount
        invariant model.logicalTick == logicalTick && model.estimated == estimatedShadowFiles
        invariant forall j :: 0 <= j < |start| ==>
          dedicates[j] == if j < i then OnFsProject(start[j], e) else start[j]
      {
        proj := ApplyDelayedMemoryChanges(dedicates[i], e);
        dedicates := dedicates[i := proj.(disk := Apply(proj.disk, e.changes))];
      }
      model := OnFs(model, e);
      assert dedicates == model.dedicates;
    }

    /** Drops the first dedicate with the id and announces the dependencies left. */
    method RemoveDedicates(id: string, deps: seq<Path>)
      requires Linked()
      modifies this
      ensures Linked() && model == OnRemove(old(model), id, deps)
    {
      var i := 0;
      while i < |dedicates| && dedicates[i].id != id
        invariant i <= |dedicates| && forall j :: 0 <= j < i ==> dedicates[j].id != id
      {
        i := i + 1;
      }
      FindIs(dedicates, id, i);
      if i < |dedicates| {
        dedicates := dedicates[..i] + dedicates[i + 1..];
        depTx := depTx + [SyncDependency(deps)];
      }
      model := OnRemove(model, id, deps);
    }

    /** Starts a dedicate from a fork of the primary's VFS, replacing one of the same id. */
    method RestartDedicate(id: string, deps: seq<Path>)
      requires Linked()
      modifies this
      ensures Linked() && model == OnRestart(old(model), id, deps)
    {
      var proj := Project(id, primary.shadow, primary.disk);
      ghost var start := model;
      RemoveDedicates(id, deps);
      dedicates := dedicates + [proj];
      model := OnRestart(start, id, deps);
    }

    method ClearDedicates()
      requires Linked()
      modifies this
      ensures Linked() && model == OnClear(old(model))
    {
      dedicates := [];
      model := OnClear(model);
    }

    /** The interrupt Compiled: the dependencies after a finished compilation. */
    method ProcessCompiled(deps: seq<Path>)
      requires Linked()
      modifies this
      ensures Linked() && model == OnCompiled(old(model), deps)
      ensures depTx == old(depTx) + [SyncDependency(deps)]
    {
      depTx := depTx + [SyncDependency(deps)];
      model := OnCompiled(model, deps);
    }
  }
}
