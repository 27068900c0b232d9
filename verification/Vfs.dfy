/** The virtual file system shared by the watcher and the compiler: snapshots,
    changesets, memory events and the events the watcher sends. A VFS is kept as
    two maps, editor buffers (shadow) over the watcher's view (disk). */
module Vfs {
  import opened Bytes
  import opened Options

  datatype Path = Path(name: string)

  datatype FileError =
    | NotFound(path: Path)
    | AccessDenied
    | IsDirectory
    | NotSource
    | InvalidUtf8
    | Package(reason: string)
    | Other(message: Option<string>)

  datatype Snapshot = Ok(bytes: seq<byte>) | Err(error: FileError)

  /** A read that found some content. */
  predicate NonEmpty(s: Snapshot) {
    s.Ok? && s.bytes != []
  }

  /** A snapshot together with its place in the watcher's log of reads. The serial is
      history: no branch of the model looks at it. */
  datatype Reading = Reading(snapshot: Snapshot, serial: nat)

  datatype Insert<+V> = Insert(path: Path, value: V)

  datatype ChangeSet<+V> = ChangeSet(removes: seq<Path>, inserts: seq<Insert<V>>) {
    predicate IsEmpty() {
      removes == [] && inserts == []
    }
  }

  const NO_CHANGES: ChangeSet<Reading> := ChangeSet([], [])

  function InsertAll<V>(m: map<Path, V>, inserts: seq<Insert<V>>): map<Path, V> {
    if inserts == [] then m
    else
      var last := inserts[|inserts| - 1];
      InsertAll(m, inserts[..|inserts| - 1])[last.path := last.value]
  }

  /** Removals first, then insertions in order. */
  function Apply<V>(m: map<Path, V>, changes: ChangeSet<V>): map<Path, V> {
    InsertAll(m - (set p | p in changes.removes), changes.inserts)
  }

  ghost function InsertedPaths<V>(inserts: seq<Insert<V>>): set<Path> {
    set x | x in inserts :: x.path
  }

  datatype MemoryEvent = Sync(changes: ChangeSet<Snapshot>) | Update(changes: ChangeSet<Snapshot>)

  /** What a memory event does to the editor buffers. */
  function ApplyMemory(shadow: map<Path, Snapshot>, event: MemoryEvent): map<Path, Snapshot> {
    Apply(if event.Sync? then map[] else shadow, event.changes)
  }

  /** The opaque payload of a delayed memory event. The serial is its place among the
      memory events the compiler received; it is history. */
  datatype TaggedMemoryEvent = TaggedMemoryEvent(logicalTick: nat, event: MemoryEvent, serial: nat)

  datatype UpstreamEvent = UpstreamEvent(invalidates: seq<Path>, tagged: TaggedMemoryEvent)

  datatype FsEvent =
    | FsUpdate(changes: ChangeSet<Reading>, isSync: bool)
    | FsUpstreamUpdate(changes: ChangeSet<Reading>, upstream: UpstreamEvent)

  datatype NotifyMessage =
    | SyncDependency(paths: seq<Path>)
    | UpstreamUpdate(event: UpstreamEvent)

  /** The consumer's view after receiving the events in order. */
  function Consumer(events: seq<FsEvent>): map<Path, Reading> {
    if events == [] then map[]
    else Apply(Consumer(events[..|events| - 1]), events[|events| - 1].changes)
  }

  lemma ConsumerAppend(events: seq<FsEvent>, e: FsEvent)
    ensures Consumer(events + [e]) == Apply(Consumer(events), e.changes)
  {
    assert (events + [e])[..|events|] == events;
  }

  /** Insertion k is the last one of its path. */
  ghost predicate IsLast<V>(inserts: seq<Insert<V>>, k: nat) {
    k < |inserts| && forall j :: k < j < |inserts| ==> inserts[j].path != inserts[k].path
  }

  lemma {:induction false} InsertAllAt<V>(m: map<Path, V>, inserts: seq<Insert<V>>, p: Path)
    ensures p in InsertAll(m, inserts) <==> p in m || p in InsertedPaths(inserts)
    ensures p in m && p !in InsertedPaths(inserts) ==> InsertAll(m, inserts)[p] == m[p]
    ensures p in InsertedPaths(inserts) ==>
      exists k: nat :: IsLast(inserts, k) && inserts[k] == Insert(p, InsertAll(m, inserts)[p])
  {
    if inserts != [] {
      var n := |inserts| - 1;
      InsertAllAt(m, inserts[..n], p);
      assert inserts == inserts[..n] + [inserts[n]];
      assert InsertedPaths(inserts) == InsertedPaths(inserts[..n]) + {inserts[n].path};
      if inserts[n].path == p {
        assert IsLast(inserts, n);
      } else if p in InsertedPaths(inserts) {
        var k: nat :| IsLast(inserts[..n], k) && inserts[..n][k] == Insert(p, InsertAll(m, inserts[..n])[p]);
        assert IsLast(inserts, k) && inserts[k] == inserts[..n][k];
      }
    }
  }

  /** One more insertion at the end of a changeset wins. */
  lemma ApplyPushInsert<V>(m: map<Path, V>, c: ChangeSet<V>, x: Insert<V>)
    ensures Apply(m, c.(inserts := c.inserts + [x])) == Apply(m, c)[x.path := x.value]
  {
    assert (c.inserts + [x])[..|c.inserts|] == c.inserts;
  }

  /** One more removal, of a path the changeset does not insert. */
  lemma ApplyPushRemove<V>(m: map<Path, V>, c: ChangeSet<V>, p: Path)
    requires p !in InsertedPaths(c.inserts)
    ensures Apply(m, c.(removes := c.removes + [p])) == Apply(m, c) - {p}
  {
    var r0, r1 := set q | q in c.removes, set q | q in c.removes + [p];
    assert r1 == r0 + {p};
    InsertAllWithout(m - r0, c.inserts, p);
    assert m - r1 == (m - r0) - {p};
  }

  lemma {:induction false} InsertAllWithout<V>(m: map<Path, V>, inserts: seq<Insert<V>>, p: Path)
    requires p !in InsertedPaths(inserts)
    ensures InsertAll(m - {p}, inserts) == InsertAll(m, inserts) - {p}
  {
    if inserts != [] {
      var n := |inserts| - 1;
      assert inserts == inserts[..n] + [inserts[n]];
      assert p !in InsertedPaths(inserts[..n]) by {
        assert forall x :: x in inserts[..n] ==> x in inserts;
      }
      InsertAllWithout(m, inserts[..n], p);
      assert inserts[n] in inserts;
    }
  }
}
