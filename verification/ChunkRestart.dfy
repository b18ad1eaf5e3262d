/** Chunk stores across restarts at any moment: how far the size of the files can be from the total. */
module ChunkRestart {
  import opened Collections
  import opened BlobRegister
  import opened UsedSpace
  import opened ChunkStore

  /** The running stores, and the files in directories no store is open on. For the record: the values adopted on
      reopening since the last restart, and the sizes of files that a restart left behind although their space had
      been released, by directory and for the directories reopened since. */
  datatype Site = Site(
    world: ChunkStore.World,
    shut: map<Dir, Files>,
    adopted: nat,
    orphaned: nat,
    orphans: map<Dir, nat>)

  datatype SiteStep = Work(step: ChunkStore.Step) | Reopen(dir: Dir) | Halt

  ghost predicate OpenOn(w: ChunkStore.World, dir: Dir, id: StoreId)
  {
    id in w.stores && id in w.space.locals && w.space.locals[id].dir == dir
  }

  ghost predicate IsOpen(w: ChunkStore.World, dir: Dir)
  {
    exists id :: OpenOn(w, dir, id)
  }

  ghost function StoreOn(w: ChunkStore.World, dir: Dir): (store: StoreState)
    requires IsOpen(w, dir)
  {
    var id :| OpenOn(w, dir, id);
    w.stores[id]
  }

  function OrphansIn(orphans: map<Dir, nat>, dir: Dir): nat
  {
    if dir in orphans then orphans[dir] else 0
  }

  function FilesIn(shut: map<Dir, Files>, dir: Dir): Files
  {
    if dir in shut then shut[dir] else map[]
  }

  ghost function Reopened(site: Site, dir: Dir): Site
  {
    var w := site.world;
    Site(ChunkStore.World(WithStore(w.space, dir), w.stores[w.space.nextId := StoreState(FilesIn(site.shut, dir), Ready)]),
         site.shut - {dir},
         site.adopted + RecordedAt(w.space, dir),
         site.orphaned + OrphansIn(site.orphans, dir),
         site.orphans)
  }

  /** Memory is lost, with whatever was in progress; files and records stay. */
  ghost function Halted(site: Site): Site
  {
    var w := site.world;
    var dirs := set id | id in w.space.locals :: w.space.locals[id].dir;
    Site(ChunkStore.World(NewSpace(w.space.maxCapacity, w.space.records), map[]),
         map d | d in site.shut.Keys + dirs :: if IsOpen(w, d) then StoreOn(w, d).files else FilesIn(site.shut, d),
         0,
         0,
         map d | d in site.orphans.Keys + dirs ::
           OrphansIn(site.orphans, d) + if IsOpen(w, d) then Early(StoreOn(w, d)) else 0)
  }

  ghost function Next(site: Site, step: SiteStep): Site
  {
    match step
    case Work(s) => if s.Open? then site else site.(world := ChunkStore.Next(site.world, s))
    case Reopen(dir) => if IsOpen(site.world, dir) then site else Reopened(site, dir)
    case Halt => Halted(site)
  }

  ghost function Run(site: Site, steps: seq<SiteStep>): Site
  {
    if steps == [] then site else Next(Run(site, steps[..|steps| - 1]), steps[|steps| - 1])
  }

  function NewSite(maxCapacity: nat): Site
  {
    Site(ChunkStore.World(NewSpace(maxCapacity, map[]), map[]), map[], 0, 0, map[])
  }

  // ---------- what a store uses ----------

  /** The files, and the file about to be written. */
  ghost function Use(store: StoreState): nat
  {
    FileSum(store.files) + Ahead(store)
  }

  ghost function Uses(stores: map<StoreId, StoreState>): map<StoreId, nat>
  {
    map id | id in stores :: Use(stores[id])
  }

  function Earlies(stores: map<StoreId, StoreState>): map<StoreId, nat>
  {
    map id | id in stores :: Early(stores[id])
  }

  /** A charge x is at least as close to the use of the store as x was before. */
  ghost predicate Moves(store: StoreState, x: nat, store': StoreState, x': nat)
  {
    Use(store') + Early(store) + x <= Use(store) + Early(store') + x'
  }

  /** One store goes on, with its local value, its record and the total. */
  ghost predicate Changes(w: ChunkStore.World, after: ChunkStore.World, id: StoreId)
  {
    && id in w.stores && id in w.space.locals && id in after.stores && id in after.space.locals
    && after.stores == w.stores[id := after.stores[id]]
    && after.space.locals == w.space.locals[id := LocalUsedSpace(after.space.locals[id].value, w.space.locals[id].dir)]
    && after.space.records == w.space.records[w.space.locals[id].dir := after.space.locals[id].value]
    && after.space.nextId == w.space.nextId
    && PhaseOk(after.stores[id])
    && Moves(w.stores[id], w.space.locals[id].value, after.stores[id], after.space.locals[id].value)
    && Moves(w.stores[id], w.space.total, after.stores[id], after.space.total)
  }

  /** The store and its record, before a step. */
  ghost predicate Steady(w: ChunkStore.World, id: StoreId)
  {
    && id in w.stores && id in w.space.locals && PhaseOk(w.stores[id])
    && w.space.locals[id].dir in w.space.records
    && w.space.records[w.space.locals[id].dir] == w.space.locals[id].value
  }

  lemma SameSpace(w: ChunkStore.World, id: StoreId)
    requires Steady(w, id)
    ensures w.space.locals == w.space.locals[id := LocalUsedSpace(w.space.locals[id].value, w.space.locals[id].dir)]
    ensures w.space.records == w.space.records[w.space.locals[id].dir := w.space.locals[id].value]
  {
  }

  lemma BeginChanges(w: ChunkStore.World, id: StoreId, a: BlobAddress, next: Option<Chunk>)
    requires Steady(w, id) && w.stores[id].phase.Ready?
    requires next.Some? ==> next.value.address == a
    ensures Begin(w, id, a, next) == w || Changes(w, Begin(w, id, a, next), id)
  {
    SameSpace(w, id);
  }

  lemma AdvanceChanges(w: ChunkStore.World, id: StoreId, written: bool)
    requires Steady(w, id)
    ensures Advanced(w, id, written) == w || Changes(w, Advanced(w, id, written), id)
  {
    var store := w.stores[id];
    SameSpace(w, id);
    match store.phase {
      case Ready =>
      case Released(a, next) => FileRemoved(store.files, a);
      case Removed(c) =>
      case Reserved(c) => FileAdded(store.files, c);
      case Unwritten(c) =>
    }
  }

  // ---------- the invariant ----------

  ghost predicate StoreBounded(value: nat, store: StoreState, orphans: nat)
  {
    Use(store) <= value + Early(store) + orphans
  }

  ghost predicate Opened(w: ChunkStore.World)
  {
    && w.stores.Keys == w.space.locals.Keys
    && (forall id :: id in w.space.locals ==> id < w.space.nextId)
    && (forall id :: id in w.stores ==> Steady(w, id))
    && (forall i, j :: i in w.space.locals && j in w.space.locals && w.space.locals[i].dir == w.space.locals[j].dir ==> i == j)
  }

  /** The bound: files and files about to be written, against the total, what was adopted and what was left behind. */
  ghost predicate Bounded(site: Site)
  {
    Total(Uses(site.world.stores)) <=
    site.world.space.total + site.adopted + site.orphaned + Total(Earlies(site.world.stores))
  }

  /** Each store's files, against its own value. */
  ghost predicate EachBounded(w: ChunkStore.World, orphans: map<Dir, nat>)
    requires Opened(w)
  {
    forall id :: id in w.stores ==>
      StoreBounded(w.space.locals[id].value, w.stores[id], OrphansIn(orphans, w.space.locals[id].dir))
  }

  /** The files of a closed directory, against its record. */
  ghost predicate ShutBounded(w: ChunkStore.World, shut: map<Dir, Files>, orphans: map<Dir, nat>)
  {
    forall d :: d in shut ==> !IsOpen(w, d) && FileSum(shut[d]) <= RecordedAt(w.space, d) + OrphansIn(orphans, d)
  }

  ghost predicate SiteOk(site: Site)
  {
    && Opened(site.world)
    && EachBounded(site.world, site.orphans)
    && ShutBounded(site.world, site.shut, site.orphans)
    && Bounded(site)
  }

  lemma SumsChange(stores: map<StoreId, StoreState>, id: StoreId, store: StoreState)
    requires id in stores
    ensures Total(Uses(stores[id := store])) + Use(stores[id]) == Total(Uses(stores)) + Use(store)
    ensures Total(Earlies(stores[id := store])) + Early(stores[id]) == Total(Earlies(stores)) + Early(store)
  {
    TotalUpdate(Uses(stores), id, Use(store));
    TotalUpdate(Earlies(stores), id, Early(store));
    assert Uses(stores[id := store]) == Uses(stores)[id := Use(store)];
    assert Earlies(stores[id := store]) == Earlies(stores)[id := Early(store)];
  }

  lemma ChangeKeepsOpened(w: ChunkStore.World, after: ChunkStore.World, id: StoreId)
    requires Opened(w) && Changes(w, after, id)
    ensures Opened(after)
    ensures forall d :: IsOpen(after, d) <==> IsOpen(w, d)
  {
    assert after.stores.Keys == w.stores.Keys && after.space.locals.Keys == w.space.locals.Keys;
    forall i | i in after.stores ensures Steady(after, i) {
      assert Steady(w, i);
    }
    forall d ensures IsOpen(after, d) <==> IsOpen(w, d) {
      assert forall i :: OpenOn(after, d, i) <==> OpenOn(w, d, i);
    }
  }

  lemma ChangeKeepsEach(w: ChunkStore.World, after: ChunkStore.World, id: StoreId, orphans: map<Dir, nat>)
    requires Opened(w) && Opened(after) && Changes(w, after, id) && EachBounded(w, orphans)
    ensures EachBounded(after, orphans)
  {
    forall i | i in after.stores
      ensures StoreBounded(after.space.locals[i].value, after.stores[i], OrphansIn(orphans, after.space.locals[i].dir))
    {
      assert StoreBounded(w.space.locals[i].value, w.stores[i], OrphansIn(orphans, w.space.locals[i].dir));
    }
  }

  lemma ChangeKeepsShut(w: ChunkStore.World, after: ChunkStore.World, id: StoreId, shut: map<Dir, Files>, orphans: map<Dir, nat>)
    requires Changes(w, after, id) && ShutBounded(w, shut, orphans)
    requires forall d :: IsOpen(after, d) <==> IsOpen(w, d)
    ensures ShutBounded(after, shut, orphans)
  {
    assert OpenOn(w, w.space.locals[id].dir, id);
  }

  lemma ChangeKeepsBound(site: Site, after: ChunkStore.World, id: StoreId)
    requires Bounded(site) && Changes(site.world, after, id)
    ensures Bounded(site.(world := after))
  {
    SumsChange(site.world.stores, id, after.stores[id]);
  }

  lemma ChangeKeeps(site: Site, after: ChunkStore.World, id: StoreId)
    requires SiteOk(site) && Changes(site.world, after, id)
    ensures SiteOk(site.(world := after))
  {
    ChangeKeepsOpened(site.world, after, id);
    ChangeKeepsEach(site.world, after, id, site.orphans);
    ChangeKeepsShut(site.world, after, id, site.shut, site.orphans);
    ChangeKeepsBound(site, after, id);
  }

  lemma WorkKeeps(site: Site, step: ChunkStore.Step)
    requires SiteOk(site) && !step.Open?
    ensures SiteOk(site.(world := ChunkStore.Next(site.world, step)))
  {
    var w := site.world;
    assert site.(world := w) == site;
    if step.id in w.stores {
      assert Steady(w, step.id);
      match step {
        case BeginPut(id, c) =>
          if w.stores[id].phase.Ready? {
            BeginChanges(w, id, c.address, Some(c));
          }
        case BeginDelete(id, a) =>
          if w.stores[id].phase.Ready? {
            BeginChanges(w, id, a, None);
          }
        case Advance(id, written) => AdvanceChanges(w, id, written);
      }
      if ChunkStore.Next(w, step) != w {
        ChangeKeeps(site, ChunkStore.Next(w, step), step.id);
      }
    }
  }

  lemma UsesGrow(stores: map<StoreId, StoreState>, id: StoreId, store: StoreState)
    requires id !in stores
    ensures Total(Uses(stores[id := store])) == Total(Uses(stores)) + Use(store)
  {
    TotalInsert(Uses(stores), id, Use(store));
    assert Uses(stores[id := store]) == Uses(stores)[id := Use(store)];
  }

  lemma EarliesGrow(stores: map<StoreId, StoreState>, id: StoreId, store: StoreState)
    requires id !in stores
    ensures Total(Earlies(stores[id := store])) == Total(Earlies(stores)) + Early(store)
  {
    TotalInsert(Earlies(stores), id, Early(store));
    assert Earlies(stores[id := store]) == Earlies(stores)[id := Early(store)];
  }

  lemma ReopenKeepsOpened(w: ChunkStore.World, dir: Dir, files: Files)
    requires Opened(w) && !IsOpen(w, dir)
    ensures
      var after := ChunkStore.World(WithStore(w.space, dir), w.stores[w.space.nextId := StoreState(files, Ready)]);
      Opened(after) && forall d :: IsOpen(after, d) <==> IsOpen(w, d) || d == dir
  {
    var id := w.space.nextId;
    var after := ChunkStore.World(WithStore(w.space, dir), w.stores[id := StoreState(files, Ready)]);
    forall i | i in w.stores ensures w.space.locals[i].dir != dir {
      assert w.space.locals[i].dir == dir ==> OpenOn(w, dir, i);
    }
    forall i | i in after.stores ensures Steady(after, i) {
      assert i != id ==> Steady(w, i);
    }
    assert OpenOn(after, dir, id);
    forall d ensures IsOpen(after, d) <==> IsOpen(w, d) || d == dir {
      assert forall i :: OpenOn(after, d, i) <==> OpenOn(w, d, i) || (i == id && d == dir);
    }
  }

  lemma ReopenBound(site: Site, dir: Dir)
    requires Bounded(site) && site.world.space.nextId !in site.world.stores
    requires FileSum(FilesIn(site.shut, dir)) <= RecordedAt(site.world.space, dir) + OrphansIn(site.orphans, dir)
    ensures Bounded(Reopened(site, dir))
  {
    var store := StoreState(FilesIn(site.shut, dir), Ready);
    UsesGrow(site.world.stores, site.world.space.nextId, store);
    EarliesGrow(site.world.stores, site.world.space.nextId, store);
  }

  lemma ReopenEach(site: Site, dir: Dir)
    requires Opened(site.world) && EachBounded(site.world, site.orphans) && Opened(Reopened(site, dir).world)
    requires FileSum(FilesIn(site.shut, dir)) <= RecordedAt(site.world.space, dir) + OrphansIn(site.orphans, dir)
    ensures EachBounded(Reopened(site, dir).world, site.orphans)
  {
    var w, after := site.world, Reopened(site, dir).world;
    forall i | i in after.stores
      ensures StoreBounded(after.space.locals[i].value, after.stores[i], OrphansIn(site.orphans, after.space.locals[i].dir))
    {
      if i in w.stores {
        assert StoreBounded(w.space.locals[i].value, w.stores[i], OrphansIn(site.orphans, w.space.locals[i].dir));
      }
    }
  }

  lemma ReopenKeeps(site: Site, dir: Dir)
    requires SiteOk(site) && !IsOpen(site.world, dir)
    ensures SiteOk(Reopened(site, dir))
  {
    NoFiles();
    assert FileSum(FilesIn(site.shut, dir)) <= RecordedAt(site.world.space, dir) + OrphansIn(site.orphans, dir);
    ReopenKeepsOpened(site.world, dir, FilesIn(site.shut, dir));
    ReopenEach(site, dir);
    ReopenBound(site, dir);
  }

  lemma StoreOnIs(w: ChunkStore.World, dir: Dir) returns (id: StoreId)
    requires Opened(w) && IsOpen(w, dir)
    ensures OpenOn(w, dir, id) && StoreOn(w, dir) == w.stores[id]
  {
    id :| OpenOn(w, dir, id) && StoreOn(w, dir) == w.stores[id];
  }

  lemma NothingOpen(maxCapacity: nat, records: map<Dir, nat>)
    ensures
      var w := ChunkStore.World(NewSpace(maxCapacity, records), map[]);
      Opened(w) && Total(Uses(w.stores)) == 0 && forall d :: !IsOpen(w, d)
  {
    assert Uses(map[]) == map[];
  }

  lemma HaltKeeps(site: Site)
    requires SiteOk(site)
    ensures SiteOk(Halted(site))
  {
    var w, after := site.world, Halted(site);
    NothingOpen(w.space.maxCapacity, w.space.records);
    forall d | d in after.shut
      ensures FileSum(after.shut[d]) <= RecordedAt(after.world.space, d) + OrphansIn(after.orphans, d)
    {
      if IsOpen(w, d) {
        var id := StoreOnIs(w, d);
        assert Steady(w, id);
        assert StoreBounded(w.space.locals[id].value, w.stores[id], OrphansIn(site.orphans, d));
        assert d in after.orphans;
      } else {
        ShutStays(site, d);
      }
    }
  }

  lemma ShutStays(site: Site, d: Dir)
    requires SiteOk(site) && d in Halted(site).shut && !IsOpen(site.world, d)
    ensures d in site.shut && Halted(site).shut[d] == site.shut[d]
    ensures OrphansIn(Halted(site).orphans, d) == OrphansIn(site.orphans, d)
  {
    var w := site.world;
    forall id | id in w.space.locals ensures w.space.locals[id].dir != d {
      assert w.space.locals[id].dir == d ==> OpenOn(w, d, id);
    }
  }

  lemma {:induction false} AlwaysSiteOk(maxCapacity: nat, steps: seq<SiteStep>)
    ensures SiteOk(Run(NewSite(maxCapacity), steps))
  {
    if steps == [] {
      NothingOpen(maxCapacity, map[]);
    } else {
      var before, last := Run(NewSite(maxCapacity), steps[..|steps| - 1]), steps[|steps| - 1];
      AlwaysSiteOk(maxCapacity, steps[..|steps| - 1]);
      match last {
        case Work(s) =>
          if !s.Open? {
            WorkKeeps(before, s);
          }
        case Reopen(dir) =>
          if !IsOpen(before.world, dir) {
            ReopenKeeps(before, dir);
          }
        case Halt => HaltKeeps(before);
      }
    }
  }

  // ---------- the bounds ----------

  ghost predicate AtRest(w: ChunkStore.World)
  {
    forall id :: id in w.stores ==> w.stores[id].phase.Ready?
  }

  lemma RestSums(w: ChunkStore.World)
    requires AtRest(w)
    ensures Total(Uses(w.stores)) == DiskUse(w.stores) && Total(Earlies(w.stores)) == 0
  {
    assert Uses(w.stores) == FileSums(w.stores);
    SumZero(Earlies(w.stores).Keys, Earlies(w.stores));
  }

  /** Over every run with restarts at any moment and reopened directories: whenever no operation is in progress the
      files of all stores exceed the total by no more than the values adopted on reopening and the sizes of files
      left behind by a restart between their release and their removal. */
  lemma DiskBounded(maxCapacity: nat, steps: seq<SiteStep>)
    ensures
      var site := Run(NewSite(maxCapacity), steps);
      AtRest(site.world) ==> DiskUse(site.world.stores) <= site.world.space.total + site.adopted + site.orphaned
  {
    var site := Run(NewSite(maxCapacity), steps);
    AlwaysSiteOk(maxCapacity, steps);
    if AtRest(site.world) {
      RestSums(site.world);
    }
  }

  /** Every restart of the run comes at rest. */
  ghost predicate OrderlyRun(site: Site, steps: seq<SiteStep>)
  {
    forall k :: 0 <= k < |steps| && steps[k].Halt? ==> AtRest(Run(site, steps[..k]).world)
  }

  ghost predicate NoOrphans(site: Site)
  {
    site.orphaned == 0 && forall d :: d in site.orphans ==> site.orphans[d] == 0
  }

  lemma HaltAtRest(site: Site)
    requires SiteOk(site) && NoOrphans(site) && AtRest(site.world)
    ensures NoOrphans(Halted(site))
  {
    forall d | d in Halted(site).orphans ensures Halted(site).orphans[d] == 0 {
      if IsOpen(site.world, d) {
        var id := StoreOnIs(site.world, d);
      }
    }
  }

  lemma {:induction false} NothingLeftBehind(maxCapacity: nat, steps: seq<SiteStep>)
    requires OrderlyRun(NewSite(maxCapacity), steps)
    ensures NoOrphans(Run(NewSite(maxCapacity), steps))
  {
    if steps != [] {
      var k := |steps| - 1;
      var before := Run(NewSite(maxCapacity), steps[..k]);
      assert forall j :: 0 <= j < k ==> steps[..k][..j] == steps[..j];
      NothingLeftBehind(maxCapacity, steps[..k]);
      AlwaysSiteOk(maxCapacity, steps[..k]);
      if steps[k].Halt? {
        HaltAtRest(before);
      }
    }
  }

  /** With restarts at rest only, the files exceed the total by no more than the values adopted on reopening. */
  lemma OrderlyDiskBounded(maxCapacity: nat, steps: seq<SiteStep>)
    requires OrderlyRun(NewSite(maxCapacity), steps)
    ensures
      var site := Run(NewSite(maxCapacity), steps);
      AtRest(site.world) ==> DiskUse(site.world.stores) <= site.world.space.total + site.adopted
  {
    DiskBounded(maxCapacity, steps);
    NothingLeftBehind(maxCapacity, steps);
  }
}
