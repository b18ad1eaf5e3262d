/** Chunk files on disk, charged to the space account; any number of stores working at the same time. */
module ChunkStore {
  import opened Collections
  import opened Arithmetic
  import opened BlobRegister
  import opened UsedSpace

  /** A chunk; `bytes` is its serialised form, whose length is what it takes on disk. */
  datatype Chunk = Chunk(address: BlobAddress, owner: Option<PublicKey>, bytes: seq<nat>)

  type Files = map<BlobAddress, Chunk>

  datatype StoreError = Space(error: SpaceError) | Io

  datatype PutResult = PutResult(space: UsedSpace.Space, files: Files, result: Result<(), StoreError>)

  function Size(c: Chunk): nat
  {
    |c.bytes|
  }

  function FileSizes(files: Files): map<BlobAddress, nat>
  {
    map a | a in files :: Size(files[a])
  }

  ghost function FileSum(files: Files): nat
  {
    Total(FileSizes(files))
  }

  // ---------- put and delete, uninterrupted ----------

  /** An existing file is released from the account, then removed. */
  function DeletedFile(s: UsedSpace.Space, id: StoreId, files: Files, a: BlobAddress): PutResult
  {
    if a !in files then PutResult(s, files, Ok(()))
    else
      var d := Decreased(s, id, Size(files[a]));
      match d.result
      case Err(e) => PutResult(d.space, files, Err(StoreError.Space(e)))
      case Ok(_) => PutResult(d.space, files - {a}, Ok(()))
  }

  /** The old file goes first; then space is reserved; then the file is written, and a failed write gives
      the space back. */
  function PutChunk(s: UsedSpace.Space, id: StoreId, files: Files, c: Chunk, written: bool): PutResult
  {
    var d := DeletedFile(s, id, files, c.address);
    match d.result
    case Err(e) => d
    case Ok(_) =>
      var i := Increased(d.space, id, Size(c));
      match i.result
      case Err(e) => PutResult(i.space, d.files, Err(StoreError.Space(e)))
      case Ok(_) =>
        if written then PutResult(i.space, d.files[c.address := c], Ok(()))
        else
          var back := Decreased(i.space, id, Size(c));
          match back.result
          case Err(e) => PutResult(back.space, d.files, Err(StoreError.Space(e)))
          case Ok(_) => PutResult(back.space, d.files, Err(Io))
  }

  /** The store of one directory, sharing the account with others. */
  class Store {
    const account: Account
    const id: StoreId
    var files: Files

    constructor (account: Account, dir: Dir, files: Files)
      modifies account
      ensures this.account == account && this.files == files
      ensures account.Value() == WithStore(old(account.Value()), dir) && id == old(account.nextId)
    {
      var id := account.AddLocalStore(dir);
      this.account := account;
      this.id := id;
      this.files := files;
    }

    method DoDelete(a: BlobAddress) returns (r: Result<(), StoreError>)
      modifies this, account
      ensures DeletedFile(old(account.Value()), id, old(files), a) == PutResult(account.Value(), files, r)
    {
      if a in files {
        var d := account.Decrease(id, Size(files[a]));
        if d.Err? {
          return Err(StoreError.Space(d.error));
        }
        files := files - {a};
      }
      r := Ok(());
    }

    method Put(c: Chunk, written: bool) returns (r: Result<(), StoreError>)
      modifies this, account
      ensures PutChunk(old(account.Value()), id, old(files), c, written) == PutResult(account.Value(), files, r)
    {
      r := DoDelete(c.address);
      if r.Err? {
        return;
      }
      var i := account.Increase(id, Size(c));
      if i.Err? {
        return Err(StoreError.Space(i.error));
      }
      if written {
        files := files[c.address := c];
        return Ok(());
      }
      var back := account.Decrease(id, Size(c));
      if back.Err? {
        return Err(StoreError.Space(back.error));
      }
      r := Err(Io);
    }

    method Delete(a: BlobAddress) returns (r: Result<(), StoreError>)
      modifies this, account
      ensures DeletedFile(old(account.Value()), id, old(files), a) == PutResult(account.Value(), files, r)
    {
      r := DoDelete(a);
    }

    /** A file is found under its own id or not at all. */
    method Get(a: BlobAddress) returns (c: Option<Chunk>)
      ensures c == if a in files && files[a].address == a then Some(files[a]) else None
    {
      if a !in files {
        return None;
      }
      c := if files[a].address == a then Some(files[a]) else None;
    }

    method Has(a: BlobAddress) returns (b: bool)
      ensures b <==> a in files
    {
      b := a in files;
    }
  }

  // ---------- the same in steps, interleaved with other stores ----------

  /** What a store is in the middle of. */
  datatype Phase =
    | Ready
    | Released(address: BlobAddress, next: Option<Chunk>)
    | Removed(chunk: Chunk)
    | Reserved(chunk: Chunk)
    | Unwritten(chunk: Chunk)

  datatype StoreState = StoreState(files: Files, phase: Phase)

  datatype World = World(space: UsedSpace.Space, stores: map<StoreId, StoreState>)

  datatype Step =
    | Open(dir: Dir)
    | BeginPut(id: StoreId, chunk: Chunk)
    | BeginDelete(id: StoreId, address: BlobAddress)
    | Advance(id: StoreId, written: bool)

  function With(w: World, s: UsedSpace.Space, id: StoreId, store: StoreState): World
  {
    World(s, w.stores[id := store])
  }

  /** The first thing put and delete do: release the space of the existing file, if there is one. */
  function Begin(w: World, id: StoreId, a: BlobAddress, next: Option<Chunk>): World
    requires id in w.stores
  {
    var store := w.stores[id];
    if a in store.files then
      var d := Decreased(w.space, id, Size(store.files[a]));
      if d.result.Ok? then With(w, d.space, id, store.(phase := Released(a, next))) else w
    else if next.Some? then With(w, w.space, id, store.(phase := Removed(next.value)))
    else w
  }

  function Next(w: World, step: Step): World
  {
    match step
    case Open(dir) =>
      if dir in w.space.records then w
      else World(WithStore(w.space, dir), w.stores[w.space.nextId := StoreState(map[], Ready)])
    case BeginPut(id, c) =>
      if id !in w.stores || !w.stores[id].phase.Ready? then w else Begin(w, id, c.address, Some(c))
    case BeginDelete(id, a) =>
      if id !in w.stores || !w.stores[id].phase.Ready? then w else Begin(w, id, a, None)
    case Advance(id, written) =>
      if id !in w.stores then w else Advanced(w, id, written)
  }

  function Advanced(w: World, id: StoreId, written: bool): World
    requires id in w.stores
  {
    var store := w.stores[id];
    match store.phase
    case Ready => w
    case Released(a, next) =>
      With(w, w.space, id, StoreState(store.files - {a}, if next.Some? then Removed(next.value) else Ready))
    case Removed(c) =>
      var i := Increased(w.space, id, Size(c));
      With(w, i.space, id, store.(phase := if i.result.Ok? then Reserved(c) else Ready))
    case Reserved(c) =>
      if written then With(w, w.space, id, StoreState(store.files[c.address := c], Ready))
      else With(w, w.space, id, store.(phase := Unwritten(c)))
    case Unwritten(c) =>
      var d := Decreased(w.space, id, Size(c));
      With(w, d.space, id, store.(phase := Ready))
  }

  // ---------- the invariant ----------

  /** Space given back for a file that is still there. */
  function Early(store: StoreState): nat
  {
    match store.phase
    case Released(a, _) => if a in store.files then Size(store.files[a]) else 0
    case _ => 0
  }

  /** Space taken for a file that is not there yet. */
  function Ahead(store: StoreState): nat
  {
    match store.phase
    case Reserved(c) => Size(c)
    case Unwritten(c) => Size(c)
    case _ => 0
  }

  ghost predicate PhaseOk(store: StoreState)
  {
    match store.phase
    case Released(a, next) => a in store.files && (next.Some? ==> next.value.address == a)
    case Removed(c) => c.address !in store.files
    case Reserved(c) => c.address !in store.files
    case Unwritten(c) => c.address !in store.files
    case Ready => true
  }

  /** A store's local value is the size of its files, but for the operation in progress. */
  ghost predicate StoreOk(value: nat, store: StoreState)
  {
    PhaseOk(store) && value + Early(store) == FileSum(store.files) + Ahead(store)
  }

  ghost predicate Exact(w: World)
  {
    && Accounted(w.space)
    && w.space.total == LocalSum(w.space)
    && w.stores.Keys == w.space.locals.Keys
    && forall id :: id in w.stores ==> StoreOk(w.space.locals[id].value, w.stores[id])
  }

  lemma FileRemoved(files: Files, a: BlobAddress)
    requires a in files
    ensures FileSum(files) == Size(files[a]) + FileSum(files - {a})
  {
    TotalRemove(FileSizes(files), a);
    assert FileSizes(files) - {a} == FileSizes(files - {a});
  }

  lemma FileAdded(files: Files, c: Chunk)
    requires c.address !in files
    ensures FileSum(files[c.address := c]) == FileSum(files) + Size(c)
  {
    TotalInsert(FileSizes(files), c.address, Size(c));
    assert FileSizes(files[c.address := c]) == FileSizes(files)[c.address := Size(c)];
  }

  lemma NoFiles()
    ensures FileSum(map[]) == 0
  {
    assert FileSizes(map[]) == map[];
  }

  /** Releasing what the store holds changes local value and total alike. */
  lemma ReleaseExact(s: UsedSpace.Space, id: StoreId, size: nat)
    requires Accounted(s) && s.total == LocalSum(s) && id in s.locals && size <= s.locals[id].value
    ensures
      var d := Decreased(s, id, size);
      && d.result.Ok? && Accounted(d.space) && d.space.total == LocalSum(d.space) == s.total - size
      && d.space.locals == s.locals[id := LocalUsedSpace(s.locals[id].value - size, s.locals[id].dir)]
  {
    LocalWithinSum(s, id);
    DecreaseKeeps(s, id, size);
    SetLocalSum(s, id, Monus(s.total, size), Monus(s.locals[id].value, size));
  }

  /** Reserving succeeds exactly when the capacity allows it. */
  lemma ReserveExact(s: UsedSpace.Space, id: StoreId, size: nat)
    requires Accounted(s) && s.total == LocalSum(s) && id in s.locals && s.maxCapacity <= U64_MAX
    ensures
      var i := Increased(s, id, size);
      && (i.result.Ok? <==> s.total + size <= s.maxCapacity)
      && (i.result.Err? ==> i == Changed(s, Err(NotEnoughSpace)))
      && Accounted(i.space)
      && (i.result.Ok? ==>
            && i.space.total == LocalSum(i.space) == s.total + size
            && i.space.locals == s.locals[id := LocalUsedSpace(s.locals[id].value + size, s.locals[id].dir)])
  {
    LocalWithinSum(s, id);
    IncreaseKeeps(s, id, size);
    SetLocalSum(s, id, s.total + size, s.locals[id].value + size);
  }

  /** One store changes, with its local value to match; the others stay. */
  lemma WithKeeps(w: World, s: UsedSpace.Space, id: StoreId, value: nat, store: StoreState)
    requires Exact(w) && id in w.stores
    requires Accounted(s) && s.total == LocalSum(s)
    requires s.locals == w.space.locals[id := LocalUsedSpace(value, w.space.locals[id].dir)]
    requires StoreOk(value, store)
    ensures Exact(With(w, s, id, store))
  {
  }

  lemma SameLocals(w: World, id: StoreId)
    requires id in w.space.locals
    ensures w.space.locals == w.space.locals[id := LocalUsedSpace(w.space.locals[id].value, w.space.locals[id].dir)]
  {
  }

  lemma BeginKeeps(w: World, id: StoreId, a: BlobAddress, next: Option<Chunk>)
    requires Exact(w) && id in w.stores && w.stores[id].phase.Ready?
    requires next.Some? ==> next.value.address == a
    ensures Exact(Begin(w, id, a, next)) && Begin(w, id, a, next).space.maxCapacity == w.space.maxCapacity
  {
    var store, value := w.stores[id], w.space.locals[id].value;
    assert StoreOk(value, store);
    SameLocals(w, id);
    if a in store.files {
      var size := Size(store.files[a]);
      FileRemoved(store.files, a);
      ReleaseExact(w.space, id, size);
      WithKeeps(w, Decreased(w.space, id, size).space, id, value - size, store.(phase := Released(a, next)));
    } else if next.Some? {
      WithKeeps(w, w.space, id, value, store.(phase := Removed(next.value)));
    }
  }

  lemma ReserveKeeps(w: World, id: StoreId, c: Chunk, written: bool)
    requires Exact(w) && id in w.stores && w.space.maxCapacity <= U64_MAX && w.stores[id].phase == Removed(c)
    ensures Exact(Advanced(w, id, written)) && Advanced(w, id, written).space.maxCapacity == w.space.maxCapacity
  {
    var store, value := w.stores[id], w.space.locals[id].value;
    assert StoreOk(value, store);
    SameLocals(w, id);
    ReserveExact(w.space, id, Size(c));
    var i := Increased(w.space, id, Size(c));
    if i.result.Ok? {
      WithKeeps(w, i.space, id, value + Size(c), store.(phase := Reserved(c)));
    } else {
      WithKeeps(w, w.space, id, value, store.(phase := Ready));
    }
  }

  lemma AdvanceKeeps(w: World, id: StoreId, written: bool)
    requires Exact(w) && id in w.stores && w.space.maxCapacity <= U64_MAX
    ensures Exact(Advanced(w, id, written)) && Advanced(w, id, written).space.maxCapacity == w.space.maxCapacity
  {
    var store, value := w.stores[id], w.space.locals[id].value;
    assert StoreOk(value, store);
    SameLocals(w, id);
    match store.phase {
      case Ready =>
      case Released(a, next) =>
        FileRemoved(store.files, a);
        WithKeeps(w, w.space, id, value, StoreState(store.files - {a}, if next.Some? then Removed(next.value) else Ready));
      case Removed(c) =>
        ReserveKeeps(w, id, c, written);
      case Reserved(c) =>
        FileAdded(store.files, c);
        if written {
          WithKeeps(w, w.space, id, value, StoreState(store.files[c.address := c], Ready));
        } else {
          WithKeeps(w, w.space, id, value, store.(phase := Unwritten(c)));
        }
      case Unwritten(c) =>
        ReleaseExact(w.space, id, Size(c));
        WithKeeps(w, Decreased(w.space, id, Size(c)).space, id, value - Size(c), store.(phase := Ready));
    }
  }

  lemma OpenKeeps(w: World, dir: Dir)
    requires Exact(w) && dir !in w.space.records
    ensures Exact(World(WithStore(w.space, dir), w.stores[w.space.nextId := StoreState(map[], Ready)]))
  {
    NoFiles();
    StoreSum(w.space, dir);
  }

  lemma NextKeeps(w: World, step: Step)
    requires Exact(w) && w.space.maxCapacity <= U64_MAX
    ensures Exact(Next(w, step)) && Next(w, step).space.maxCapacity == w.space.maxCapacity
  {
    match step {
      case Open(dir) =>
        if dir !in w.space.records {
          OpenKeeps(w, dir);
        }
      case BeginPut(id, c) =>
        if id in w.stores && w.stores[id].phase.Ready? {
          BeginKeeps(w, id, c.address, Some(c));
        }
      case BeginDelete(id, a) =>
        if id in w.stores && w.stores[id].phase.Ready? {
          BeginKeeps(w, id, a, None);
        }
      case Advance(id, written) =>
        if id in w.stores {
          AdvanceKeeps(w, id, written);
        }
    }
  }

  function Run(w: World, steps: seq<Step>): World
  {
    if steps == [] then w else Next(Run(w, steps[..|steps| - 1]), steps[|steps| - 1])
  }

  function Start(maxCapacity: nat): World
  {
    World(NewSpace(maxCapacity, map[]), map[])
  }

  lemma {:induction false} AlwaysExact(maxCapacity: nat, steps: seq<Step>)
    requires maxCapacity <= U64_MAX
    ensures Exact(Run(Start(maxCapacity), steps)) && Run(Start(maxCapacity), steps).space.maxCapacity == maxCapacity
  {
    if steps == [] {
      assert LocalValues(map[]) == map[];
    } else {
      AlwaysExact(maxCapacity, steps[..|steps| - 1]);
      NextKeeps(Run(Start(maxCapacity), steps[..|steps| - 1]), steps[|steps| - 1]);
    }
  }

  ghost function FileSums(stores: map<StoreId, StoreState>): map<StoreId, nat>
  {
    map id | id in stores :: FileSum(stores[id].files)
  }

  /** The size of all chunk files of all stores. */
  ghost function DiskUse(stores: map<StoreId, StoreState>): nat
  {
    Total(FileSums(stores))
  }

  /** Over any number of stores opened on fresh directories and any interleaving of their puts and deletes:
      whenever no operation is in progress, the total, the sum of the local values and the size of all chunk
      files are the same number, and it is within the capacity. */
  lemma ExactAtRest(maxCapacity: nat, steps: seq<Step>)
    requires maxCapacity <= U64_MAX
    ensures
      var w := Run(Start(maxCapacity), steps);
      (forall id :: id in w.stores ==> w.stores[id].phase.Ready?) ==>
        w.space.total == LocalSum(w.space) == DiskUse(w.stores) <= maxCapacity
  {
    var w := Run(Start(maxCapacity), steps);
    AlwaysExact(maxCapacity, steps);
    if forall id :: id in w.stores ==> w.stores[id].phase.Ready? {
      var sizes := FileSums(w.stores);
      assert sizes.Keys == LocalValues(w.space.locals).Keys;
      forall id | id in sizes ensures sizes[id] == LocalValues(w.space.locals)[id] {
        assert StoreOk(w.space.locals[id].value, w.stores[id]);
      }
      assert sizes == LocalValues(w.space.locals);
    }
  }

  // ---------- an uninterrupted put ----------

  /** The world once the store is done with files and account as given. */
  function Done(w: World, id: StoreId, p: PutResult): World
  {
    World(p.space, w.stores[id := StoreState(p.files, Ready)])
  }

  lemma ReservedInSteps(w: World, s: UsedSpace.Space, id: StoreId, files: Files, c: Chunk, written: bool)
    requires id in w.stores && Decreased(s, id, Size(c)).result.Ok?
    ensures
      var a := Advance(id, written);
      var reserved := With(w, s, id, StoreState(files, Reserved(c)));
      Next(Next(reserved, a), a) ==
      if written then With(w, s, id, StoreState(files[c.address := c], Ready))
      else With(w, Decreased(s, id, Size(c)).space, id, StoreState(files, Ready))
  {
    var a := Advance(id, written);
    var reserved := With(w, s, id, StoreState(files, Reserved(c)));
    var next := if written then StoreState(files[c.address := c], Ready) else StoreState(files, Unwritten(c));
    assert Next(reserved, a) == With(w, s, id, next);
  }

  lemma FinishInSteps(w: World, id: StoreId, c: Chunk, written: bool)
    requires Exact(w) && w.space.maxCapacity <= U64_MAX && id in w.stores && w.stores[id].phase == Removed(c)
    ensures
      var a := Advance(id, written);
      Next(Next(Next(w, a), a), a) == Done(w, id, PutChunk(w.space, id, w.stores[id].files, c, written))
  {
    var a, s, files := Advance(id, written), w.space, w.stores[id].files;
    assert StoreOk(s.locals[id].value, w.stores[id]);
    ReserveExact(s, id, Size(c));
    var i := Increased(s, id, Size(c));
    if i.result.Ok? {
      ReleaseExact(i.space, id, Size(c));
      ReservedInSteps(w, i.space, id, files, c, written);
    } else {
      assert Next(w, a) == With(w, s, id, StoreState(files, Ready));
    }
  }

  lemma PutAfterDelete(s: UsedSpace.Space, id: StoreId, files: Files, c: Chunk, written: bool)
    requires DeletedFile(s, id, files, c.address).result.Ok?
    ensures
      var d := DeletedFile(s, id, files, c.address);
      PutChunk(s, id, files, c, written) == PutChunk(d.space, id, d.files, c, written)
  {
  }

  /** Where a put stands once the old file is out of the way. */
  function OldFileGone(w: World, id: StoreId, c: Chunk, written: bool): World
    requires id in w.stores
  {
    var begun := Next(w, BeginPut(id, c));
    if c.address in w.stores[id].files then Next(begun, Advance(id, written)) else begun
  }

  lemma DeleteInSteps(w: World, id: StoreId, c: Chunk, written: bool)
    requires Exact(w) && id in w.stores && w.stores[id].phase.Ready?
    ensures
      var d := DeletedFile(w.space, id, w.stores[id].files, c.address);
      d.result.Ok? && OldFileGone(w, id, c, written) == With(w, d.space, id, StoreState(d.files, Removed(c)))
  {
    var files := w.stores[id].files;
    assert StoreOk(w.space.locals[id].value, w.stores[id]);
    if c.address in files {
      FileRemoved(files, c.address);
      ReleaseExact(w.space, id, Size(files[c.address]));
      var begun := Next(w, BeginPut(id, c));
      assert begun == With(w, Decreased(w.space, id, Size(files[c.address])).space, id, StoreState(files, Released(c.address, Some(c))));
    }
  }

  lemma OldFileGoneKeeps(w: World, id: StoreId, c: Chunk, written: bool)
    requires Exact(w) && id in w.stores && w.stores[id].phase.Ready? && w.space.maxCapacity <= U64_MAX
    ensures Exact(OldFileGone(w, id, c, written)) && OldFileGone(w, id, c, written).space.maxCapacity == w.space.maxCapacity
  {
    NextKeeps(w, BeginPut(id, c));
    NextKeeps(Next(w, BeginPut(id, c)), Advance(id, written));
  }

  lemma DoneIsDone(w: World, v: World, id: StoreId, store: StoreState, p: PutResult)
    requires v == With(w, v.space, id, store)
    ensures Done(v, id, p) == Done(w, id, p)
  {
  }

  /** An uninterrupted put is its steps in a row: the old file out of the way, then reserve, write, give back. */
  lemma PutInSteps(w: World, id: StoreId, c: Chunk, written: bool)
    requires Exact(w) && id in w.stores && w.stores[id].phase.Ready? && w.space.maxCapacity <= U64_MAX
    ensures
      var a := Advance(id, written);
      Next(Next(Next(OldFileGone(w, id, c, written), a), a), a)
      == Done(w, id, PutChunk(w.space, id, w.stores[id].files, c, written))
  {
    var d := DeletedFile(w.space, id, w.stores[id].files, c.address);
    var gone := OldFileGone(w, id, c, written);
    DeleteInSteps(w, id, c, written);
    OldFileGoneKeeps(w, id, c, written);
    FinishInSteps(gone, id, c, written);
    PutAfterDelete(w.space, id, w.stores[id].files, c, written);
    DoneIsDone(w, gone, id, StoreState(d.files, Removed(c)), PutChunk(d.space, id, d.files, c, written));
  }

  lemma ThreeMoreKeep(w: World, step: Step)
    requires Exact(w) && w.space.maxCapacity <= U64_MAX
    ensures
      var after := Next(Next(Next(w, step), step), step);
      Exact(after) && after.space.maxCapacity == w.space.maxCapacity
  {
    NextKeeps(w, step);
    var w1 := Next(w, step);
    NextKeeps(w1, step);
    NextKeeps(Next(w1, step), step);
  }

  /** An uninterrupted put keeps the account exact. */
  lemma PutKeeps(w: World, id: StoreId, c: Chunk, written: bool)
    requires Exact(w) && id in w.stores && w.stores[id].phase.Ready? && w.space.maxCapacity <= U64_MAX
    ensures
      var p := PutChunk(w.space, id, w.stores[id].files, c, written);
      Exact(Done(w, id, p)) && p.space.maxCapacity == w.space.maxCapacity
  {
    OldFileGoneKeeps(w, id, c, written);
    ThreeMoreKeep(OldFileGone(w, id, c, written), Advance(id, written));
    PutInSteps(w, id, c, written);
  }

  /** What a put leaves behind: the chunk if there was room and the write succeeded, else no chunk under that
      id at all, the old one included. */
  lemma PutOutcome(w: World, id: StoreId, c: Chunk, written: bool)
    requires Exact(w) && id in w.stores && w.stores[id].phase.Ready? && w.space.maxCapacity <= U64_MAX
    ensures
      var files := w.stores[id].files;
      var p := PutChunk(w.space, id, files, c, written);
      var before := if c.address in files then Size(files[c.address]) else 0;
      var fits := w.space.total - before + Size(c) <= w.space.maxCapacity;
      && p.result == (if !fits then Err(StoreError.Space(NotEnoughSpace)) else if written then Ok(()) else Err(Io))
      && p.files == (if p.result.Ok? then files[c.address := c] else files - {c.address})
  {
    var files := w.stores[id].files;
    var d := DeletedFile(w.space, id, files, c.address);
    assert StoreOk(w.space.locals[id].value, w.stores[id]);
    if c.address in files {
      FileRemoved(files, c.address);
      ReleaseExact(w.space, id, Size(files[c.address]));
    }
    ReserveExact(d.space, id, Size(c));
    assert (files - {c.address})[c.address := c] == files[c.address := c];
    assert c.address !in files ==> files - {c.address} == files;
  }

  /** An uninterrupted delete is its steps in a row: release, then remove. */
  lemma RemovalInSteps(w: World, id: StoreId, a: BlobAddress, written: bool)
    requires Exact(w) && id in w.stores && w.stores[id].phase.Ready?
    ensures
      var begun := Next(w, BeginDelete(id, a));
      var p := DeletedFile(w.space, id, w.stores[id].files, a);
      && Next(begun, Advance(id, written)) == Done(w, id, p)
      && p.result == Ok(()) && p.files == w.stores[id].files - {a}
  {
    var files := w.stores[id].files;
    assert StoreOk(w.space.locals[id].value, w.stores[id]);
    if a in files {
      FileRemoved(files, a);
      ReleaseExact(w.space, id, Size(files[a]));
      var begun := Next(w, BeginDelete(id, a));
      assert begun == With(w, Decreased(w.space, id, Size(files[a])).space, id, StoreState(files, Released(a, None)));
    } else {
      assert files - {a} == files;
      assert w.stores[id := StoreState(files, Ready)] == w.stores;
    }
  }
}
