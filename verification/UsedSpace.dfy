/** The account of disk space used by the chunk stores of a node. */
module UsedSpace {
  import opened Collections
  import opened Arithmetic

  type StoreId = nat
  type Dir = nat

  const U64_MAX: nat := 0xFFFF_FFFF_FFFF_FFFF

  datatype LocalUsedSpace = LocalUsedSpace(value: nat, dir: Dir)

  /** The account in memory, and the record of each directory on disk. */
  datatype Space = Space(
    maxCapacity: nat,
    total: nat,
    locals: map<StoreId, LocalUsedSpace>,
    nextId: StoreId,
    records: map<Dir, nat>)

  datatype SpaceError = NotEnoughSpace | NoStoreId

  datatype Changed = Changed(space: Space, result: Result<(), SpaceError>)

  function NewSpace(maxCapacity: nat, records: map<Dir, nat>): Space
  {
    Space(maxCapacity, 0, map[], 0, records)
  }

  /** A store opened on a directory takes over the value recorded there, which the total does not count. */
  function WithStore(s: Space, dir: Dir): Space
  {
    var value := if dir in s.records then s.records[dir] else 0;
    s.(locals := s.locals[s.nextId := LocalUsedSpace(value, dir)], nextId := s.nextId + 1, records := s.records[dir := value])
  }

  function SetLocal(s: Space, id: StoreId, total: nat, value: nat): Space
    requires id in s.locals
  {
    var dir := s.locals[id].dir;
    s.(total := total, locals := s.locals[id := LocalUsedSpace(value, dir)], records := s.records[dir := value])
  }

  function Increased(s: Space, id: StoreId, consumed: nat): Changed
  {
    if s.total + consumed > U64_MAX then Changed(s, Err(NotEnoughSpace))
    else if s.total + consumed > s.maxCapacity then Changed(s, Err(NotEnoughSpace))
    else if id !in s.locals then Changed(s, Err(NoStoreId))
    else if s.locals[id].value + consumed > U64_MAX then Changed(s, Err(NotEnoughSpace))
    else Changed(SetLocal(s, id, s.total + consumed, s.locals[id].value + consumed), Ok(()))
  }

  function Decreased(s: Space, id: StoreId, released: nat): Changed
  {
    if id !in s.locals then Changed(s, Err(NoStoreId))
    else Changed(SetLocal(s, id, Monus(s.total, released), Monus(s.locals[id].value, released)), Ok(()))
  }

  /** Everything back to zero; the stores themselves stay registered. */
  function WasReset(s: Space): Space
  {
    var dirs := set id | id in s.locals :: s.locals[id].dir;
    s.(total := 0,
       locals := map id | id in s.locals :: LocalUsedSpace(0, s.locals[id].dir),
       records := map d | d in s.records.Keys + dirs :: if d in dirs then 0 else s.records[d])
  }

  // ---------- the invariant ----------

  function LocalValues(locals: map<StoreId, LocalUsedSpace>): map<StoreId, nat>
  {
    map id | id in locals :: locals[id].value
  }

  ghost function LocalSum(s: Space): nat
  {
    Total(LocalValues(s.locals))
  }

  /** The total never exceeds the capacity, nor what the stores account for together. */
  ghost predicate Accounted(s: Space)
  {
    s.total <= s.maxCapacity && s.total <= LocalSum(s) && forall id :: id in s.locals ==> id < s.nextId
  }

  lemma SetLocalSum(s: Space, id: StoreId, total: nat, value: nat)
    requires id in s.locals
    ensures LocalSum(SetLocal(s, id, total, value)) + s.locals[id].value == LocalSum(s) + value
  {
    var m := LocalValues(s.locals);
    TotalUpdate(m, id, value);
    assert LocalValues(SetLocal(s, id, total, value).locals) == m[id := value];
  }

  lemma StoreSum(s: Space, dir: Dir)
    requires Accounted(s)
    ensures LocalSum(WithStore(s, dir)) == LocalSum(s) + WithStore(s, dir).locals[s.nextId].value
  {
    var value := WithStore(s, dir).locals[s.nextId].value;
    assert s.nextId !in s.locals;
    TotalInsert(LocalValues(s.locals), s.nextId, value);
    assert LocalValues(WithStore(s, dir).locals) == LocalValues(s.locals)[s.nextId := value];
  }

  lemma LocalWithinSum(s: Space, id: StoreId)
    requires id in s.locals
    ensures s.locals[id].value <= LocalSum(s)
  {
    TotalRemove(LocalValues(s.locals), id);
  }

  datatype SpaceOp =
    | AddStore(dir: Dir)
    | Increase(id: StoreId, consumed: nat)
    | Decrease(id: StoreId, released: nat)
    | Reset
    | Restart

  function After(s: Space, op: SpaceOp): Space
  {
    match op
    case AddStore(dir) => WithStore(s, dir)
    case Increase(id, consumed) => Increased(s, id, consumed).space
    case Decrease(id, released) => Decreased(s, id, released).space
    case Reset => WasReset(s)
    case Restart => NewSpace(s.maxCapacity, s.records)
  }

  lemma DecreaseKeeps(s: Space, id: StoreId, released: nat)
    requires Accounted(s)
    ensures Accounted(Decreased(s, id, released).space)
  {
    if id in s.locals {
      LocalWithinSum(s, id);
      SetLocalSum(s, id, Monus(s.total, released), Monus(s.locals[id].value, released));
    }
  }

  lemma IncreaseKeeps(s: Space, id: StoreId, consumed: nat)
    requires Accounted(s)
    ensures Accounted(Increased(s, id, consumed).space)
  {
    if id in s.locals {
      SetLocalSum(s, id, s.total + consumed, s.locals[id].value + consumed);
    }
  }

  lemma OpKeeps(s: Space, op: SpaceOp)
    requires Accounted(s)
    ensures Accounted(After(s, op))
  {
    match op {
      case AddStore(dir) => StoreSum(s, dir);
      case Increase(id, consumed) => IncreaseKeeps(s, id, consumed);
      case Decrease(id, released) => DecreaseKeeps(s, id, released);
      case Reset =>
      case Restart =>
    }
  }

  function Run(start: Space, ops: seq<SpaceOp>): Space
  {
    if ops == [] then start else After(Run(start, ops[..|ops| - 1]), ops[|ops| - 1])
  }

  /** In every run and interleaving of the operations, oversized releases, resets and restarts on left-over
      records included, the total stays within the capacity and within the sum of the local values. */
  lemma {:induction false} AlwaysAccounted(maxCapacity: nat, records: map<Dir, nat>, ops: seq<SpaceOp>)
    ensures Accounted(Run(NewSpace(maxCapacity, records), ops))
  {
    if ops != [] {
      AlwaysAccounted(maxCapacity, records, ops[..|ops| - 1]);
      OpKeeps(Run(NewSpace(maxCapacity, records), ops[..|ops| - 1]), ops[|ops| - 1]);
    }
  }

  /** Left-over records make the inequality strict: a store reopened after a restart is not in the total
      (`BalancedThroughout` says when it is an equality). */
  lemma RestartLosesTotal(capacity: nat, used: nat, dir: Dir)
    requires 0 < used <= capacity && used <= U64_MAX
    ensures
      var s := Run(NewSpace(capacity, map[]), [AddStore(dir), Increase(0, used), Restart, AddStore(dir)]);
      s.total == 0 && LocalSum(s) == used
  {
    var ops := [AddStore(dir), Increase(0, used), Restart, AddStore(dir)];
    var empty := NewSpace(capacity, map[]);
    assert ops[..3][..2][..1][..0] == [] && ops[..3][..2][..1] == [AddStore(dir)];
    assert ops[..3][..2] == [AddStore(dir), Increase(0, used)];
    assert ops[..3] == [AddStore(dir), Increase(0, used), Restart];
    var s1 := WithStore(empty, dir);
    assert Run(empty, ops[..3][..2][..1]) == s1;
    var s2 := Increased(s1, 0, used).space;
    assert Run(empty, ops[..3][..2]) == s2;
    var s3 := NewSpace(capacity, s2.records);
    assert Run(empty, ops[..3]) == s3;
    assert Accounted(s3);
    StoreSum(s3, dir);
  }

  // ---------- what each operation does, outcome by outcome ----------

  /** A reservation succeeds exactly if it fits capacity and 64 bits and the store is known; then total, local value and
      record go up alike and nothing else changes. Else nothing changes. */
  lemma IncreaseExactly(s: Space, id: StoreId, consumed: nat)
    ensures
      var r := Increased(s, id, consumed);
      var fits := s.total + consumed <= s.maxCapacity && s.total + consumed <= U64_MAX;
      && (r.result == Err(NoStoreId) <==> fits && id !in s.locals)
      && (r.result == Err(NotEnoughSpace) <==> !fits || (id in s.locals && s.locals[id].value + consumed > U64_MAX))
      && (r.result.Err? ==> r.space == s)
      && (r.result.Ok? ==> OnlyMoved(s, r.space, id, s.total + consumed, s.locals[id].value + consumed))
  {
  }

  /** A release fails exactly for an unknown store; else total and local value go down by it, but not below zero. */
  lemma DecreaseExactly(s: Space, id: StoreId, released: nat)
    ensures
      var r := Decreased(s, id, released);
      && (r.result.Err? <==> id !in s.locals)
      && (r.result.Err? ==> r == Changed(s, Err(NoStoreId)))
      && (r.result.Ok? ==>
            exists total: nat, value: nat ::
              && OnlyMoved(s, r.space, id, total, value)
              && (released <= s.total ==> total + released == s.total) && (released >= s.total ==> total == 0)
              && (released <= s.locals[id].value ==> value + released == s.locals[id].value)
              && (released >= s.locals[id].value ==> value == 0))
  {
    if id in s.locals {
      assert OnlyMoved(s, Decreased(s, id, released).space, id, Monus(s.total, released), Monus(s.locals[id].value, released));
    }
  }

  /** One store's value, its record and the total are as given; everything else is as it was. */
  ghost predicate OnlyMoved(s: Space, after: Space, id: StoreId, total: nat, value: nat)
  {
    && id in s.locals && after.total == total
    && after.locals.Keys == s.locals.Keys && after.locals[id] == LocalUsedSpace(value, s.locals[id].dir)
    && (forall x :: x in s.locals && x != id ==> after.locals[x] == s.locals[x])
    && after.records.Keys == s.records.Keys + {s.locals[id].dir} && after.records[s.locals[id].dir] == value
    && (forall d :: d in s.records && d != s.locals[id].dir ==> after.records[d] == s.records[d])
    && after.nextId == s.nextId && after.maxCapacity == s.maxCapacity
  }

  /** A store is opened under a new id, with the value recorded for its directory or zero; the rest stays. */
  lemma StoreOpened(s: Space, dir: Dir)
    requires Accounted(s)
    ensures
      var after := WithStore(s, dir);
      && s.nextId !in s.locals && after.locals.Keys == s.locals.Keys + {s.nextId}
      && after.locals[s.nextId] == LocalUsedSpace(RecordedAt(s, dir), dir)
      && (forall x :: x in s.locals ==> after.locals[x] == s.locals[x])
      && after.records.Keys == s.records.Keys + {dir} && (forall d :: d in after.records ==> after.records[d] == RecordedAt(s, d))
      && after.nextId > s.nextId && after.total == s.total && after.maxCapacity == s.maxCapacity
  {
  }

  /** A reset brings total, local values and the records of registered directories to zero; the stores stay registered on
      their directories, and other records stay. */
  lemma ResetClears(s: Space)
    ensures
      var after := WasReset(s);
      && after.total == 0 && LocalSum(after) == 0
      && after.locals.Keys == s.locals.Keys
      && (forall id :: id in s.locals ==>
            && after.locals[id] == LocalUsedSpace(0, s.locals[id].dir)
            && RecordedAt(after, s.locals[id].dir) == 0 && s.locals[id].dir in after.records)
      && (forall d :: d in s.records ==> d in after.records)
      && (forall d :: d in after.records && (forall id :: id in s.locals ==> s.locals[id].dir != d) ==>
            d in s.records && after.records[d] == s.records[d])
      && after.nextId == s.nextId && after.maxCapacity == s.maxCapacity
  {
    NoStoresSum(WasReset(s));
  }

  // ---------- when the total is the sum of the local values ----------

  ghost predicate Balanced(s: Space)
  {
    s.total == LocalSum(s)
  }

  function RecordedAt(s: Space, dir: Dir): nat
  {
    if dir in s.records then s.records[dir] else 0
  }

  /** What keeps a balance: a store must be opened on nothing, and a release must not exceed what the store holds,
      unless the store holds all there is. */
  predicate KeepsBalance(s: Space, op: SpaceOp)
  {
    match op
    case AddStore(dir) => RecordedAt(s, dir) == 0
    case Decrease(id, released) =>
      id !in s.locals || released <= s.locals[id].value || s.locals[id].value == s.total
    case _ => true
  }

  /** What an operation needs for balance afterwards: nothing for a reset or a restart; balance before, and nothing
      that upsets it, for the others; a release also restores it by emptying the only store that holds anything. */
  ghost predicate BalancesAfter(s: Space, op: SpaceOp)
  {
    match op
    case AddStore(_) => Balanced(s) && KeepsBalance(s, op)
    case Increase(_, _) => Balanced(s)
    case Decrease(id, released) =>
      || (Balanced(s) && KeepsBalance(s, op))
      || (id in s.locals && s.locals[id].value == LocalSum(s) && released >= s.locals[id].value)
    case Reset => true
    case Restart => true
  }

  lemma NoStoresSum(s: Space)
    requires forall id :: id in s.locals ==> s.locals[id].value == 0
    ensures LocalSum(s) == 0
  {
    SumZero(LocalValues(s.locals).Keys, LocalValues(s.locals));
  }

  lemma BalanceAfter(s: Space, op: SpaceOp)
    requires Accounted(s)
    ensures Balanced(After(s, op)) <==> BalancesAfter(s, op)
  {
    match op {
      case AddStore(dir) => StoreSum(s, dir);
      case Increase(id, consumed) =>
        if id in s.locals {
          SetLocalSum(s, id, s.total + consumed, s.locals[id].value + consumed);
        }
      case Decrease(id, released) =>
        if id in s.locals {
          LocalWithinSum(s, id);
          SetLocalSum(s, id, Monus(s.total, released), Monus(s.locals[id].value, released));
        }
      case Reset => NoStoresSum(After(s, op));
      case Restart => NoStoresSum(After(s, op));
    }
  }

  /** From a balanced account, exactly these operations keep the balance. */
  lemma BalanceKept(s: Space, op: SpaceOp)
    requires Accounted(s) && Balanced(s)
    ensures Balanced(After(s, op)) <==> KeepsBalance(s, op)
  {
    BalanceAfter(s, op);
    if op.Decrease? && op.id in s.locals {
      LocalWithinSum(s, op.id);
    }
  }

  /** Over every run from an empty account: total and local values agree all along exactly if every operation of the
      run keeps the balance. */
  lemma BalancedThroughout(maxCapacity: nat, records: map<Dir, nat>, ops: seq<SpaceOp>)
    ensures
      var start := NewSpace(maxCapacity, records);
      (forall k: nat :: k <= |ops| ==> BalancedAt(start, ops, k)) <==> (forall k: nat :: k < |ops| ==> !UpsetAt(start, ops, k))
  {
    var start := NewSpace(maxCapacity, records);
    NoStoresSum(start);
    assert ops[..0] == [];
    forall k: nat | k < |ops| && BalancedAt(start, ops, k) ensures BalancedAt(start, ops, k + 1) <==> !UpsetAt(start, ops, k) {
      StepBalance(maxCapacity, records, ops, k);
    }
    var balanced, upset := (k: nat) => BalancedAt(start, ops, k), (k: nat) => UpsetAt(start, ops, k);
    HoldsThroughout(0, |ops|, balanced, upset);
    assert forall k: nat :: balanced(k) == BalancedAt(start, ops, k);
    assert forall k: nat :: upset(k) == UpsetAt(start, ops, k);
    assert (forall k: nat :: k <= |ops| ==> BalancedAt(start, ops, k)) <==> forall k: nat :: 0 <= k <= |ops| ==> balanced(k);
    assert (forall k: nat :: k < |ops| ==> !UpsetAt(start, ops, k)) <==> forall k: nat :: 0 <= k < |ops| ==> !upset(k);
  }

  /** Total and local values agree after k operations. */
  ghost predicate BalancedAt(start: Space, ops: seq<SpaceOp>, k: nat)
  {
    k <= |ops| && Balanced(Run(start, ops[..k]))
  }

  /** The operation at k is one that upsets a balance. */
  ghost predicate UpsetAt(start: Space, ops: seq<SpaceOp>, k: nat)
  {
    k < |ops| && !KeepsBalance(Run(start, ops[..k]), ops[k])
  }

  lemma StepBalance(maxCapacity: nat, records: map<Dir, nat>, ops: seq<SpaceOp>, k: nat)
    requires k < |ops| && Balanced(Run(NewSpace(maxCapacity, records), ops[..k]))
    ensures
      var start := NewSpace(maxCapacity, records);
      Balanced(Run(start, ops[..k + 1])) <==> KeepsBalance(Run(start, ops[..k]), ops[k])
  {
    AlwaysAccounted(maxCapacity, records, ops[..k]);
    assert ops[..k + 1][..k] == ops[..k];
    BalanceKept(Run(NewSpace(maxCapacity, records), ops[..k]), ops[k]);
  }

  /** Empty directories alone are not enough: a release beyond what a store holds takes from the total what the
      other stores account for. */
  lemma OversizedRelease(s: Space, id: StoreId, released: nat)
    requires Accounted(s) && Balanced(s) && id in s.locals
    requires s.locals[id].value < released && s.locals[id].value < s.total
    ensures
      var after := Decreased(s, id, released).space;
      after.total < LocalSum(after) == s.total - s.locals[id].value
  {
    SetLocalSum(s, id, Monus(s.total, released), 0);
  }

  // ---------- the shared object; every operation runs under its lock ----------

  class Account {
    const maxCapacity: nat
    var total: nat
    var locals: map<StoreId, LocalUsedSpace>
    var nextId: StoreId
    var records: map<Dir, nat>

    ghost function Value(): Space
      reads this
    {
      Space(maxCapacity, total, locals, nextId, records)
    }

    constructor (maxCapacity: nat, records: map<Dir, nat>)
      ensures Value() == NewSpace(maxCapacity, records)
    {
      this.maxCapacity := maxCapacity;
      total, locals, nextId, this.records := 0, map[], 0, records;
    }

    method AddLocalStore(dir: Dir) returns (id: StoreId)
      modifies this
      ensures Value() == WithStore(old(Value()), dir) && id == old(nextId)
    {
      var localValue := 0;
      if dir in records {
        localValue := records[dir];
      } else {
        records := records[dir := 0];
      }
      id := nextId;
      nextId := nextId + 1;
      locals := locals[id := LocalUsedSpace(localValue, dir)];
      assert records == old(records)[dir := localValue];
    }

    method WriteLocal(id: StoreId, value: nat)
      requires id in locals
      modifies this`records, this`locals
      ensures records == old(records)[old(locals)[id].dir := value]
      ensures locals == old(locals)[id := LocalUsedSpace(value, old(locals)[id].dir)]
    {
      records := records[locals[id].dir := value];
      locals := locals[id := LocalUsedSpace(value, locals[id].dir)];
    }

    method Increase(id: StoreId, consumed: nat) returns (r: Result<(), SpaceError>)
      modifies this
      ensures Increased(old(Value()), id, consumed) == Changed(Value(), r)
    {
      var newTotal := total + consumed;
      if newTotal > U64_MAX || newTotal > maxCapacity {
        return Err(NotEnoughSpace);
      }
      if id !in locals {
        return Err(NoStoreId);
      }
      var newLocal := locals[id].value + consumed;
      if newLocal > U64_MAX {
        return Err(NotEnoughSpace);
      }
      WriteLocal(id, newLocal);
      total := newTotal;
      r := Ok(());
    }

    method Decrease(id: StoreId, released: nat) returns (r: Result<(), SpaceError>)
      modifies this
      ensures Decreased(old(Value()), id, released) == Changed(Value(), r)
    {
      if id !in locals {
        return Err(NoStoreId);
      }
      var newLocal := Monus(locals[id].value, released);
      var newTotal := Monus(total, released);
      WriteLocal(id, newLocal);
      total := newTotal;
      r := Ok(());
    }

    method Reset()
      modifies this
      ensures Value() == WasReset(old(Value()))
    {
      total := 0;
      var todo := locals.Keys;
      ghost var all := old(locals);
      while todo != {}
        invariant todo <= all.Keys && locals.Keys == all.Keys
        invariant total == 0 && nextId == old(nextId)
        invariant forall id :: id in all ==>
          locals[id] == LocalUsedSpace(if id in todo then all[id].value else 0, all[id].dir)
        invariant forall d :: d in records <==> d in old(records) || exists id :: id in all && id !in todo && all[id].dir == d
        invariant forall d :: d in records ==>
          if exists id :: id in all && id !in todo && all[id].dir == d then records[d] == 0
          else d in old(records) && records[d] == old(records)[d]
      {
        var id :| id in todo;
        WriteLocal(id, 0);
        todo := todo - {id};
      }
      assert locals == WasReset(old(Value())).locals;
      assert records == WasReset(old(Value())).records;
    }
  }
}
