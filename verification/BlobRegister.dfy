/** The register of blob holders: two databases that index each other. */
module BlobRegister {
  import opened Collections

  /** The number of copies of a chunk to be maintained. */
  const CHUNK_COPY_COUNT: nat := 4

  datatype BlobAddress = BlobAddress(name: XorName, isPrivate: bool)

  datatype ChunkMetadata = ChunkMetadata(holders: set<XorName>, owner: Option<PublicKey>)

  /** Chunks to their holders, and holders to their chunks. */
  datatype Dbs = Dbs(metadata: map<BlobAddress, ChunkMetadata>, holders: map<XorName, set<BlobAddress>>)

  datatype Answer =
    | AlreadyStored
    | DataExists
    | NoSuchChunk
    | AccessDenied
    | SendToNodes(targets: set<XorName>)

  /** A command for a new holder to fetch the chunk from the current ones. */
  datatype ReplicateChunk = ReplicateChunk(newHolder: XorName, address: BlobAddress, currentHolders: set<XorName>, id: nat)

  function HoldersOf(dbs: Dbs, a: BlobAddress): set<XorName>
  {
    if a in dbs.metadata then dbs.metadata[a].holders else {}
  }

  function OwnerOf(dbs: Dbs, a: BlobAddress): Option<PublicKey>
  {
    if a in dbs.metadata then dbs.metadata[a].owner else None
  }

  function ChunksOf(dbs: Dbs, h: XorName): set<BlobAddress>
  {
    if h in dbs.holders then dbs.holders[h] else {}
  }

  /** The two databases agree and hold no empty entry. */
  ghost predicate Indexed(dbs: Dbs)
  {
    && (forall a, h :: h in HoldersOf(dbs, a) <==> a in ChunksOf(dbs, h))
    && (forall a :: a in dbs.metadata ==> dbs.metadata[a].holders != {})
    && (forall h :: h in dbs.holders ==> dbs.holders[h] != {})
  }

  ghost predicate Sized(dbs: Dbs)
  {
    forall a :: a in dbs.metadata ==> |dbs.metadata[a].holders| <= CHUNK_COPY_COUNT
  }

  /** Every chunk has one to four holders, and both databases say so. */
  ghost predicate Consistent(dbs: Dbs)
  {
    Indexed(dbs) && Sized(dbs)
  }

  // ---------- closed forms of the updates ----------

  /** Some nodes become holders of a chunk. */
  function AddHolders(dbs: Dbs, a: BlobAddress, targets: set<XorName>, origin: PublicKey): Dbs
  {
    if targets == {} then dbs
    else
      var owner := if a.isPrivate then Some(origin) else OwnerOf(dbs, a);
      Dbs(dbs.metadata[a := ChunkMetadata(HoldersOf(dbs, a) + targets, owner)],
          map h | h in dbs.holders.Keys + targets :: if h in targets then ChunksOf(dbs, h) + {a} else dbs.holders[h])
  }

  /** Some nodes stop being holders of a chunk. */
  function DropHolders(dbs: Dbs, a: BlobAddress, gone: set<XorName>): Dbs
  {
    var left := HoldersOf(dbs, a) - gone;
    Dbs(if left == {} then dbs.metadata - {a} else dbs.metadata[a := dbs.metadata[a].(holders := left)],
        map h | h in dbs.holders && (h in gone ==> dbs.holders[h] - {a} != {}) ::
          if h in gone then dbs.holders[h] - {a} else dbs.holders[h])
  }

  function Without(m: ChunkMetadata, node: XorName): ChunkMetadata
  {
    m.(holders := m.holders - {node})
  }

  /** A node is struck from the metadata of some chunks. */
  function Strike(metadata: map<BlobAddress, ChunkMetadata>, node: XorName, chunks: set<BlobAddress>): map<BlobAddress, ChunkMetadata>
  {
    map a | a in metadata && (a in chunks ==> metadata[a].holders - {node} != {}) ::
      if a in chunks then Without(metadata[a], node) else metadata[a]
  }

  /** A node leaves the section. */
  function LoseHolder(dbs: Dbs, node: XorName): Dbs
  {
    Dbs(Strike(dbs.metadata, node, ChunksOf(dbs, node)), dbs.holders - {node})
  }

  // ---------- they keep the index ----------

  lemma AddKeeps(dbs: Dbs, a: BlobAddress, targets: set<XorName>, origin: PublicKey)
    requires Indexed(dbs)
    ensures Indexed(AddHolders(dbs, a, targets, origin))
  {
    var after := AddHolders(dbs, a, targets, origin);
    if targets != {} {
      forall x, h ensures h in HoldersOf(after, x) <==> (a == x && h in targets) || h in HoldersOf(dbs, x) {
      }
      forall x, h ensures x in ChunksOf(after, h) <==> (a == x && h in targets) || x in ChunksOf(dbs, h) {
      }
    }
  }

  lemma DropKeeps(dbs: Dbs, a: BlobAddress, gone: set<XorName>)
    requires Indexed(dbs) && gone <= HoldersOf(dbs, a)
    ensures Indexed(DropHolders(dbs, a, gone))
    ensures forall x, h :: x in ChunksOf(DropHolders(dbs, a, gone), h) <==> !(a == x && h in gone) && x in ChunksOf(dbs, h)
  {
    var after := DropHolders(dbs, a, gone);
    forall x, h ensures h in HoldersOf(after, x) <==> !(a == x && h in gone) && h in HoldersOf(dbs, x) {
    }
    forall x, h ensures x in ChunksOf(after, h) <==> !(a == x && h in gone) && x in ChunksOf(dbs, h) {
    }
  }

  lemma LoseKeeps(dbs: Dbs, node: XorName)
    requires Indexed(dbs)
    ensures Indexed(LoseHolder(dbs, node))
    ensures forall x :: HoldersOf(LoseHolder(dbs, node), x) == HoldersOf(dbs, x) - {node}
    ensures node !in LoseHolder(dbs, node).holders
  {
    var after := LoseHolder(dbs, node);
    forall x ensures HoldersOf(after, x) == HoldersOf(dbs, x) - {node} {
      assert node in HoldersOf(dbs, x) <==> x in ChunksOf(dbs, node);
    }
    forall x, h ensures x in ChunksOf(after, h) <==> h != node && x in ChunksOf(dbs, h) {
    }
  }

  // ---------- store ----------

  /** Existing holders, topped up from the closest adults in name order until there are enough copies. */
  function TopUp(existing: set<XorName>, closest: set<XorName>): (r: set<XorName>)
    ensures existing <= r <= existing + closest
    ensures |existing| <= CHUNK_COPY_COUNT ==> |r| <= CHUNK_COPY_COUNT
    ensures |r| >= CHUNK_COPY_COUNT || r == existing + closest
    decreases |closest|
  {
    if closest == {} then existing
    else
      var h := Least(closest);
      var next := if h !in existing && |existing| < CHUNK_COPY_COUNT then existing + {h} else existing;
      var r := TopUp(next, closest - {h});
      SubsetSize(existing, r);
      assert h in next ==> next + (closest - {h}) == existing + closest;
      r
  }

  /** Holders are added in name order: whoever is left out comes after whoever is added. */
  lemma {:induction false} TopUpInOrder(existing: set<XorName>, closest: set<XorName>, added: XorName, left: XorName)
    requires added in TopUp(existing, closest) - existing && left in closest - TopUp(existing, closest)
    ensures added < left
    decreases |closest|
  {
    var h := Least(closest);
    var next := if h !in existing && |existing| < CHUNK_COPY_COUNT then existing + {h} else existing;
    assert TopUp(existing, closest) == TopUp(next, closest - {h});
    if added != h && h != left {
      TopUpInOrder(next, closest - {h}, added, left);
    } else if h == left {
      FullStays(next, closest - {h});
    }
  }

  lemma {:induction false} FullStays(existing: set<XorName>, closest: set<XorName>)
    requires |existing| >= CHUNK_COPY_COUNT
    ensures TopUp(existing, closest) == existing
    decreases |closest|
  {
    if closest != {} {
      FullStays(existing, closest - {Least(closest)});
    }
  }

  function Targets(dbs: Dbs, a: BlobAddress, closest: set<XorName>): set<XorName>
  {
    if HoldersOf(dbs, a) == {} then closest else TopUp(HoldersOf(dbs, a), closest)
  }

  predicate Rejected(dbs: Dbs, a: BlobAddress)
  {
    |HoldersOf(dbs, a)| == CHUNK_COPY_COUNT
  }

  function StoreAnswer(dbs: Dbs, a: BlobAddress, closest: set<XorName>): Answer
  {
    if Rejected(dbs, a) then (if a.isPrivate then DataExists else AlreadyStored)
    else SendToNodes(Targets(dbs, a, closest))
  }

  function AfterStore(dbs: Dbs, a: BlobAddress, origin: PublicKey, closest: set<XorName>): Dbs
  {
    if Rejected(dbs, a) then dbs else AddHolders(dbs, a, Targets(dbs, a, closest), origin)
  }

  function Capped(n: nat): nat
  {
    if n <= CHUNK_COPY_COUNT then n else CHUNK_COPY_COUNT
  }

  lemma TargetsSize(dbs: Dbs, a: BlobAddress, closest: set<XorName>)
    requires |HoldersOf(dbs, a)| <= CHUNK_COPY_COUNT && |closest| <= CHUNK_COPY_COUNT
    ensures
      var before, targets := HoldersOf(dbs, a), Targets(dbs, a, closest);
      before <= targets <= before + closest && |targets| == Capped(|before + closest|)
  {
    var before, targets := HoldersOf(dbs, a), Targets(dbs, a, closest);
    if before == {} {
      assert before + closest == closest;
    } else {
      SubsetSize(targets, before + closest);
    }
  }

  lemma AddedHolders(dbs: Dbs, a: BlobAddress, targets: set<XorName>, origin: PublicKey)
    requires HoldersOf(dbs, a) <= targets
    ensures HoldersOf(AddHolders(dbs, a, targets, origin), a) == targets
    ensures forall x :: x != a ==> HoldersOf(AddHolders(dbs, a, targets, origin), x) == HoldersOf(dbs, x)
  {
    assert HoldersOf(dbs, a) + targets == targets;
  }

  lemma AddedSized(dbs: Dbs, a: BlobAddress, targets: set<XorName>, origin: PublicKey)
    requires Sized(dbs) && HoldersOf(dbs, a) <= targets && |targets| <= CHUNK_COPY_COUNT
    ensures Sized(AddHolders(dbs, a, targets, origin))
  {
    assert HoldersOf(dbs, a) + targets == targets;
  }

  /** A store that is not rejected keeps the existing holders and leaves as many copies as it can, up to four. */
  lemma StoreCopies(dbs: Dbs, a: BlobAddress, origin: PublicKey, closest: set<XorName>)
    requires Consistent(dbs) && |closest| <= CHUNK_COPY_COUNT
    ensures Consistent(AfterStore(dbs, a, origin, closest))
    ensures
      var before, after := HoldersOf(dbs, a), HoldersOf(AfterStore(dbs, a, origin, closest), a);
      before <= after <= before + closest && |after| == Capped(|before + closest|)
    ensures forall x :: x != a ==> HoldersOf(AfterStore(dbs, a, origin, closest), x) == HoldersOf(dbs, x)
  {
    var before, targets := HoldersOf(dbs, a), Targets(dbs, a, closest);
    if Rejected(dbs, a) {
      SubsetSize(before, before + closest);
    } else {
      TargetsSize(dbs, a, closest);
      AddKeeps(dbs, a, targets, origin);
      AddedHolders(dbs, a, targets, origin);
      AddedSized(dbs, a, targets, origin);
    }
  }

  /** A store is sent on exactly while there are fewer than four holders, and then to exactly those registered as holders
      afterwards; else a private chunk is answered as existing and a public one as stored. */
  lemma StoreAnswered(dbs: Dbs, a: BlobAddress, origin: PublicKey, closest: set<XorName>)
    requires Consistent(dbs)
    ensures
      var answer := StoreAnswer(dbs, a, closest);
      && (answer.SendToNodes? <==> |HoldersOf(dbs, a)| < CHUNK_COPY_COUNT)
      && (answer.SendToNodes? ==> answer.targets == HoldersOf(AfterStore(dbs, a, origin, closest), a))
      && (|HoldersOf(dbs, a)| == CHUNK_COPY_COUNT ==> answer == if a.isPrivate then DataExists else AlreadyStored)
      && (!answer.SendToNodes? ==> AfterStore(dbs, a, origin, closest) == dbs)
  {
    if !Rejected(dbs, a) {
      AddedHolders(dbs, a, Targets(dbs, a, closest), origin);
    }
  }

  // ---------- delete and member loss ----------

  function DeleteAnswer(dbs: Dbs, a: BlobAddress, origin: PublicKey): Answer
  {
    if HoldersOf(dbs, a) == {} then NoSuchChunk
    else if OwnerOf(dbs, a) != None && OwnerOf(dbs, a) != Some(origin) then AccessDenied
    else SendToNodes(HoldersOf(dbs, a))
  }

  function AfterDelete(dbs: Dbs, a: BlobAddress, origin: PublicKey): Dbs
  {
    if DeleteAnswer(dbs, a, origin).SendToNodes? then DropHolders(dbs, a, HoldersOf(dbs, a)) else dbs
  }

  lemma DeleteRemoves(dbs: Dbs, a: BlobAddress, origin: PublicKey)
    requires Consistent(dbs)
    ensures Consistent(AfterDelete(dbs, a, origin))
    ensures DeleteAnswer(dbs, a, origin).SendToNodes? ==>
              var after := AfterDelete(dbs, a, origin);
              a !in after.metadata && forall h :: a !in ChunksOf(after, h)
    ensures forall x :: x != a ==> HoldersOf(AfterDelete(dbs, a, origin), x) == HoldersOf(dbs, x)
  {
    DropKeeps(dbs, a, HoldersOf(dbs, a));
  }

  /** A delete is sent on exactly if the chunk is there and has no other owner, to exactly its holders, and then the chunk
      is gone; else it is answered as missing or as denied, and nothing changes. */
  lemma DeleteAnswered(dbs: Dbs, a: BlobAddress, origin: PublicKey)
    requires Consistent(dbs)
    ensures
      var answer, after := DeleteAnswer(dbs, a, origin), AfterDelete(dbs, a, origin);
      && (answer == NoSuchChunk <==> a !in dbs.metadata)
      && (answer == AccessDenied <==> a in dbs.metadata && OwnerOf(dbs, a).Some? && OwnerOf(dbs, a).value != origin)
      && (a in dbs.metadata && !(OwnerOf(dbs, a).Some? && OwnerOf(dbs, a).value != origin) ==>
            answer == SendToNodes(HoldersOf(dbs, a)) && a !in after.metadata)
      && (!answer.SendToNodes? ==> after == dbs)
  {
    DropKeeps(dbs, a, HoldersOf(dbs, a));
    assert a in dbs.metadata <==> HoldersOf(dbs, a) != {};
  }

  lemma StruckSized(metadata: map<BlobAddress, ChunkMetadata>, node: XorName, chunks: set<BlobAddress>, a: BlobAddress)
    requires a in Strike(metadata, node, chunks)
    ensures |Strike(metadata, node, chunks)[a].holders| <= |metadata[a].holders|
  {
    SubsetSize(metadata[a].holders - {node}, metadata[a].holders);
  }

  lemma LossKeeps(dbs: Dbs, node: XorName)
    requires Consistent(dbs)
    ensures Consistent(LoseHolder(dbs, node))
  {
    LoseKeeps(dbs, node);
    forall a | a in LoseHolder(dbs, node).metadata
      ensures |LoseHolder(dbs, node).metadata[a].holders| <= CHUNK_COPY_COUNT
    {
      StruckSized(dbs.metadata, node, ChunksOf(dbs, node), a);
    }
  }

  // ---------- runs ----------

  datatype Op =
    | Store(address: BlobAddress, origin: PublicKey, closest: set<XorName>)
    | Delete(address: BlobAddress, origin: PublicKey)
    | LoseMember(node: XorName)

  /** The reader never returns more than the wanted number of adults. */
  ghost predicate ValidOp(op: Op)
  {
    op.Store? ==> |op.closest| <= CHUNK_COPY_COUNT
  }

  function After(dbs: Dbs, op: Op): Dbs
  {
    match op
    case Store(a, origin, closest) => AfterStore(dbs, a, origin, closest)
    case Delete(a, origin) => AfterDelete(dbs, a, origin)
    case LoseMember(node) => LoseHolder(dbs, node)
  }

  function Run(ops: seq<Op>): Dbs
  {
    if ops == [] then Dbs(map[], map[]) else After(Run(ops[..|ops| - 1]), ops[|ops| - 1])
  }

  /** In every state reached by stores, deletes and member losses the two databases agree, no entry is empty,
      and each chunk has one to four holders. */
  lemma {:induction false} AlwaysConsistent(ops: seq<Op>)
    requires forall op :: op in ops ==> ValidOp(op)
    ensures Consistent(Run(ops))
  {
    if ops != [] {
      var before, op := ops[..|ops| - 1], ops[|ops| - 1];
      assert op in ops;
      AlwaysConsistent(before);
      match op {
        case Store(a, origin, closest) => StoreCopies(Run(before), a, origin, closest);
        case Delete(a, origin) => DeleteRemoves(Run(before), a, origin);
        case LoseMember(node) => LossKeeps(Run(before), node);
      }
    }
  }

  // ---------- who may delete ----------

  /** A store that is not rejected and finds somewhere to go. */
  predicate Accepted(dbs: Dbs, a: BlobAddress, closest: set<XorName>)
  {
    !Rejected(dbs, a) && Targets(dbs, a, closest) != {}
  }

  /** The owner as the run tells it: the origin of the last accepted store since the chunk was last absent. */
  function LastStorer(ops: seq<Op>, a: BlobAddress): Option<PublicKey>
  {
    if ops == [] then None
    else
      var before, earlier := Run(ops[..|ops| - 1]), LastStorer(ops[..|ops| - 1], a);
      match ops[|ops| - 1]
      case Store(x, origin, closest) => if x == a && Accepted(before, a, closest) then Some(origin) else earlier
      case Delete(x, origin) => if x == a && earlier == Some(origin) then None else earlier
      case LoseMember(node) => if HoldersOf(before, a) == {node} then None else earlier
  }

  lemma StoreOwner(dbs: Dbs, a: BlobAddress, origin: PublicKey, closest: set<XorName>, x: BlobAddress)
    requires x.isPrivate
    ensures OwnerOf(AfterStore(dbs, a, origin, closest), x) ==
            if x == a && Accepted(dbs, a, closest) then Some(origin) else OwnerOf(dbs, x)
  {
  }

  lemma DeleteOwner(dbs: Dbs, a: BlobAddress, origin: PublicKey, x: BlobAddress)
    requires Indexed(dbs) && x.isPrivate && (x in dbs.metadata ==> OwnerOf(dbs, x).Some?)
    ensures OwnerOf(AfterDelete(dbs, a, origin), x) ==
            if x == a && OwnerOf(dbs, x) == Some(origin) then None else OwnerOf(dbs, x)
  {
    assert HoldersOf(dbs, a) - HoldersOf(dbs, a) == {};
  }

  lemma LossOwner(dbs: Dbs, node: XorName, x: BlobAddress)
    requires Indexed(dbs)
    ensures OwnerOf(LoseHolder(dbs, node), x) == if HoldersOf(dbs, x) == {node} then None else OwnerOf(dbs, x)
  {
    assert node in HoldersOf(dbs, x) <==> x in ChunksOf(dbs, node);
    assert HoldersOf(dbs, x) == {node} ==> HoldersOf(dbs, x) - {node} == {};
    assert HoldersOf(dbs, x) != {node} && x in dbs.metadata ==> HoldersOf(dbs, x) - {node} != {} by {
      if HoldersOf(dbs, x) - {node} == {} && x in dbs.metadata {
        assert HoldersOf(dbs, x) == {node};
      }
    }
  }

  /** The chunk is there exactly if it has an owner. */
  ghost predicate OwnedIfThere(dbs: Dbs, a: BlobAddress)
  {
    a in dbs.metadata <==> OwnerOf(dbs, a).Some?
  }

  lemma OpOwned(dbs: Dbs, op: Op, a: BlobAddress)
    requires Consistent(dbs) && a.isPrivate && OwnedIfThere(dbs, a)
    ensures OwnedIfThere(After(dbs, op), a)
  {
  }

  /** In every run, a private chunk's owner is the origin of the last accepted store since it was last absent, and it is
      there exactly if there was such a store. */
  lemma {:induction false} OwnerIsLastStorer(ops: seq<Op>, a: BlobAddress)
    requires a.isPrivate && forall op :: op in ops ==> ValidOp(op)
    ensures OwnerOf(Run(ops), a) == LastStorer(ops, a)
    ensures OwnedIfThere(Run(ops), a)
  {
    if ops != [] {
      var before, op := ops[..|ops| - 1], ops[|ops| - 1];
      OwnerIsLastStorer(before, a);
      AlwaysConsistent(before);
      OpOwned(Run(before), op, a);
      match op {
        case Store(x, origin, closest) => StoreOwner(Run(before), x, origin, closest, a);
        case Delete(x, origin) => DeleteOwner(Run(before), x, origin, a);
        case LoseMember(node) => LossOwner(Run(before), node, a);
      }
    }
  }

  /** In every run, a private chunk can be deleted by that storer and by nobody else. */
  lemma OnlyLastStorerDeletes(ops: seq<Op>, a: BlobAddress, origin: PublicKey)
    requires a.isPrivate && forall op :: op in ops ==> ValidOp(op)
    ensures DeleteAnswer(Run(ops), a, origin).SendToNodes? <==> LastStorer(ops, a) == Some(origin)
  {
    OwnerIsLastStorer(ops, a);
    AlwaysConsistent(ops);
  }

  lemma OpUnowned(dbs: Dbs, op: Op, a: BlobAddress)
    requires !a.isPrivate && OwnerOf(dbs, a).None?
    ensures OwnerOf(After(dbs, op), a).None?
  {
  }

  lemma {:induction false} PublicUnowned(ops: seq<Op>, a: BlobAddress)
    requires !a.isPrivate
    ensures OwnerOf(Run(ops), a).None?
  {
    if ops != [] {
      PublicUnowned(ops[..|ops| - 1], a);
      OpUnowned(Run(ops[..|ops| - 1]), ops[|ops| - 1], a);
    }
  }

  /** In every run, a public chunk that is there is dropped from the register by a delete from anyone. */
  lemma AnyoneDeletesPublic(ops: seq<Op>, a: BlobAddress, origin: PublicKey)
    requires !a.isPrivate && forall op :: op in ops ==> ValidOp(op)
    ensures DeleteAnswer(Run(ops), a, origin).SendToNodes? <==> a in Run(ops).metadata
  {
    PublicUnowned(ops, a);
    AlwaysConsistent(ops);
    DeleteAnswered(Run(ops), a, origin);
  }

  /** What takes the right to delete from an owner: a store by another while there are fewer than four holders, its own
      delete, and the loss of the last holder. */
  predicate Ousts(dbs: Dbs, op: Op, a: BlobAddress, owner: PublicKey)
  {
    match op
    case Store(x, origin, _) => x == a && origin != owner && |HoldersOf(dbs, a)| < CHUNK_COPY_COUNT
    case Delete(x, origin) => x == a && origin == owner
    case LoseMember(node) => HoldersOf(dbs, a) == {node}
  }

  lemma OustedExactly(dbs: Dbs, op: Op, a: BlobAddress, owner: PublicKey)
    requires Consistent(dbs) && ValidOp(op) && a.isPrivate && OwnerOf(dbs, a) == Some(owner)
    ensures OwnerOf(After(dbs, op), a) == Some(owner) <==> !Ousts(dbs, op, a, owner)
  {
    assert HoldersOf(dbs, a) != {};
    match op {
      case Store(x, origin, closest) => StoreOwner(dbs, x, origin, closest, a);
      case Delete(x, origin) => DeleteOwner(dbs, x, origin, a);
      case LoseMember(node) => LossOwner(dbs, node, a);
    }
  }

  ghost predicate OwnsAt(ops: seq<Op>, k: nat, a: BlobAddress, owner: PublicKey)
  {
    k <= |ops| && OwnerOf(Run(ops[..k]), a) == Some(owner)
  }

  ghost predicate OustsAt(ops: seq<Op>, k: nat, a: BlobAddress, owner: PublicKey)
  {
    k < |ops| && Ousts(Run(ops[..k]), ops[k], a, owner)
  }

  ghost predicate OwnsThroughout(ops: seq<Op>, m: nat, a: BlobAddress, owner: PublicKey)
  {
    forall k: nat :: m <= k <= |ops| ==> OwnsAt(ops, k, a, owner)
  }

  ghost predicate NeverOusted(ops: seq<Op>, m: nat, a: BlobAddress, owner: PublicKey)
  {
    forall k: nat :: m <= k < |ops| ==> !OustsAt(ops, k, a, owner)
  }

  /** The owner of a private chunk keeps the right to delete it all along a run exactly if no step takes it. */
  lemma OwnerKeepsExactly(ops: seq<Op>, m: nat, a: BlobAddress, owner: PublicKey)
    requires a.isPrivate && (forall op :: op in ops ==> ValidOp(op)) && OwnsAt(ops, m, a, owner)
    ensures OwnsThroughout(ops, m, a, owner) <==> NeverOusted(ops, m, a, owner)
  {
    forall k: nat | m <= k < |ops| && OwnsAt(ops, k, a, owner)
      ensures OwnsAt(ops, k + 1, a, owner) <==> !OustsAt(ops, k, a, owner)
    {
      OustedAt(ops, k, a, owner);
    }
    var owns, ousts := (k: nat) => OwnsAt(ops, k, a, owner), (k: nat) => OustsAt(ops, k, a, owner);
    HoldsThroughout(m, |ops|, owns, ousts);
    assert forall k: nat :: owns(k) == OwnsAt(ops, k, a, owner);
    assert forall k: nat :: ousts(k) == OustsAt(ops, k, a, owner);
    assert OwnsThroughout(ops, m, a, owner) <==> forall k: nat :: m <= k <= |ops| ==> owns(k);
    assert NeverOusted(ops, m, a, owner) <==> forall k: nat :: m <= k < |ops| ==> !ousts(k);
  }

  lemma OustedAt(ops: seq<Op>, k: nat, a: BlobAddress, owner: PublicKey)
    requires k < |ops| && a.isPrivate && (forall op :: op in ops ==> ValidOp(op)) && OwnsAt(ops, k, a, owner)
    ensures OwnsAt(ops, k + 1, a, owner) <==> !OustsAt(ops, k, a, owner)
  {
    assert ops[k] in ops && ops[..k + 1][..k] == ops[..k];
    AlwaysConsistent(ops[..k]);
    OustedExactly(Run(ops[..k]), ops[k], a, owner);
  }

  // ---------- the loops compose to the closed forms ----------

  lemma AddOneMoreMetadata(dbs: Dbs, a: BlobAddress, done: set<XorName>, h: XorName, origin: PublicKey)
    ensures AddHolders(AddHolders(dbs, a, done, origin), a, {h}, origin).metadata == AddHolders(dbs, a, done + {h}, origin).metadata
  {
    var mid := AddHolders(dbs, a, done, origin);
    assert HoldersOf(mid, a) + {h} == HoldersOf(dbs, a) + (done + {h});
  }

  lemma AddedChunks(dbs: Dbs, a: BlobAddress, targets: set<XorName>, origin: PublicKey, x: XorName)
    ensures
      var after := AddHolders(dbs, a, targets, origin);
      && (x in after.holders <==> x in dbs.holders || x in targets)
      && ChunksOf(after, x) == if x in targets then ChunksOf(dbs, x) + {a} else ChunksOf(dbs, x)
  {
  }

  lemma AddOneMore(dbs: Dbs, a: BlobAddress, done: set<XorName>, h: XorName, origin: PublicKey)
    ensures AddHolders(AddHolders(dbs, a, done, origin), a, {h}, origin) == AddHolders(dbs, a, done + {h}, origin)
  {
    AddOneMoreMetadata(dbs, a, done, h, origin);
    var mid := AddHolders(dbs, a, done, origin);
    var left, right := AddHolders(mid, a, {h}, origin).holders, AddHolders(dbs, a, done + {h}, origin).holders;
    forall x ensures (x in left <==> x in right) && (x in left ==> left[x] == right[x]) {
      AddedChunks(dbs, a, done, origin, x);
      AddedChunks(mid, a, {h}, origin, x);
      AddedChunks(dbs, a, done + {h}, origin, x);
    }
    assert left == right;
  }

  lemma DropNothing(dbs: Dbs, a: BlobAddress)
    requires HoldersOf(dbs, a) != {}
    ensures DropHolders(dbs, a, {}) == dbs
  {
    assert HoldersOf(dbs, a) - {} == HoldersOf(dbs, a);
    assert dbs.metadata[a := dbs.metadata[a].(holders := HoldersOf(dbs, a))] == dbs.metadata;
  }

  lemma DropOneMore(dbs: Dbs, a: BlobAddress, gone: set<XorName>, h: XorName)
    requires Indexed(dbs) && gone + {h} <= HoldersOf(dbs, a) && h !in gone
    ensures DropHolders(DropHolders(dbs, a, gone), a, {h}) == DropHolders(dbs, a, gone + {h})
  {
    var mid := DropHolders(dbs, a, gone);
    var left, right := DropHolders(mid, a, {h}), DropHolders(dbs, a, gone + {h});
    assert HoldersOf(mid, a) == HoldersOf(dbs, a) - gone;
    assert HoldersOf(dbs, a) - gone - {h} == HoldersOf(dbs, a) - (gone + {h});
    assert left.metadata == right.metadata;
    assert left.holders.Keys == right.holders.Keys;
    forall x | x in left.holders ensures left.holders[x] == right.holders[x] {
    }
  }

  lemma StrikeOneMore(metadata: map<BlobAddress, ChunkMetadata>, node: XorName, done: set<BlobAddress>, a: BlobAddress)
    requires a !in done && a in metadata
    ensures
      var m := Strike(metadata, node, done);
      var struck := Without(metadata[a], node);
      && a in m && m[a] == metadata[a]
      && Strike(metadata, node, done + {a}) == if struck.holders == {} then m - {a} else m[a := struck]
  {
  }

  /** The commands that the loss of a node calls for. */
  ghost predicate Wanted(dbs: Dbs, node: XorName, closestOf: BlobAddress -> set<XorName>, c: ReplicateChunk)
  {
    && c.address in ChunksOf(dbs, node)
    && c.currentHolders == HoldersOf(dbs, c.address) - {node}
    && c.newHolder in closestOf(c.address) - c.currentHolders
    && c.id == CombineId(c.address.name, c.newHolder)
  }

  class Register {
    var dbs: Dbs

    constructor ()
      ensures dbs == Dbs(map[], map[])
    {
      dbs := Dbs(map[], map[]);
    }

    method SetChunkHolder(a: BlobAddress, h: XorName, origin: PublicKey)
      requires Indexed(dbs)
      modifies this
      ensures dbs == AddHolders(old(dbs), a, {h}, origin)
    {
      var metadata := ChunkMetadata(HoldersOf(dbs, a), OwnerOf(dbs, a));
      if a.isPrivate {
        metadata := metadata.(owner := Some(origin));
      }
      metadata := metadata.(holders := metadata.holders + {h});
      dbs := dbs.(metadata := dbs.metadata[a := metadata]);
      var chunks := ChunksOf(dbs, h) + {a};
      dbs := dbs.(holders := dbs.holders[h := chunks]);
    }

    method RemoveChunkHolder(a: BlobAddress, h: XorName)
      requires Indexed(dbs) && h in HoldersOf(dbs, a)
      modifies this
      ensures dbs == DropHolders(old(dbs), a, {h})
    {
      assert a in ChunksOf(dbs, h);
      var chunks := dbs.holders[h] - {a};
      if chunks == {} {
        dbs := dbs.(holders := dbs.holders - {h});
      } else {
        dbs := dbs.(holders := dbs.holders[h := chunks]);
      }
      var metadata := Without(dbs.metadata[a], h);
      if metadata.holders == {} {
        dbs := dbs.(metadata := dbs.metadata - {a});
      } else {
        dbs := dbs.(metadata := dbs.metadata[a := metadata]);
      }
      assert dbs.holders == DropHolders(old(dbs), a, {h}).holders;
    }

    method Store(a: BlobAddress, origin: PublicKey, closest: set<XorName>) returns (answer: Answer)
      requires Consistent(dbs)
      modifies this
      ensures dbs == AfterStore(old(dbs), a, origin, closest)
      ensures answer == StoreAnswer(old(dbs), a, closest)
    {
      var targets := closest;
      if HoldersOf(dbs, a) != {} {
        if |HoldersOf(dbs, a)| == CHUNK_COPY_COUNT {
          return if a.isPrivate then DataExists else AlreadyStored;
        }
        targets := CollectTargets(HoldersOf(dbs, a), closest);
      }
      var todo := targets;
      while todo != {}
        invariant todo <= targets && Indexed(dbs)
        invariant dbs == AddHolders(old(dbs), a, targets - todo, origin)
      {
        var h := Least(todo);
        AddOneMore(old(dbs), a, targets - todo, h, origin);
        AddKeeps(dbs, a, {h}, origin);
        TakenFrom(targets, todo, h);
        SetChunkHolder(a, h, origin);
        todo := todo - {h};
      }
      assert targets - todo == targets;
      answer := SendToNodes(targets);
    }

    method Delete(a: BlobAddress, origin: PublicKey) returns (answer: Answer)
      requires Consistent(dbs)
      modifies this
      ensures dbs == AfterDelete(old(dbs), a, origin)
      ensures answer == DeleteAnswer(old(dbs), a, origin)
    {
      if HoldersOf(dbs, a) == {} {
        return NoSuchChunk;
      }
      if OwnerOf(dbs, a).Some? && OwnerOf(dbs, a).value != origin {
        return AccessDenied;
      }
      var holders := HoldersOf(dbs, a);
      var todo := holders;
      DropNothing(dbs, a);
      assert holders - todo == {};
      while todo != {}
        invariant todo <= holders && Indexed(dbs) && HoldersOf(dbs, a) == todo
        invariant dbs == DropHolders(old(dbs), a, holders - todo)
      {
        var h := Least(todo);
        DropOneMore(old(dbs), a, holders - todo, h);
        DropKeeps(dbs, a, {h});
        TakenFrom(holders, todo, h);
        RemoveChunkHolder(a, h);
        todo := todo - {h};
      }
      assert holders - todo == holders;
      answer := SendToNodes(holders);
    }

    /** Returns the chunks the lost node held, each with its remaining holders. */
    method RemoveHolder(node: XorName) returns (found: map<BlobAddress, set<XorName>>)
      requires Indexed(dbs)
      modifies this
      ensures dbs == LoseHolder(old(dbs), node)
      ensures found.Keys == ChunksOf(old(dbs), node)
      ensures forall a :: a in found ==> found[a] == HoldersOf(old(dbs), a) - {node}
    {
      found := map[];
      var chunks := ChunksOf(dbs, node);
      var todo := chunks;
      ghost var before := dbs.metadata;
      assert Strike(before, node, {}) == before;
      while todo != {}
        invariant todo <= chunks
        invariant dbs == Dbs(Strike(before, node, chunks - todo), old(dbs).holders)
        invariant found.Keys == chunks - todo
        invariant forall a :: a in found ==> found[a] == HoldersOf(old(dbs), a) - {node}
      {
        var a :| a in todo;
        assert node in HoldersOf(old(dbs), a);
        StrikeOneMore(before, node, chunks - todo, a);
        TakenFrom(chunks, todo, a);
        var metadata := Without(dbs.metadata[a], node);
        found := found[a := metadata.holders];
        if metadata.holders == {} {
          dbs := dbs.(metadata := dbs.metadata - {a});
        } else {
          dbs := dbs.(metadata := dbs.metadata[a := metadata]);
        }
        todo := todo - {a};
      }
      assert chunks - todo == chunks;
      dbs := dbs.(holders := dbs.holders - {node});
    }

    /** One command for each closest adult that does not hold the chunk yet. */
    method GetReplicationMsgs(a: BlobAddress, currentHolders: set<XorName>, closest: set<XorName>) returns (cmds: seq<ReplicateChunk>)
      ensures Distinct(cmds)
      ensures forall c :: c in cmds <==>
                && c.address == a && c.currentHolders == currentHolders
                && c.newHolder in closest - HoldersOf(dbs, a) && c.id == CombineId(a.name, c.newHolder)
    {
      cmds := [];
      var newHolders := closest - HoldersOf(dbs, a);
      var todo := newHolders;
      while todo != {}
        invariant todo <= newHolders && Distinct(cmds)
        invariant forall c :: c in cmds <==>
                    && c.address == a && c.currentHolders == currentHolders
                    && c.newHolder in newHolders - todo && c.id == CombineId(a.name, c.newHolder)
      {
        var h := Least(todo);
        cmds := cmds + [ReplicateChunk(h, a, currentHolders, CombineId(a.name, h))];
        todo := todo - {h};
      }
    }

    /** Member loss: the node leaves both databases, and exactly the wanted commands are issued. */
    method ReplicateChunks(node: XorName, closestOf: BlobAddress -> set<XorName>) returns (cmds: seq<ReplicateChunk>)
      requires Indexed(dbs)
      modifies this
      ensures dbs == LoseHolder(old(dbs), node)
      ensures Distinct(cmds)
      ensures forall c :: c in cmds <==> Wanted(old(dbs), node, closestOf, c)
      ensures forall a, h :: a in ChunksOf(old(dbs), node) && h in closestOf(a) ==>
                h in HoldersOf(dbs, a) || ReplicateChunk(h, a, HoldersOf(dbs, a), CombineId(a.name, h)) in cmds
    {
      var found := RemoveHolder(node);
      LoseKeeps(old(dbs), node);
      cmds := [];
      var todo := found.Keys;
      while todo != {}
        invariant todo <= found.Keys && Distinct(cmds)
        invariant dbs == LoseHolder(old(dbs), node)
        invariant forall c :: c in cmds <==> Wanted(old(dbs), node, closestOf, c) && c.address !in todo
      {
        var a :| a in todo;
        var more := GetReplicationMsgs(a, found[a], closestOf(a));
        cmds := cmds + more;
        todo := todo - {a};
      }
    }
  }

  /** The loop that tops up the existing holders. */
  method CollectTargets(existing: set<XorName>, closest: set<XorName>) returns (targets: set<XorName>)
    ensures targets == TopUp(existing, closest)
  {
    targets := existing;
    var todo := closest;
    while todo != {}
      invariant TopUp(targets, todo) == TopUp(existing, closest)
      decreases |todo|
    {
      var h := Least(todo);
      if h !in targets && |targets| < CHUNK_COPY_COUNT {
        targets := targets + {h};
      }
      todo := todo - {h};
    }
  }
}
