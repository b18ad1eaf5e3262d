/** Moving a chunk to a new holder: elder, new holder and current holders over an unreliable network. */
module Replication {
  import opened Collections
  import opened BlobRegister
  import opened UsedSpace
  import opened ChunkStore

  /** A chunk-storing node; its one store has the id 0 in its account. */
  datatype Adult = Adult(space: UsedSpace.Space, files: Files)

  datatype Msg =
    | Command(cmd: ReplicateChunk)
    | Query(address: BlobAddress, newHolder: XorName, id: nat)
    | Response(data: Chunk, correlationId: nat)

  // ---------- the handlers of a node ----------

  /** On the elders' command: ask the current holders, under our own name and the command's id. */
  function AskHolders(me: XorName, cmd: ReplicateChunk): Msg
  {
    Query(cmd.address, me, cmd.id)
  }

  /** On a query: answer with the chunk if we have it. */
  function AnswerQuery(files: Files, address: BlobAddress, id: nat): Option<Msg>
  {
    if address in files && files[address].address == address then Some(Response(files[address], id)) else None
  }

  /** A replicated chunk is stored, in the store of this id, unless we have it already. */
  function StoredIn(id: StoreId, adult: Adult, data: Chunk, written: bool): Adult
  {
    if data.address in adult.files then adult
    else
      var p := PutChunk(adult.space, id, adult.files, data, written);
      Adult(p.space, p.files)
  }

  function StoredReplica(adult: Adult, data: Chunk, written: bool): Adult
  {
    StoredIn(0, adult, data, written)
  }

  /** Private chunks are taken from their owner only. */
  predicate MayStore(data: Chunk, origin: PublicKey)
  {
    data.address.isPrivate ==> data.owner == Some(origin)
  }

  /** A client's chunk, from one who may store it, is stored unless we have it already. */
  function ClientStored(id: StoreId, adult: Adult, data: Chunk, origin: PublicKey, written: bool): Adult
  {
    if MayStore(data, origin) then StoredIn(id, adult, data, written) else adult
  }

  /** Only private chunks can be deleted, by their owner only. */
  predicate MayDelete(c: Chunk, origin: PublicKey)
  {
    c.address.isPrivate && c.owner == Some(origin)
  }

  function ClientDeleted(id: StoreId, adult: Adult, a: BlobAddress, origin: PublicKey): Adult
  {
    if a in adult.files && adult.files[a].address == a && MayDelete(adult.files[a], origin) then
      var p := DeletedFile(adult.space, id, adult.files, a);
      Adult(p.space, p.files)
    else adult
  }

  /** The correlation id must be that of a replication of this name to us. */
  predicate IsOurs(me: XorName, data: Chunk, correlationId: nat)
  {
    CombineId(data.address.name, me) == correlationId
  }

  // ---------- the store object ----------

  datatype StorageError = InvalidOwners | AlreadyThere | InvalidOperation | NoSuchKey | FailedToDelete | Storing(error: StoreError)

  class ChunkStorage {
    const nodeName: XorName
    const chunks: Store

    constructor (nodeName: XorName, chunks: Store)
      ensures this.nodeName == nodeName && this.chunks == chunks
    {
      this.nodeName := nodeName;
      this.chunks := chunks;
    }

    /** A client's chunk: private ones only from their owner, and never over an existing one. */
    method TryStore(data: Chunk, origin: PublicKey, written: bool) returns (r: Result<(), StorageError>)
      modifies chunks, chunks.account
      ensures Adult(chunks.account.Value(), chunks.files)
           == ClientStored(chunks.id, Adult(old(chunks.account.Value()), old(chunks.files)), data, origin, written)
      ensures r ==
        if !MayStore(data, origin) then Err(InvalidOwners)
        else if data.address in old(chunks.files) then Err(AlreadyThere)
        else
          var p := PutChunk(old(chunks.account.Value()), chunks.id, old(chunks.files), data, written);
          if p.result.Ok? then Ok(()) else Err(Storing(p.result.error))
    {
      if data.address.isPrivate && data.owner != Some(origin) {
        return Err(InvalidOwners);
      }
      var has := chunks.Has(data.address);
      if has {
        return Err(AlreadyThere);
      }
      var put := chunks.Put(data, written);
      r := if put.Ok? then Ok(()) else Err(Storing(put.error));
    }

    /** A missing chunk is no error; a public one cannot be deleted, a private one by its owner only. */
    method Delete(a: BlobAddress, origin: PublicKey) returns (r: Result<(), StorageError>)
      modifies chunks, chunks.account
      ensures Adult(chunks.account.Value(), chunks.files)
           == ClientDeleted(chunks.id, Adult(old(chunks.account.Value()), old(chunks.files)), a, origin)
      ensures r ==
        if a !in old(chunks.files) then Ok(())
        else if old(chunks.files)[a].address != a then Err(NoSuchKey)
        else if !a.isPrivate then Err(InvalidOperation)
        else if old(chunks.files)[a].owner != Some(origin) then Err(InvalidOwners)
        else if DeletedFile(old(chunks.account.Value()), chunks.id, old(chunks.files), a).result.Ok? then Ok(())
        else Err(FailedToDelete)
    {
      var has := chunks.Has(a);
      if !has {
        return Ok(());
      }
      var c := chunks.Get(a);
      if c.None? {
        return Err(NoSuchKey);
      }
      if !c.value.address.isPrivate {
        return Err(InvalidOperation);
      }
      if c.value.owner != Some(origin) {
        return Err(InvalidOwners);
      }
      var deleted := chunks.Delete(a);
      r := if deleted.Ok? then Ok(()) else Err(FailedToDelete);
    }

    method StoreForReplication(blob: Chunk, written: bool) returns (r: Result<(), StoreError>)
      modifies chunks, chunks.account
      ensures Adult(chunks.account.Value(), chunks.files)
           == StoredIn(chunks.id, Adult(old(chunks.account.Value()), old(chunks.files)), blob, written)
      ensures r == if blob.address in old(chunks.files) then Ok(())
                   else PutChunk(old(chunks.account.Value()), chunks.id, old(chunks.files), blob, written).result
    {
      var has := chunks.Has(blob.address);
      if has {
        return Ok(());
      }
      r := chunks.Put(blob, written);
    }

    method GetForReplication(address: BlobAddress, id: nat) returns (reply: Option<Msg>)
      ensures reply == AnswerQuery(chunks.files, address, id)
    {
      var c := chunks.Get(address);
      reply := if c.Some? then Some(Response(c.value, id)) else None;
    }
  }

  // ---------- the system ----------

  /** The nodes, and every message ever sent: any of them may arrive anywhere, at any time, any number of times. */
  datatype System = System(adults: map<XorName, Adult>, pool: set<Msg>)

  datatype Step = Issue(newHolder: XorName, address: BlobAddress, currentHolders: set<XorName>)
                | Deliver(msg: Msg, to: XorName, written: bool)
                | ClientStore(to: XorName, data: Chunk, origin: PublicKey, written: bool)
                | ClientDelete(to: XorName, address: BlobAddress, origin: PublicKey)

  function Sent(s: System, reply: Option<Msg>): System
  {
    if reply.Some? then s.(pool := s.pool + {reply.value}) else s
  }

  function Received(s: System, msg: Msg, to: XorName, written: bool): System
    requires to in s.adults
  {
    match msg
    case Command(cmd) => Sent(s, Some(AskHolders(to, cmd)))
    case Query(address, _, id) => Sent(s, AnswerQuery(s.adults[to].files, address, id))
    case Response(data, correlationId) =>
      if IsOurs(to, data, correlationId) then s.(adults := s.adults[to := StoredReplica(s.adults[to], data, written)]) else s
  }

  function Next(s: System, step: Step): System
  {
    match step
    case Issue(newHolder, address, currentHolders) =>
      Sent(s, Some(Command(ReplicateChunk(newHolder, address, currentHolders, CombineId(address.name, newHolder)))))
    case Deliver(msg, to, written) =>
      if msg in s.pool && to in s.adults then Received(s, msg, to, written) else s
    case ClientStore(to, data, origin, written) =>
      if to in s.adults then s.(adults := s.adults[to := ClientStored(0, s.adults[to], data, origin, written)]) else s
    case ClientDelete(to, address, origin) =>
      if to in s.adults then s.(adults := s.adults[to := ClientDeleted(0, s.adults[to], address, origin)]) else s
  }

  function Run(s: System, steps: seq<Step>): System
  {
    if steps == [] then s else Next(Run(s, steps[..|steps| - 1]), steps[|steps| - 1])
  }

  lemma {:induction false} RunOn(s: System, first: seq<Step>, rest: seq<Step>)
    ensures Run(s, first + rest) == Run(Run(s, first), rest)
  {
    if rest == [] {
      assert first + rest == first;
    } else {
      RunOn(s, first, rest[..|rest| - 1]);
      assert (first + rest)[..|first + rest| - 1] == first + rest[..|rest| - 1];
    }
  }

  // ---------- one node ----------

  function Alone(adult: Adult): ChunkStore.World
  {
    ChunkStore.World(adult.space, map[0 := StoreState(adult.files, Ready)])
  }

  /** The account is exact and each file is stored under its own address. */
  ghost predicate AdultOk(adult: Adult)
  {
    && adult.space.maxCapacity <= U64_MAX
    && Exact(Alone(adult))
    && forall a :: a in adult.files ==> adult.files[a].address == a
  }

  predicate Fits(adult: Adult, data: Chunk)
  {
    adult.space.total + Size(data) <= adult.space.maxCapacity
  }

  lemma PutKeepsExact(adult: Adult, data: Chunk, written: bool)
    requires AdultOk(adult)
    ensures
      var p := PutChunk(adult.space, 0, adult.files, data, written);
      Exact(Alone(Adult(p.space, p.files))) && p.space.maxCapacity == adult.space.maxCapacity
  {
    PutKeeps(Alone(adult), 0, data, written);
    var p := PutChunk(adult.space, 0, adult.files, data, written);
    SameWorld(adult, p);
  }

  lemma SameWorld(adult: Adult, p: PutResult)
    ensures Done(Alone(adult), 0, p) == Alone(Adult(p.space, p.files))
  {
    assert Alone(adult).stores[0 := StoreState(p.files, Ready)] == map[0 := StoreState(p.files, Ready)];
  }

  lemma PutInto(adult: Adult, data: Chunk, written: bool)
    requires AdultOk(adult) && data.address !in adult.files
    ensures PutChunk(adult.space, 0, adult.files, data, written).files ==
            if Fits(adult, data) && written then adult.files[data.address := data] else adult.files
  {
    PutOutcome(Alone(adult), 0, data, written);
    assert adult.files - {data.address} == adult.files;
  }

  /** Storing a replica never touches a held chunk, and adds the chunk exactly if it is new, fits and is written. */
  lemma ReplicaStored(adult: Adult, data: Chunk, written: bool)
    requires AdultOk(adult)
    ensures AdultOk(StoredReplica(adult, data, written))
    ensures StoredReplica(adult, data, written).files ==
            if data.address !in adult.files && Fits(adult, data) && written then adult.files[data.address := data] else adult.files
  {
    if data.address !in adult.files {
      PutKeepsExact(adult, data, written);
      PutInto(adult, data, written);
    }
  }

  /** A delete by the owner removes exactly that chunk and keeps the account exact; any other changes nothing. */
  lemma DeletedKeeps(adult: Adult, a: BlobAddress, origin: PublicKey)
    requires AdultOk(adult)
    ensures AdultOk(ClientDeleted(0, adult, a, origin))
    ensures ClientDeleted(0, adult, a, origin).files ==
            if a in adult.files && MayDelete(adult.files[a], origin) then adult.files - {a} else adult.files
  {
    if a in adult.files && MayDelete(adult.files[a], origin) {
      FileGone(adult, a);
    }
  }

  lemma FileGone(adult: Adult, a: BlobAddress)
    requires AdultOk(adult) && a in adult.files
    ensures
      var p := DeletedFile(adult.space, 0, adult.files, a);
      p.files == adult.files - {a} && AdultOk(Adult(p.space, p.files))
  {
    var w, size := Alone(adult), Size(adult.files[a]);
    assert StoreOk(w.space.locals[0].value, w.stores[0]);
    FileRemoved(adult.files, a);
    ReleaseExact(adult.space, 0, size);
    var after := Decreased(adult.space, 0, size).space;
    WithKeeps(w, after, 0, w.space.locals[0].value - size, StoreState(adult.files - {a}, Ready));
    SameWorld(adult, PutResult(after, adult.files - {a}, Ok(())));
  }

  /** A client's chunk is added exactly if it is public or the client's own, new, fits and is written. */
  lemma ClientStoreExactly(adult: Adult, data: Chunk, origin: PublicKey, written: bool)
    requires AdultOk(adult)
    ensures
      var after := ClientStored(0, adult, data, origin, written);
      var welcome := !data.address.isPrivate || data.owner == Some(origin);
      && AdultOk(after)
      && after.files ==
         (if welcome && data.address !in adult.files && Fits(adult, data) && written then adult.files[data.address := data]
          else adult.files)
      && (!welcome ==> after == adult)
  {
    ReplicaStored(adult, data, written);
  }

  /** The account charges each held chunk once. */
  lemma ChargedOnce(adult: Adult)
    requires AdultOk(adult)
    ensures adult.space.total == FileSum(adult.files)
  {
    var w := Alone(adult);
    assert StoreOk(w.space.locals[0].value, w.stores[0]);
    var values := LocalValues(adult.space.locals);
    assert values.Keys == {0};
    TotalRemove(values, 0);
    assert values - {0} == map[];
  }

  // ---------- every reachable state ----------

  /** The message goes back to a command for this name. */
  ghost predicate Caused(pool: set<Msg>, name: XorName, id: nat)
  {
    exists m :: m in pool && m.Command? && m.cmd.address.name == name && m.cmd.id == id &&
                id == CombineId(m.cmd.address.name, m.cmd.newHolder)
  }

  /** `content` says what every copy of a chunk is. */
  ghost predicate MsgOk(content: map<BlobAddress, Chunk>, pool: set<Msg>, m: Msg)
  {
    match m
    case Command(cmd) => cmd.id == CombineId(cmd.address.name, cmd.newHolder)
    case Query(address, _, id) => Caused(pool, address.name, id)
    case Response(data, id) => Caused(pool, data.address.name, id) && data.address in content && content[data.address] == data
  }

  ghost predicate CopiesAgree(content: map<BlobAddress, Chunk>, adult: Adult)
  {
    AdultOk(adult) && forall a :: a in adult.files ==> a in content && adult.files[a] == content[a]
  }

  ghost predicate Inv(content: map<BlobAddress, Chunk>, s: System)
  {
    && (forall x :: x in s.adults ==> CopiesAgree(content, s.adults[x]))
    && (forall m :: m in s.pool ==> MsgOk(content, s.pool, m))
  }

  lemma SendKeeps(content: map<BlobAddress, Chunk>, s: System, m: Msg)
    requires Inv(content, s) && MsgOk(content, s.pool + {m}, m)
    ensures Inv(content, Sent(s, Some(m)))
  {
    var pool := s.pool + {m};
    forall x | x in s.pool ensures MsgOk(content, pool, x) {
      CausedStill(content, s.pool, pool, x);
    }
  }

  lemma CausedStill(content: map<BlobAddress, Chunk>, pool: set<Msg>, more: set<Msg>, m: Msg)
    requires MsgOk(content, pool, m) && pool <= more
    ensures MsgOk(content, more, m)
  {
  }

  lemma CommandCauses(content: map<BlobAddress, Chunk>, s: System, cmd: ReplicateChunk, to: XorName)
    requires Inv(content, s) && Command(cmd) in s.pool
    ensures MsgOk(content, s.pool + {AskHolders(to, cmd)}, AskHolders(to, cmd))
  {
    assert MsgOk(content, s.pool, Command(cmd));
    assert Command(cmd) in s.pool + {AskHolders(to, cmd)};
  }

  lemma AnswerKeeps(content: map<BlobAddress, Chunk>, s: System, msg: Msg, to: XorName)
    requires Inv(content, s) && msg in s.pool && msg.Query? && to in s.adults
    ensures Inv(content, Sent(s, AnswerQuery(s.adults[to].files, msg.address, msg.id)))
  {
    assert MsgOk(content, s.pool, msg);
    assert CopiesAgree(content, s.adults[to]);
    var reply := AnswerQuery(s.adults[to].files, msg.address, msg.id);
    if reply.Some? {
      CausedStill(content, s.pool, s.pool + {reply.value}, msg);
      SendKeeps(content, s, reply.value);
    }
  }

  lemma StoreKeeps(content: map<BlobAddress, Chunk>, s: System, to: XorName, adult: Adult)
    requires Inv(content, s) && to in s.adults && CopiesAgree(content, adult)
    ensures Inv(content, s.(adults := s.adults[to := adult]))
  {
  }

  lemma ReplicaAgrees(content: map<BlobAddress, Chunk>, adult: Adult, data: Chunk, written: bool)
    requires CopiesAgree(content, adult) && data.address in content && content[data.address] == data
    ensures CopiesAgree(content, StoredReplica(adult, data, written))
  {
    ReplicaStored(adult, data, written);
  }

  lemma ReceiveKeeps(content: map<BlobAddress, Chunk>, s: System, msg: Msg, to: XorName, written: bool)
    requires Inv(content, s) && msg in s.pool && to in s.adults
    ensures Inv(content, Received(s, msg, to, written))
  {
    match msg {
      case Command(cmd) =>
        CommandCauses(content, s, cmd, to);
        SendKeeps(content, s, AskHolders(to, cmd));
      case Query(address, _, id) =>
        AnswerKeeps(content, s, msg, to);
      case Response(data, id) =>
        assert MsgOk(content, s.pool, msg);
        ReplicaAgrees(content, s.adults[to], data, written);
        StoreKeeps(content, s, to, StoredReplica(s.adults[to], data, written));
    }
  }

  /** What a client stores is the chunk of its address. */
  ghost predicate Genuine(content: map<BlobAddress, Chunk>, step: Step)
  {
    step.ClientStore? ==> step.data.address in content && content[step.data.address] == step.data
  }

  lemma DeletedAgrees(content: map<BlobAddress, Chunk>, adult: Adult, a: BlobAddress, origin: PublicKey)
    requires CopiesAgree(content, adult)
    ensures CopiesAgree(content, ClientDeleted(0, adult, a, origin))
  {
    DeletedKeeps(adult, a, origin);
  }

  lemma NextKeeps(content: map<BlobAddress, Chunk>, s: System, step: Step)
    requires Inv(content, s) && Genuine(content, step)
    ensures Inv(content, Next(s, step))
  {
    match step {
      case Issue(newHolder, address, currentHolders) =>
        SendKeeps(content, s, Command(ReplicateChunk(newHolder, address, currentHolders, CombineId(address.name, newHolder))));
      case Deliver(msg, to, written) =>
        if msg in s.pool && to in s.adults {
          ReceiveKeeps(content, s, msg, to, written);
        }
      case ClientStore(to, data, origin, written) =>
        if to in s.adults {
          ReplicaAgrees(content, s.adults[to], data, written);
          StoreKeeps(content, s, to, ClientStored(0, s.adults[to], data, origin, written));
        }
      case ClientDelete(to, address, origin) =>
        if to in s.adults {
          DeletedAgrees(content, s.adults[to], address, origin);
          StoreKeeps(content, s, to, ClientDeleted(0, s.adults[to], address, origin));
        }
    }
  }

  ghost predicate AllGenuine(content: map<BlobAddress, Chunk>, steps: seq<Step>)
  {
    forall step :: step in steps ==> Genuine(content, step)
  }

  lemma {:induction false} AlwaysInv(content: map<BlobAddress, Chunk>, s: System, steps: seq<Step>)
    requires Inv(content, s) && AllGenuine(content, steps)
    ensures Inv(content, Run(s, steps))
  {
    if steps != [] {
      assert steps[|steps| - 1] in steps;
      AlwaysInv(content, s, steps[..|steps| - 1]);
      NextKeeps(content, Run(s, steps[..|steps| - 1]), steps[|steps| - 1]);
    }
  }

  /** Under any delivery order and duplication, and any client stores and deletes, each node's account is exactly the size of the distinct chunks
      it holds, and all copies of a chunk are the same. */
  lemma AlwaysCharged(content: map<BlobAddress, Chunk>, s: System, steps: seq<Step>, x: XorName)
    requires Inv(content, s) && AllGenuine(content, steps) && x in Run(s, steps).adults
    ensures
      var adult := Run(s, steps).adults[x];
      && adult.space.total == FileSum(adult.files) <= adult.space.maxCapacity
      && forall a :: a in adult.files ==> a in content && adult.files[a] == content[a]
  {
    AlwaysInv(content, s, steps);
    assert CopiesAgree(content, Run(s, steps).adults[x]);
    ChargedOnce(Run(s, steps).adults[x]);
  }

  /** A node takes in a chunk only in answer to a replication of that name to itself. */
  lemma OnlyOwnAnswers(content: map<BlobAddress, Chunk>, s: System, data: Chunk, id: nat, to: XorName)
    requires Inv(content, s) && Response(data, id) in s.pool && IsOurs(to, data, id)
    ensures exists m :: m in s.pool && m.Command? && m.cmd.newHolder == to && m.cmd.address.name == data.address.name
  {
    assert MsgOk(content, s.pool, Response(data, id));
    var m :| m in s.pool && m.Command? && m.cmd.address.name == data.address.name && m.cmd.id == id &&
             id == CombineId(m.cmd.address.name, m.cmd.newHolder);
    CombineIdInjective(data.address.name, to, m.cmd.address.name, m.cmd.newHolder);
  }

  // ---------- what stays ----------

  /** The step deletes this very chunk at this node, by its owner. */
  ghost predicate Deletes(step: Step, x: XorName, c: Chunk)
  {
    step.ClientDelete? && step.to == x && step.address == c.address && MayDelete(c, step.origin)
  }

  ghost predicate Undeleted(steps: seq<Step>, x: XorName, c: Chunk)
  {
    forall step :: step in steps ==> !Deletes(step, x, c)
  }

  ghost predicate Holds(s: System, x: XorName, c: Chunk)
  {
    x in s.adults && c.address in s.adults[x].files && s.adults[x].files[c.address] == c
  }

  lemma ReplicaHolds(content: map<BlobAddress, Chunk>, adult: Adult, data: Chunk, written: bool, c: Chunk)
    requires CopiesAgree(content, adult) && c.address in adult.files && adult.files[c.address] == c
    ensures
      var after := StoredReplica(adult, data, written);
      c.address in after.files && after.files[c.address] == c
  {
    ReplicaStored(adult, data, written);
  }

  lemma DeleteHolds(content: map<BlobAddress, Chunk>, adult: Adult, a: BlobAddress, origin: PublicKey, c: Chunk)
    requires CopiesAgree(content, adult) && c.address in adult.files && adult.files[c.address] == c
    ensures
      var after := ClientDeleted(0, adult, a, origin);
      c.address in after.files && after.files[c.address] == c <==> !(a == c.address && MayDelete(c, origin))
  {
    DeletedKeeps(adult, a, origin);
  }

  lemma HoldsWith(s: System, to: XorName, adult: Adult, x: XorName, c: Chunk)
    requires Holds(s, x, c) && to in s.adults
    ensures Holds(s.(adults := s.adults[to := adult]), x, c) <==>
            to != x || (c.address in adult.files && adult.files[c.address] == c)
  {
  }

  lemma StoreHolds(content: map<BlobAddress, Chunk>, s: System, to: XorName, data: Chunk, written: bool, x: XorName, c: Chunk)
    requires Inv(content, s) && Holds(s, x, c) && to in s.adults
    ensures Holds(s.(adults := s.adults[to := StoredReplica(s.adults[to], data, written)]), x, c)
  {
    assert CopiesAgree(content, s.adults[x]);
    HoldsWith(s, to, StoredReplica(s.adults[to], data, written), x, c);
    if to == x {
      ReplicaHolds(content, s.adults[x], data, written, c);
    }
  }

  lemma ReceiveHolds(content: map<BlobAddress, Chunk>, s: System, msg: Msg, to: XorName, written: bool, x: XorName, c: Chunk)
    requires Inv(content, s) && Holds(s, x, c) && to in s.adults
    ensures Holds(Received(s, msg, to, written), x, c)
  {
    if msg.Response? {
      StoreHolds(content, s, to, msg.data, written, x, c);
    }
  }

  lemma ClientStoreHolds(content: map<BlobAddress, Chunk>, s: System, to: XorName, data: Chunk, origin: PublicKey, written: bool, x: XorName, c: Chunk)
    requires Inv(content, s) && Holds(s, x, c) && to in s.adults
    ensures Holds(s.(adults := s.adults[to := ClientStored(0, s.adults[to], data, origin, written)]), x, c)
  {
    StoreHolds(content, s, to, data, written, x, c);
    HoldsWith(s, to, s.adults[to], x, c);
  }

  lemma ClientDeleteHolds(content: map<BlobAddress, Chunk>, s: System, to: XorName, a: BlobAddress, origin: PublicKey, x: XorName, c: Chunk)
    requires Inv(content, s) && Holds(s, x, c) && to in s.adults
    ensures Holds(s.(adults := s.adults[to := ClientDeleted(0, s.adults[to], a, origin)]), x, c) <==>
            !(to == x && a == c.address && MayDelete(c, origin))
  {
    assert CopiesAgree(content, s.adults[x]);
    DeleteHolds(content, s.adults[x], a, origin, c);
    HoldsWith(s, to, ClientDeleted(0, s.adults[to], a, origin), x, c);
  }

  /** Of all steps, only the owner's delete at that node takes a chunk away. */
  lemma NextHolds(content: map<BlobAddress, Chunk>, s: System, step: Step, x: XorName, c: Chunk)
    requires Inv(content, s) && Holds(s, x, c)
    ensures Holds(Next(s, step), x, c) <==> !Deletes(step, x, c)
  {
    match step {
      case Issue(_, _, _) =>
      case Deliver(msg, to, written) =>
        if msg in s.pool && to in s.adults {
          ReceiveHolds(content, s, msg, to, written, x, c);
        }
      case ClientStore(to, data, origin, written) =>
        if to in s.adults {
          ClientStoreHolds(content, s, to, data, origin, written, x, c);
        }
      case ClientDelete(to, address, origin) =>
        if to in s.adults {
          ClientDeleteHolds(content, s, to, address, origin, x, c);
        }
    }
  }

  /** A held chunk stays held, and as it is, until its owner deletes it there. */
  lemma {:induction false} NeverOverwrites(content: map<BlobAddress, Chunk>, s: System, steps: seq<Step>, x: XorName, c: Chunk)
    requires Inv(content, s) && AllGenuine(content, steps)
    requires Holds(s, x, c) && Undeleted(steps, x, c)
    ensures Holds(Run(s, steps), x, c)
  {
    if steps != [] {
      var before, last := steps[..|steps| - 1], steps[|steps| - 1];
      assert last in steps;
      NeverOverwrites(content, s, before, x, c);
      AlwaysInv(content, s, before);
      NextHolds(content, Run(s, before), last, x, c);
    }
  }

  /** A public chunk cannot be lost. */
  lemma PublicStays(content: map<BlobAddress, Chunk>, s: System, steps: seq<Step>, x: XorName, c: Chunk)
    requires Inv(content, s) && AllGenuine(content, steps)
    requires Holds(s, x, c) && !c.address.isPrivate
    ensures Holds(Run(s, steps), x, c)
  {
    NeverOverwrites(content, s, steps, x, c);
  }

  /** Messages stay available, and nodes stay. */
  lemma {:induction false} PoolStays(s: System, steps: seq<Step>)
    ensures s.pool <= Run(s, steps).pool && s.adults.Keys == Run(s, steps).adults.Keys
  {
    if steps != [] {
      PoolStays(s, steps[..|steps| - 1]);
      NextPool(Run(s, steps[..|steps| - 1]), steps[|steps| - 1]);
    }
  }

  lemma NextPool(s: System, step: Step)
    ensures s.pool <= Next(s, step).pool && s.adults.Keys == Next(s, step).adults.Keys
  {
  }

  // ---------- a delivered exchange ----------

  /** A step in the middle of a run, and what follows it. */
  lemma Midway(s: System, first: seq<Step>, step: Step, rest: seq<Step>)
    ensures Run(s, first + [step] + rest) == Run(Next(Run(s, first), step), rest)
    ensures Next(Run(s, first), step).pool <= Run(s, first + [step] + rest).pool
    ensures s.adults.Keys == Run(s, first).adults.Keys == Run(s, first + [step] + rest).adults.Keys
  {
    assert (first + [step])[..|first|] == first;
    RunOn(s, first + [step], rest);
    PoolStays(s, first);
    NextPool(Run(s, first), step);
    PoolStays(Next(Run(s, first), step), rest);
  }

  lemma AskedInTime(s: System, cmd: ReplicateChunk, before: seq<Step>, mid: seq<Step>)
    requires cmd.newHolder in s.adults && Command(cmd) in Run(s, before).pool
    ensures Query(cmd.address, cmd.newHolder, cmd.id) in Run(s, before + [Deliver(Command(cmd), cmd.newHolder, true)] + mid).pool
  {
    Midway(s, before, Deliver(Command(cmd), cmd.newHolder, true), mid);
  }

  lemma AnsweredInTime(s: System, cmd: ReplicateChunk, holder: XorName, c: Chunk, asked: seq<Step>, late: seq<Step>)
    requires holder in s.adults && Holds(Run(s, asked), holder, c) && c.address == cmd.address
    requires Query(cmd.address, cmd.newHolder, cmd.id) in Run(s, asked).pool
    ensures Response(c, cmd.id) in Run(s, asked + [Deliver(Query(cmd.address, cmd.newHolder, cmd.id), holder, true)] + late).pool
  {
    Midway(s, asked, Deliver(Query(cmd.address, cmd.newHolder, cmd.id), holder, true), late);
  }

  /** Delivered to the new holder, the answer is stored if there is room or the chunk is there already. */
  lemma AnswerStored(content: map<BlobAddress, Chunk>, s: System, c: Chunk, id: nat, x: XorName)
    requires Inv(content, s) && x in s.adults && Response(c, id) in s.pool && id == CombineId(c.address.name, x)
    ensures Holds(Next(s, Deliver(Response(c, id), x, true)), x, c) <==>
            c.address in s.adults[x].files || Fits(s.adults[x], c)
  {
    assert CopiesAgree(content, s.adults[x]);
    assert MsgOk(content, s.pool, Response(c, id));
    ReplicaStored(s.adults[x], c, true);
  }

  lemma StoredInTime(content: map<BlobAddress, Chunk>, s: System, c: Chunk, id: nat, x: XorName, answered: seq<Step>, rest: seq<Step>)
    requires Inv(content, s) && AllGenuine(content, answered) && AllGenuine(content, rest)
    requires x in s.adults && Response(c, id) in Run(s, answered).pool && id == CombineId(c.address.name, x)
    requires x in Run(s, answered).adults
    requires c.address in Run(s, answered).adults[x].files || Fits(Run(s, answered).adults[x], c)
    requires Undeleted(rest, x, c)
    ensures Holds(Run(s, answered + [Deliver(Response(c, id), x, true)] + rest), x, c)
  {
    var step, m := Deliver(Response(c, id), x, true), Run(s, answered);
    AlwaysInv(content, s, answered);
    AnswerStored(content, m, c, id, x);
    NextKeeps(content, m, step);
    NeverOverwrites(content, Next(m, step), rest, x, c);
    Midway(s, answered, step, rest);
  }

  /** Command to the new holder, query to a current holder that has the chunk, answer back: whatever else happens
      before, between and after, the answer is there to be delivered, and once it is, the new holder has the chunk,
      if it had it or had room for it, until the owner deletes it there. */
  lemma ExchangeDelivers(content: map<BlobAddress, Chunk>, s: System, cmd: ReplicateChunk, holder: XorName, c: Chunk,
                         before: seq<Step>, mid: seq<Step>, late: seq<Step>, rest: seq<Step>,
                         asked: seq<Step>, answered: seq<Step>)
    requires Inv(content, s) && cmd.newHolder in s.adults && holder in s.adults
    requires Command(cmd) in Run(s, before).pool && c.address == cmd.address
    requires asked == before + [Deliver(Command(cmd), cmd.newHolder, true)] + mid
    requires answered == asked + [Deliver(Query(cmd.address, cmd.newHolder, cmd.id), holder, true)] + late
    requires AllGenuine(content, answered) && AllGenuine(content, rest)
    requires Holds(Run(s, asked), holder, c)
    ensures Query(cmd.address, cmd.newHolder, cmd.id) in Run(s, asked).pool
    ensures Response(c, cmd.id) in Run(s, answered).pool && cmd.newHolder in Run(s, answered).adults
    ensures
      var x, s1 := cmd.newHolder, Run(s, answered);
      (c.address in s1.adults[x].files || Fits(s1.adults[x], c)) && Undeleted(rest, x, c) ==>
        Holds(Run(s, answered + [Deliver(Response(c, cmd.id), x, true)] + rest), x, c)
  {
    var x := cmd.newHolder;
    assert AllGenuine(content, before) by {
      assert forall step :: step in before ==> step in asked && step in answered;
    }
    AlwaysInv(content, s, before);
    assert MsgOk(content, Run(s, before).pool, Command(cmd));
    AskedInTime(s, cmd, before, mid);
    AnsweredInTime(s, cmd, holder, c, asked, late);
    PoolStays(s, answered);
    var s1 := Run(s, answered);
    if (c.address in s1.adults[x].files || Fits(s1.adults[x], c)) && Undeleted(rest, x, c) {
      StoredInTime(content, s, c, cmd.id, x, answered, rest);
    }
  }
}
