/** The wallets of a section: one log for each, set up from histories and read back as histories. */
module Replicas {
  import opened Collections
  import opened Decimals
  import opened TransferLog
  import opened History

  /** The databases on disk; a wallet without one has an empty log. */
  type Databases = map<PublicKey, map<string, ReplicaEvent>>

  datatype SetupError = InvalidOperation | Store(error: LogError)

  /** The events of each database in insertion order. */
  type Logs = map<PublicKey, seq<ReplicaEvent>>

  ghost predicate Stores(dbs: Databases, logs: Logs)
  {
    && dbs.Keys == logs.Keys
    && forall id :: id in dbs ==> IsLog(dbs[id]) && Log(dbs[id]) == logs[id]
  }

  ghost function LogAt(logs: Logs, id: PublicKey): seq<ReplicaEvent>
  {
    if id in logs then logs[id] else []
  }

  ghost function HistoryAt(logs: Logs, id: PublicKey): ActorHistory
  {
    HistoryOf(LogAt(logs, id))
  }

  /** All transfers of the history are the actor's own. */
  predicate ValidOwners(node: PublicKey, wallet: ActorHistory)
  {
    && (forall i :: 0 <= i < |wallet.credits| ==> wallet.credits[i].recipient == node)
    && (forall i :: 0 <= i < |wallet.debits| ==> wallet.debits[i].id.actor == node)
  }

  ghost predicate AllOwners(wallets: map<PublicKey, ActorHistory>)
  {
    forall id :: id in wallets ==> ValidOwners(id, wallets[id])
  }

  // ---------- what setup writes ----------

  /** Setup stops at the first wallet with a foreign transfer. */
  ghost predicate Reached(wallets: map<PublicKey, ActorHistory>, id: PublicKey)
  {
    id in wallets && forall k :: k in wallets && k <= id ==> ValidOwners(k, wallets[k])
  }

  ghost function Written(wallets: map<PublicKey, ActorHistory>, id: PublicKey): seq<ReplicaEvent>
  {
    if Reached(wallets, id) then HistoryEvents(wallets[id]) else []
  }

  ghost predicate Wrote(before: Logs, after: Logs, wallets: map<PublicKey, ActorHistory>)
  {
    forall id :: LogAt(after, id) == LogAt(before, id) + Written(wallets, id)
  }

  /** The logs after appending to one of them; a log comes to be with its first event. */
  ghost function Extended(logs: Logs, id: PublicKey, more: seq<ReplicaEvent>): Logs
  {
    if more == [] then logs else logs[id := LogAt(logs, id) + more]
  }

  lemma ExtendedTwice(logs: Logs, id: PublicKey, first: seq<ReplicaEvent>, more: seq<ReplicaEvent>)
    ensures Extended(Extended(logs, id, first), id, more) == Extended(logs, id, first + more)
  {
    var was := LogAt(logs, id);
    if first == [] {
      assert first + more == more;
    } else if more == [] {
      assert first + more == first;
    } else {
      assert was + first + more == was + (first + more);
    }
  }

  function DatabaseAt(dbs: Databases, id: PublicKey): map<string, ReplicaEvent>
  {
    if id in dbs then dbs[id] else map[]
  }

  lemma StoredAt(dbs: Databases, logs: Logs, id: PublicKey)
    requires Stores(dbs, logs)
    ensures IsLog(DatabaseAt(dbs, id)) && Log(DatabaseAt(dbs, id)) == LogAt(logs, id)
  {
    if id !in dbs {
      LogRefinement<ReplicaEvent>([]);
      assert InsertAll<ReplicaEvent>([]).value == DatabaseAt(dbs, id);
    }
  }

  lemma InsertGrows(dbs: Databases, logs: Logs, id: PublicKey, event: ReplicaEvent)
    requires Stores(dbs, logs)
    ensures Inserted(DatabaseAt(dbs, id), event).Ok?
    ensures Stores(dbs[id := Inserted(DatabaseAt(dbs, id), event).value], Extended(logs, id, [event]))
  {
    StoredAt(dbs, logs, id);
    InsertAppends(DatabaseAt(dbs, id), event);
  }

  // ---------- the loop of setup ----------

  /** The logs once setup has gone through the wallets in `todo`. */
  ghost function SetupLogs(logs: Logs, wallets: map<PublicKey, ActorHistory>, todo: set<PublicKey>): Logs
    requires todo <= wallets.Keys
    decreases |todo|
  {
    if todo == {} then logs
    else
      var node := Least(todo);
      if !ValidOwners(node, wallets[node]) then logs
      else SetupLogs(Extended(logs, node, HistoryEvents(wallets[node])), wallets, todo - {node})
  }

  ghost function Touched(id: PublicKey, wallet: ActorHistory): set<PublicKey>
  {
    if wallet == EmptyHistory then {} else {id}
  }

  /** The wallets setup then holds in addition. */
  ghost function SetupLocks(wallets: map<PublicKey, ActorHistory>, todo: set<PublicKey>): set<PublicKey>
    requires todo <= wallets.Keys
  {
    if todo == {} then {}
    else
      var node := Least(todo);
      if !ValidOwners(node, wallets[node]) then {}
      else Touched(node, wallets[node]) + SetupLocks(wallets, todo - {node})
  }

  ghost predicate ReachedIn(wallets: map<PublicKey, ActorHistory>, todo: set<PublicKey>, id: PublicKey)
    requires todo <= wallets.Keys
  {
    id in todo && forall k :: k in todo && k <= id ==> ValidOwners(k, wallets[k])
  }

  lemma {:induction false} SetupLogsAt(logs: Logs, wallets: map<PublicKey, ActorHistory>, todo: set<PublicKey>, id: PublicKey)
    requires todo <= wallets.Keys
    ensures LogAt(SetupLogs(logs, wallets, todo), id) ==
            LogAt(logs, id) + if ReachedIn(wallets, todo, id) then HistoryEvents(wallets[id]) else []
    ensures id in SetupLocks(wallets, todo) <==> ReachedIn(wallets, todo, id) && wallets[id] != EmptyHistory
    decreases |todo|
  {
    if todo != {} {
      var node := Least(todo);
      if ValidOwners(node, wallets[node]) {
        SetupLogsAt(Extended(logs, node, HistoryEvents(wallets[node])), wallets, todo - {node}, id);
        assert id != node ==> (ReachedIn(wallets, todo - {node}, id) <==> ReachedIn(wallets, todo, id));
        assert id == node ==> ReachedIn(wallets, todo, id);
      }
    }
  }

  /** The wallets setup reaches get their history appended and are held afterwards. */
  lemma SetupWrites(logs: Logs, wallets: map<PublicKey, ActorHistory>)
    ensures Wrote(logs, SetupLogs(logs, wallets, wallets.Keys), wallets)
    ensures forall id :: id in SetupLocks(wallets, wallets.Keys) <==> Reached(wallets, id) && wallets[id] != EmptyHistory
  {
    var after := SetupLogs(logs, wallets, wallets.Keys);
    forall id
      ensures LogAt(after, id) == LogAt(logs, id) + Written(wallets, id)
      ensures id in SetupLocks(wallets, wallets.Keys) <==> Reached(wallets, id) && wallets[id] != EmptyHistory
    {
      SetupLogsAt(logs, wallets, wallets.Keys, id);
      assert ReachedIn(wallets, wallets.Keys, id) <==> Reached(wallets, id);
    }
  }

  lemma CreditNext(logs: Logs, id: PublicKey, credits: seq<Credit>, i: nat)
    requires i < |credits|
    ensures Extended(Extended(logs, id, CreditEvents(credits[..i])), id, [TransferPropagated(credits[i])]) ==
            Extended(logs, id, CreditEvents(credits[..i + 1]))
  {
    CreditEventsGrow(credits, i);
    ExtendedTwice(logs, id, CreditEvents(credits[..i]), [TransferPropagated(credits[i])]);
  }

  lemma DebitNext(logs: Logs, id: PublicKey, debits: seq<Debit>, i: nat)
    requires i < |debits|
    ensures Extended(Extended(logs, id, DebitEvents(debits[..i])), id, [TransferRegistered(debits[i])]) ==
            Extended(logs, id, DebitEvents(debits[..i + 1]))
  {
    DebitEventsGrow(debits, i);
    ExtendedTwice(logs, id, DebitEvents(debits[..i]), [TransferRegistered(debits[i])]);
  }

  class Replicas {
    var dbs: Databases
    var locks: set<PublicKey>
    ghost var logs: Logs

    ghost predicate Valid()
      reads this
    {
      Stores(dbs, logs) && locks <= dbs.Keys
    }

    constructor ()
      ensures Valid() && logs == map[] && locks == {}
    {
      dbs := map[];
      locks := {};
      logs := map[];
    }

    /** Loads or creates the wallet's store, and appends to it. */
    method TryInsert(id: PublicKey, event: ReplicaEvent) returns (r: Result<(), LogError>)
      requires Valid()
      modifies this
      ensures Valid() && r == Ok(())
      ensures logs == Extended(old(logs), id, [event])
      ensures locks == old(locks) + {id}
    {
      InsertGrows(dbs, logs, id, event);
      var inserted := Inserted(DatabaseAt(dbs, id), event);
      if inserted == Err(KeyExists) {
        return Err(KeyExists);
      }
      dbs := dbs[id := inserted.value];
      locks := locks + {id};
      logs := Extended(logs, id, [event]);
      r := Ok(());
    }

    method WriteCredits(node: PublicKey, credits: seq<Credit>) returns (r: Result<(), LogError>)
      requires Valid() && forall i :: 0 <= i < |credits| ==> credits[i].recipient == node
      modifies this
      ensures Valid() && r == Ok(())
      ensures logs == Extended(old(logs), node, CreditEvents(credits))
      ensures locks == old(locks) + if credits == [] then {} else {node}
    {
      for i := 0 to |credits|
        invariant Valid() && logs == Extended(old(logs), node, CreditEvents(credits[..i]))
        invariant locks == old(locks) + if i == 0 then {} else {node}
      {
        var event := TransferPropagated(credits[i]);
        CreditNext(old(logs), node, credits, i);
        r := TryInsert(credits[i].recipient, event);
        if r == Err(KeyExists) {
          return;
        }
      }
      assert credits[..|credits|] == credits;
      r := Ok(());
    }

    method WriteDebits(node: PublicKey, debits: seq<Debit>) returns (r: Result<(), LogError>)
      requires Valid() && forall i :: 0 <= i < |debits| ==> debits[i].id.actor == node
      modifies this
      ensures Valid() && r == Ok(())
      ensures logs == Extended(old(logs), node, DebitEvents(debits))
      ensures locks == old(locks) + if debits == [] then {} else {node}
    {
      for i := 0 to |debits|
        invariant Valid() && logs == Extended(old(logs), node, DebitEvents(debits[..i]))
        invariant locks == old(locks) + if i == 0 then {} else {node}
      {
        var event := TransferRegistered(debits[i]);
        DebitNext(old(logs), node, debits, i);
        r := TryInsert(debits[i].id.actor, event);
        if r == Err(KeyExists) {
          return;
        }
      }
      assert debits[..|debits|] == debits;
      r := Ok(());
    }

    method WriteWallet(node: PublicKey, wallet: ActorHistory) returns (r: Result<(), LogError>)
      requires Valid() && ValidOwners(node, wallet)
      modifies this
      ensures Valid() && r == Ok(())
      ensures logs == Extended(old(logs), node, HistoryEvents(wallet))
      ensures locks == old(locks) + Touched(node, wallet)
    {
      r := WriteCredits(node, wallet.credits);
      if r == Err(KeyExists) {
        return;
      }
      ExtendedTwice(old(logs), node, CreditEvents(wallet.credits), DebitEvents(wallet.debits));
      r := WriteDebits(node, wallet.debits);
    }

    /** Writes the wallets in key order up to the first with a foreign transfer; that one is the only error. */
    method Setup(wallets: map<PublicKey, ActorHistory>) returns (r: Result<(), SetupError>)
      requires Valid()
      modifies this
      ensures Valid() && Wrote(old(logs), logs, wallets)
      ensures r == if AllOwners(wallets) then Ok(()) else Err(InvalidOperation)
      ensures r.Ok? <==> forall id :: id in wallets ==>
                && (forall c :: c in wallets[id].credits ==> c.recipient == id)
                && (forall d :: d in wallets[id].debits ==> d.id.actor == id)
      ensures forall id :: id in locks <==> id in old(locks) || (Reached(wallets, id) && wallets[id] != EmptyHistory)
    {
      var todo := wallets.Keys;
      while todo != {}
        invariant todo <= wallets.Keys && Valid()
        invariant forall k :: k in wallets && k !in todo ==> ValidOwners(k, wallets[k])
        invariant SetupLogs(logs, wallets, todo) == SetupLogs(old(logs), wallets, wallets.Keys)
        invariant locks + SetupLocks(wallets, todo) == old(locks) + SetupLocks(wallets, wallets.Keys)
      {
        var node := Least(todo);
        if !ValidOwners(node, wallets[node]) {
          SetupWrites(old(logs), wallets);
          return Err(InvalidOperation);
        }
        var written := WriteWallet(node, wallets[node]);
        if written == Err(KeyExists) {
          return Err(Store(KeyExists));
        }
        todo := todo - {node};
      }
      SetupWrites(old(logs), wallets);
      r := Ok(());
    }

    /** The history of a wallet, empty when it has no events. */
    method GetHistory(id: PublicKey) returns (h: ActorHistory)
      requires Valid() && forall k :: k in dbs ==> |dbs[k]| <= USIZE_LIMIT
      ensures h == HistoryAt(logs, id)
    {
      if id !in dbs {
        return EmptyHistory;
      }
      var events := ReadAll(dbs[id]);
      if events == [] {
        return EmptyHistory;
      }
      h := ActorHistory(GetCredits(events), GetDebits(events));
    }

    /** The history of every wallet the node holds. */
    method UserWallets() returns (wallets: map<PublicKey, ActorHistory>)
      requires Valid() && forall k :: k in dbs ==> |dbs[k]| <= USIZE_LIMIT
      ensures WalletsOf(logs, locks, wallets)
    {
      wallets := map[];
      var todo := locks;
      while todo != {}
        invariant todo <= locks && WalletsOf(logs, locks - todo, wallets)
      {
        var id := Least(todo);
        var h := GetHistory(id);
        wallets := wallets[id := h];
        todo := todo - {id};
      }
    }
  }

  // ---------- histories across setup ----------

  ghost predicate WalletsOf(logs: Logs, locks: set<PublicKey>, wallets: map<PublicKey, ActorHistory>)
  {
    wallets.Keys == locks && forall id :: id in locks ==> wallets[id] == HistoryAt(logs, id)
  }

  /** Setup of an empty node gives each wallet back exactly when it is well formed. */
  lemma SetupRoundTrip(after: Logs, wallets: map<PublicKey, ActorHistory>, id: PublicKey)
    requires AllOwners(wallets) && id in wallets
    requires Wrote(map[], after, wallets)
    ensures HistoryAt(after, id) == wallets[id] <==> WellFormed(wallets[id])
  {
    assert Reached(wallets, id);
    assert LogAt(after, id) == [] + Written(wallets, id) == HistoryEvents(wallets[id]);
    RoundTrip(wallets[id]);
  }

  /** Setup with histories the node has already changes no history. */
  lemma SetupAgain(before: Logs, after: Logs, wallets: map<PublicKey, ActorHistory>, id: PublicKey)
    requires Wrote(before, after, wallets)
    requires id in wallets ==> wallets[id] == HistoryAt(before, id)
    ensures HistoryAt(after, id) == HistoryAt(before, id)
  {
    assert LogAt(after, id) == LogAt(before, id) + Written(wallets, id);
    if Reached(wallets, id) {
      SelfMerge(LogAt(before, id));
    } else {
      assert LogAt(after, id) == LogAt(before, id);
    }
  }

  /** A run of setups with the same wallets, from a node without any. */
  ghost predicate SetupRun(states: seq<Logs>, wallets: map<PublicKey, ActorHistory>)
  {
    && states != [] && states[0] == map[]
    && (forall i :: 0 < i < |states| ==> Wrote(states[i - 1], states[i], wallets))
  }

  /** After any positive number of setups the node gives back the wallets it was given. */
  lemma {:induction false} RepeatedSetup(states: seq<Logs>, wallets: map<PublicKey, ActorHistory>, k: nat, id: PublicKey)
    requires SetupRun(states, wallets) && AllOwners(wallets) && 0 < k < |states|
    requires id in wallets && WellFormed(wallets[id])
    ensures HistoryAt(states[k], id) == wallets[id]
  {
    assert Wrote(states[k - 1], states[k], wallets);
    if k == 1 {
      SetupRoundTrip(states[1], wallets, id);
    } else {
      RepeatedSetup(states, wallets, k - 1, id);
      SetupAgain(states[k - 1], states[k], wallets, id);
    }
  }

  /** Each log holds only transfers of its own wallet. */
  ghost predicate OwnLogs(logs: Logs)
  {
    forall id :: ValidOwners(id, ActorHistory(Propagated(LogAt(logs, id)), Registered(LogAt(logs, id))))
  }

  lemma HistoryIsOwn(events: seq<ReplicaEvent>, id: PublicKey)
    requires ValidOwners(id, ActorHistory(Propagated(events), Registered(events)))
    ensures ValidOwners(id, HistoryOf(events))
  {
    var c, d := Propagated(events), Registered(events);
    var h := HistoryOf(events);
    CreditsOnce(c);
    DebitsOnce(d);
    SortedKeeps(UniqueDebits(d));
    forall i | 0 <= i < |h.credits| ensures h.credits[i].recipient == id {
      assert h.credits[i] in c;
    }
    forall i | 0 <= i < |h.debits| ensures h.debits[i].id.actor == id {
      assert h.debits[i] in d;
    }
  }

  /** Setup, successful or not, keeps foreign transfers out of every log. */
  lemma SetupKeepsOwn(before: Logs, after: Logs, wallets: map<PublicKey, ActorHistory>)
    requires OwnLogs(before) && Wrote(before, after, wallets)
    ensures OwnLogs(after)
  {
    forall id ensures ValidOwners(id, ActorHistory(Propagated(LogAt(after, id)), Registered(LogAt(after, id)))) {
      var events, more := LogAt(before, id), Written(wallets, id);
      assert LogAt(after, id) == events + more;
      assert ValidOwners(id, ActorHistory(Propagated(events), Registered(events)));
      Concat(events, more);
      if Reached(wallets, id) {
        OfHistory(wallets[id]);
      }
    }
  }

  /**
    * A node handing all its wallets to a fresh one: setup accepts them, and the fresh node
    * holds the same history for every wallet.
    */
  lemma HandOver(from: Logs, locks: set<PublicKey>, wallets: map<PublicKey, ActorHistory>, to: Logs, id: PublicKey)
    requires OwnLogs(from) && WalletsOf(from, locks, wallets)
    requires Wrote(map[], to, wallets) && id in locks
    ensures AllOwners(wallets)
    ensures HistoryAt(to, id) == HistoryAt(from, id)
  {
    forall k | k in wallets ensures ValidOwners(k, wallets[k]) {
      HistoryIsOwn(LogAt(from, k), k);
    }
    HistoryIsWellFormed(LogAt(from, id));
    SetupRoundTrip(to, wallets, id);
  }
}
