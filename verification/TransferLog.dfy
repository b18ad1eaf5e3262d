/** The transfer store: a map with decimal keys that behaves as an append-only log. */
module TransferLog {
  import opened Collections
  import opened Decimals
  import opened Sorting

  datatype LogError = KeyExists

  /** The keys of the first n insertions. */
  ghost function KeySet(n: nat): set<string>
  {
    if n == 0 then {} else KeySet(n - 1) + {Decimal(n - 1)}
  }

  ghost predicate IsKey(k: string, n: nat)
  {
    exists i: nat :: i < n && k == Decimal(i)
  }

  lemma {:induction false} KeySetHas(n: nat, k: string)
    ensures k in KeySet(n) <==> IsKey(k, n)
  {
    if n > 0 {
      KeySetHas(n - 1, k);
      if IsKey(k, n) {
        var i: nat :| i < n && k == Decimal(i);
        assert i < n - 1 ==> IsKey(k, n - 1);
      }
      if k in KeySet(n - 1) {
        var i: nat :| i < n - 1 && k == Decimal(i);
        assert IsKey(k, n);
      }
    }
  }

  lemma {:induction false} KeySetIs(n: nat)
    ensures |KeySet(n)| == n
    ensures forall k :: k in KeySet(n) <==> IsKey(k, n)
  {
    forall k ensures k in KeySet(n) <==> IsKey(k, n) {
      KeySetHas(n, k);
    }
    if n > 0 {
      KeySetIs(n - 1);
      forall i: nat | Decimal(n - 1) == Decimal(i) ensures i == n - 1 {
        DecimalInjective(n - 1, i);
      }
    }
  }

  /** The keys are exactly the decimal strings of 0 to n - 1. */
  ghost predicate IsLog<E>(db: map<string, E>)
  {
    db.Keys == KeySet(|db|)
  }

  lemma LogHas<E>(db: map<string, E>, i: nat)
    requires IsLog(db)
    ensures Decimal(i) in db <==> i < |db|
  {
    KeySetIs(|db|);
    if Decimal(i) in db {
      var j: nat :| j < |db| && Decimal(i) == Decimal(j);
      DecimalInjective(i, j);
    }
    assert i < |db| ==> IsKey(Decimal(i), |db|);
  }

  /** The events in insertion order. */
  ghost function Log<E>(db: map<string, E>): (events: seq<E>)
    requires IsLog(db)
    ensures |events| == |db|
    ensures forall i :: 0 <= i < |events| ==> Decimal(i) in db && events[i] == db[Decimal(i)]
  {
    assert forall i: nat :: i < |db| ==> Decimal(i) in db by {
      forall i: nat | i < |db| ensures Decimal(i) in db {
        LogHas(db, i);
      }
    }
    seq(|db|, i requires 0 <= i < |db| => db[Decimal(i)])
  }

  function Inserted<E>(db: map<string, E>, event: E): Result<map<string, E>, LogError>
  {
    var key := Decimal(|db|);
    if key in db then Err(KeyExists) else Ok(db[key := event])
  }

  lemma InsertKeepsLog<E(!new)>(db: map<string, E>, event: E)
    requires IsLog(db)
    ensures Inserted(db, event) == Ok(db[Decimal(|db|) := event])
    ensures |db[Decimal(|db|) := event]| == |db| + 1 && IsLog(db[Decimal(|db|) := event])
  {
    LogHas(db, |db|);
    assert db[Decimal(|db|) := event].Keys == db.Keys + {Decimal(|db|)};
  }

  /** An insertion into a log never meets an existing key, and appends. */
  lemma InsertAppends<E(!new)>(db: map<string, E>, event: E)
    requires IsLog(db)
    ensures Inserted(db, event).Ok?
    ensures IsLog(Inserted(db, event).value)
    ensures Log(Inserted(db, event).value) == Log(db) + [event]
  {
    InsertKeepsLog(db, event);
    var was, now := Log(db), Log(db[Decimal(|db|) := event]);
    forall i | 0 <= i < |now| ensures now[i] == (was + [event])[i] {
      if i < |db| {
        InsertKeepsEvent(db, event, i);
      }
    }
  }

  lemma InsertKeepsEvent<E(!new)>(db: map<string, E>, event: E, i: nat)
    requires IsLog(db) && i < |db|
    ensures Decimal(i) in db && db[Decimal(|db|) := event][Decimal(i)] == db[Decimal(i)]
  {
    LogHas(db, i);
    LogHas(db, |db|);
  }

  function InsertAll<E>(events: seq<E>): Result<map<string, E>, LogError>
  {
    if events == [] then Ok(map[])
    else
      match InsertAll(events[..|events| - 1])
      case Err(e) => Err(e)
      case Ok(db) => Inserted(db, events[|events| - 1])
  }

  /** After any run of insertions the store is the log of that run. */
  lemma {:induction false} LogRefinement<E(!new)>(events: seq<E>)
    ensures InsertAll(events).Ok?
    ensures IsLog(InsertAll(events).value)
    ensures forall k :: k in InsertAll(events).value <==> IsKey(k, |events|)
    ensures Log(InsertAll(events).value) == events
  {
    if events == [] {
      var none: map<string, E> := map[];
      assert none.Keys == KeySet(0);
    } else {
      var before, last := events[..|events| - 1], events[|events| - 1];
      LogRefinement(before);
      InsertAppends(InsertAll(before).value, last);
      assert before + [last] == events;
    }
    KeySetIs(|events|);
  }

  // ---------- reading ----------

  /** Every event with its position. */
  ghost function Numbered<E>(log: seq<E>): seq<(nat, E)>
  {
    seq(|log|, i requires 0 <= i < |log| => (i, log[i]))
  }

  /** Items read so far: every position outside `todo`, once, with its event. */
  ghost predicate ItemsOf<E(!new)>(log: seq<E>, todo: set<string>, items: seq<(nat, E)>)
  {
    && (forall x :: x in items ==> x in Numbered(log) && Decimal(x.0) !in todo)
    && (forall x :: x in Numbered(log) && Decimal(x.0) !in todo ==> x in items)
    && DistinctKeys(items)
  }

  lemma NumberedHas<E(!new)>(log: seq<E>, x: (nat, E))
    ensures x in Numbered(log) <==> x.0 < |log| && x.1 == log[x.0]
  {
    if x.0 < |log| {
      assert Numbered(log)[x.0] == (x.0, log[x.0]);
    }
  }

  lemma ReadNext<E(!new)>(log: seq<E>, todo: set<string>, items: seq<(nat, E)>, i: nat)
    requires i < |log| && Decimal(i) in todo
    requires ItemsOf(log, todo, items)
    ensures ItemsOf(log, todo - {Decimal(i)}, items + [(i, log[i])])
  {
    var more, left := items + [(i, log[i])], todo - {Decimal(i)};
    NumberedHas(log, (i, log[i]));
    forall x | x in Numbered(log) && Decimal(x.0) !in left ensures x in more {
      NumberedHas(log, x);
      if Decimal(x.0) == Decimal(i) {
        DecimalInjective(x.0, i);
        assert more[|items|] == x;
      }
    }
    forall m | 0 <= m < |items| ensures items[m].0 != i {
      assert items[m] in items;
    }
  }

  /** Sorting the items by position gives the log back, in order. */
  lemma SortedItemsAreLog<E(!new)>(log: seq<E>, items: seq<(nat, E)>)
    requires ItemsOf(log, {}, items)
    ensures SortItems(items) == Numbered(log)
  {
    SortSorts(items);
    SortKeepsDistinct(items);
    forall x ensures x in SortItems(items) <==> x in Numbered(log) {
      InMultiset(SortItems(items), x);
      InMultiset(items, x);
    }
    SortedUnique(SortItems(items), Numbered(log));
  }

  /** The events in insertion order, whatever order the database lists its keys in. */
  method ReadAll<E(!new)>(db: map<string, E>) returns (events: seq<E>)
    requires IsLog(db) && |db| <= USIZE_LIMIT
    ensures events == Log(db)
  {
    var items: seq<(nat, E)> := [];
    var todo := db.Keys;
    ghost var log := Log(db);
    StartReading(db);
    while todo != {}
      invariant todo <= db.Keys && ItemsOf(log, todo, items)
    {
      var key :| key in todo;
      ghost var i := PositionOf(db, key);
      ReadNext(log, todo, items, i);
      var parsed := ParseUsize(key);
      if parsed.Some? {
        items := items + [(parsed.value, db[key])];
      }
      todo := todo - {key};
    }
    SortedItemsAreLog(log, items);
    var sorted := SortVector(items);
    events := seq(|sorted|, i requires 0 <= i < |sorted| => sorted[i].1);
  }

  lemma StartReading<E(!new)>(db: map<string, E>)
    requires IsLog(db)
    ensures ItemsOf(Log(db), db.Keys, [])
  {
    forall x | x in Numbered(Log(db)) ensures Decimal(x.0) in db {
      NumberedHas(Log(db), x);
      LogHas(db, x.0);
    }
  }

  lemma PositionOf<E(!new)>(db: map<string, E>, key: string) returns (i: nat)
    requires IsLog(db) && |db| <= USIZE_LIMIT && key in db
    ensures i < |db| && key == Decimal(i) && ParseUsize(key) == Some(i) && db[key] == Log(db)[i]
  {
    KeySetIs(|db|);
    assert IsKey(key, |db|);
    i :| i < |db| && key == Decimal(i);
    ParsePrinted(i);
  }

  class TransferStore<E(!new)> {
    var db: map<string, E>

    ghost predicate Valid()
      reads this
    {
      IsLog(db) && |db| <= USIZE_LIMIT
    }

    constructor ()
      ensures Valid() && Log(db) == []
    {
      db := map[];
      new;
      assert db.Keys == KeySet(0);
    }

    /** Appends the event; the error for an existing key cannot occur. */
    method TryInsert(event: E) returns (r: Result<(), LogError>)
      requires Valid() && |db| < USIZE_LIMIT
      modifies this
      ensures Valid()
      ensures r == Ok(()) && Log(db) == old(Log(db)) + [event]
    {
      InsertAppends(db, event);
      var key := Decimal(|db|);
      if key in db {
        return Err(KeyExists);
      }
      db := db[key := event];
      r := Ok(());
    }

    method GetAll() returns (events: seq<E>)
      requires Valid()
      ensures events == Log(db)
    {
      events := ReadAll(db);
    }
  }
}
