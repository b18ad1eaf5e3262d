/** Transfer histories: what an actor's history is, read off the events logged for its wallet. */
module History {
  import opened Collections
  import opened Sorting

  datatype Dot = Dot(actor: PublicKey, counter: nat)

  /** A credit agreement proof; `body` is everything the id and the recipient leave open. */
  datatype Credit = Credit(id: nat, recipient: PublicKey, body: nat)

  /** A transfer agreement proof; its sender is the actor of its id. */
  datatype Debit = Debit(id: Dot, body: nat)

  datatype ReplicaEvent =
    | TransferPropagated(credit: Credit)
    | TransferRegistered(debit: Debit)
    | TransferValidated(debit: Debit)
    | TransferValidationProposed(debit: Debit)

  datatype ActorHistory = ActorHistory(credits: seq<Credit>, debits: seq<Debit>)

  const EmptyHistory := ActorHistory([], [])

  // ---------- reading a history ----------

  /** The propagated credits of a log, in order. */
  function Propagated(events: seq<ReplicaEvent>): seq<Credit>
  {
    if events == [] then []
    else
      var e := events[|events| - 1];
      Propagated(events[..|events| - 1]) + if e.TransferPropagated? then [e.credit] else []
  }

  /** The registered debits of a log, in order. */
  function Registered(events: seq<ReplicaEvent>): seq<Debit>
  {
    if events == [] then []
    else
      var e := events[|events| - 1];
      Registered(events[..|events| - 1]) + if e.TransferRegistered? then [e.debit] else []
  }

  function Values<K, T>(q: seq<(K, T)>): (r: seq<T>)
    ensures |r| == |q|
  {
    seq(|q|, i requires 0 <= i < |q| => q[i].1)
  }

  function ByCreditId(c: seq<Credit>): (r: seq<(nat, Credit)>)
    ensures |r| == |c|
  {
    seq(|c|, i requires 0 <= i < |c| => (c[i].id, c[i]))
  }

  function ByDot(d: seq<Debit>): (r: seq<(Dot, Debit)>)
    ensures |r| == |d|
  {
    seq(|d|, i requires 0 <= i < |d| => (d[i].id, d[i]))
  }

  function ByCounter(d: seq<Debit>): (r: seq<(nat, Debit)>)
    ensures |r| == |d|
  {
    seq(|d|, i requires 0 <= i < |d| => (d[i].id.counter, d[i]))
  }

  function UniqueCredits(c: seq<Credit>): seq<Credit>
  {
    Values(FirstOfEach(ByCreditId(c)))
  }

  function UniqueDebits(d: seq<Debit>): seq<Debit>
  {
    Values(FirstOfEach(ByDot(d)))
  }

  function SortDebits(d: seq<Debit>): seq<Debit>
  {
    Values(SortItems(ByCounter(d)))
  }

  function GetCredits(events: seq<ReplicaEvent>): seq<Credit>
  {
    UniqueCredits(Propagated(events))
  }

  function GetDebits(events: seq<ReplicaEvent>): seq<Debit>
  {
    SortDebits(UniqueDebits(Registered(events)))
  }

  function HistoryOf(events: seq<ReplicaEvent>): ActorHistory
  {
    if events == [] then EmptyHistory
    else ActorHistory(GetCredits(events), GetDebits(events))
  }

  // ---------- writing a history ----------

  function CreditEvents(c: seq<Credit>): (r: seq<ReplicaEvent>)
    ensures |r| == |c|
  {
    seq(|c|, i requires 0 <= i < |c| => TransferPropagated(c[i]))
  }

  function DebitEvents(d: seq<Debit>): (r: seq<ReplicaEvent>)
    ensures |r| == |d|
  {
    seq(|d|, i requires 0 <= i < |d| => TransferRegistered(d[i]))
  }

  lemma CreditEventsGrow(q: seq<Credit>, i: nat)
    requires i < |q|
    ensures CreditEvents(q[..i + 1]) == CreditEvents(q[..i]) + [TransferPropagated(q[i])]
  {
    var was, now := CreditEvents(q[..i]), CreditEvents(q[..i + 1]);
    assert now[i] == TransferPropagated(q[i]);
    assert now[..i] == was;
  }

  lemma DebitEventsGrow(q: seq<Debit>, i: nat)
    requires i < |q|
    ensures DebitEvents(q[..i + 1]) == DebitEvents(q[..i]) + [TransferRegistered(q[i])]
  {
    var was, now := DebitEvents(q[..i]), DebitEvents(q[..i + 1]);
    assert now[i] == TransferRegistered(q[i]);
    assert now[..i] == was;
  }

  /** What setup logs for a history. */
  function HistoryEvents(h: ActorHistory): seq<ReplicaEvent>
  {
    CreditEvents(h.credits) + DebitEvents(h.debits)
  }

  lemma {:induction false} Concat(a: seq<ReplicaEvent>, b: seq<ReplicaEvent>)
    ensures Propagated(a + b) == Propagated(a) + Propagated(b)
    ensures Registered(a + b) == Registered(a) + Registered(b)
  {
    if b == [] {
      assert a + b == a;
    } else {
      Concat(a, b[..|b| - 1]);
      assert (a + b)[..|a + b| - 1] == a + b[..|b| - 1];
    }
  }

  lemma {:induction false} OfCredits(c: seq<Credit>)
    ensures Propagated(CreditEvents(c)) == c && Registered(CreditEvents(c)) == []
  {
    if c != [] {
      OfCredits(c[..|c| - 1]);
      assert CreditEvents(c)[..|c| - 1] == CreditEvents(c[..|c| - 1]);
    }
  }

  lemma {:induction false} OfDebits(d: seq<Debit>)
    ensures Propagated(DebitEvents(d)) == [] && Registered(DebitEvents(d)) == d
  {
    if d != [] {
      OfDebits(d[..|d| - 1]);
      assert DebitEvents(d)[..|d| - 1] == DebitEvents(d[..|d| - 1]);
    }
  }

  lemma OfHistory(h: ActorHistory)
    ensures Propagated(HistoryEvents(h)) == h.credits && Registered(HistoryEvents(h)) == h.debits
  {
    OfCredits(h.credits);
    OfDebits(h.debits);
    Concat(CreditEvents(h.credits), DebitEvents(h.debits));
  }

  /** A history is logged credits first, then debits, each in the order of the history. */
  lemma LoggedInOrder(h: ActorHistory)
    ensures |HistoryEvents(h)| == |h.credits| + |h.debits|
    ensures forall i :: 0 <= i < |h.credits| ==> HistoryEvents(h)[i] == TransferPropagated(h.credits[i])
    ensures forall i :: 0 <= i < |h.debits| ==> HistoryEvents(h)[|h.credits| + i] == TransferRegistered(h.debits[i])
  {
  }

  // ---------- what the readers give ----------

  ghost predicate CreditsDistinct(c: seq<Credit>)
  {
    forall i, j :: 0 <= i < j < |c| ==> c[i].id != c[j].id
  }

  ghost predicate DebitsDistinct(d: seq<Debit>)
  {
    forall i, j :: 0 <= i < j < |d| ==> d[i].id != d[j].id
  }

  ghost predicate DebitsSorted(d: seq<Debit>)
  {
    forall i, j :: 0 <= i < j < |d| ==> d[i].id.counter <= d[j].id.counter
  }

  /** No credit or debit twice, and the debits in the order of their counters. */
  ghost predicate WellFormed(h: ActorHistory)
  {
    CreditsDistinct(h.credits) && DebitsDistinct(h.debits) && DebitsSorted(h.debits)
  }

  lemma CreditsOnce(c: seq<Credit>)
    ensures CreditsDistinct(UniqueCredits(c))
    ensures forall x :: x in UniqueCredits(c) ==> x in c
    ensures CreditsDistinct(c) ==> UniqueCredits(c) == c
  {
    var q := ByCreditId(c);
    var u := FirstOfEach(q);
    FirstKeys(q);
    forall i | 0 <= i < |u| ensures u[i].0 == u[i].1.id && u[i].1 in c {
      assert u[i] in q;
    }
    if CreditsDistinct(c) {
      FirstOfDistinct(q);
      assert Values(q) == c;
    }
  }

  lemma DebitsOnce(d: seq<Debit>)
    ensures DebitsDistinct(UniqueDebits(d))
    ensures forall x :: x in UniqueDebits(d) ==> x in d
    ensures DebitsDistinct(d) ==> UniqueDebits(d) == d
  {
    var q := ByDot(d);
    var u := FirstOfEach(q);
    FirstKeys(q);
    forall i | 0 <= i < |u| ensures u[i].0 == u[i].1.id && u[i].1 in d {
      assert u[i] in q;
    }
    if DebitsDistinct(d) {
      FirstOfDistinct(q);
      assert Values(q) == d;
    }
  }

  lemma SortedItems(d: seq<Debit>)
    ensures ByCounter(SortDebits(d)) == SortItems(ByCounter(d))
    ensures DebitsSorted(SortDebits(d))
    ensures DebitsSorted(d) ==> SortDebits(d) == d
  {
    var q := ByCounter(d);
    var r := SortItems(q);
    SortSorts(q);
    forall i | 0 <= i < |r| ensures r[i].0 == r[i].1.id.counter {
      SortedHas(q, r[i]);
    }
    assert ByCounter(Values(r)) == r;
    if DebitsSorted(d) {
      SortOfSorted(q);
      assert Values(q) == d;
    }
  }

  lemma CounterHas(d: seq<Debit>, x: Debit)
    ensures (x.id.counter, x) in ByCounter(d) <==> x in d
  {
    if x in d {
      var i :| 0 <= i < |d| && d[i] == x;
      assert ByCounter(d)[i] == (x.id.counter, x);
    }
  }

  /** Sorting keeps the debits and repeats none. */
  lemma SortedKeeps(d: seq<Debit>)
    requires DebitsDistinct(d)
    ensures forall x :: x in SortDebits(d) <==> x in d
    ensures DebitsDistinct(SortDebits(d))
  {
    var s := SortDebits(d);
    SortedItems(d);
    forall x ensures x in s <==> x in d {
      CounterHas(s, x);
      CounterHas(d, x);
      SortedHas(ByCounter(d), (x.id.counter, x));
    }
    SortRepeatsNothing(ByCounter(d));
    forall i, j | 0 <= i < j < |s| ensures s[i].id != s[j].id {
      assert ByCounter(s)[i] != ByCounter(s)[j];
      assert s[i] in d && s[j] in d;
    }
  }

  // ---------- round trip ----------

  /** Whatever the log, the history read from it is well formed. */
  lemma HistoryIsWellFormed(events: seq<ReplicaEvent>)
    ensures WellFormed(HistoryOf(events))
  {
    CreditsOnce(Propagated(events));
    DebitsOnce(Registered(events));
    SortedItems(UniqueDebits(Registered(events)));
    SortedKeeps(UniqueDebits(Registered(events)));
  }

  /** Writing a history and reading it back returns it exactly when it is well formed. */
  lemma RoundTrip(h: ActorHistory)
    ensures HistoryOf(HistoryEvents(h)) == h <==> WellFormed(h)
  {
    HistoryIsWellFormed(HistoryEvents(h));
    if WellFormed(h) {
      OfHistory(h);
      CreditsOnce(h.credits);
      DebitsOnce(h.debits);
      SortedItems(h.debits);
    }
  }

  /** Every credit and debit of the history has its id in the log already. */
  ghost predicate Covered(events: seq<ReplicaEvent>, h: ActorHistory)
  {
    && (forall c :: c in h.credits ==> HasKey(ByCreditId(Propagated(events)), c.id))
    && (forall d :: d in h.debits ==> HasKey(ByDot(Registered(events)), d.id))
  }

  lemma CreditsAbsorb(c: seq<Credit>, more: seq<Credit>)
    requires forall x :: x in more ==> HasKey(ByCreditId(c), x.id)
    ensures UniqueCredits(c + more) == UniqueCredits(c)
  {
    assert ByCreditId(c + more) == ByCreditId(c) + ByCreditId(more);
    FirstOfSeen(ByCreditId(c), ByCreditId(more));
  }

  lemma DebitsAbsorb(d: seq<Debit>, more: seq<Debit>)
    requires forall x :: x in more ==> HasKey(ByDot(d), x.id)
    ensures UniqueDebits(d + more) == UniqueDebits(d)
  {
    assert ByDot(d + more) == ByDot(d) + ByDot(more);
    FirstOfSeen(ByDot(d), ByDot(more));
  }

  /** Logging again what is covered changes no history. */
  lemma Absorbs(events: seq<ReplicaEvent>, h: ActorHistory)
    requires Covered(events, h)
    ensures HistoryOf(events + HistoryEvents(h)) == HistoryOf(events)
  {
    Concat(events, HistoryEvents(h));
    OfHistory(h);
    CreditsAbsorb(Propagated(events), h.credits);
    DebitsAbsorb(Registered(events), h.debits);
  }

  lemma CoversOwn(events: seq<ReplicaEvent>)
    ensures Covered(events, HistoryOf(events))
  {
    CreditsOnce(Propagated(events));
    DebitsOnce(Registered(events));
    SortedKeeps(UniqueDebits(Registered(events)));
    forall c | c in Propagated(events) ensures HasKey(ByCreditId(Propagated(events)), c.id) {
      var i :| 0 <= i < |Propagated(events)| && Propagated(events)[i] == c;
      assert ByCreditId(Propagated(events))[i].0 == c.id;
    }
    forall d | d in Registered(events) ensures HasKey(ByDot(Registered(events)), d.id) {
      var i :| 0 <= i < |Registered(events)| && Registered(events)[i] == d;
      assert ByDot(Registered(events))[i].0 == d.id;
    }
  }

  /** Logging a log's own history on top of it changes nothing. */
  lemma SelfMerge(events: seq<ReplicaEvent>)
    ensures HistoryOf(events + HistoryEvents(HistoryOf(events))) == HistoryOf(events)
  {
    CoversOwn(events);
    Absorbs(events, HistoryOf(events));
  }

  /** The log after writing the same history k times. */
  ghost function Repeated(h: ActorHistory, k: nat): seq<ReplicaEvent>
  {
    if k == 0 then [] else Repeated(h, k - 1) + HistoryEvents(h)
  }

  /** A well-formed history survives any number of writes. */
  lemma {:induction false} RepeatedRoundTrip(h: ActorHistory, k: nat)
    requires WellFormed(h) && k > 0
    ensures HistoryOf(Repeated(h, k)) == h
  {
    if k == 1 {
      assert Repeated(h, 1) == [] + HistoryEvents(h) == HistoryEvents(h);
      RoundTrip(h);
    } else {
      RepeatedRoundTrip(h, k - 1);
      SelfMerge(Repeated(h, k - 1));
    }
  }

  // ---------- order and duplication ----------

  /** Two logs with the same registered debits, in whatever order and number. */
  ghost predicate SameDebits(a: seq<ReplicaEvent>, b: seq<ReplicaEvent>)
  {
    forall d :: d in Registered(a) <==> d in Registered(b)
  }

  /** No two different registered debits share a counter. */
  ghost predicate OnePerCounter(events: seq<ReplicaEvent>)
  {
    forall d, e :: d in Registered(events) && e in Registered(events) && d.id.counter == e.id.counter ==> d == e
  }

  lemma AllRegisteredListed(events: seq<ReplicaEvent>)
    requires OnePerCounter(events)
    ensures forall d :: d in GetDebits(events) <==> d in Registered(events)
    ensures DebitsDistinct(GetDebits(events)) && DebitsSorted(GetDebits(events))
  {
    var all := Registered(events);
    DebitsOnce(all);
    SortedItems(UniqueDebits(all));
    SortedKeeps(UniqueDebits(all));
    forall d | d in all ensures d in UniqueDebits(all) {
      OnceKept(all, d);
    }
  }

  lemma CountersOnce(g: seq<Debit>)
    requires DebitsDistinct(g) && DebitsSorted(g)
    requires forall d, e :: d in g && e in g && d.id.counter == e.id.counter ==> d == e
    ensures DistinctKeys(ByCounter(g)) && SortedByKey(ByCounter(g))
  {
    forall i, j | 0 <= i < j < |g| ensures g[i].id.counter != g[j].id.counter {
      assert g[i] in g && g[j] in g;
    }
  }

  lemma DebitsAreRegistered(events: seq<ReplicaEvent>)
    requires OnePerCounter(events)
    ensures DistinctKeys(ByCounter(GetDebits(events))) && SortedByKey(ByCounter(GetDebits(events)))
    ensures forall d :: d in GetDebits(events) <==> d in Registered(events)
  {
    AllRegisteredListed(events);
    CountersOnce(GetDebits(events));
  }

  /** Some debit with the same id stays. */
  lemma IdKept(all: seq<Debit>, d: Debit) returns (e: Debit)
    requires d in all
    ensures e in UniqueDebits(all) && e.id == d.id && e in all
  {
    var i :| 0 <= i < |all| && all[i] == d;
    assert ByDot(all)[i].0 == d.id;
    FirstKeys(ByDot(all));
    var u := FirstOfEach(ByDot(all));
    assert HasKey(u, d.id);
    var m :| 0 <= m < |u| && u[m].0 == d.id;
    assert u[m] in ByDot(all);
    e := u[m].1;
    assert Values(u)[m] == e;
  }

  lemma OnceKept(all: seq<Debit>, d: Debit)
    requires d in all
    requires forall e :: e in all && e.id.counter == d.id.counter ==> e == d
    ensures d in UniqueDebits(all)
  {
    var e := IdKept(all, d);
  }

  lemma SameSetSameDebits(a: seq<ReplicaEvent>, b: seq<ReplicaEvent>)
    requires OnePerCounter(a) && SameDebits(a, b)
    ensures GetDebits(a) == GetDebits(b)
  {
    assert OnePerCounter(b);
    DebitsAreRegistered(a);
    DebitsAreRegistered(b);
    var s, t := GetDebits(a), GetDebits(b);
    forall x ensures x in ByCounter(s) <==> x in ByCounter(t) {
      CounterHas(s, x.1);
      CounterHas(t, x.1);
    }
    SortedUnique(ByCounter(s), ByCounter(t));
    assert Values(ByCounter(s)) == s && Values(ByCounter(t)) == t;
  }

  /** Of the debits with the counter of the first one registered, that one is listed first. */
  lemma FirstOfCounter(events: seq<ReplicaEvent>, d: Debit)
    requires Registered(events) != [] && Registered(events)[0] == d
    ensures WithKey(ByCounter(GetDebits(events)), d.id.counter) != []
    ensures WithKey(ByCounter(GetDebits(events)), d.id.counter)[0] == (d.id.counter, d)
  {
    var all := Registered(events);
    var u := UniqueDebits(all);
    FirstStays(ByDot(all));
    assert u[0] == d;
    SortedItems(u);
    SortIsStable(ByCounter(u), d.id.counter);
    WithKeyHead(ByCounter(u), d.id.counter);
  }

  /** The same log behind two of its own debits, re-registered. */
  function Prefixed(d: Debit, e: Debit, events: seq<ReplicaEvent>): seq<ReplicaEvent>
  {
    [TransferRegistered(d), TransferRegistered(e)] + events
  }

  lemma PrefixedHas(d: Debit, e: Debit, events: seq<ReplicaEvent>)
    ensures Registered(Prefixed(d, e, events)) == [d, e] + Registered(events)
  {
    assert DebitEvents([d, e]) == [TransferRegistered(d), TransferRegistered(e)];
    OfDebits([d, e]);
    Concat(DebitEvents([d, e]), events);
  }

  lemma SwapShows(events: seq<ReplicaEvent>, d: Debit, e: Debit)
    requires d in Registered(events) && e in Registered(events)
    requires d.id.counter == e.id.counter && d != e
    ensures SameDebits(events, Prefixed(d, e, events)) && SameDebits(events, Prefixed(e, d, events))
    ensures GetDebits(Prefixed(d, e, events)) != GetDebits(Prefixed(e, d, events))
  {
    PrefixedHas(d, e, events);
    PrefixedHas(e, d, events);
    FirstOfCounter(Prefixed(d, e, events), d);
    FirstOfCounter(Prefixed(e, d, events), e);
  }

  ghost predicate OrderFree(events: seq<ReplicaEvent>)
  {
    forall b :: SameDebits(events, b) ==> GetDebits(b) == GetDebits(events)
  }

  /** The debits do not depend on event order or duplication exactly when no counter is used twice. */
  lemma DebitsOrderFree(events: seq<ReplicaEvent>)
    ensures OrderFree(events) <==> OnePerCounter(events)
  {
    if OnePerCounter(events) {
      forall b | SameDebits(events, b) ensures GetDebits(b) == GetDebits(events) {
        SameSetSameDebits(events, b);
      }
    } else {
      var d, e :| d in Registered(events) && e in Registered(events) && d.id.counter == e.id.counter && d != e;
      SwapShows(events, d, e);
    }
  }

  // ---------- which events count ----------

  function PropagatedItem(e: ReplicaEvent): Option<(nat, Credit)>
  {
    if e.TransferPropagated? then Some((e.credit.id, e.credit)) else None
  }

  function RegisteredItem(e: ReplicaEvent): Option<(Dot, Debit)>
  {
    if e.TransferRegistered? then Some((e.debit.id, e.debit)) else None
  }

  lemma {:induction false} PickedCredits(events: seq<ReplicaEvent>)
    ensures ByCreditId(Propagated(events)) == Picked(events, PropagatedItem)
  {
    if events != [] {
      PickedCredits(events[..|events| - 1]);
    }
  }

  lemma {:induction false} PickedDebits(events: seq<ReplicaEvent>)
    ensures ByDot(Registered(events)) == Picked(events, RegisteredItem)
  {
    if events != [] {
      PickedDebits(events[..|events| - 1]);
    }
  }

  /** The event at k propagates a credit, the first with its id. */
  ghost predicate FirstPropagated(events: seq<ReplicaEvent>, k: nat)
  {
    && k < |events| && events[k].TransferPropagated?
    && forall j :: 0 <= j < k && events[j].TransferPropagated? ==> events[j].credit.id != events[k].credit.id
  }

  /** The event at k registers a debit, the first with its id. */
  ghost predicate FirstRegistered(events: seq<ReplicaEvent>, k: nat)
  {
    && k < |events| && events[k].TransferRegistered?
    && forall j :: 0 <= j < k && events[j].TransferRegistered? ==> events[j].debit.id != events[k].debit.id
  }

  /** The credits of a history are those of the events that first propagate an id, in the order of these events. */
  lemma CreditsExactly(events: seq<ReplicaEvent>) returns (ks: seq<nat>)
    ensures Increasing(ks) && forall k :: k in ks <==> FirstPropagated(events, k)
    ensures |GetCredits(events)| == |ks|
    ensures forall i :: 0 <= i < |ks| ==> ks[i] < |events| && events[ks[i]] == TransferPropagated(GetCredits(events)[i])
  {
    PickedCredits(events);
    ks := FirstsOf(events, PropagatedItem);
    var u := FirstOfEach(Picked(events, PropagatedItem));
    FirstKeys(Picked(events, PropagatedItem));
    forall k: nat ensures k in ks <==> FirstPropagated(events, k) {
      FirstsExactly(events, PropagatedItem, u, ks, k);
      assert FirstOfKey(events, PropagatedItem, k) <==> FirstPropagated(events, k);
    }
  }

  lemma DebitPositions(events: seq<ReplicaEvent>) returns (ks: seq<nat>)
    ensures forall k: nat :: k in ks <==> FirstRegistered(events, k)
    ensures |UniqueDebits(Registered(events))| == |ks|
    ensures forall i :: 0 <= i < |ks| ==> ks[i] < |events| && events[ks[i]] == TransferRegistered(UniqueDebits(Registered(events))[i])
  {
    PickedDebits(events);
    ks := FirstsOf(events, RegisteredItem);
    var u := FirstOfEach(Picked(events, RegisteredItem));
    FirstKeys(Picked(events, RegisteredItem));
    forall k: nat ensures k in ks <==> FirstRegistered(events, k) {
      FirstsExactly(events, RegisteredItem, u, ks, k);
      assert FirstOfKey(events, RegisteredItem, k) <==> FirstRegistered(events, k);
    }
  }

  lemma UniqueExactly(events: seq<ReplicaEvent>, d: Debit)
    ensures d in UniqueDebits(Registered(events)) <==> exists k: nat :: FirstRegistered(events, k) && events[k].debit == d
  {
    var u := UniqueDebits(Registered(events));
    var ks := DebitPositions(events);
    if d in u {
      var i :| 0 <= i < |u| && u[i] == d;
      assert ks[i] in ks && events[ks[i]].debit == d;
    }
    if k: nat :| FirstRegistered(events, k) && events[k].debit == d {
      assert k in ks;
      var i :| 0 <= i < |ks| && ks[i] == k;
      assert u[i] == d;
    }
  }

  /** A debit is in the history exactly if some event registers it and none before registers its id: validations, and
      anything else in the log, do not count. */
  lemma DebitsExactly(events: seq<ReplicaEvent>, d: Debit)
    ensures d in GetDebits(events) <==> exists k: nat :: FirstRegistered(events, k) && events[k].debit == d
  {
    UniqueExactly(events, d);
    DebitsOnce(Registered(events));
    SortedKeeps(UniqueDebits(Registered(events)));
  }

  lemma {:induction false} OnlyValidations(more: seq<ReplicaEvent>)
    requires forall e :: e in more ==> !e.TransferPropagated? && !e.TransferRegistered?
    ensures Propagated(more) == [] && Registered(more) == []
  {
    if more != [] {
      assert more[|more| - 1] in more;
      OnlyValidations(more[..|more| - 1]);
    }
  }

  /** Validating transfers changes no history. */
  lemma ValidationsIgnored(events: seq<ReplicaEvent>, more: seq<ReplicaEvent>)
    requires forall e :: e in more ==> e.TransferValidated? || e.TransferValidationProposed?
    ensures HistoryOf(events + more) == HistoryOf(events)
  {
    Concat(events, more);
    OnlyValidations(more);
    assert Propagated(events) + [] == Propagated(events) && Registered(events) + [] == Registered(events);
  }
}
