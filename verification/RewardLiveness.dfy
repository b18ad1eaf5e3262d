/** When a payout always ends. Every run can be brought to rest; at rest everyone is done exactly if a quorum is
    possible, provided elders hear their own messages. If they do not, it takes three elders as well. */
module RewardLiveness {
  import opened Collections
  import opened RewardProcess
  import opened RewardCanon
  import opened RewardSystem
  import opened RewardAgreement
  import opened RewardProgress

  // ---------- bringing a run to rest ----------

  ghost function Unstarted(w: World, steps: seq<Step>): set<nat>
  {
    set i | i in Range(w.n) && Beginning(steps, i).Idle?
  }

  /** No run has more than 2n messages, so these are all the deliveries it can ever lack. */
  ghost function Unheard(w: World, steps: seq<Step>): set<(nat, nat)>
  {
    set i, k | i in Range(w.n) && k in Range(2 * w.n) && k !in Inbox(w, steps, i) :: (i, k)
  }

  lemma BegunOrNot(w: World, steps: seq<Step>, i: nat)
    requires i < w.n
    ensures i < |Exec(w, steps).elders|
    ensures Exec(w, steps).elders[i].funds.NotStarted? <==> Beginning(steps, i).Idle?
  {
    InboxExplains(w, steps, i);
    ExecRefines(w, steps);
    StartedOrNot(w, Exec(w, steps), Machine(w, steps), i);
    if !Beginning(steps, i).Idle? {
      SeeAllNotIdle(w.threshold, First(w) == map[], i, Beginning(steps, i), NotesAt(Machine(w, steps).sent, Inbox(w, steps, i)));
    }
  }

  lemma ElderCount(w: World, steps: seq<Step>)
    ensures |Exec(w, steps).elders| == w.n
  {
    ExecRefines(w, steps);
    AlwaysInv(w.n, w.threshold, First(w) == map[], steps);
  }

  /** Nothing sent is ever taken back. */
  lemma SentStays(w: World, steps: seq<Step>, step: Step)
    ensures Exec(w, steps + [step]) == Next(w, Exec(w, steps), step)
    ensures Exec(w, steps).sent <= Exec(w, steps + [step]).sent
  {
    assert (steps + [step])[..|steps|] == steps;
  }

  lemma InboxNext(w: World, steps: seq<Step>, step: Step, i: nat)
    requires i < w.n
    ensures Inbox(w, steps + [step], i) ==
            if step.Deliver? && step.i == i && step.k < |Exec(w, steps).sent| && !Beginning(steps, i).Idle?
            then Inbox(w, steps, i) + [step.k] else Inbox(w, steps, i)
  {
    assert (steps + [step])[..|steps|] == steps;
    BegunOrNot(w, steps, i);
  }

  lemma BeginningNext(steps: seq<Step>, step: Step, i: nat)
    ensures Beginning(steps + [step], i) ==
            if !Beginning(steps, i).Idle? || step.i != i then Beginning(steps, i)
            else if step.StartOldie? then Proposing({i})
            else if step.StartNewbie? then Awaiting
            else Idle
  {
    assert (steps + [step])[..|steps|] == steps;
  }

  lemma StartShrinks(w: World, steps: seq<Step>, i: nat)
    requires i in Unstarted(w, steps)
    ensures Unstarted(w, steps + [StartNewbie(i)]) == Unstarted(w, steps) - {i}
    ensures Unheard(w, steps + [StartNewbie(i)]) == Unheard(w, steps)
  {
    forall j | j in Range(w.n) ensures Beginning(steps + [StartNewbie(i)], j).Idle? <==> Beginning(steps, j).Idle? && j != i {
      BeginningNext(steps, StartNewbie(i), j);
    }
    forall j | j in Range(w.n) ensures Inbox(w, steps + [StartNewbie(i)], j) == Inbox(w, steps, j) {
      InboxNext(w, steps, StartNewbie(i), j);
    }
    StartedOne(w, steps, steps + [StartNewbie(i)], i);
    HeardNone(w, steps, steps + [StartNewbie(i)]);
  }

  lemma StartedOne(w: World, steps: seq<Step>, longer: seq<Step>, i: nat)
    requires forall j :: j in Range(w.n) ==> (Beginning(longer, j).Idle? <==> Beginning(steps, j).Idle? && j != i)
    ensures Unstarted(w, longer) == Unstarted(w, steps) - {i}
  {
  }

  lemma HeardNone(w: World, steps: seq<Step>, longer: seq<Step>)
    requires forall j :: j in Range(w.n) ==> Inbox(w, longer, j) == Inbox(w, steps, j)
    ensures Unheard(w, longer) == Unheard(w, steps)
  {
  }

  lemma HearShrinks(w: World, steps: seq<Step>, i: nat, k: nat)
    requires i < w.n && !Beginning(steps, i).Idle? && k < |Exec(w, steps).sent| <= 2 * w.n && k !in Inbox(w, steps, i)
    ensures Unstarted(w, steps + [Deliver(k, i, true)]) == Unstarted(w, steps)
    ensures Unheard(w, steps + [Deliver(k, i, true)]) == Unheard(w, steps) - {(i, k)}
    ensures (i, k) in Unheard(w, steps)
  {
    var step := Deliver(k, i, true);
    forall j | j in Range(w.n)
      ensures Beginning(steps + [step], j).Idle? <==> Beginning(steps, j).Idle?
      ensures Inbox(w, steps + [step], j) == if j == i then Inbox(w, steps, j) + [k] else Inbox(w, steps, j)
    {
      BeginningNext(steps, step, j);
      InboxNext(w, steps, step, j);
    }
    HeardOne(w, steps, steps + [step], i, k);
  }

  lemma HeardOne(w: World, steps: seq<Step>, longer: seq<Step>, i: nat, k: nat)
    requires i < w.n && k < 2 * w.n && k !in Inbox(w, steps, i)
    requires forall j :: j in Range(w.n) ==>
      Inbox(w, longer, j) == if j == i then Inbox(w, steps, j) + [k] else Inbox(w, steps, j)
    ensures Unheard(w, longer) == Unheard(w, steps) - {(i, k)}
    ensures (i, k) in Unheard(w, steps)
  {
    forall x ensures x in Unheard(w, longer) <==> x in Unheard(w, steps) - {(i, k)} {
      assert x.0 in Range(w.n) && x.1 in Range(2 * w.n) ==>
          (x.1 in Inbox(w, longer, x.0) <==> x.1 in Inbox(w, steps, x.0) || x == (i, k));
    }
  }

  ghost predicate Lacks(w: World, steps: seq<Step>, i: nat, k: nat)
  {
    && i < |Exec(w, steps).elders| && k < |Exec(w, steps).sent|
    && k !in Inbox(w, steps, i)
  }

  /** Nothing is left to do: everyone has begun, and has received every message since, its own included. */
  ghost predicate AllDelivered(w: World, steps: seq<Step>)
  {
    var s := Exec(w, steps);
    && (forall i :: 0 <= i < |s.elders| ==> !s.elders[i].funds.NotStarted?)
    && (forall i, k :: 0 <= i < |s.elders| && 0 <= k < |s.sent| ==> k in Inbox(w, steps, i))
  }

  lemma OthersDelivered(w: World, steps: seq<Step>)
    requires AllDelivered(w, steps)
    ensures Quiescent(w, steps)
  {
  }

  lemma AtRest(w: World, steps: seq<Step>)
    requires Unstarted(w, steps) == {}
    requires forall i, k :: !Lacks(w, steps, i, k)
    ensures AllDelivered(w, steps)
  {
    ElderCount(w, steps);
    var s := Exec(w, steps);
    forall i | 0 <= i < |s.elders| ensures !s.elders[i].funds.NotStarted? {
      BegunOrNot(w, steps, i);
      assert i in Range(w.n) && i !in Unstarted(w, steps);
    }
    forall i, k | 0 <= i < |s.elders| && 0 <= k < |s.sent| ensures k in Inbox(w, steps, i) {
      assert !Lacks(w, steps, i, k);
    }
  }

  /** From every reachable state the section can come to rest: start who has not begun, deliver what is missing. */
  lemma {:induction false} ComesToRest(w: World, steps: seq<Step>) returns (more: seq<Step>)
    ensures AllDelivered(w, steps + more)
    ensures Exec(w, steps).sent <= Exec(w, steps + more).sent
    decreases |Unstarted(w, steps)| + |Unheard(w, steps)|
  {
    if Unstarted(w, steps) != {} {
      var i :| i in Unstarted(w, steps);
      StartShrinks(w, steps, i);
      more := RestAfter(w, steps, StartNewbie(i));
    } else if i: nat, k: nat :| Lacks(w, steps, i, k) {
      ElderCount(w, steps);
      MessageBound(w, steps);
      assert i in Range(w.n) && i !in Unstarted(w, steps);
      HearShrinks(w, steps, i, k);
      more := RestAfter(w, steps, Deliver(k, i, true));
    } else {
      AtRest(w, steps);
      more := [];
      assert steps + more == steps;
    }
  }

  lemma {:induction false} RestAfter(w: World, steps: seq<Step>, step: Step) returns (more: seq<Step>)
    requires |Unstarted(w, steps + [step])| + |Unheard(w, steps + [step])| < |Unstarted(w, steps)| + |Unheard(w, steps)|
    ensures AllDelivered(w, steps + more)
    ensures Exec(w, steps).sent <= Exec(w, steps + more).sent
    decreases |Unstarted(w, steps)| + |Unheard(w, steps)|, 0
  {
    SentStays(w, steps, step);
    var rest := ComesToRest(w, steps + [step]);
    more := [step] + rest;
    assert steps + more == steps + [step] + rest;
  }

  // ---------- hearing oneself ----------

  /** What a step adds to the inbox of elder i. */
  function NextInbox(a: Abs, step: Step, i: nat, inbox: seq<nat>): seq<nat>
    requires i < |a.views|
  {
    if step.Deliver? && step.i == i && step.k < |a.sent| && !a.views[i].Idle? then inbox + [step.k] else inbox
  }

  lemma MachineInbox(w: World, steps: seq<Step>, m: nat, a: Abs, i: nat)
    requires m < |steps| && a == Machine(w, steps[..m]) && i < |a.views|
    ensures Inbox(w, steps[..m + 1], i) == NextInbox(a, steps[m], i, Inbox(w, steps[..m], i))
  {
    assert steps[..m + 1][..m] == steps[..m];
    ExecRefines(w, steps[..m]);
    StartedOrNot(w, Exec(w, steps[..m]), a, i);
  }

  /** Once an elder has heard its own message of a phase, every further one has been evaluated. */
  ghost predicate OwnEvaluated(threshold: nat, empty: bool, i: nat, view: View, notes: seq<Note>)
  {
    match view
    case Proposing(signers) => Prop(i) in notes ==> !Quorum(threshold, empty, signers)
    case Accumulating(signers) => Acc(i) in notes ==> !Quorum(threshold, empty, signers)
    case _ => true
  }

  /** An elder cannot hear its own message before it is in the phase of that message. */
  lemma SeeOwn(threshold: nat, empty: bool, sent: seq<Note>, i: nat, view: View, notes: seq<Note>, note: Note, keyKnown: bool)
    requires ViewOk(threshold, empty, sent, i, view) && OwnEvaluated(threshold, empty, i, view, notes)
    requires note in sent && forall m :: m in notes ==> m in sent
    ensures OwnEvaluated(threshold, empty, i, See(threshold, empty, i, view, note, keyKnown).view, notes + [note])
  {
  }

  ghost predicate OwnHeard(threshold: nat, empty: bool, a: Abs, i: nat, inbox: seq<nat>)
    requires i < |a.views|
  {
    && (forall x :: x in inbox ==> x < |a.sent|)
    && OwnEvaluated(threshold, empty, i, a.views[i], NotesAt(a.sent, inbox))
  }

  lemma NotesWereSent(sent: seq<Note>, ks: seq<nat>)
    requires forall x :: x in ks ==> x < |sent|
    ensures forall m :: m in NotesAt(sent, ks) ==> m in sent
  {
  }

  lemma NotesGrow(sent: seq<Note>, more: seq<Note>, ks: seq<nat>, k: nat)
    requires sent <= more && (forall x :: x in ks ==> x < |sent|) && k < |sent|
    ensures NotesAt(more, ks) == NotesAt(sent, ks)
    ensures forall x :: x in ks + [k] ==> x < |more|
    ensures NotesAt(more, ks + [k]) == NotesAt(sent, ks) + [sent[k]]
  {
    assert forall x :: x in ks + [k] ==> x in ks || x == k;
  }

  lemma NotesStay(sent: seq<Note>, more: seq<Note>, ks: seq<nat>)
    requires sent <= more && forall x :: x in ks ==> x < |sent|
    ensures NotesAt(more, ks) == NotesAt(sent, ks)
  {
  }

  lemma OwnStep(threshold: nat, empty: bool, a: Abs, i: nat, inbox: seq<nat>, step: Step)
    requires i < |a.views| && ViewOk(threshold, empty, a.sent, i, a.views[i]) && OwnHeard(threshold, empty, a, i, inbox)
    ensures
      var b := AbsNext(threshold, empty, a, step);
      |b.views| == |a.views| && OwnHeard(threshold, empty, b, i, NextInbox(a, step, i, inbox))
  {
    var b := AbsNext(threshold, empty, a, step);
    NotesWereSent(a.sent, inbox);
    NotesStay(a.sent, b.sent, inbox);
    if step.Deliver? && step.i == i && step.k < |a.sent| {
      NotesGrow(a.sent, b.sent, inbox, step.k);
      SeeOwn(threshold, empty, a.sent, i, a.views[i], NotesAt(a.sent, inbox), a.sent[step.k], step.keyKnown);
    }
  }

  lemma {:induction false} OwnAlways(w: World, steps: seq<Step>, i: nat)
    requires i < w.n
    ensures |Machine(w, steps).views| == w.n
    ensures OwnHeard(w.threshold, First(w) == map[], Machine(w, steps), i, Inbox(w, steps, i))
  {
    if steps != [] {
      var m := |steps| - 1;
      OwnAlways(w, steps[..m], i);
      AlwaysInv(w.n, w.threshold, First(w) == map[], steps[..m]);
      OwnStep(w.threshold, First(w) == map[], Machine(w, steps[..m]), i, Inbox(w, steps[..m], i), steps[m]);
      MachineInbox(w, steps, m, Machine(w, steps[..m]), i);
      assert steps[..m + 1] == steps;
    }
  }

  /** Everyone has heard everything, itself included. */
  ghost predicate AllHeardAll(threshold: nat, empty: bool, a: Abs, starts: seq<View>, inboxes: seq<seq<nat>>)
  {
    && AllHeard(threshold, empty, a, starts, inboxes)
    && (forall i :: 0 <= i < |a.views| ==> OwnHeard(threshold, empty, a, i, inboxes[i]))
    && (forall i, k :: 0 <= i < |a.views| && 0 <= k < |a.sent| ==> k in inboxes[i])
  }

  lemma HeardAny(threshold: nat, empty: bool, a: Abs, starts: seq<View>, inboxes: seq<seq<nat>>, i: nat, note: Note)
    requires AllHeardAll(threshold, empty, a, starts, inboxes) && i < |a.views| && note in a.sent
    ensures note in NotesAt(a.sent, inboxes[i])
  {
    var k :| 0 <= k < |a.sent| && a.sent[k] == note;
    assert k in inboxes[i];
    var m :| 0 <= m < |inboxes[i]| && inboxes[i][m] == k;
    assert NotesAt(a.sent, inboxes[i])[m] == note;
  }

  predicate QuorumPossible(threshold: nat, empty: bool, n: nat)
  {
    empty || n >= threshold + 1
  }

  lemma EveryoneIsQuorum(threshold: nat, empty: bool, n: nat, signers: set<nat>)
    requires QuorumPossible(threshold, empty, n) && forall x :: 0 <= x < n ==> x in signers
    ensures Quorum(threshold, empty, signers)
  {
    SubsetSize(Range(n), signers);
  }

  lemma EchoAccumulates(threshold: nat, empty: bool, a: Abs, starts: seq<View>, inboxes: seq<seq<nat>>, i: nat)
    requires AllHeardAll(threshold, empty, a, starts, inboxes) && i < |a.views|
    requires ViewOk(threshold, empty, a.sent, i, a.views[i]) && QuorumPossible(threshold, empty, |a.views|)
    requires forall x :: 0 <= x < |a.views| ==> Prop(x) in a.sent
    ensures Acc(i) in a.sent
  {
    var notes := NotesAt(a.sent, inboxes[i]);
    forall x | 0 <= x < |a.views| ensures x in Proposers(notes) && Prop(x) in notes {
      HeardAny(threshold, empty, a, starts, inboxes, i, Prop(x));
    }
    AllRecorded(threshold, empty, i, starts[i], notes);
    if a.views[i].Proposing? {
      EveryoneIsQuorum(threshold, empty, |a.views|, a.views[i].signers);
    }
  }

  lemma EchoSettles(threshold: nat, empty: bool, a: Abs, starts: seq<View>, inboxes: seq<seq<nat>>, i: nat)
    requires AllHeardAll(threshold, empty, a, starts, inboxes) && i < |a.views|
    requires QuorumPossible(threshold, empty, |a.views|)
    requires forall x :: 0 <= x < |a.views| ==> Acc(x) in a.sent
    ensures a.views[i].Settled?
  {
    var notes := NotesAt(a.sent, inboxes[i]);
    forall x | 0 <= x < |a.views| ensures x in Accumulators(notes) && Acc(x) in notes {
      HeardAny(threshold, empty, a, starts, inboxes, i, Acc(x));
    }
    AllRecorded(threshold, empty, i, starts[i], notes);
    if a.views[i].Accumulating? {
      EveryoneIsQuorum(threshold, empty, |a.views|, a.views[i].signers);
    }
  }

  lemma SomeoneAccumulated(threshold: nat, empty: bool, a: Abs, starts: seq<View>, inboxes: seq<seq<nat>>, note: Note) returns (j: nat)
    requires AllHeardAll(threshold, empty, a, starts, inboxes) && Inv(|a.views|, threshold, empty, a)
    requires QuorumPossible(threshold, empty, |a.views|) && note in a.sent
    ensures Acc(j) in a.sent
  {
    j := note.sender;
    if note.Prop? {
      forall i | 0 <= i < |a.views| ensures Prop(i) in a.sent || Acc(i) in a.sent {
        JoinsProposal(threshold, empty, a, starts, inboxes, i, note.sender);
      }
      if i: nat :| i < |a.views| && Acc(i) in a.sent {
        j := i;
      } else {
        EchoAccumulates(threshold, empty, a, starts, inboxes, note.sender);
      }
    }
  }

  lemma AllSettleHearing(threshold: nat, empty: bool, a: Abs, starts: seq<View>, inboxes: seq<seq<nat>>, i: nat)
    requires AllHeardAll(threshold, empty, a, starts, inboxes) && Inv(|a.views|, threshold, empty, a)
    requires QuorumPossible(threshold, empty, |a.views|) && a.sent != [] && i < |a.views|
    ensures a.views[i].Settled?
  {
    var j := SomeoneAccumulated(threshold, empty, a, starts, inboxes, a.sent[0]);
    forall x | 0 <= x < |a.views| ensures Acc(x) in a.sent {
      JoinsAccumulation(threshold, empty, a, starts, inboxes, x, j);
    }
    EchoSettles(threshold, empty, a, starts, inboxes, i);
  }

  lemma AllHearThemselves(w: World, steps: seq<Step>, a: Abs, inboxes: seq<seq<nat>>)
    requires a == Machine(w, steps) && |inboxes| == w.n && forall j :: 0 <= j < w.n ==> inboxes[j] == Inbox(w, steps, j)
    ensures |a.views| == w.n && forall i :: 0 <= i < w.n ==> OwnHeard(w.threshold, First(w) == map[], a, i, inboxes[i])
  {
    AlwaysInv(w.n, w.threshold, First(w) == map[], steps);
    forall i | 0 <= i < w.n ensures OwnHeard(w.threshold, First(w) == map[], a, i, inboxes[i]) {
      OwnAlways(w, steps, i);
    }
  }

  lemma AllInInboxes(w: World, steps: seq<Step>, a: Abs, inboxes: seq<seq<nat>>)
    requires AllDelivered(w, steps) && a == Machine(w, steps)
    requires |inboxes| == w.n && forall j :: 0 <= j < w.n ==> inboxes[j] == Inbox(w, steps, j)
    ensures |a.views| == w.n && forall i, k :: 0 <= i < w.n && 0 <= k < |a.sent| ==> k in inboxes[i]
  {
    ElderCount(w, steps);
    ExecRefines(w, steps);
  }

  lemma DeliveryIsHeard(w: World, steps: seq<Step>) returns (starts: seq<View>, inboxes: seq<seq<nat>>)
    requires AllDelivered(w, steps)
    ensures AllHeardAll(w.threshold, First(w) == map[], Machine(w, steps), starts, inboxes)
  {
    OthersDelivered(w, steps);
    starts, inboxes := QuiescenceIsHeard(w, steps);
    AllHearThemselves(w, steps, Machine(w, steps), inboxes);
    AllInInboxes(w, steps, Machine(w, steps), inboxes);
  }

  lemma EveryoneIsDoneHearing(w: World, steps: seq<Step>, i: nat)
    requires QuorumPossible(w.threshold, First(w) == map[], w.n)
    requires AllDelivered(w, steps) && Exec(w, steps).sent != []
    requires i < |Exec(w, steps).elders|
    ensures Exec(w, steps).elders[i].funds.Keeping?
  {
    var a := Machine(w, steps);
    SettledIsDone(w, steps, i);
    ExecRefines(w, steps);
    AlwaysInv(w.n, w.threshold, First(w) == map[], steps);
    var starts, inboxes := DeliveryIsHeard(w, steps);
    AllSettleHearing(w.threshold, First(w) == map[], a, starts, inboxes, i);
  }

  // ---------- exactly when everyone completes ----------

  ghost predicate AllDone(w: World, steps: seq<Step>)
  {
    forall i :: 0 <= i < |Exec(w, steps).elders| ==> Exec(w, steps).elders[i].funds.Keeping?
  }

  /** Fewer elders than a quorum never complete. */
  lemma NoQuorumNoneDone(w: World, steps: seq<Step>, i: nat)
    requires First(w) != map[] && w.n <= w.threshold && i < |Exec(w, steps).elders|
    ensures !Exec(w, steps).elders[i].funds.Keeping?
  {
    var a := Machine(w, steps);
    SettledIsDone(w, steps, i);
    AlwaysInv(w.n, w.threshold, false, steps);
    assert ViewOk(w.threshold, false, a.sent, i, a.views[i]);
    assert Accumulators(a.sent) <= Range(w.n);
    SubsetSize(Accumulators(a.sent), Range(w.n));
  }

  lemma SmallSectionStalls(w: World) returns (steps: seq<Step>)
    requires First(w) != map[] && 0 < w.n <= w.threshold
    ensures AllDelivered(w, steps) && Exec(w, steps).sent != [] && !AllDone(w, steps)
  {
    var start := [StartOldie(0)];
    assert [] + start == start;
    SentStays(w, [], StartOldie(0));
    var more := ComesToRest(w, start);
    steps := start + more;
    ElderCount(w, steps);
    NoQuorumNoneDone(w, steps, 0);
  }

  /** Every run in which all is delivered, and anything was sent, has everyone done. */
  ghost predicate AlwaysSettles(w: World)
  {
    forall steps :: AllDelivered(w, steps) && Exec(w, steps).sent != [] ==> AllDone(w, steps)
  }

  /** With everything delivered, to its sender too, everyone is done in all runs exactly if there are enough elders
      for a quorum, or nothing to pay. */
  lemma SettlesExactly(w: World)
    ensures AlwaysSettles(w) <==> w.n == 0 || QuorumPossible(w.threshold, First(w) == map[], w.n)
  {
    if w.n > 0 && !QuorumPossible(w.threshold, First(w) == map[], w.n) {
      var steps := SmallSectionStalls(w);
    } else {
      forall steps | AllDelivered(w, steps) && Exec(w, steps).sent != [] ensures AllDone(w, steps) {
        ElderCount(w, steps);
        forall i | 0 <= i < w.n ensures Exec(w, steps).elders[i].funds.Keeping? {
          EveryoneIsDoneHearing(w, steps, i);
        }
      }
    }
  }

  /** From every reachable state in which anything was sent, a section that can have a quorum can still get everyone
      done. */
  lemma CanStillFinish(w: World, steps: seq<Step>) returns (more: seq<Step>)
    requires QuorumPossible(w.threshold, First(w) == map[], w.n)
    requires Exec(w, steps).sent != []
    ensures AllDone(w, steps + more)
  {
    more := ComesToRest(w, steps);
    SettlesExactly(w);
  }

  // ---------- elders that do not hear themselves ----------

  /** One elder has no other to hear from. */
  lemma LoneElderStalls(w: World) returns (steps: seq<Step>)
    requires w.n == 1
    ensures Quiescent(w, steps) && Exec(w, steps).sent != [] && !AllDone(w, steps)
  {
    steps := [StartOldie(0)];
    assert [] + steps == steps;
    SentStays(w, [], StartOldie(0));
    assert Exec(w, steps).elders[0].funds.Churning?;
  }

  /** Two elders: an oldie proposes, the newbie joins, and the two messages the newbie hears are a proposal and the
      accumulation that starts its second phase. */
  function TwoElders(): seq<Step>
  {
    [StartOldie(0), StartNewbie(1), Deliver(0, 1, true), Deliver(1, 0, true), Deliver(2, 1, true), Deliver(3, 0, true)]
  }

  function TwoEldersAt(m: nat): Abs
  {
    if m == 0 then Abs([Idle, Idle], [])
    else if m == 1 then Abs([Proposing({0}), Idle], [Prop(0)])
    else if m == 2 then Abs([Proposing({0}), Awaiting], [Prop(0)])
    else if m == 3 then Abs([Proposing({0}), Proposing({1} + {0})], [Prop(0), Prop(1)])
    else if m == 4 then Abs([Accumulating({0}), Proposing({1} + {0})], [Prop(0), Prop(1), Acc(0)])
    else if m == 5 then Abs([Accumulating({0}), Accumulating({1} + {0})], [Prop(0), Prop(1), Acc(0), Acc(1)])
    else Abs([Settled(true), Accumulating({1} + {0})], [Prop(0), Prop(1), Acc(0), Acc(1)])
  }

  lemma TwoEldersStep(threshold: nat, empty: bool, m: nat)
    requires m < 6 && (empty || threshold <= 1)
    ensures AbsNext(threshold, empty, TwoEldersAt(m), TwoElders()[m]) == TwoEldersAt(m + 1)
  {
    assert |{0} + {1}| == 2;
  }

  lemma {:induction false} TwoEldersReach(w: World, m: nat)
    requires w.n == 2 && m <= 6 && (First(w) == map[] || w.threshold <= 1)
    ensures Machine(w, TwoElders()[..m]) == TwoEldersAt(m)
  {
    if m > 0 {
      TwoEldersReach(w, m - 1);
      MachineStep(w, TwoElders(), m - 1);
      TwoEldersStep(w.threshold, First(w) == map[], m - 1);
    }
  }

  function TwoEldersInbox(m: nat, i: nat): seq<nat>
  {
    if i == 0 then (if m <= 3 then [] else if m <= 5 then [1] else [1, 3])
    else (if m <= 2 then [] else if m <= 4 then [0] else [0, 2])
  }

  lemma TwoEldersHearStep(m: nat, i: nat)
    requires m < 6 && i < 2
    ensures NextInbox(TwoEldersAt(m), TwoElders()[m], i, TwoEldersInbox(m, i)) == TwoEldersInbox(m + 1, i)
  {
  }

  lemma {:induction false} TwoEldersHear(w: World, m: nat, i: nat)
    requires w.n == 2 && m <= 6 && i < 2 && (First(w) == map[] || w.threshold <= 1)
    ensures Inbox(w, TwoElders()[..m], i) == TwoEldersInbox(m, i)
  {
    if m > 0 {
      TwoEldersHear(w, m - 1, i);
      TwoEldersReach(w, m - 1);
      MachineInbox(w, TwoElders(), m - 1, TwoEldersAt(m - 1), i);
      TwoEldersHearStep(m - 1, i);
    }
  }

  /** Rest, as the machine sees it. */
  ghost predicate Rested(a: Abs, inboxes: seq<seq<nat>>)
  {
    && |inboxes| == |a.views|
    && (forall i :: 0 <= i < |a.views| ==> !a.views[i].Idle?)
    && (forall i, k :: 0 <= i < |a.views| && 0 <= k < |a.sent| && a.sent[k].sender != i ==> k in inboxes[i])
  }

  lemma MachineRest(w: World, steps: seq<Step>, a: Abs, inboxes: seq<seq<nat>>)
    requires a == Machine(w, steps) && Rested(a, inboxes)
    requires forall i :: 0 <= i < |inboxes| ==> inboxes[i] == Inbox(w, steps, i)
    ensures Quiescent(w, steps)
  {
    var s := Exec(w, steps);
    ExecRefines(w, steps);
    forall i | 0 <= i < |s.elders| ensures !s.elders[i].funds.NotStarted? {
      StartedOrNot(w, s, a, i);
    }
    forall i, k | 0 <= i < |s.elders| && 0 <= k < |s.sent| && s.sent[k].sender != i ensures k in Inbox(w, steps, i) {
      assert s.sent[k].sender == a.sent[k].sender;
    }
  }

  lemma TwoEldersRested()
    ensures Rested(TwoEldersAt(6), [[1, 3], [0, 2]])
  {
    assert 1 in [1, 3] && 3 in [1, 3] && 0 in [0, 2] && 2 in [0, 2];
  }

  lemma StateAfter(w: World, steps: seq<Step>, a: Abs, i: nat)
    requires a == Machine(w, steps) && i < |a.views|
    ensures |Exec(w, steps).elders| == |a.views| && |Exec(w, steps).sent| == |a.sent|
    ensures Exec(w, steps).elders[i] == ElderOf(w.threshold, First(w), Second(w), a.views[i])
  {
    ExecRefines(w, steps);
  }

  /** Two elders with a threshold they can meet, each having heard the other: the oldie is done, the newbie is not. */
  lemma TwoEldersStall(w: World)
    requires w.n == 2 && (First(w) == map[] || w.threshold <= 1)
    ensures Quiescent(w, TwoElders()) && Exec(w, TwoElders()).sent != []
    ensures |Exec(w, TwoElders()).elders| == 2
    ensures Exec(w, TwoElders()).elders[0].funds.Keeping?
    ensures Exec(w, TwoElders()).elders[1].funds == Churning(AccumulatingCredits(Canon(w.threshold, Second(w), {1} + {0})))
  {
    assert TwoElders()[..6] == TwoElders();
    TwoEldersReach(w, 6);
    TwoEldersHear(w, 6, 0);
    TwoEldersHear(w, 6, 1);
    TwoEldersQuiet(w, TwoElders());
    TwoEldersEnd(w, TwoElders(), TwoEldersAt(6));
  }

  lemma TwoEldersQuiet(w: World, steps: seq<Step>)
    requires Machine(w, steps) == TwoEldersAt(6) && Inbox(w, steps, 0) == [1, 3] && Inbox(w, steps, 1) == [0, 2]
    ensures Quiescent(w, steps)
  {
    TwoEldersRested();
    MachineRest(w, steps, TwoEldersAt(6), [[1, 3], [0, 2]]);
  }

  lemma TwoEldersEnd(w: World, steps: seq<Step>, a: Abs)
    requires a == Machine(w, steps) && |a.views| == 2 && a.sent != []
    requires a.views[0].Settled? && a.views[1] == Accumulating({1} + {0})
    ensures |Exec(w, steps).elders| == 2 && Exec(w, steps).sent != []
    ensures Exec(w, steps).elders[0].funds.Keeping?
    ensures Exec(w, steps).elders[1].funds == Churning(AccumulatingCredits(Canon(w.threshold, Second(w), {1} + {0})))
  {
    StateAfter(w, steps, a, 0);
    StateAfter(w, steps, a, 1);
  }

  /** The newbie has what it needs, but has not evaluated it: hearing its own accumulation (3), or the oldie's (2) once
      more, completes it. */
  lemma TwoEldersGoOn(w: World, k: nat)
    requires w.n == 2 && (First(w) == map[] || w.threshold <= 1) && (k == 2 || k == 3)
    ensures AllDone(w, TwoElders() + [Deliver(k, 1, true)])
  {
    var steps := TwoElders() + [Deliver(k, 1, true)];
    assert steps[..6] == TwoElders() && TwoElders()[..6] == TwoElders() && steps[..7] == steps;
    TwoEldersReach(w, 6);
    MachineStep(w, steps, 6);
    NewbieCompletes(w.threshold, First(w) == map[], k);
    BothSettled(w, steps, Machine(w, steps));
  }

  lemma DoneIfSettled(w: World, steps: seq<Step>, a: Abs, i: nat)
    requires a == Machine(w, steps) && i < |Exec(w, steps).elders|
    ensures i < |a.views| && (a.views[i].Settled? ==> Exec(w, steps).elders[i].funds.Keeping?)
  {
    SettledIsDone(w, steps, i);
  }

  lemma BothSettled(w: World, steps: seq<Step>, a: Abs)
    requires a == Machine(w, steps) && forall i :: 0 <= i < |a.views| ==> a.views[i].Settled?
    ensures AllDone(w, steps)
  {
    forall i | 0 <= i < |Exec(w, steps).elders| ensures Exec(w, steps).elders[i].funds.Keeping? {
      DoneIfSettled(w, steps, a, i);
    }
  }

  lemma NewbieCompletes(threshold: nat, empty: bool, k: nat)
    requires (empty || threshold <= 1) && (k == 2 || k == 3)
    ensures AbsNext(threshold, empty, TwoEldersAt(6), Deliver(k, 1, true)).views == [Settled(true), Settled(true)]
  {
    assert |{1} + {0}| == 2;
    assert {1} + {0} + {0} == {1} + {0} && {1} + {0} + {1} == {1} + {0};
  }

  /** Every run in which everyone has heard the others, and anything was sent, has everyone done. */
  ghost predicate AlwaysSettlesWithoutEcho(w: World)
  {
    forall steps :: Quiescent(w, steps) && Exec(w, steps).sent != [] ==> AllDone(w, steps)
  }

  lemma StallsOtherwise(w: World) returns (steps: seq<Step>)
    requires w.n > 0 && !SectionEnough(w.threshold, First(w) == map[], w.n)
    ensures Quiescent(w, steps) && Exec(w, steps).sent != [] && !AllDone(w, steps)
  {
    if w.n == 1 {
      steps := LoneElderStalls(w);
    } else if First(w) != map[] && w.n <= w.threshold {
      steps := SmallSectionStalls(w);
      OthersDelivered(w, steps);
    } else {
      steps := TwoElders();
      TwoEldersStall(w);
    }
  }

  /** If elders hear the others only, each message perhaps just once, everyone is done in all runs exactly if there are
      three elders besides. */
  lemma SettlesWithoutEcho(w: World)
    ensures AlwaysSettlesWithoutEcho(w) <==> w.n == 0 || SectionEnough(w.threshold, First(w) == map[], w.n)
  {
    if w.n > 0 && !SectionEnough(w.threshold, First(w) == map[], w.n) {
      var steps := StallsOtherwise(w);
    } else {
      forall steps | Quiescent(w, steps) && Exec(w, steps).sent != [] ensures AllDone(w, steps) {
        ElderCount(w, steps);
        forall i | 0 <= i < w.n ensures Exec(w, steps).elders[i].funds.Keeping? {
          EveryoneIsDone(w, steps, i);
        }
      }
    }
  }
}
