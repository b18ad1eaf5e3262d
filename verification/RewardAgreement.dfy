/** Safety of the payout protocol in every reachable state: agreement, quorum provenance and the message bound. */
module RewardAgreement {
  import opened Collections
  import opened RewardStage
  import opened RewardCanon
  import opened RewardSystem

  function Proposers(sent: seq<Note>): set<nat>
  {
    set m | m in sent && m.Prop? :: m.sender
  }

  function Accumulators(sent: seq<Note>): set<nat>
  {
    set m | m in sent && m.Acc? :: m.sender
  }

  // ---------- the invariant ----------

  /** What a view says about the messages sent so far. */
  ghost predicate ViewOk(threshold: nat, empty: bool, sent: seq<Note>, i: nat, view: View)
  {
    match view
    case Idle => Prop(i) !in sent && Acc(i) !in sent
    case Awaiting => Prop(i) !in sent && Acc(i) !in sent
    case Proposing(signers) => Prop(i) in sent && Acc(i) !in sent && signers <= Proposers(sent)
    case Accumulating(signers) => Acc(i) in sent && signers <= Accumulators(sent)
    case Settled(_) => Acc(i) in sent && Quorum(threshold, empty, Accumulators(sent))
  }

  /** A quorum of proposals precedes every accumulation. */
  ghost predicate ProposedBefore(threshold: nat, empty: bool, sent: seq<Note>)
  {
    forall k :: 0 <= k < |sent| && sent[k].Acc? ==> Quorum(threshold, empty, Proposers(sent[..k]))
  }

  ghost predicate Inv(n: nat, threshold: nat, empty: bool, a: Abs)
  {
    && |a.views| == n
    && Distinct(a.sent)
    && (forall m :: m in a.sent ==> m.sender < n)
    && (forall i :: 0 <= i < n ==> ViewOk(threshold, empty, a.sent, i, a.views[i]))
    && ProposedBefore(threshold, empty, a.sent)
  }

  lemma QuorumGrows(threshold: nat, empty: bool, small: set<nat>, large: set<nat>)
    requires Quorum(threshold, empty, small) && small <= large
    ensures Quorum(threshold, empty, large)
  {
    SubsetSize(small, large);
  }

  /** Someone else's message leaves a view as it was. */
  lemma OthersKeep(threshold: nat, empty: bool, sent: seq<Note>, i: nat, view: View, note: Note)
    requires ViewOk(threshold, empty, sent, i, view) && note.sender != i
    ensures ViewOk(threshold, empty, sent + [note], i, view)
  {
    assert Proposers(sent) <= Proposers(sent + [note]);
    assert Accumulators(sent) <= Accumulators(sent + [note]);
    if view.Settled? {
      QuorumGrows(threshold, empty, Accumulators(sent), Accumulators(sent + [note]));
    }
  }

  lemma AppendKeepsOrder(threshold: nat, empty: bool, sent: seq<Note>, note: Note)
    requires ProposedBefore(threshold, empty, sent)
    requires note.Acc? ==> Quorum(threshold, empty, Proposers(sent))
    ensures ProposedBefore(threshold, empty, sent + [note])
  {
    var all := sent + [note];
    forall k | 0 <= k < |all| && all[k].Acc? ensures Quorum(threshold, empty, Proposers(all[..k])) {
      if k < |sent| {
        assert all[..k] == sent[..k];
      } else {
        assert all[..k] == sent;
      }
    }
  }

  /** A legal reaction: the view fits the messages, and an accumulation is sent only after a quorum proposed. */
  ghost predicate SeenOk(threshold: nat, empty: bool, sent: seq<Note>, i: nat, r: Seen)
  {
    match r.reply
    case None => ViewOk(threshold, empty, sent, i, r.view)
    case Some(note) =>
      && note.sender == i && note !in sent
      && ViewOk(threshold, empty, sent + [note], i, r.view)
      && (note.Acc? ==> Quorum(threshold, empty, Proposers(sent)))
  }

  lemma ApplyKeeps(n: nat, threshold: nat, empty: bool, a: Abs, i: nat, r: Seen)
    requires Inv(n, threshold, empty, a) && i < n
    requires SeenOk(threshold, empty, a.sent, i, r)
    ensures Inv(n, threshold, empty, AbsApply(a, i, r))
  {
    if r.reply.Some? {
      AppendKeepsOrder(threshold, empty, a.sent, r.reply.value);
      forall j | 0 <= j < n && j != i ensures ViewOk(threshold, empty, a.sent + [r.reply.value], j, a.views[j]) {
        OthersKeep(threshold, empty, a.sent, j, a.views[j], r.reply.value);
      }
    }
  }

  lemma StartKeeps(threshold: nat, empty: bool, sent: seq<Note>, step: Step, view: View)
    requires ViewOk(threshold, empty, sent, step.i, view)
    ensures SeenOk(threshold, empty, sent, step.i, Started(step, view))
  {
    assert Prop(step.i) in sent + [Prop(step.i)];
  }

  lemma SeePropKeeps(threshold: nat, empty: bool, sent: seq<Note>, i: nat, view: View, j: nat, keyKnown: bool)
    requires ViewOk(threshold, empty, sent, i, view) && Prop(j) in sent
    ensures SeenOk(threshold, empty, sent, i, See(threshold, empty, i, view, Prop(j), keyKnown))
  {
    match view {
      case Awaiting =>
        assert Prop(i) in sent + [Prop(i)] && Prop(j) in sent + [Prop(i)];
      case Proposing(signers) =>
        assert signers + {j} <= Proposers(sent);
        if Quorum(threshold, empty, signers + {j}) {
          QuorumGrows(threshold, empty, signers + {j}, Proposers(sent));
          assert Acc(i) in sent + [Acc(i)];
        }
      case _ =>
    }
  }

  lemma QuorumProposed(threshold: nat, empty: bool, sent: seq<Note>, j: nat)
    requires ProposedBefore(threshold, empty, sent) && Acc(j) in sent
    ensures Quorum(threshold, empty, Proposers(sent))
  {
    var k :| 0 <= k < |sent| && sent[k] == Acc(j);
    assert Proposers(sent[..k]) <= Proposers(sent);
    QuorumGrows(threshold, empty, Proposers(sent[..k]), Proposers(sent));
  }

  lemma SeeAccKeeps(threshold: nat, empty: bool, sent: seq<Note>, i: nat, view: View, j: nat, keyKnown: bool)
    requires ViewOk(threshold, empty, sent, i, view) && Acc(j) in sent
    requires ProposedBefore(threshold, empty, sent)
    ensures SeenOk(threshold, empty, sent, i, See(threshold, empty, i, view, Acc(j), keyKnown))
  {
    match view {
      case Accumulating(signers) =>
        assert signers + {j} <= Accumulators(sent);
        if Quorum(threshold, empty, signers + {j}) {
          QuorumGrows(threshold, empty, signers + {j}, Accumulators(sent));
        }
      case _ =>
        QuorumProposed(threshold, empty, sent, j);
        assert Acc(i) in sent + [Acc(i)] && Acc(j) in sent + [Acc(i)];
    }
  }

  lemma NextKeeps(n: nat, threshold: nat, empty: bool, a: Abs, step: Step)
    requires Inv(n, threshold, empty, a)
    ensures Inv(n, threshold, empty, AbsNext(threshold, empty, a, step))
  {
    if step.i < n && !step.Foreign? {
      var i, view := step.i, a.views[step.i];
      assert ViewOk(threshold, empty, a.sent, i, view);
      if !step.Deliver? {
        StartKeeps(threshold, empty, a.sent, step, view);
        ApplyKeeps(n, threshold, empty, a, i, Started(step, view));
      } else if step.k < |a.sent| {
        var note := a.sent[step.k];
        if note.Prop? {
          SeePropKeeps(threshold, empty, a.sent, i, view, note.sender, step.keyKnown);
        } else {
          SeeAccKeeps(threshold, empty, a.sent, i, view, note.sender, step.keyKnown);
        }
        ApplyKeeps(n, threshold, empty, a, i, See(threshold, empty, i, view, note, step.keyKnown));
      }
    }
  }

  lemma {:induction false} AlwaysInv(n: nat, threshold: nat, empty: bool, steps: seq<Step>)
    ensures Inv(n, threshold, empty, AbsExec(n, threshold, empty, steps))
  {
    if steps != [] {
      AlwaysInv(n, threshold, empty, steps[..|steps| - 1]);
      NextKeeps(n, threshold, empty, AbsExec(n, threshold, empty, steps[..|steps| - 1]), steps[|steps| - 1]);
    }
  }

  // ---------- the theorems, on the system itself ----------

  function Machine(w: World, steps: seq<Step>): Abs
  {
    AbsExec(w.n, w.threshold, First(w) == map[], steps)
  }

  /** Every tally is about the common credit of its id, every share is a share of that credit by the elder it
      is filed under, and an agreement is the section's signature of that credit. */
  ghost predicate Faithful(threshold: nat, agenda: Agenda, tallies: Tallies)
  {
    && tallies.Keys == agenda.Keys
    && forall id :: id in tallies ==>
         && tallies[id].subject == agenda[id]
         && OneMessage(tallies[id].signatures, agenda[id])
         && tallies[id].pending == if |tallies[id].signatures| >= 1 + threshold then Some(Combined(agenda[id])) else None
  }

  lemma CanonIsFaithful(threshold: nat, agenda: Agenda, signers: set<nat>)
    ensures Faithful(threshold, agenda, Canon(threshold, agenda, signers))
  {
    forall id | id in agenda ensures |ShareMap(signers, agenda[id])| == |signers| {
      assert ShareMap(signers, agenda[id]).Keys == signers;
    }
  }

  /** Agreement: in every reachable state every share held under a credit id is over the same credit, and
      elders that are done have propagated the same proofs, or none (`CompletionPays` says which). */
  lemma Agreement(w: World, steps: seq<Step>, i: nat)
    requires i < |Exec(w, steps).elders|
    ensures
      var elder := Exec(w, steps).elders[i];
      match elder.funds
      case NotStarted => elder.paid == []
      case Keeping => elder.paid == Propagation(CanonProofs(Second(w))) || elder.paid == []
      case Churning(stage) =>
        && elder.paid == []
        && (stage.AwaitingThreshold? || stage.ProposingCredits? || stage.AccumulatingCredits?)
        && (stage.ProposingCredits? ==> Faithful(w.threshold, First(w), stage.proposals))
        && (stage.AccumulatingCredits? ==> Faithful(w.threshold, Second(w), stage.accumulations))
  {
    ExecRefines(w, steps);
    var view := Machine(w, steps).views[i];
    match view {
      case Proposing(signers) => CanonIsFaithful(w.threshold, First(w), signers);
      case Accumulating(signers) => CanonIsFaithful(w.threshold, Second(w), signers);
      case _ =>
    }
  }

  // ---------- completion ----------

  /** The step of the run at which elder i is done. */
  ghost predicate CompletesAt(w: World, steps: seq<Step>, i: nat, m: nat)
  {
    && m < |steps|
    && i < |Exec(w, steps[..m]).elders| && i < |Exec(w, steps[..m + 1]).elders|
    && !Exec(w, steps[..m]).elders[i].funds.Keeping?
    && Exec(w, steps[..m + 1]).elders[i].funds.Keeping?
  }

  lemma SettlesOrStays(threshold: nat, empty: bool, a: Abs, step: Step, i: nat)
    requires i < |a.views|
    ensures |AbsNext(threshold, empty, a, step).views| == |a.views|
    ensures a.views[i].Settled? ==> AbsNext(threshold, empty, a, step).views[i] == a.views[i]
    ensures !a.views[i].Settled? && AbsNext(threshold, empty, a, step).views[i].Settled? ==>
              step.Deliver? && step.i == i && AbsNext(threshold, empty, a, step).views[i] == Settled(step.keyKnown)
  {
  }

  lemma MachineStep(w: World, steps: seq<Step>, m: nat)
    requires m < |steps|
    ensures Machine(w, steps[..m + 1]) == AbsNext(w.threshold, First(w) == map[], Machine(w, steps[..m]), steps[m])
  {
    assert steps[..m + 1][..m] == steps[..m];
  }

  lemma {:induction false} StaysSettled(w: World, steps: seq<Step>, i: nat, m: nat)
    requires m <= |steps| && i < |Machine(w, steps[..m]).views| && Machine(w, steps[..m]).views[i].Settled?
    ensures i < |Machine(w, steps).views| && Machine(w, steps).views[i] == Machine(w, steps[..m]).views[i]
  {
    if m == |steps| {
      assert steps[..m] == steps;
    } else {
      var k := |steps| - 1;
      assert steps[..k][..m] == steps[..m] && steps[..k + 1] == steps;
      StaysSettled(w, steps[..k], i, m);
      MachineStep(w, steps, k);
      SettlesOrStays(w.threshold, First(w) == map[], Machine(w, steps[..k]), steps[k], i);
    }
  }

  lemma SettledIsDone(w: World, steps: seq<Step>, i: nat)
    ensures |Exec(w, steps).elders| == |Machine(w, steps).views|
    ensures i < |Exec(w, steps).elders| ==>
              && (Exec(w, steps).elders[i].funds.Keeping? <==> Machine(w, steps).views[i].Settled?)
              && Exec(w, steps).elders[i] == ElderOf(w.threshold, First(w), Second(w), Machine(w, steps).views[i])
  {
    ExecRefines(w, steps);
  }

  /** An elder that is done has propagated exactly the common proofs if the section key was known when it
      completed, and nothing at all otherwise. */
  lemma CompletionPays(w: World, steps: seq<Step>, i: nat, m: nat)
    requires CompletesAt(w, steps, i, m)
    ensures steps[m].Deliver? && steps[m].i == i && i < |Exec(w, steps).elders|
    ensures Exec(w, steps).elders[i] ==
            Elder(Keeping, if steps[m].keyKnown then Propagation(CanonProofs(Second(w))) else [])
  {
    SettledIsDone(w, steps[..m], i);
    SettledIsDone(w, steps[..m + 1], i);
    MachineStep(w, steps, m);
    SettlesOrStays(w.threshold, First(w) == map[], Machine(w, steps[..m]), steps[m], i);
    StaysSettled(w, steps, i, m + 1);
    SettledIsDone(w, steps, i);
  }

  /** Whoever is done completed at some step. */
  lemma {:induction false} DoneCompleted(w: World, steps: seq<Step>, i: nat) returns (m: nat)
    requires i < |Exec(w, steps).elders| && Exec(w, steps).elders[i].funds.Keeping?
    ensures CompletesAt(w, steps, i, m)
  {
    m := |steps| - 1;
    var before := steps[..m];
    SettledIsDone(w, steps, i);
    SettledIsDone(w, before, i);
    assert steps[..m + 1] == steps;
    MachineStep(w, steps, m);
    assert |Machine(w, before).views| == |Machine(w, steps).views|;
    if Exec(w, before).elders[i].funds.Keeping? {
      m := DoneCompleted(w, before, i);
      assert before[..m] == steps[..m] && before[..m + 1] == steps[..m + 1];
    }
  }

  // ---------- provenance ----------

  /** The elders that sent a share of their own over p. */
  function Sharers(sent: seq<Envelope>, p: Payload): set<nat>
  {
    set e, x | e in sent && x in e.msg.rewards && x == CanonEntry(p, e.sender) :: e.sender
  }

  lemma NotesCarryShares(w: World, s: Sys, a: Abs, k: nat, id: CreditId)
    requires Pictures(w, First(w), Second(w), s, a) && k <= |a.sent|
    requires id in First(w)
    ensures k <= |s.sent| && id in Second(w)
    ensures Proposers(a.sent[..k]) <= Sharers(s.sent[..k], First(w)[id])
    ensures Accumulators(a.sent[..k]) <= Sharers(s.sent[..k], Second(w)[id])
  {
    forall j | j in Proposers(a.sent[..k]) ensures j in Sharers(s.sent[..k], First(w)[id]) {
      NoteInPrefix(w, First(w), Second(w), s, a, k, Prop(j));
      ShareInMessage(First(w), id, j);
    }
    forall j | j in Accumulators(a.sent[..k]) ensures j in Sharers(s.sent[..k], Second(w)[id]) {
      NoteInPrefix(w, First(w), Second(w), s, a, k, Acc(j));
      ShareInMessage(Second(w), id, j);
    }
  }

  lemma NoteInPrefix(w: World, first: Agenda, second: Agenda, s: Sys, a: Abs, k: nat, note: Note)
    requires Pictures(w, first, second, s, a) && k <= |a.sent| && note in a.sent[..k]
    ensures EnvelopeOf(w, first, second, note) in s.sent[..k]
  {
    var m :| 0 <= m < k && a.sent[m] == note;
    assert s.sent[..k][m] == EnvelopeOf(w, first, second, note);
  }

  lemma ShareInMessage(agenda: Agenda, id: CreditId, j: nat)
    requires id in agenda
    ensures CanonEntry(agenda[id], j) in CanonShares(agenda, j)
  {
    var ids := SortedKeys(agenda.Keys);
    assert id in ids;
    var m :| 0 <= m < |ids| && ids[m] == id;
    assert CanonShares(agenda, j)[m] == CanonEntry(agenda[id], j);
  }

  lemma SettledQuorum(w: World, s: Sys, a: Abs, i: nat, id: CreditId)
    requires Pictures(w, First(w), Second(w), s, a) && Inv(w.n, w.threshold, false, a)
    requires i < w.n && a.views[i].Settled? && id in First(w)
    ensures id in Second(w) && |Sharers(s.sent, Second(w)[id])| >= 1 + w.threshold
  {
    assert ViewOk(w.threshold, false, a.sent, i, a.views[i]);
    NotesCarryShares(w, s, a, |a.sent|, id);
    assert s.sent[..|a.sent|] == s.sent && a.sent[..|a.sent|] == a.sent;
    SubsetSize(Accumulators(a.sent), Sharers(s.sent, Second(w)[id]));
  }

  lemma ProposedQuorum(w: World, s: Sys, a: Abs, k: nat, id: CreditId)
    requires Pictures(w, First(w), Second(w), s, a) && ProposedBefore(w.threshold, false, a.sent)
    requires k < |s.sent| && s.sent[k].msg.Accumulation? && id in First(w)
    ensures |Sharers(s.sent[..k], First(w)[id])| >= 1 + w.threshold
  {
    assert a.sent[k].Acc?;
    NotesCarryShares(w, s, a, k, id);
    SubsetSize(Proposers(a.sent[..k]), Sharers(s.sent[..k], First(w)[id]));
  }

  lemma OnlySettledKeep(w: World, s: Sys, a: Abs, i: nat)
    requires Pictures(w, First(w), Second(w), s, a) && i < |s.elders|
    ensures s.elders[i].funds.Keeping? <==> a.views[i].Settled?
  {
  }

  /** Two-phase quorum provenance: a paid credit has accumulation shares of at least t + 1 elders, and t + 1
      elders had sent proposal shares for it before anyone sent an accumulation. */
  lemma QuorumProvenance(w: World, steps: seq<Step>, i: nat, id: CreditId)
    requires i < |Exec(w, steps).elders| && Exec(w, steps).elders[i].funds.Keeping?
    requires id in First(w)
    ensures id in Second(w)
    ensures |Sharers(Exec(w, steps).sent, Second(w)[id])| >= 1 + w.threshold
    ensures forall k :: 0 <= k < |Exec(w, steps).sent| && Exec(w, steps).sent[k].msg.Accumulation? ==>
              |Sharers(Exec(w, steps).sent[..k], First(w)[id])| >= 1 + w.threshold
  {
    var s, a := Exec(w, steps), Machine(w, steps);
    ExecRefines(w, steps);
    AlwaysInv(w.n, w.threshold, First(w) == map[], steps);
    OnlySettledKeep(w, s, a, i);
    SettledQuorum(w, s, a, i, id);
    forall k | 0 <= k < |s.sent| && s.sent[k].msg.Accumulation?
      ensures |Sharers(s.sent[..k], First(w)[id])| >= 1 + w.threshold
    {
      ProposedQuorum(w, s, a, k, id);
    }
  }

  /** Every elder sends at most one proposal and at most one accumulation, so at most 2n messages are sent. */
  lemma MessageBound(w: World, steps: seq<Step>)
    ensures forall k, m :: 0 <= k < m < |Exec(w, steps).sent| ==>
              Exec(w, steps).sent[k].sender != Exec(w, steps).sent[m].sender ||
              Exec(w, steps).sent[k].msg.Proposal? != Exec(w, steps).sent[m].msg.Proposal?
    ensures |Exec(w, steps).sent| <= 2 * w.n
  {
    var s, a := Exec(w, steps), Machine(w, steps);
    ExecRefines(w, steps);
    AlwaysInv(w.n, w.threshold, First(w) == map[], steps);
    forall k, m | 0 <= k < m < |s.sent|
      ensures s.sent[k].sender != s.sent[m].sender || s.sent[k].msg.Proposal? != s.sent[m].msg.Proposal?
    {
      assert a.sent[k] != a.sent[m];
    }
    DistinctWithin(a.sent, AllNotes(w.n));
  }

  ghost function AllNotes(n: nat): (all: set<Note>)
    ensures forall m: Note :: m.sender < n ==> m in all
    ensures |all| <= 2 * n
  {
    if n == 0 then {} else AllNotes(n - 1) + {Prop(n - 1), Acc(n - 1)}
  }
}
