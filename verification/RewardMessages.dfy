/** The payout process under any message whatever: what is refused, what is filed, and what every stage keeps. */
module RewardMessages {
  import opened Collections
  import opened RewardStage
  import opened RewardProcess

  // ---------- shares ----------

  ghost predicate AllKnown(tallies: Tallies, entries: seq<Entry>)
  {
    forall k :: 0 <= k < |entries| ==> IdOf(entries[k].subject) in tallies
  }

  /** The share a message files last for a credit under an index, if any. */
  function LastShare(entries: seq<Entry>, id: CreditId, index: nat): Option<BlsShare>
  {
    if entries == [] then None
    else
      var last := entries[|entries| - 1];
      if IdOf(last.subject) == id && last.sig.index == index then Some(last.sig.share)
      else LastShare(entries[..|entries| - 1], id, index)
  }

  function ShareAt(tally: Tally, index: nat): Option<BlsShare>
  {
    if index in tally.signatures then Some(tally.signatures[index]) else None
  }

  lemma FileOne(threshold: nat, tally: Tally, sig: SigShare, index: nat)
    ensures TallyWith(threshold, tally, sig).subject == tally.subject
    ensures ShareAt(TallyWith(threshold, tally, sig), index) ==
            if index == sig.index then Some(sig.share) else ShareAt(tally, index)
  {
  }

  /** Adding a message fails, with a logic error, exactly if it names an unknown credit. Otherwise every credit keeps its
      subject and has, under each index, the share filed last: a different share replaces the one before. */
  lemma {:induction false} SharesFiled(threshold: nat, tallies: Tallies, entries: seq<Entry>, id: CreditId, index: nat)
    ensures AllKnown(tallies, entries) <==> AddAll(threshold, tallies, entries).Ok?
    ensures !AllKnown(tallies, entries) <==> AddAll(threshold, tallies, entries) == Err(Logic)
    ensures
      var r := AddAll(threshold, tallies, entries);
      r.Ok? ==>
        && r.value.Keys == tallies.Keys
        && (id in tallies ==>
              && r.value[id].subject == tallies[id].subject
              && ShareAt(r.value[id], index) ==
                 if LastShare(entries, id, index).Some? then LastShare(entries, id, index) else ShareAt(tallies[id], index))
  {
    if entries != [] {
      var front, last := entries[..|entries| - 1], entries[|entries| - 1];
      SharesFiled(threshold, tallies, front, id, index);
      KnownFront(tallies, entries);
      var before := AddAll(threshold, tallies, front);
      if before.Ok? && id in tallies {
        FileOne(threshold, before.value[id], last.sig, index);
      }
    }
  }

  lemma KnownFront(tallies: Tallies, entries: seq<Entry>)
    requires entries != []
    ensures AllKnown(tallies, entries) <==>
            AllKnown(tallies, entries[..|entries| - 1]) && IdOf(entries[|entries| - 1].subject) in tallies
  {
    var front := entries[..|entries| - 1];
    if AllKnown(tallies, front) && IdOf(entries[|entries| - 1].subject) in tallies {
      forall k | 0 <= k < |entries| ensures IdOf(entries[k].subject) in tallies {
        if k < |front| {
          assert front[k] == entries[k];
        }
      }
    }
  }

  // ---------- agreements ----------

  /** Combining gives the section's signature of a message exactly if every share is its signer's share of it. */
  lemma CombinedExactly(shares: map<nat, BlsShare>, p: Payload)
    requires shares.Keys != {}
    ensures Combine(shares) == Combined(p) <==> forall i :: i in shares ==> shares[i] == BlsShare(i, p)
  {
    var least := Least(shares.Keys);
    assert least in shares;
  }

  /** The agreement of a tally is the combination of the shares it holds now, from threshold + 1 on. */
  ghost predicate Sound(threshold: nat, tally: Tally)
  {
    tally.pending ==
      if |tally.signatures| >= 1 + threshold && tally.signatures.Keys != {} then Some(Combine(tally.signatures)) else None
  }

  ghost predicate AllSound(threshold: nat, tallies: Tallies)
  {
    forall id :: id in tallies ==> Sound(threshold, tallies[id])
  }

  lemma FileKeepsSound(threshold: nat, tally: Tally, sig: SigShare)
    requires Sound(threshold, tally)
    ensures Sound(threshold, TallyWith(threshold, tally, sig))
  {
    if Check(sig, tally.signatures) != Some(true) {
      var signatures := tally.signatures[sig.index := sig.share];
      assert sig.index in signatures.Keys;
      assert signatures.Keys == tally.signatures.Keys + {sig.index};
      assert |signatures| == |signatures.Keys| && |tally.signatures| == |tally.signatures.Keys|;
      SubsetSize(tally.signatures.Keys, signatures.Keys);
    }
  }

  lemma {:induction false} AddKeepsSound(threshold: nat, tallies: Tallies, entries: seq<Entry>)
    requires AllSound(threshold, tallies) && AddAll(threshold, tallies, entries).Ok?
    ensures AllSound(threshold, AddAll(threshold, tallies, entries).value)
  {
    if entries != [] {
      var front, last := entries[..|entries| - 1], entries[|entries| - 1];
      AddKeepsSound(threshold, tallies, front);
      FileKeepsSound(threshold, AddAll(threshold, tallies, front).value[IdOf(last.subject)], last.sig);
    }
  }

  lemma SignedSound(cfg: Config, subjects: seq<Payload>)
    ensures AllSound(cfg.threshold, SignAll(cfg, subjects))
  {
    var c := Collect(subjects);
    forall id | id in c ensures Sound(cfg.threshold, Signed(cfg, c[id])) {
      FileKeepsSound(cfg.threshold, Unsigned(c[id]), OwnShare(cfg, c[id]));
    }
  }

  // ---------- joining on a message ----------

  lemma {:induction false} CollectHas(subjects: seq<Payload>, k: nat)
    requires k < |subjects|
    ensures IdOf(subjects[k]) in Collect(subjects)
  {
    if k < |subjects| - 1 {
      CollectHas(subjects[..|subjects| - 1], k);
    }
  }

  /** Whoever joins on a message knows all of its credits. */
  lemma JoiningKnows(cfg: Config, entries: seq<Entry>)
    ensures AddAll(cfg.threshold, SignAll(cfg, Subjects(entries)), entries).Ok?
  {
    var tallies := SignAll(cfg, Subjects(entries));
    forall k | 0 <= k < |entries| ensures IdOf(entries[k].subject) in tallies {
      CollectHas(Subjects(entries), k);
    }
    SharesFiled(cfg.threshold, tallies, entries, 0, 0);
  }

  // ---------- stages ----------

  /** How far a process is. */
  function Rank(stage: Stage): nat
  {
    match stage
    case NoStage => 0
    case AwaitingThreshold => 0
    case ProposingCredits(_) => 1
    case AccumulatingCredits(_) => 2
    case Completed(_) => 3
  }

  ghost predicate StageSound(threshold: nat, stage: Stage)
  {
    match stage
    case ProposingCredits(tallies) => AllSound(threshold, tallies)
    case AccumulatingCredits(tallies) => AllSound(threshold, tallies)
    case _ => true
  }

  /** A proposal of another section is refused in every stage, whatever it holds, and so is an accumulation. */
  lemma ForeignRefused(cfg: Config, stage: Stage, section: PublicKey, entries: seq<Entry>)
    requires section != cfg.section
    ensures ReceiveProposal(cfg, stage, section, entries) == Outcome(stage, Err(InvalidOwner))
    ensures ReceiveAccumulation(cfg, stage, section, entries) == Outcome(stage, Err(InvalidOwner))
  {
  }

  ghost predicate Refused(cfg: Config, stage: Stage, section: PublicKey, entries: seq<Entry>, e: Error)
  {
    match e
    case InvalidOwner => section != cfg.section
    case Logic =>
      && section == cfg.section
      && (stage.ProposingCredits? && !AllKnown(stage.proposals, entries))
    case InvalidRewardStage => false
  }

  /** A proposal is refused exactly if it is foreign, or names an unknown credit while proposing; that changes nothing. */
  lemma ProposalRefusedExactly(cfg: Config, stage: Stage, section: PublicKey, entries: seq<Entry>, e: Error)
    ensures
      var o := ReceiveProposal(cfg, stage, section, entries);
      && (o.duty == Err(e) <==> Refused(cfg, stage, section, entries, e))
      && (o.duty.Err? ==> o.stage == stage)
  {
    JoiningKnows(cfg, entries);
    if stage.ProposingCredits? {
      SharesFiled(cfg.threshold, stage.proposals, entries, 0, 0);
    }
  }

  ghost predicate AccumulationRefused(cfg: Config, stage: Stage, section: PublicKey, entries: seq<Entry>, e: Error)
  {
    match e
    case InvalidOwner => section != cfg.section
    case Logic => section == cfg.section && stage.AccumulatingCredits? && !AllKnown(stage.accumulations, entries)
    case InvalidRewardStage => section == cfg.section && stage.NoStage?
  }

  /** An accumulation is refused exactly if it is foreign, names an unknown credit while accumulating, or meets a process
      without a stage; that changes nothing. */
  lemma AccumulationRefusedExactly(cfg: Config, stage: Stage, section: PublicKey, entries: seq<Entry>, e: Error)
    ensures
      var o := ReceiveAccumulation(cfg, stage, section, entries);
      && (o.duty == Err(e) <==> AccumulationRefused(cfg, stage, section, entries, e))
      && (o.duty.Err? ==> o.stage == stage)
  {
    JoiningKnows(cfg, entries);
    if stage.AccumulatingCredits? {
      SharesFiled(cfg.threshold, stage.accumulations, entries, 0, 0);
    }
  }

  /** What a process sends, it sends on entering a phase: its own shares of the tallies it then has. */
  ghost predicate SendsOnEntering(cfg: Config, before: Stage, o: Outcome)
  {
    match o.duty
    case Err(_) => o.stage == before
    case Ok(NoOp) => Rank(o.stage) == Rank(before) || o.stage.Completed?
    case Ok(Send(msg)) =>
      && Rank(before) < Rank(o.stage)
      && (if o.stage.ProposingCredits? then msg == Proposal(cfg.section, SharesOf(o.stage.proposals, cfg.index))
          else o.stage.AccumulatingCredits? && msg == Accumulation(cfg.section, SharesOf(o.stage.accumulations, cfg.index)))
  }

  /** Whatever proposal arrives: stages never go back, a proposal takes a process no further than accumulating and does
      nothing from there on, tallies stay sound, and messages are sent on entering a phase only. */
  lemma ProposalStep(cfg: Config, stage: Stage, section: PublicKey, entries: seq<Entry>)
    requires StageSound(cfg.threshold, stage)
    ensures
      var o := ReceiveProposal(cfg, stage, section, entries);
      && Rank(stage) <= Rank(o.stage) <= Rank(stage) + 1
      && StageSound(cfg.threshold, o.stage)
      && SendsOnEntering(cfg, stage, o)
      && (Rank(stage) >= 2 ==> o.stage == stage)
  {
    if section == cfg.section && Rank(stage) == 0 {
      SignedSound(cfg, Subjects(entries));
      JoiningKnows(cfg, entries);
      AddKeepsSound(cfg.threshold, SignAll(cfg, Subjects(entries)), entries);
    } else if section == cfg.section && stage.ProposingCredits? && AddAll(cfg.threshold, stage.proposals, entries).Ok? {
      ProposingStep(cfg, stage.proposals, entries);
    }
  }

  lemma ProposingStep(cfg: Config, tallies: Tallies, entries: seq<Entry>)
    requires AllSound(cfg.threshold, tallies) && AddAll(cfg.threshold, tallies, entries).Ok?
    ensures
      var o := AfterProposal(cfg, AddAll(cfg.threshold, tallies, entries).value);
      && 1 <= Rank(o.stage) <= 2 && StageSound(cfg.threshold, o.stage)
      && SendsOnEntering(cfg, ProposingCredits(tallies), o)
  {
    var m := AddAll(cfg.threshold, tallies, entries).value;
    AddKeepsSound(cfg.threshold, tallies, entries);
    AllOrNothing(m);
    if PendingAgreements(m).Some? {
      SignedSound(cfg, AgreedSubjects(m, PendingAgreements(m).value, SortedKeys(PendingAgreements(m).value.Keys)));
    }
  }

  /** Whatever accumulation arrives: an early process joins the second phase, an accumulating one goes on or completes, a
      completed one stays as it is, and tallies stay sound. */
  lemma AccumulationStep(cfg: Config, stage: Stage, section: PublicKey, entries: seq<Entry>)
    requires StageSound(cfg.threshold, stage)
    ensures
      var o := ReceiveAccumulation(cfg, stage, section, entries);
      && Rank(stage) <= Rank(o.stage)
      && (o.stage.Completed? ==> Rank(stage) >= 2)
      && StageSound(cfg.threshold, o.stage)
      && SendsOnEntering(cfg, stage, o)
      && (stage.Completed? ==> o.stage == stage)
  {
    if section == cfg.section && (stage.AwaitingThreshold? || stage.ProposingCredits?) {
      SignedSound(cfg, Subjects(entries));
      JoiningKnows(cfg, entries);
      AddKeepsSound(cfg.threshold, SignAll(cfg, Subjects(entries)), entries);
    } else if section == cfg.section && stage.AccumulatingCredits? && AddAll(cfg.threshold, stage.accumulations, entries).Ok? {
      AddKeepsSound(cfg.threshold, stage.accumulations, entries);
    }
  }

  // ---------- moving on ----------

  ghost predicate EnoughShares(threshold: nat, tallies: Tallies)
  {
    forall id :: id in tallies ==> |tallies[id].signatures| >= 1 + threshold
  }

  lemma AgreedExactly(threshold: nat, tallies: Tallies)
    requires AllSound(threshold, tallies)
    ensures PendingAgreements(tallies).Some? <==> EnoughShares(threshold, tallies)
    ensures PendingAgreements(tallies).Some? ==>
              && PendingAgreements(tallies).value.Keys == tallies.Keys
              && forall id :: id in tallies ==>
                   && tallies[id].signatures.Keys != {}
                   && PendingAgreements(tallies).value[id] == Combine(tallies[id].signatures)
  {
    AllOrNothing(tallies);
    forall id | id in tallies
      ensures Sound(threshold, tallies[id])
      ensures |tallies[id].signatures| >= 1 + threshold ==> tallies[id].signatures.Keys != {}
    {
      assert |tallies[id].signatures| == |tallies[id].signatures.Keys|;
    }
  }

  /** While accumulating, a message completes the process exactly if every credit then has threshold + 1 shares, and the
      proofs are the agreed credits with the combination of those shares. */
  lemma CompletesExactly(cfg: Config, tallies: Tallies, entries: seq<Entry>, m: Tallies)
    requires AllSound(cfg.threshold, tallies) && AddAll(cfg.threshold, tallies, entries) == Ok(m)
    ensures
      var o := ReceiveAccumulation(cfg, AccumulatingCredits(tallies), cfg.section, entries);
      && o.duty == Ok(NoOp)
      && (!EnoughShares(cfg.threshold, m) ==> o.stage == AccumulatingCredits(m))
      && (EnoughShares(cfg.threshold, m) ==>
            && o.stage.Completed? && o.stage.proofs.Keys == m.Keys
            && forall id :: id in m ==>
                 && m[id].signatures.Keys != {}
                 && o.stage.proofs[id] == CreditProof(SignedOf(m[id].subject), Combine(m[id].signatures)))
  {
    AddKeepsSound(cfg.threshold, tallies, entries);
    AgreedExactly(cfg.threshold, m);
  }

  /** While proposing, a message starts the second phase exactly if every credit then has threshold + 1 shares. */
  lemma AccumulatesExactly(cfg: Config, tallies: Tallies, entries: seq<Entry>, m: Tallies)
    requires AllSound(cfg.threshold, tallies) && AddAll(cfg.threshold, tallies, entries) == Ok(m)
    ensures
      var o := ReceiveProposal(cfg, ProposingCredits(tallies), cfg.section, entries);
      && (!EnoughShares(cfg.threshold, m) ==> o == Outcome(ProposingCredits(m), Ok(NoOp)))
      && (EnoughShares(cfg.threshold, m) ==> o.stage.AccumulatingCredits? && o.duty.Ok? && o.duty.value.Send?)
  {
    AddKeepsSound(cfg.threshold, tallies, entries);
    AgreedExactly(cfg.threshold, m);
  }

  // ---------- what is sent ----------

  ghost predicate HasShare(tallies: Tallies, index: nat, e: Entry)
  {
    exists id :: id in tallies && index in tallies[id].signatures &&
                 e == Entry(tallies[id].subject, SigShare(index, tallies[id].signatures[index]))
  }

  lemma {:induction false} EntriesExactly(tallies: Tallies, ids: seq<CreditId>, index: nat, e: Entry)
    requires forall id :: id in ids ==> id in tallies
    ensures e in EntriesFor(tallies, ids, index) <==>
            exists id :: id in ids && index in tallies[id].signatures &&
                         e == Entry(tallies[id].subject, SigShare(index, tallies[id].signatures[index]))
  {
    if ids != [] {
      assert ids[0] in ids;
      assert forall id :: id in ids <==> id == ids[0] || id in ids[1..];
      EntriesExactly(tallies, ids[1..], index, e);
    }
  }

  /** A message carries the shares made at our index, of exactly the credits that have one. */
  lemma SharesExactly(tallies: Tallies, index: nat, e: Entry)
    ensures e in SharesOf(tallies, index) <==> HasShare(tallies, index, e)
  {
    EntriesExactly(tallies, SortedKeys(tallies.Keys), index, e);
  }
}
