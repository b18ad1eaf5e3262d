/** From payments to propagated credits: nothing is lost or paid twice on the way. */
module RewardEndToEnd {
  import opened Collections
  import opened Arithmetic
  import opened RewardCalc
  import opened RewardPayout
  import opened RewardLaws
  import opened RewardFairness
  import opened RewardStage
  import opened RewardProcess
  import opened RewardCanon
  import opened RewardSystem
  import opened RewardAgreement
  import opened RewardLiveness

  // ---------- every paid node has its own credit ----------

  /** The agenda holds the credit of each of the first k names, and nothing else. */
  ghost predicate CreditsOnly(a: Agenda, section: PublicKey, payout: Payments, names: seq<XorName>, k: nat)
    requires k <= |names|
  {
    && (forall i :: 0 <= i < k ==>
          names[i] in payout && CombineId(names[i], section) in a &&
          a[CombineId(names[i], section)] == Proposed(CreditFor(section, names[i], payout[names[i]])))
    && (forall id :: id in a ==> exists i :: 0 <= i < k && id == CombineId(names[i], section))
  }

  lemma {:induction false} CollectCredits(section: PublicKey, payout: Payments, names: seq<XorName>, ps: seq<Payload>, k: nat)
    requires Increasing(names) && |ps| == |names| && k <= |names|
    requires forall i :: 0 <= i < |ps| ==> names[i] in payout && ps[i] == Proposed(CreditFor(section, names[i], payout[names[i]]))
    ensures CreditsOnly(Collect(ps[..k]), section, payout, names, k)
  {
    if k > 0 {
      CollectCredits(section, payout, names, ps, k - 1);
      assert ps[..k][..k - 1] == ps[..k - 1];
      forall i | 0 <= i < k - 1 ensures CombineId(names[i], section) != CombineId(names[k - 1], section) {
        CombineIdInjective(names[i], section, names[k - 1], section);
      }
      CreditNext(Collect(ps[..k - 1]), section, payout, names, k - 1);
    }
  }

  lemma CreditNext(a: Agenda, section: PublicKey, payout: Payments, names: seq<XorName>, k: nat)
    requires k < |names| && names[k] in payout && CreditsOnly(a, section, payout, names, k)
    requires forall i :: 0 <= i < k ==> CombineId(names[i], section) != CombineId(names[k], section)
    ensures CreditsOnly(a[CombineId(names[k], section) := Proposed(CreditFor(section, names[k], payout[names[k]]))],
                        section, payout, names, k + 1)
  {
  }

  /** The agenda of the first phase is one credit for each paid node. */
  ghost predicate IsCredits(a: Agenda, section: PublicKey, payout: Payments)
  {
    && (forall n :: n in payout ==>
          CombineId(n, section) in a && a[CombineId(n, section)] == Proposed(CreditFor(section, n, payout[n])))
    && (forall id :: id in a ==> exists n :: n in payout && id == CombineId(n, section))
  }

  lemma AgendaIsCredits(section: PublicKey, amount: nat, nodes: Nodes)
    ensures IsCredits(Collect(RewardCredits(section, amount, nodes)), section, Payout(amount, nodes))
  {
    CreditsListed(section, Payout(amount, nodes), SortedKeys(Payout(amount, nodes).Keys));
  }

  lemma CreditsListed(section: PublicKey, payout: Payments, names: seq<XorName>)
    requires Increasing(names) && forall n :: n in names <==> n in payout
    ensures IsCredits(Collect(CreditsOf(payout, names, section)), section, payout)
  {
    var ps := CreditsOf(payout, names, section);
    CollectAllCredits(section, payout, names, ps);
    ListedIsAll(Collect(ps), section, payout, names);
  }

  lemma CollectAllCredits(section: PublicKey, payout: Payments, names: seq<XorName>, ps: seq<Payload>)
    requires Increasing(names) && |ps| == |names|
    requires forall i :: 0 <= i < |ps| ==> names[i] in payout && ps[i] == Proposed(CreditFor(section, names[i], payout[names[i]]))
    ensures CreditsOnly(Collect(ps), section, payout, names, |names|)
  {
    assert ps[..|ps|] == ps;
    CollectCredits(section, payout, names, ps, |ps|);
  }

  lemma ListedIsAll(a: Agenda, section: PublicKey, payout: Payments, names: seq<XorName>)
    requires forall n :: n in names <==> n in payout
    requires CreditsOnly(a, section, payout, names, |names|)
    ensures IsCredits(a, section, payout)
  {
    forall n | n in payout
      ensures CombineId(n, section) in a && a[CombineId(n, section)] == Proposed(CreditFor(section, n, payout[n]))
    {
      assert n in names;
      var i :| 0 <= i < |names| && names[i] == n;
    }
    forall id | id in a ensures exists n :: n in payout && id == CombineId(n, section) {
      var i :| 0 <= i < |names| && id == CombineId(names[i], section);
      assert names[i] in names;
    }
  }

  // ---------- sums ----------

  function CreditAmounts(a: Agenda): map<CreditId, nat>
  {
    map id | id in a :: CreditOf(a[id]).amount
  }

  lemma CreditsTotal(a: Agenda, section: PublicKey, payout: Payments)
    requires IsCredits(a, section, payout)
    ensures Total(CreditAmounts(a)) == Total(Amounts(payout))
  {
    var f := (n: XorName) => CombineId(n, section);
    var from, to := Amounts(payout), CreditAmounts(a);
    forall k, l | k in from && l in from && f(k) == f(l) ensures k == l {
      CombineIdInjective(k, section, l, section);
    }
    forall x | x in to ensures exists k :: k in from && f(k) == x {
      var n :| n in payout && x == CombineId(n, section);
      assert n in from && f(n) == x;
    }
    TotalRename(from, to, f);
  }

  function PaidAmounts(paid: seq<CreditProof>): seq<nat>
  {
    seq(|paid|, i requires 0 <= i < |paid| => paid[i].signed.credit.amount)
  }

  /** The sum of the propagated credits. */
  function PaidTotal(paid: seq<CreditProof>): nat
  {
    SumTo(PaidAmounts(paid), |PaidAmounts(paid)|)
  }

  lemma PropagatedTotal(proofs: map<CreditId, CreditProof>, amounts: map<CreditId, nat>)
    requires proofs.Keys == amounts.Keys
    requires forall id :: id in proofs ==> proofs[id].signed.credit.amount == amounts[id]
    ensures PaidTotal(Propagation(proofs)) == Total(amounts)
  {
    var ids, vals := SortedKeys(proofs.Keys), PaidAmounts(Propagation(proofs));
    forall i | 0 <= i < |ids| ensures vals[i] == Held(amounts, ids[i]) {
      assert ids[i] in ids;
    }
    ListedTotal(ids, amounts, vals);
  }

  lemma ListedTotal(ids: seq<CreditId>, amounts: map<CreditId, nat>, vals: seq<nat>)
    requires Increasing(ids) && |vals| == |ids|
    requires forall id :: id in ids <==> id in amounts
    requires forall i :: 0 <= i < |ids| ==> vals[i] == Held(amounts, ids[i])
    ensures SumTo(vals, |vals|) == Total(amounts)
  {
    HeldSum(ids, amounts, vals, |ids|);
    assert ids[..|ids|] == ids;
    assert Elements(ids) * amounts.Keys == amounts.Keys;
  }

  lemma SettledTotal(first: Agenda)
    ensures PaidTotal(Propagation(CanonProofs(AgreedAgenda(first)))) == Total(CreditAmounts(first))
  {
    PropagatedTotal(CanonProofs(AgreedAgenda(first)), CreditAmounts(first));
  }

  /** Each credit is propagated once, in the order of their ids. */
  ghost predicate PaidOnce(paid: seq<CreditProof>)
  {
    forall i, j :: 0 <= i < j < |paid| ==> paid[i].signed.credit.id < paid[j].signed.credit.id
  }

  lemma PropagatedOnce(proofs: map<CreditId, CreditProof>)
    requires forall id :: id in proofs ==> proofs[id].signed.credit.id == id
    ensures PaidOnce(Propagation(proofs))
  {
    var ids := SortedKeys(proofs.Keys);
    assert forall i :: 0 <= i < |ids| ==> ids[i] in ids;
    assert forall i :: 0 <= i < |ids| ==> Propagation(proofs)[i].signed.credit.id == ids[i];
  }

  lemma SettledOnce(first: Agenda)
    requires Keyed(first)
    ensures PaidOnce(Propagation(CanonProofs(AgreedAgenda(first))))
  {
    PropagatedOnce(CanonProofs(AgreedAgenda(first)));
  }

  ghost predicate SomeoneRewardable(nodes: Nodes)
  {
    exists n :: n in nodes && nodes[n].age >= MIN_REWARD_AGE
  }

  /** In every run, an elder that completed while it knew the section key has propagated credits that sum to
      exactly the reward computed from the payments and the managed amount, each of them once. Without a node old
      enough to be paid, or without the key at that step, it has propagated nothing, whatever the reward. */
  lemma EndToEndConservation(w: World, steps: seq<Step>, i: nat, m: nat, payments: nat, managed: nat, nodes: Nodes)
    requires |w.prefix| < 64
    requires w.subjects == RewardCredits(w.section, RewardAmount(w.prefix, payments, managed), nodes)
    requires CompletesAt(w, steps, i, m)
    ensures i < |Exec(w, steps).elders| && steps[m].Deliver?
    ensures PaidTotal(Exec(w, steps).elders[i].paid) ==
            if SomeoneRewardable(nodes) && steps[m].keyKnown then RewardAmount(w.prefix, payments, managed) else 0
    ensures PaidOnce(Exec(w, steps).elders[i].paid)
  {
    CompletionPays(w, steps, i, m);
    if steps[m].keyKnown {
      var payout := AgendaFor(w.section, RewardAmount(w.prefix, payments, managed), nodes);
      ProofsPay(First(w), w.section, payout);
    }
  }

  /** Any completing step has a twin without the key, after which the elder is done and has propagated nothing. */
  lemma KeyLossTwin(w: World, steps: seq<Step>, i: nat)
    requires steps != [] && CompletesAt(w, steps, i, |steps| - 1) && steps[|steps| - 1].Deliver?
    ensures
      var last := steps[|steps| - 1];
      var s := Exec(w, steps[..|steps| - 1] + [Deliver(last.k, last.i, false)]);
      i < |s.elders| && s.elders[i] == Elder(Keeping, [])
  {
    var m := |steps| - 1;
    var before, twin := steps[..m], Deliver(steps[m].k, steps[m].i, false);
    var run := before + [twin];
    assert steps[..m + 1] == steps && run[..m] == before && run[..m + 1] == run;
    SettledIsDone(w, before, i);
    SettledIsDone(w, steps, i);
    SettledIsDone(w, run, i);
    MachineStep(w, steps, m);
    MachineStep(w, run, m);
    TwinSettles(w.threshold, First(w) == map[], Machine(w, before), steps[m], i);
  }

  lemma TwinSettles(threshold: nat, empty: bool, a: Abs, step: Step, i: nat)
    requires i < |a.views| && step.Deliver? && !a.views[i].Settled?
    requires AbsNext(threshold, empty, a, step).views[i].Settled?
    ensures AbsNext(threshold, empty, a, Deliver(step.k, step.i, false)).views[i] == Settled(false)
  {
  }

  /** A run of two elders in which the first is done and its credits are lost. */
  lemma LostPayout(w: World)
    requires w.n == 2 && w.threshold <= 1
    ensures
      var s := Exec(w, TwoElders()[..5] + [Deliver(3, 0, false)]);
      |s.elders| == 2 && s.elders[0] == Elder(Keeping, [])
  {
    var steps := TwoElders()[..5] + [Deliver(3, 0, false)];
    TwoEldersReach(w, 5);
    assert steps[..5] == TwoElders()[..5] && steps[..6] == steps;
    MachineStep(w, steps, 5);
    LostStep(w.threshold, First(w) == map[]);
    StateAfter(w, steps, AbsNext(w.threshold, First(w) == map[], TwoEldersAt(5), Deliver(3, 0, false)), 0);
  }

  lemma LostStep(threshold: nat, empty: bool)
    requires threshold <= 1
    ensures
      var a := AbsNext(threshold, empty, TwoEldersAt(5), Deliver(3, 0, false));
      |a.views| == 2 && a.views[0] == Settled(false)
  {
    assert |{0} + {1}| == 2;
  }

  lemma AgendaFor(section: PublicKey, amount: nat, nodes: Nodes) returns (payout: Payments)
    ensures Keyed(Collect(RewardCredits(section, amount, nodes)))
    ensures IsCredits(Collect(RewardCredits(section, amount, nodes)), section, payout)
    ensures Total(Amounts(payout)) == if SomeoneRewardable(nodes) then amount else 0
  {
    payout := Payout(amount, nodes);
    CollectIsKeyed(RewardCredits(section, amount, nodes));
    AgendaIsCredits(section, amount, nodes);
    PayoutIs(amount, nodes);
  }

  /** The common proofs of the credits of a payout are worth the payout. */
  lemma ProofsPay(first: Agenda, section: PublicKey, payout: Payments)
    requires Keyed(first) && IsCredits(first, section, payout)
    ensures PaidOnce(Propagation(CanonProofs(AgreedAgenda(first))))
    ensures PaidTotal(Propagation(CanonProofs(AgreedAgenda(first)))) == Total(Amounts(payout))
  {
    SettledTotal(first);
    SettledOnce(first);
    CreditsTotal(first, section, payout);
  }

  lemma PayoutIs(amount: nat, nodes: Nodes)
    ensures Total(Amounts(Payout(amount, nodes))) == if SomeoneRewardable(nodes) then amount else 0
  {
    Conservation(amount, nodes);
    NothingPaid();
  }

  lemma NothingPaid()
    ensures Total(Amounts(map[])) == 0
  {
    assert Amounts(map[]) == map[];
  }

  // ---------- whom it pays ----------

  /** A credit to the wallet of this node, under an id of its own. */
  ghost predicate PaysNode(c: Credit, section: PublicKey, name: XorName, node: Node, amount: nat)
  {
    && c.id == CombineId(name, section)
    && c.recipient == node.wallet
    && c.amount == amount
    && c.msg == Memo(node.age, section)
  }

  /** The section agreed to the credit, and to the credit as agreed. */
  ghost predicate Proves(proof: CreditProof, c: Credit)
  {
    && proof.signed == SignedCredit(c, Combined(Proposed(c)))
    && proof.replicasSig == Combined(Agreed(proof.signed))
  }

  lemma CreditPays(a: Agenda, section: PublicKey, payout: Payments, nodes: Nodes, n: XorName)
    requires IsCredits(a, section, payout) && n in payout && n in nodes
    requires payout[n].age == nodes[n].age && payout[n].wallet == nodes[n].wallet
    ensures CombineId(n, section) in a && a[CombineId(n, section)].Proposed?
    ensures PaysNode(a[CombineId(n, section)].credit, section, n, nodes[n], payout[n].amount)
  {
  }

  /** For each paid node one credit of that node's amount to that node's own wallet, and no other. */
  ghost predicate PaysNodes(a: Agenda, section: PublicKey, payout: Payments, nodes: Nodes)
  {
    && (forall n :: n in payout ==>
          && n in nodes && CombineId(n, section) in a && a[CombineId(n, section)].Proposed?
          && PaysNode(a[CombineId(n, section)].credit, section, n, nodes[n], payout[n].amount))
    && (forall id :: id in a ==> exists n :: n in payout && id == CombineId(n, section))
  }

  lemma CreditsPayNodes(a: Agenda, section: PublicKey, payout: Payments, nodes: Nodes)
    requires IsCredits(a, section, payout)
    requires forall n :: n in payout ==> n in nodes && payout[n].age == nodes[n].age && payout[n].wallet == nodes[n].wallet
    ensures PaysNodes(a, section, payout, nodes)
  {
    forall n | n in payout
      ensures CombineId(n, section) in a && a[CombineId(n, section)].Proposed?
      ensures PaysNode(a[CombineId(n, section)].credit, section, n, nodes[n], payout[n].amount)
    {
      CreditPays(a, section, payout, nodes, n);
    }
  }

  lemma AllPaidAsThemselves(amount: nat, nodes: Nodes, payout: Payments)
    requires payout == Payout(amount, nodes)
    ensures forall n :: n in payout ==> n in nodes && payout[n].age == nodes[n].age && payout[n].wallet == nodes[n].wallet
  {
    forall n | n in payout ensures n in nodes && payout[n].age == nodes[n].age && payout[n].wallet == nodes[n].wallet {
      PaidAsThemselves(amount, nodes, n);
    }
  }

  /** The proposal of a payout pays the nodes of the payout. */
  lemma ProposalPaysNodes(section: PublicKey, amount: nat, nodes: Nodes, payout: Payments)
    requires payout == Payout(amount, nodes)
    ensures PaysNodes(Collect(RewardCredits(section, amount, nodes)), section, payout, nodes)
  {
    AgendaIsCredits(section, amount, nodes);
    AllPaidAsThemselves(amount, nodes, payout);
    CreditsPayNodes(Collect(RewardCredits(section, amount, nodes)), section, payout, nodes);
  }

  /** The proofs propagated are those of the credits, one for each. */
  lemma ProofAt(first: Agenda, id: CreditId)
    requires id in first && first[id].Proposed?
    ensures exists j :: 0 <= j < |Propagation(CanonProofs(AgreedAgenda(first)))| &&
                        Proves(Propagation(CanonProofs(AgreedAgenda(first)))[j], first[id].credit)
  {
    var proofs := CanonProofs(AgreedAgenda(first));
    var ids := SortedKeys(proofs.Keys);
    assert id in ids;
    var j :| 0 <= j < |ids| && ids[j] == id;
    assert Propagation(proofs)[j] == proofs[id];
  }

  lemma ProofOf(first: Agenda, j: nat) returns (id: CreditId)
    requires forall x :: x in first ==> first[x].Proposed?
    requires j < |Propagation(CanonProofs(AgreedAgenda(first)))|
    ensures id in first && Proves(Propagation(CanonProofs(AgreedAgenda(first)))[j], first[id].credit)
  {
    var ids := SortedKeys(CanonProofs(AgreedAgenda(first)).Keys);
    id := ids[j];
    assert id in ids;
  }

  /** Some propagated proof pays this node. */
  ghost predicate PaidTo(paid: seq<CreditProof>, section: PublicKey, name: XorName, node: Node, amount: nat)
  {
    exists j, c :: 0 <= j < |paid| && Proves(paid[j], c) && PaysNode(c, section, name, node, amount)
  }

  lemma AgendaPaid(first: Agenda, section: PublicKey, name: XorName, node: Node, amount: nat)
    requires CombineId(name, section) in first && first[CombineId(name, section)].Proposed?
    requires PaysNode(first[CombineId(name, section)].credit, section, name, node, amount)
    ensures PaidTo(Propagation(CanonProofs(AgreedAgenda(first))), section, name, node, amount)
  {
    ProofAt(first, CombineId(name, section));
  }

  lemma DoneWithKey(w: World, steps: seq<Step>, i: nat, m: nat)
    requires CompletesAt(w, steps, i, m)
    ensures i < |Exec(w, steps).elders| && steps[m].Deliver?
    ensures Exec(w, steps).elders[i].paid == if steps[m].keyKnown then Propagation(CanonProofs(AgreedAgenda(First(w)))) else []
  {
    CompletionPays(w, steps, i, m);
  }

  /** In every run, an elder that completed while it knew the section key has propagated to each paid node's own wallet
      that node's amount, with the section's agreement. */
  lemma EveryNodeIsPaid(w: World, steps: seq<Step>, i: nat, m: nat, amount: nat, nodes: Nodes, payout: Payments, n: XorName)
    requires w.subjects == RewardCredits(w.section, amount, nodes) && payout == Payout(amount, nodes) && n in payout
    requires CompletesAt(w, steps, i, m) && (steps[m].Deliver? ==> steps[m].keyKnown)
    ensures i < |Exec(w, steps).elders| && n in nodes
    ensures PaidTo(Exec(w, steps).elders[i].paid, w.section, n, nodes[n], payout[n].amount)
  {
    DoneWithKey(w, steps, i, m);
    ProposalPaysNodes(w.section, amount, nodes, payout);
    AgendaPaid(First(w), w.section, n, nodes[n], payout[n].amount);
  }

  ghost predicate PaysOneOf(proof: CreditProof, section: PublicKey, payout: Payments, nodes: Nodes, n: XorName)
  {
    n in payout && n in nodes && exists c :: Proves(proof, c) && PaysNode(c, section, n, nodes[n], payout[n].amount)
  }

  lemma NobodyElsePaid(first: Agenda, section: PublicKey, payout: Payments, nodes: Nodes, j: nat) returns (n: XorName)
    requires PaysNodes(first, section, payout, nodes)
    requires j < |Propagation(CanonProofs(AgreedAgenda(first)))|
    ensures PaysOneOf(Propagation(CanonProofs(AgreedAgenda(first)))[j], section, payout, nodes, n)
  {
    forall x | x in first ensures first[x].Proposed? {
      var k :| k in payout && x == CombineId(k, section);
    }
    var id := ProofOf(first, j);
    n :| n in payout && id == CombineId(n, section);
  }

  /** And it has propagated nothing else: every proof pays one of those nodes. */
  lemma OnlyNodesArePaid(w: World, steps: seq<Step>, i: nat, m: nat, amount: nat, nodes: Nodes, payout: Payments, j: nat)
    returns (n: XorName)
    requires w.subjects == RewardCredits(w.section, amount, nodes) && payout == Payout(amount, nodes)
    requires CompletesAt(w, steps, i, m) && i < |Exec(w, steps).elders| && j < |Exec(w, steps).elders[i].paid|
    ensures PaysOneOf(Exec(w, steps).elders[i].paid[j], w.section, payout, nodes, n)
  {
    DoneWithKey(w, steps, i, m);
    ProposalPaysNodes(w.section, amount, nodes, payout);
    n := NobodyElsePaid(First(w), w.section, payout, nodes, j);
  }
}
