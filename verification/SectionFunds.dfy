/** The funds of an elder: payments coming in, splits turning them into rewards, completion ending the churn. */
module SectionFunds {
  import opened Collections
  import opened SupplyCap
  import opened RewardCalc
  import opened RewardStage
  import opened RewardProcess
  import RewardSystem

  type Payments = map<CreditId, CreditProof>

  datatype Funds =
    | NoFunds
    | KeepingNodeWallets(wallets: Nodes, payments: Payments)
    | Churning(cfg: Config, stage: Stage, wallets: Nodes, payments: Payments)

  datatype NodeError = NoSectionFunds | Unavailable | NoSectionPublicKey | Process(error: Error)

  /** What a node is to do next. */
  datatype NodeDuty = Sent(duty: Duty) | Propagate(proof: CreditProof) | PushState(prefix: Prefix)

  datatype Handled = Handled(funds: Funds, duties: Result<seq<NodeDuty>, NodeError>)

  function Amount(proof: CreditProof): nat
  {
    proof.signed.credit.amount
  }

  function IdOfPayment(proof: CreditProof): CreditId
  {
    proof.signed.credit.id
  }

  function PaymentAmounts(payments: Payments): map<CreditId, nat>
  {
    map id | id in payments :: Amount(payments[id])
  }

  /** `Credits::sum`. */
  ghost function Sum(payments: Payments): nat
  {
    Total(PaymentAmounts(payments))
  }

  /** The fold over the entries, in any order, is the sum. */
  method ComputeSum(payments: Payments) returns (sum: nat)
    ensures sum == Sum(payments)
  {
    sum := 0;
    var todo := payments.Keys;
    ghost var amounts := PaymentAmounts(payments);
    assert amounts.Keys == payments.Keys;
    while todo != {}
      invariant todo <= amounts.Keys
      invariant sum + SumOver(todo, amounts) == Sum(payments)
    {
      var id :| id in todo;
      SumRemove(todo, amounts, id);
      sum := sum + Amount(payments[id]);
      todo := todo - {id};
    }
  }

  function Sibling(prefix: Prefix): Prefix
  {
    if prefix == [] then [] else prefix[..|prefix| - 1] + [!prefix[|prefix| - 1]]
  }

  // ---------- what each event does to the funds ----------

  function AfterPayment(funds: Funds, credit: CreditProof): Handled
  {
    if funds.NoFunds? then Handled(funds, Err(NoSectionFunds))
    else Handled(funds.(payments := funds.payments[IdOfPayment(credit) := credit]), Ok([]))
  }

  /** A split as an oldie. `managed` is missing when the managed amount or the key set cannot be had. */
  ghost function AfterSplit(funds: Funds, cfg: Config, managed: Option<nat>): Handled
    requires |cfg.prefix| < 64
  {
    if funds.NoFunds? then Handled(funds, Err(NoSectionFunds))
    else
      var pushes := [PushState(cfg.prefix), PushState(Sibling(cfg.prefix))];
      var paid := Sum(funds.payments);
      if paid == 0 then Handled(funds, Ok(pushes))
      else if managed.None? then Handled(funds, Err(Unavailable))
      else
        var o := Propose(cfg, RewardCredits(cfg.section, RewardAmount(cfg.prefix, paid, managed.value), funds.wallets));
        Began(funds, cfg, o.stage, o.duty.value, pushes)
  }

  /** The payments are cleared as the process takes over. */
  function Began(funds: Funds, cfg: Config, stage: Stage, duty: Duty, pushes: seq<NodeDuty>): (h: Handled)
    requires !funds.NoFunds?
    ensures h.funds.Churning? && h.funds.wallets == funds.wallets && h.funds.payments == map[]
  {
    Handled(Churning(cfg, stage, funds.wallets, map[]), Ok([Sent(duty)] + pushes))
  }

  /** The payments of a split that pays out. */
  ghost predicate PaysOut(funds: Funds, cfg: Config, managed: Option<nat>)
  {
    |cfg.prefix| < 64 && !funds.NoFunds? && Sum(funds.payments) > 0 && managed.Some?
  }

  lemma SplitBegins(funds: Funds, cfg: Config, managed: Option<nat>, subjects: seq<Payload>)
    requires PaysOut(funds, cfg, managed)
    requires subjects == RewardCredits(cfg.section, RewardAmount(cfg.prefix, Sum(funds.payments), managed.value), funds.wallets)
    ensures
      var o := Propose(cfg, subjects);
      AfterSplit(funds, cfg, managed) ==
      Began(funds, cfg, o.stage, o.duty.value, [PushState(cfg.prefix), PushState(Sibling(cfg.prefix))])
  {
  }

  lemma QuietSplit(funds: Funds, cfg: Config, managed: Option<nat>)
    requires |cfg.prefix| < 64 && !funds.NoFunds? && Sum(funds.payments) == 0
    ensures AfterSplit(funds, cfg, managed) == Handled(funds, Ok([PushState(cfg.prefix), PushState(Sibling(cfg.prefix))]))
  {
  }

  function Propagations(proofs: seq<CreditProof>): seq<NodeDuty>
  {
    seq(|proofs|, i requires 0 <= i < |proofs| => Propagate(proofs[i]))
  }

  function AfterProposalMsg(funds: Funds, section: PublicKey, entries: seq<Entry>): Handled
  {
    if !funds.Churning? then Handled(funds, Ok([]))
    else
      var o := ReceiveProposal(funds.cfg, funds.stage, section, entries);
      var after := funds.(stage := o.stage);
      match o.duty
      case Err(e) => Handled(after, Err(Process(e)))
      case Ok(duty) => Handled(after, Ok([Sent(duty)]))
  }

  /** Completion ends the churn before the section key is looked up: without the key the duties are lost. */
  function AfterAccumulationMsg(funds: Funds, section: PublicKey, entries: seq<Entry>, keyKnown: bool): Handled
  {
    if !funds.Churning? then Handled(funds, Ok([]))
    else
      var o := ReceiveAccumulation(funds.cfg, funds.stage, section, entries);
      var after := funds.(stage := o.stage);
      match o.duty
      case Err(e) => Handled(after, Err(Process(e)))
      case Ok(duty) =>
        if o.stage.Completed? then
          Handled(KeepingNodeWallets(funds.wallets, funds.payments),
                  if keyKnown then Ok([Sent(duty)] + Propagations(RewardSystem.Propagation(o.stage.proofs)))
                  else Err(NoSectionPublicKey))
        else Handled(after, Ok([Sent(duty)]))
  }

  function AfterWallet(funds: Funds, name: XorName, node: Option<Node>): Handled
  {
    if funds.NoFunds? then Handled(funds, Err(NoSectionFunds))
    else
      var wallets: Nodes := if node.Some? then funds.wallets[name := node.value] else funds.wallets - {name};
      Handled(funds.(wallets := wallets), Ok([]))
  }

  // ---------- the node ----------

  /** A node's funds: none, or wallets and payments, and while churning the process of the payout. */
  class FundsHolder {
    var held: bool
    var process: RewardProcess?
    var wallets: Nodes
    var payments: Payments

    ghost function Value(): Funds
      reads this, process
    {
      if !held then NoFunds
      else if process == null then KeepingNodeWallets(wallets, payments)
      else Churning(process.cfg, process.stage, wallets, payments)
    }

    constructor ()
      ensures Value() == KeepingNodeWallets(map[], map[])
    {
      held, process, wallets, payments := true, null, map[], map[];
    }

    method AddPayment(credit: CreditProof) returns (r: Result<seq<NodeDuty>, NodeError>)
      modifies this
      ensures process == old(process)
      ensures AfterPayment(old(Value()), credit) == Handled(Value(), r)
    {
      if !held {
        return Err(NoSectionFunds);
      }
      payments := payments[IdOfPayment(credit) := credit];
      r := Ok([]);
    }

    /** A new process proposes the reward of the payments, which are cleared. */
    method BeginPayout(cfg: Config, paid: nat, managed: nat) returns (duty: Duty)
      requires |cfg.prefix| < 64
      modifies this
      ensures fresh(process) && held == old(held) && wallets == old(wallets) && payments == map[]
      ensures process.cfg == cfg
      ensures Propose(cfg, RewardCredits(cfg.section, RewardAmount(cfg.prefix, paid, managed), wallets))
           == Outcome(process.stage, Ok(duty))
    {
      var started := new RewardProcess(cfg);
      duty := started.RewardAndMint(paid, managed, wallets);
      process := started;
      payments := map[];
    }

    method BeginSplitAsOldie(cfg: Config, managed: Option<nat>) returns (r: Result<seq<NodeDuty>, NodeError>)
      requires |cfg.prefix| < 64
      modifies this
      ensures process == old(process) || fresh(process)
      ensures AfterSplit(old(Value()), cfg, managed) == Handled(Value(), r)
    {
      if !held {
        return Err(NoSectionFunds);
      }
      var paid := ComputeSum(payments);
      var pushes := [PushState(cfg.prefix), PushState(Sibling(cfg.prefix))];
      if paid == 0 {
        QuietSplit(Value(), cfg, managed);
        return Ok(pushes);
      }
      if managed.None? {
        return Err(Unavailable);
      }
      SplitBegins(Value(), cfg, managed, RewardCredits(cfg.section, RewardAmount(cfg.prefix, paid, managed.value), wallets));
      var duty := BeginPayout(cfg, paid, managed.value);
      r := Ok([Sent(duty)] + pushes);
    }

    method ReceiveRewardProposal(section: PublicKey, entries: seq<Entry>) returns (r: Result<seq<NodeDuty>, NodeError>)
      modifies this, process
      ensures process == old(process)
      ensures AfterProposalMsg(old(Value()), section, entries) == Handled(Value(), r)
    {
      if !held || process == null {
        return Ok([]);
      }
      var duty := process.ReceiveChurnProposal(section, entries);
      r := if duty.Ok? then Ok([Sent(duty.value)]) else Err(Process(duty.error));
    }

    method ReceiveRewardAccumulation(section: PublicKey, entries: seq<Entry>, keyKnown: bool)
      returns (r: Result<seq<NodeDuty>, NodeError>)
      modifies this, process
      ensures process == old(process) || process == null
      ensures AfterAccumulationMsg(old(Value()), section, entries, keyKnown) == Handled(Value(), r)
    {
      if !held || process == null {
        return Ok([]);
      }
      var duty := process.ReceiveWalletAccumulation(section, entries);
      if duty.Err? {
        return Err(Process(duty.error));
      }
      var ops := [Sent(duty.value)];
      if process.stage.Completed? {
        var propagations := PropagateCredits(process.stage.proofs);
        ops := ops + propagations;
        process := null;
        if !keyKnown {
          return Err(NoSectionPublicKey);
        }
      }
      r := Ok(ops);
    }

    method SetNodeWallet(name: XorName, node: Node) returns (r: Result<seq<NodeDuty>, NodeError>)
      modifies this
      ensures process == old(process)
      ensures AfterWallet(old(Value()), name, Some(node)) == Handled(Value(), r)
    {
      if !held {
        return Err(NoSectionFunds);
      }
      wallets := wallets[name := node];
      r := Ok([]);
    }

    method RemoveNodeWallet(name: XorName) returns (r: Result<seq<NodeDuty>, NodeError>)
      modifies this
      ensures process == old(process)
      ensures AfterWallet(old(Value()), name, None) == Handled(Value(), r)
    {
      if !held {
        return Err(NoSectionFunds);
      }
      wallets := wallets - {name};
      r := Ok([]);
    }
  }

  /** One propagation for each proof, in id order. */
  method PropagateCredits(proofs: map<CreditId, CreditProof>) returns (ops: seq<NodeDuty>)
    ensures ops == Propagations(RewardSystem.Propagation(proofs))
  {
    ops := PropagateEach(RewardSystem.Propagation(proofs));
  }

  method PropagateEach(proofs: seq<CreditProof>) returns (ops: seq<NodeDuty>)
    ensures ops == Propagations(proofs)
  {
    ops := [];
    for i := 0 to |proofs|
      invariant |ops| == i && forall k :: 0 <= k < i ==> ops[k] == Propagate(proofs[k])
    {
      ops := ops + [Propagate(proofs[i])];
    }
  }

  // ---------- runs ----------

  datatype Event =
    | Paid(credit: CreditProof)
    | SplitAsOldie(cfg: Config, managed: Option<nat>)
    | ProposalMsg(section: PublicKey, entries: seq<Entry>)
    | AccumulationMsg(section: PublicKey, entries: seq<Entry>, keyKnown: bool)
    | WalletSet(name: XorName, node: Option<Node>)

  ghost predicate ValidEvent(e: Event)
  {
    e.SplitAsOldie? ==> |e.cfg.prefix| < 64
  }

  ghost function After(funds: Funds, e: Event): Funds
    requires ValidEvent(e)
  {
    match e
    case Paid(credit) => AfterPayment(funds, credit).funds
    case SplitAsOldie(cfg, managed) => AfterSplit(funds, cfg, managed).funds
    case ProposalMsg(section, entries) => AfterProposalMsg(funds, section, entries).funds
    case AccumulationMsg(section, entries, keyKnown) => AfterAccumulationMsg(funds, section, entries, keyKnown).funds
    case WalletSet(name, node) => AfterWallet(funds, name, node).funds
  }

  /** The payments a split turns into a reward: all of them if it proposes, none otherwise. */
  ghost function Consumed(funds: Funds, e: Event): nat
    requires ValidEvent(e)
  {
    if e.SplitAsOldie? && !funds.NoFunds? && e.managed.Some? then Sum(funds.payments) else 0
  }

  ghost predicate ValidRun(events: seq<Event>)
  {
    forall e :: e in events ==> ValidEvent(e)
  }

  /** An elder starts with no payments and stays an elder. */
  ghost function FundsAfter(events: seq<Event>): Funds
    requires ValidRun(events)
  {
    if events == [] then KeepingNodeWallets(map[], map[])
    else
      assert events[|events| - 1] in events;
      After(FundsAfter(events[..|events| - 1]), events[|events| - 1])
  }

  ghost function TotalConsumed(events: seq<Event>): nat
    requires ValidRun(events)
  {
    if events == [] then 0
    else
      assert events[|events| - 1] in events;
      TotalConsumed(events[..|events| - 1]) + Consumed(FundsAfter(events[..|events| - 1]), events[|events| - 1])
  }

  function TotalPaid(events: seq<Event>): nat
  {
    if events == [] then 0
    else
      TotalPaid(events[..|events| - 1]) +
      match events[|events| - 1] case Paid(credit) => Amount(credit) case _ => 0
  }

  ghost predicate DistinctPayments(events: seq<Event>)
  {
    forall i, j :: 0 <= i < j < |events| && events[i].Paid? && events[j].Paid? ==>
      IdOfPayment(events[i].credit) != IdOfPayment(events[j].credit)
  }

  /** A payment adds its amount, less what it replaces. */
  lemma PaymentAdds(payments: Payments, credit: CreditProof)
    ensures
      var id := IdOfPayment(credit);
      Sum(payments[id := credit]) + (if id in payments then Amount(payments[id]) else 0) == Sum(payments) + Amount(credit)
  {
    var id := IdOfPayment(credit);
    var m := PaymentAmounts(payments);
    assert PaymentAmounts(payments[id := credit]) == m[id := Amount(credit)];
    if id in payments {
      TotalUpdate(m, id, Amount(credit));
    } else {
      TotalInsert(m, id, Amount(credit));
    }
  }

  /** Every held payment came in through an event of the run. */
  ghost predicate HeldCameIn(funds: Funds, events: seq<Event>)
  {
    && !funds.NoFunds?
    && forall id :: id in funds.payments ==> exists i :: 0 <= i < |events| && events[i].Paid? && IdOfPayment(events[i].credit) == id
  }

  lemma SumEmpty()
    ensures Sum(map[]) == 0
  {
    assert PaymentAmounts(map[]) == map[];
  }

  lemma MessagesKeep(funds: Funds, section: PublicKey, entries: seq<Entry>, keyKnown: bool)
    requires !funds.NoFunds?
    ensures !AfterProposalMsg(funds, section, entries).funds.NoFunds?
    ensures !AfterAccumulationMsg(funds, section, entries, keyKnown).funds.NoFunds?
    ensures AfterProposalMsg(funds, section, entries).funds.payments == funds.payments
    ensures AfterProposalMsg(funds, section, entries).funds.wallets == funds.wallets
    ensures AfterAccumulationMsg(funds, section, entries, keyKnown).funds.payments == funds.payments
    ensures AfterAccumulationMsg(funds, section, entries, keyKnown).funds.wallets == funds.wallets
  {
  }

  lemma SplitTakesPayments(funds: Funds, cfg: Config, managed: Option<nat>)
    requires |cfg.prefix| < 64 && !funds.NoFunds?
    ensures
      var after := AfterSplit(funds, cfg, managed).funds;
      && !after.NoFunds? && after.wallets == funds.wallets
      && after.payments == if Sum(funds.payments) > 0 && managed.Some? then map[] else funds.payments
  {
  }

  /** One event keeps the balance of payments, provided a payment is not already held. */
  lemma EventBalances(funds: Funds, e: Event)
    requires ValidEvent(e) && !funds.NoFunds?
    requires e.Paid? ==> IdOfPayment(e.credit) !in funds.payments
    ensures !After(funds, e).NoFunds?
    ensures Sum(funds.payments) + (if e.Paid? then Amount(e.credit) else 0) == Consumed(funds, e) + Sum(After(funds, e).payments)
    ensures forall id :: id in After(funds, e).payments ==> id in funds.payments || (e.Paid? && id == IdOfPayment(e.credit))
  {
    match e {
      case Paid(credit) => PaymentAdds(funds.payments, credit);
      case SplitAsOldie(cfg, managed) =>
        SumEmpty();
        SplitTakesPayments(funds, cfg, managed);
      case ProposalMsg(section, entries) => MessagesKeep(funds, section, entries, true);
      case AccumulationMsg(section, entries, keyKnown) => MessagesKeep(funds, section, entries, keyKnown);
      case WalletSet(_, _) =>
    }
  }

  lemma NewPayment(funds: Funds, events: seq<Event>, e: Event)
    requires HeldCameIn(funds, events) && e.Paid? && DistinctPayments(events + [e])
    ensures IdOfPayment(e.credit) !in funds.payments
  {
    var all := events + [e];
    forall i | 0 <= i < |events| && events[i].Paid? ensures IdOfPayment(events[i].credit) != IdOfPayment(e.credit) {
      assert all[i] == events[i] && all[|events|] == e;
    }
  }

  lemma HeldStillCameIn(funds: Funds, after: Funds, events: seq<Event>, e: Event)
    requires HeldCameIn(funds, events) && !after.NoFunds?
    requires forall id :: id in after.payments ==> id in funds.payments || (e.Paid? && id == IdOfPayment(e.credit))
    ensures HeldCameIn(after, events + [e])
  {
    var all := events + [e];
    forall id | id in after.payments ensures exists i :: 0 <= i < |all| && all[i].Paid? && IdOfPayment(all[i].credit) == id {
      if id in funds.payments {
        var i :| 0 <= i < |events| && events[i].Paid? && IdOfPayment(events[i].credit) == id;
        assert all[i].Paid? && IdOfPayment(all[i].credit) == id;
      } else {
        assert all[|events|].Paid? && IdOfPayment(all[|events|].credit) == id;
      }
    }
  }

  /** Over every run with distinct payment ids, what was paid in equals what successful splits consumed plus
      what is still held, across splits during churn, failed payouts and completion. */
  lemma {:induction false} PaymentConservation(events: seq<Event>)
    requires ValidRun(events) && DistinctPayments(events)
    ensures HeldCameIn(FundsAfter(events), events)
    ensures TotalPaid(events) == TotalConsumed(events) + Sum(FundsAfter(events).payments)
  {
    if events == [] {
      SumEmpty();
    } else {
      var before, e := events[..|events| - 1], events[|events| - 1];
      assert before + [e] == events && e in events;
      PaymentConservation(before);
      var funds := FundsAfter(before);
      if e.Paid? {
        NewPayment(funds, before, e);
      }
      EventBalances(funds, e);
      HeldStillCameIn(funds, FundsAfter(events), before, e);
    }
  }

  // ---------- wallets ----------

  /** What the last event about a node's wallet says: its wallet, or none once removed. */
  function LastWallet(events: seq<Event>, name: XorName): Option<Node>
  {
    if events == [] then None
    else
      match events[|events| - 1]
      case WalletSet(n, node) => if n == name then node else LastWallet(events[..|events| - 1], name)
      case _ => LastWallet(events[..|events| - 1], name)
  }

  function WalletIn(wallets: Nodes, name: XorName): Option<Node>
  {
    if name in wallets then Some(wallets[name]) else None
  }

  lemma EventWallet(funds: Funds, e: Event, name: XorName)
    requires ValidEvent(e) && !funds.NoFunds?
    ensures !After(funds, e).NoFunds?
    ensures WalletIn(After(funds, e).wallets, name) ==
            if e.WalletSet? && e.name == name then e.node else WalletIn(funds.wallets, name)
  {
    match e {
      case ProposalMsg(section, entries) => MessagesKeep(funds, section, entries, true);
      case AccumulationMsg(section, entries, keyKnown) => MessagesKeep(funds, section, entries, keyKnown);
      case SplitAsOldie(cfg, managed) => SplitTakesPayments(funds, cfg, managed);
      case _ =>
    }
  }

  /** In every run a node's wallet, and with it its reward, is what was last registered for that node, through
      payments, splits, messages and completion. */
  lemma {:induction false} WalletsFollow(events: seq<Event>, name: XorName)
    requires ValidRun(events)
    ensures !FundsAfter(events).NoFunds?
    ensures WalletIn(FundsAfter(events).wallets, name) == LastWallet(events, name)
  {
    if events != [] {
      var before, e := events[..|events| - 1], events[|events| - 1];
      assert e in events;
      WalletsFollow(before, name);
      EventWallet(FundsAfter(before), e, name);
    }
  }

  // ---------- the elder of the payout protocol is this node ----------

  function AfterMsg(funds: Funds, msg: Msg, keyKnown: bool): Handled
  {
    match msg
    case Proposal(section, rewards) => AfterProposalMsg(funds, section, rewards)
    case Accumulation(section, rewards) => AfterAccumulationMsg(funds, section, rewards, keyKnown)
  }

  /** The message among the duties. */
  function ReplyIn(duties: Result<seq<NodeDuty>, NodeError>): Option<Msg>
  {
    if duties.Ok? && duties.value != [] && duties.value[0].Sent? then RewardSystem.ReplyOf(duties.value[0].duty) else None
  }

  /** The credits the duties propagate. */
  function PropagatedIn(duties: Result<seq<NodeDuty>, NodeError>): seq<CreditProof>
  {
    if duties.Ok? then PropagatedBy(duties.value) else []
  }

  function PropagatedBy(ops: seq<NodeDuty>): seq<CreditProof>
  {
    if ops == [] then []
    else (if ops[0].Propagate? then [ops[0].proof] else []) + PropagatedBy(ops[1..])
  }

  lemma {:induction false} PropagatedBack(proofs: seq<CreditProof>)
    ensures PropagatedBy(Propagations(proofs)) == proofs
  {
    if proofs != [] {
      PropagatedBack(proofs[1..]);
      assert Propagations(proofs)[1..] == Propagations(proofs[1..]);
    }
  }

  /** What the payout protocol sees of the funds. */
  function ElderIn(funds: Funds, paid: seq<CreditProof>): RewardSystem.Elder
    requires !funds.NoFunds?
  {
    RewardSystem.Elder(if funds.Churning? then RewardSystem.Churning(funds.stage) else RewardSystem.Keeping, paid)
  }

  lemma SentOnly(duty: Duty)
    ensures PropagatedBy([Sent(duty)]) == []
  {
  }

  lemma SentThen(duty: Duty, proofs: seq<CreditProof>)
    ensures PropagatedBy([Sent(duty)] + Propagations(proofs)) == proofs
  {
    PropagatedBack(proofs);
    assert ([Sent(duty)] + Propagations(proofs))[1..] == Propagations(proofs);
  }

  /** A message changes a churning node as it changes an elder of the payout protocol: the same stage, the
      same reply, the same credits propagated, or lost for want of the section key, and the wallets and payments
      as they were. */
  lemma NodeIsElder(funds: Funds, paid: seq<CreditProof>, msg: Msg, keyKnown: bool)
    requires funds.Churning?
    ensures
      var h, r := RewardSystem.Handle(funds.cfg, ElderIn(funds, paid), msg, keyKnown), AfterMsg(funds, msg, keyKnown);
      && !r.funds.NoFunds? && r.funds.wallets == funds.wallets && r.funds.payments == funds.payments
      && h.elder == ElderIn(r.funds, paid + PropagatedIn(r.duties))
      && h.reply == ReplyIn(r.duties)
  {
    var r := AfterMsg(funds, msg, keyKnown);
    assert paid + [] == paid;
    if r.duties.Ok? {
      SentOnly(r.duties.value[0].duty);
      if msg.Accumulation? && r.funds.KeepingNodeWallets? {
        var o := ReceiveAccumulation(funds.cfg, funds.stage, msg.section, msg.rewards);
        SentThen(o.duty.value, RewardSystem.Propagation(o.stage.proofs));
      }
    }
  }
}
