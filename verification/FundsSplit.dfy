/** What a split proposes: the reward of the payments held, credit by credit, as an elder of the payout protocol. */
module FundsSplit {
  import opened Collections
  import opened Arithmetic
  import opened RewardCalc
  import opened SupplyCap
  import opened RewardStage
  import opened RewardProcess
  import opened RewardCanon
  import RewardSystem
  import opened RewardEndToEnd
  import opened SectionFunds

  function SubjectAmounts(tallies: Tallies): map<CreditId, nat>
  {
    map id | id in tallies :: CreditOf(tallies[id].subject).amount
  }

  /** The sum of the credits under proposal. */
  ghost function ProposedTotal(tallies: Tallies): nat
  {
    Total(SubjectAmounts(tallies))
  }

  function EntryAmounts(entries: seq<Entry>): seq<nat>
  {
    seq(|entries|, i requires 0 <= i < |entries| => CreditOf(entries[i].subject).amount)
  }

  /** The sum of the credits of a message. */
  function EntriesTotal(entries: seq<Entry>): nat
  {
    SumTo(EntryAmounts(entries), |entries|)
  }

  lemma TalliesTotal(threshold: nat, first: Agenda, signers: set<nat>)
    ensures ProposedTotal(Canon(threshold, first, signers)) == Total(CreditAmounts(first))
  {
    assert SubjectAmounts(Canon(threshold, first, signers)) == CreditAmounts(first);
  }

  lemma MessageTotal(first: Agenda, index: nat)
    ensures EntriesTotal(CanonShares(first, index)) == Total(CreditAmounts(first))
  {
    var ids, vals := SortedKeys(first.Keys), EntryAmounts(CanonShares(first, index));
    forall i | 0 <= i < |ids| ensures vals[i] == Held(CreditAmounts(first), ids[i]) {
      assert ids[i] in ids;
    }
    ListedTotal(ids, CreditAmounts(first), vals);
  }

  /** What a reward does to the managed amount: towards the cap as far as the payments allow, and not across. */
  ghost predicate IsReward(reward: nat, payments: nat, managed: nat, cap: nat)
  {
    managed + reward - payments ==
      if managed <= cap then Min(managed + payments, cap) else Max(Monus(managed, payments), cap)
  }

  /** The reward of payments into a section of this size. */
  ghost predicate RewardFor(prefix: Prefix, reward: nat, payments: nat, managed: nat)
  {
    |prefix| < 64 && IsReward(reward, payments, managed, SectionCap(prefix))
  }

  lemma RewardIs(prefix: Prefix, payments: nat, managed: nat)
    requires |prefix| < 64
    ensures RewardFor(prefix, RewardAmount(prefix, payments, managed), payments, managed)
  {
    PayoutTowardsCap(payments, managed, SectionCap(prefix));
  }

  lemma ProposalTotal(section: PublicKey, amount: nat, nodes: Nodes)
    ensures Total(CreditAmounts(Collect(RewardCredits(section, amount, nodes)))) == if SomeoneRewardable(nodes) then amount else 0
  {
    var payout := AgendaFor(section, amount, nodes);
    CreditsTotal(Collect(RewardCredits(section, amount, nodes)), section, payout);
  }

  lemma ProposeTotal(cfg: Config, subjects: seq<Payload>)
    ensures
      var o := Propose(cfg, subjects);
      && o.stage.ProposingCredits? && o.duty.Ok? && o.duty.value.Send? && o.duty.value.msg.Proposal?
      && o.duty.value.msg.section == cfg.section
      && ProposedTotal(o.stage.proposals) == Total(CreditAmounts(Collect(subjects)))
      && EntriesTotal(o.duty.value.msg.rewards) == Total(CreditAmounts(Collect(subjects)))
  {
    RewardSystem.ProposeIsCanon(cfg, subjects);
    TalliesTotal(cfg.threshold, Collect(subjects), {cfg.index});
    MessageTotal(Collect(subjects), cfg.index);
  }

  /** The stage of a paying split, and the message it sends. */
  ghost predicate Proposes(h: Handled, total: nat)
  {
    && h.funds.Churning? && h.funds.stage.ProposingCredits?
    && ProposedTotal(h.funds.stage.proposals) == total
    && h.duties.Ok? && h.duties.value != [] && h.duties.value[0].Sent? && h.duties.value[0].duty.Send?
    && h.duties.value[0].duty.msg.Proposal?
    && EntriesTotal(h.duties.value[0].duty.msg.rewards) == total
  }

  lemma BeganProposes(funds: Funds, cfg: Config, subjects: seq<Payload>, pushes: seq<NodeDuty>)
    requires !funds.NoFunds?
    ensures
      var o := Propose(cfg, subjects);
      Proposes(Began(funds, cfg, o.stage, o.duty.value, pushes), Total(CreditAmounts(Collect(subjects))))
  {
    ProposeTotal(cfg, subjects);
  }

  /** A split with payments proposes credits, and sends them, that sum to the reward of exactly those payments, or to
      nothing if no wallet belongs to a node old enough. */
  lemma SplitProposes(funds: Funds, cfg: Config, managed: Option<nat>) returns (reward: nat)
    requires PaysOut(funds, cfg, managed)
    ensures RewardFor(cfg.prefix, reward, Sum(funds.payments), managed.value)
    ensures Proposes(AfterSplit(funds, cfg, managed), if SomeoneRewardable(funds.wallets) then reward else 0)
  {
    reward := RewardAmount(cfg.prefix, Sum(funds.payments), managed.value);
    RewardIs(cfg.prefix, Sum(funds.payments), managed.value);
    var subjects := RewardCredits(cfg.section, reward, funds.wallets);
    SplitBegins(funds, cfg, managed, subjects);
    BeganProposes(funds, cfg, subjects, [PushState(cfg.prefix), PushState(Sibling(cfg.prefix))]);
    ProposalTotal(cfg.section, reward, funds.wallets);
  }

  lemma BeganIsElder(funds: Funds, cfg: Config, subjects: seq<Payload>, pushes: seq<NodeDuty>, paid: seq<CreditProof>)
    requires !funds.NoFunds?
    ensures
      var o := Propose(cfg, subjects);
      var r := Began(funds, cfg, o.stage, o.duty.value, pushes);
      RewardSystem.BeginOldie(cfg, RewardSystem.Elder(RewardSystem.NotStarted, paid), subjects) ==
      RewardSystem.Handled(ElderIn(r.funds, paid), ReplyIn(r.duties))
  {
  }

  /** A split with payments is the start of an oldie in the payout protocol, on the credits of that reward. */
  lemma SplitIsElder(funds: Funds, cfg: Config, managed: Option<nat>, subjects: seq<Payload>, paid: seq<CreditProof>)
    requires PaysOut(funds, cfg, managed)
    requires subjects == RewardCredits(cfg.section, RewardAmount(cfg.prefix, Sum(funds.payments), managed.value), funds.wallets)
    ensures
      var r := AfterSplit(funds, cfg, managed);
      && !r.funds.NoFunds? && r.funds.wallets == funds.wallets
      && RewardSystem.BeginOldie(cfg, RewardSystem.Elder(RewardSystem.NotStarted, paid), subjects) ==
         RewardSystem.Handled(ElderIn(r.funds, paid), ReplyIn(r.duties))
  {
    SplitBegins(funds, cfg, managed, subjects);
    BeganIsElder(funds, cfg, subjects, [PushState(cfg.prefix), PushState(Sibling(cfg.prefix))], paid);
  }

  /** The two halves a section splits into: the same but for the last bit. */
  ghost predicate Halves(p: Prefix, q: Prefix)
  {
    && |p| == |q|
    && (|p| > 0 ==> p[..|p| - 1] == q[..|q| - 1] && p[|p| - 1] != q[|q| - 1])
  }

  /** The last two duties push state to the own section and to its sibling. */
  ghost predicate PushesState(ops: seq<NodeDuty>, prefix: Prefix)
  {
    && |ops| >= 2 && ops[|ops| - 2] == PushState(prefix)
    && ops[|ops| - 1].PushState? && Halves(prefix, ops[|ops| - 1].prefix)
  }

  lemma SiblingHalves(prefix: Prefix)
    ensures Halves(prefix, Sibling(prefix))
  {
  }

  lemma BothPushed(ops: seq<NodeDuty>, prefix: Prefix)
    ensures PushesState(ops + [PushState(prefix), PushState(Sibling(prefix))], prefix)
  {
    SiblingHalves(prefix);
  }

  /** Whatever was paid, a split that succeeds pushes state to both halves; without payments that is all it does. */
  lemma SplitPushes(funds: Funds, cfg: Config, managed: Option<nat>)
    requires |cfg.prefix| < 64 && !funds.NoFunds? && (Sum(funds.payments) == 0 || managed.Some?)
    ensures AfterSplit(funds, cfg, managed).duties.Ok?
    ensures PushesState(AfterSplit(funds, cfg, managed).duties.value, cfg.prefix)
    ensures Sum(funds.payments) == 0 ==>
              AfterSplit(funds, cfg, managed).funds == funds && |AfterSplit(funds, cfg, managed).duties.value| == 2
    ensures Sum(funds.payments) > 0 ==> |AfterSplit(funds, cfg, managed).duties.value| == 3
  {
    var pushes := [PushState(cfg.prefix), PushState(Sibling(cfg.prefix))];
    if Sum(funds.payments) == 0 {
      QuietSplit(funds, cfg, managed);
      BothPushed([], cfg.prefix);
      assert [] + pushes == pushes;
    } else {
      var subjects := RewardCredits(cfg.section, RewardAmount(cfg.prefix, Sum(funds.payments), managed.value), funds.wallets);
      SplitBegins(funds, cfg, managed, subjects);
      BeganPushes(funds, cfg, Propose(cfg, subjects).stage, Propose(cfg, subjects).duty.value);
    }
  }

  lemma BeganPushes(funds: Funds, cfg: Config, stage: Stage, duty: Duty)
    requires !funds.NoFunds?
    ensures
      var h := Began(funds, cfg, stage, duty, [PushState(cfg.prefix), PushState(Sibling(cfg.prefix))]);
      h.duties.Ok? && |h.duties.value| == 3 && PushesState(h.duties.value, cfg.prefix)
  {
    BothPushed([Sent(duty)], cfg.prefix);
  }

  /** A split fails exactly without funds, or if there are payments and the managed amount cannot be had; that changes
      nothing. */
  lemma SplitFailsExactly(funds: Funds, cfg: Config, managed: Option<nat>)
    requires |cfg.prefix| < 64
    ensures
      var r := AfterSplit(funds, cfg, managed);
      && (r.duties == Err(NoSectionFunds) <==> funds.NoFunds?)
      && (r.duties == Err(Unavailable) <==> !funds.NoFunds? && Sum(funds.payments) > 0 && managed.None?)
      && (r.duties.Err? ==> r.funds == funds && (funds.NoFunds? || managed.None?))
  {
  }

  /** Without funds nothing is taken in, and messages are ignored unless a payout is under way. */
  lemma Ignored(funds: Funds, msg: Msg, credit: CreditProof, name: XorName, node: Option<Node>, keyKnown: bool)
    ensures !funds.Churning? ==> AfterMsg(funds, msg, keyKnown) == Handled(funds, Ok([]))
    ensures funds.NoFunds? ==>
              && AfterPayment(funds, credit) == Handled(funds, Err(NoSectionFunds))
              && AfterWallet(funds, name, node) == Handled(funds, Err(NoSectionFunds))
    ensures !funds.NoFunds? ==> AfterPayment(funds, credit).duties == Ok([]) && AfterWallet(funds, name, node).duties == Ok([])
  {
  }

  function OutcomeOf(funds: Funds, msg: Msg): Outcome
    requires funds.Churning?
  {
    match msg
    case Proposal(section, rewards) => ReceiveProposal(funds.cfg, funds.stage, section, rewards)
    case Accumulation(section, rewards) => ReceiveAccumulation(funds.cfg, funds.stage, section, rewards)
  }

  /** A message fails at a churning node exactly if its process refuses it, with that reason, or if it completes the
      payout and the section key is not known. */
  lemma MessageFailsExactly(funds: Funds, msg: Msg, keyKnown: bool, e: Error)
    requires funds.Churning?
    ensures
      var o, r := OutcomeOf(funds, msg), AfterMsg(funds, msg, keyKnown);
      var completed := msg.Accumulation? && o.duty.Ok? && o.stage.Completed?;
      && (r.duties == Err(Process(e)) <==> o.duty == Err(e))
      && (r.duties == Err(NoSectionPublicKey) <==> completed && !keyKnown)
      && (r.duties.Err? <==> o.duty.Err? || (completed && !keyKnown))
      && (r.funds.Churning? <==> !completed)
  {
  }
}
