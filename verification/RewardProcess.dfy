/** The two-phase agreement on a reward payout, as run by one elder. */
module RewardProcess {
  import opened Collections
  import opened RewardCalc
  import opened RewardPayout
  import opened SupplyCap
  import opened RewardStage

  datatype Stage =
    | NoStage
    | AwaitingThreshold
    | ProposingCredits(proposals: Tallies)
    | AccumulatingCredits(accumulations: Tallies)
    | Completed(proofs: map<CreditId, CreditProof>)

  datatype Msg =
    | Proposal(section: PublicKey, rewards: seq<Entry>)
    | Accumulation(section: PublicKey, rewards: seq<Entry>)

  datatype Duty = NoOp | Send(msg: Msg)

  /** Our section, our index in its key set, and the threshold of that key set. */
  datatype Config = Config(prefix: Prefix, section: PublicKey, index: nat, threshold: nat)

  datatype Outcome = Outcome(stage: Stage, duty: Result<Duty, Error>)

  // ---------- signing ----------

  /** Rewards inserted one after the other under their credit id. */
  function Collect(subjects: seq<Payload>): map<CreditId, Payload>
  {
    if subjects == [] then map[]
    else
      var last := subjects[|subjects| - 1];
      Collect(subjects[..|subjects| - 1])[IdOf(last) := last]
  }

  function Unsigned(subject: Payload): Tally
  {
    Tally(subject, map[], None)
  }

  function OwnShare(cfg: Config, subject: Payload): SigShare
  {
    SigShare(cfg.index, BlsShare(cfg.index, subject))
  }

  function Signed(cfg: Config, subject: Payload): Tally
  {
    TallyWith(cfg.threshold, Unsigned(subject), OwnShare(cfg, subject))
  }

  function SignAll(cfg: Config, subjects: seq<Payload>): Tallies
  {
    var c := Collect(subjects);
    map id | id in c :: Signed(cfg, c[id])
  }

  function Subjects(entries: seq<Entry>): (ps: seq<Payload>)
    ensures |ps| == |entries|
    ensures forall i :: 0 <= i < |ps| ==> ps[i] == entries[i].subject
  {
    seq(|entries|, i requires 0 <= i < |entries| => entries[i].subject)
  }

  // ---------- the initial proposal ----------

  function CreditFor(section: PublicKey, node: XorName, reward: Reward): Credit
  {
    Credit(CombineId(node, section), reward.amount, reward.wallet, Memo(reward.age, section))
  }

  function CreditsOf(payout: Payments, names: seq<XorName>, section: PublicKey): (ps: seq<Payload>)
    requires forall n :: n in names ==> n in payout
    ensures |ps| == |names|
    ensures forall i :: 0 <= i < |ps| ==> names[i] in payout && ps[i] == Proposed(CreditFor(section, names[i], payout[names[i]]))
  {
    if names == [] then []
    else
      assert names[0] in names;
      [Proposed(CreditFor(section, names[0], payout[names[0]]))] + CreditsOf(payout, names[1..], section)
  }

  function RewardAmount(prefix: Prefix, payments: nat, managed: nat): nat
    requires |prefix| < 64
  {
    RewardAndMintAmount(payments, managed, SectionCap(prefix))
  }

  /** `get_reward_credits`: one credit for each paid node, in name order. */
  function RewardCredits(section: PublicKey, amount: nat, nodes: Nodes): seq<Payload>
  {
    var payout := Payout(amount, nodes);
    CreditsOf(payout, SortedKeys(payout.Keys), section)
  }

  function Propose(cfg: Config, subjects: seq<Payload>): Outcome
  {
    var tallies := SignAll(cfg, subjects);
    Outcome(ProposingCredits(tallies), Ok(Send(Proposal(cfg.section, SharesOf(tallies, cfg.index)))))
  }

  // ---------- receiving ----------

  /** The signed credit an accumulation is about. */
  function SignedOf(p: Payload): SignedCredit
  {
    match p
    case Agreed(signed) => signed
    case Proposed(credit) => SignedCredit(credit, Mangled)
  }

  function AgreedSubjects(tallies: Tallies, sigs: map<CreditId, Signature>, ids: seq<CreditId>): (ps: seq<Payload>)
    requires forall id :: id in ids ==> id in tallies && id in sigs
    ensures |ps| == |ids|
    ensures forall i :: 0 <= i < |ps| ==>
      ids[i] in tallies && ids[i] in sigs &&
      ps[i] == Agreed(SignedCredit(CreditOf(tallies[ids[i]].subject), sigs[ids[i]]))
  {
    if ids == [] then []
    else
      assert ids[0] in ids;
      [Agreed(SignedCredit(CreditOf(tallies[ids[0]].subject), sigs[ids[0]]))] + AgreedSubjects(tallies, sigs, ids[1..])
  }

  function Accumulate(cfg: Config, tallies: Tallies): Outcome
  {
    Outcome(AccumulatingCredits(tallies), Ok(Send(Accumulation(cfg.section, SharesOf(tallies, cfg.index)))))
  }

  function Proofs(tallies: Tallies, sigs: map<CreditId, Signature>): map<CreditId, CreditProof>
  {
    map id | id in tallies && id in sigs :: CreditProof(SignedOf(tallies[id].subject), sigs[id])
  }

  /** After the shares of a proposal are added: move on once every reward has its agreement. */
  function AfterProposal(cfg: Config, tallies: Tallies): Outcome
  {
    match PendingAgreements(tallies)
    case None => Outcome(ProposingCredits(tallies), Ok(NoOp))
    case Some(sigs) =>
      AllOrNothing(tallies);
      Accumulate(cfg, SignAll(cfg, AgreedSubjects(tallies, sigs, SortedKeys(sigs.Keys))))
  }

  function AfterAccumulation(tallies: Tallies): Outcome
  {
    match PendingAgreements(tallies)
    case None => Outcome(AccumulatingCredits(tallies), Ok(NoOp))
    case Some(sigs) => Outcome(Completed(Proofs(tallies, sigs)), Ok(NoOp))
  }

  function ReceiveProposal(cfg: Config, stage: Stage, section: PublicKey, entries: seq<Entry>): Outcome
  {
    if section != cfg.section then Outcome(stage, Err(InvalidOwner))
    else if stage.NoStage? || stage.AwaitingThreshold? then
      match AddAll(cfg.threshold, SignAll(cfg, Subjects(entries)), entries)
      case Err(e) => Outcome(stage, Err(e))
      case Ok(m) => Outcome(ProposingCredits(m), Ok(Send(Proposal(cfg.section, SharesOf(m, cfg.index)))))
    else if stage.ProposingCredits? then
      match AddAll(cfg.threshold, stage.proposals, entries)
      case Err(e) => Outcome(stage, Err(e))
      case Ok(m) => AfterProposal(cfg, m)
    else Outcome(stage, Ok(NoOp))
  }

  function ReceiveAccumulation(cfg: Config, stage: Stage, section: PublicKey, entries: seq<Entry>): Outcome
  {
    if section != cfg.section then Outcome(stage, Err(InvalidOwner))
    else
      match stage
      case NoStage => Outcome(stage, Err(InvalidRewardStage))
      case Completed(_) => Outcome(stage, Ok(NoOp))
      case AccumulatingCredits(tallies) => (
        match AddAll(cfg.threshold, tallies, entries)
        case Err(e) => Outcome(stage, Err(e))
        case Ok(m) => AfterAccumulation(m))
      case _ =>
        match AddAll(cfg.threshold, SignAll(cfg, Subjects(entries)), entries)
        case Err(e) => Outcome(stage, Err(e))
        case Ok(m) => Accumulate(cfg, m)
  }

  // ---------- the process object ----------

  /** The tallies while the signing loop has done some of the ids. */
  ghost predicate PartlySigned(cfg: Config, c: map<CreditId, Payload>, tallies: Tallies, done: set<CreditId>)
  {
    && tallies.Keys == c.Keys
    && forall id :: id in c ==> tallies[id] == if id in done then Signed(cfg, c[id]) else Unsigned(c[id])
  }

  /** Insert every reward, then sign each of them. */
  method SignRewards(cfg: Config, subjects: seq<Payload>) returns (details: RewardDetails)
    ensures fresh(details) && details.threshold == cfg.threshold
    ensures details.rewards == SignAll(cfg, subjects)
  {
    details := new RewardDetails(cfg.threshold, map[]);
    for i := 0 to |subjects|
      invariant fresh(details) && details.threshold == cfg.threshold
      invariant PartlySigned(cfg, Collect(subjects[..i]), details.rewards, {})
    {
      assert subjects[..i + 1][..i] == subjects[..i];
      details.rewards := details.rewards[IdOf(subjects[i]) := Unsigned(subjects[i])];
    }
    assert subjects[..|subjects|] == subjects;
    ghost var c := Collect(subjects);
    var todo := details.rewards.Keys;
    while todo != {}
      invariant fresh(details) && details.threshold == cfg.threshold
      invariant todo <= c.Keys
      invariant PartlySigned(cfg, c, details.rewards, c.Keys - todo)
    {
      var id := Least(todo);
      var r := details.AddSig(id, OwnShare(cfg, details.rewards[id].subject));
      todo := todo - {id};
    }
    assert details.rewards == SignAll(cfg, subjects);
  }

  class RewardProcess {
    const cfg: Config
    var stage: Stage

    constructor (cfg: Config)
      ensures this.cfg == cfg && stage == AwaitingThreshold
    {
      this.cfg := cfg;
      stage := AwaitingThreshold;
    }

    method GetRewardCredits(rewards: nat, nodes: Nodes) returns (credits: seq<Payload>)
      ensures credits == RewardCredits(cfg.section, rewards, nodes)
    {
      var payout, _ := DistributeRewards(rewards, nodes);
      credits := CreditsOf(payout, SortedKeys(payout.Keys), cfg.section);
    }

    method RewardAndMint(payments: nat, managed: nat, nodes: Nodes) returns (duty: Duty)
      requires |cfg.prefix| < 64
      modifies this
      ensures Propose(cfg, RewardCredits(cfg.section, RewardAmount(cfg.prefix, payments, managed), nodes))
           == Outcome(stage, Ok(duty))
    {
      var rewards := RewardAndMintAmount(payments, managed, SectionCap(cfg.prefix));
      var credits := GetRewardCredits(rewards, nodes);
      var details := SignRewards(cfg, credits);
      stage := ProposingCredits(details.rewards);
      duty := Send(Proposal(cfg.section, SharesOf(details.rewards, cfg.index)));
    }

    method ReceiveChurnProposal(section: PublicKey, entries: seq<Entry>) returns (r: Result<Duty, Error>)
      modifies this
      ensures ReceiveProposal(cfg, old(stage), section, entries) == Outcome(stage, r)
    {
      if section != cfg.section {
        return Err(InvalidOwner);
      }
      match stage {
        case NoStage | AwaitingThreshold =>
          var ours := SignRewards(cfg, Subjects(entries));
          var added := ours.AddSigs(entries);
          if added.Err? {
            return Err(added.error);
          }
          stage := ProposingCredits(ours.rewards);
          return Ok(Send(Proposal(cfg.section, SharesOf(ours.rewards, cfg.index))));
        case ProposingCredits(proposals) =>
          var details := new RewardDetails(cfg.threshold, proposals);
          var added := details.AddSigs(entries);
          if added.Err? {
            return Err(added.error);
          }
          var agreed := PendingAgreements(details.rewards);
          if agreed.Some? {
            AllOrNothing(details.rewards);
            var subjects := AgreedSubjects(details.rewards, agreed.value, SortedKeys(agreed.value.Keys));
            var ours := SignRewards(cfg, subjects);
            stage := AccumulatingCredits(ours.rewards);
            return Ok(Send(Accumulation(cfg.section, SharesOf(ours.rewards, cfg.index))));
          }
          stage := ProposingCredits(details.rewards);
          return Ok(NoOp);
        case AccumulatingCredits(_) =>
          return Ok(NoOp);
        case Completed(_) =>
          return Ok(NoOp);
      }
    }

    method ReceiveWalletAccumulation(section: PublicKey, entries: seq<Entry>) returns (r: Result<Duty, Error>)
      modifies this
      ensures ReceiveAccumulation(cfg, old(stage), section, entries) == Outcome(stage, r)
    {
      if section != cfg.section {
        return Err(InvalidOwner);
      }
      match stage {
        case AwaitingThreshold | ProposingCredits(_) =>
          var ours := SignRewards(cfg, Subjects(entries));
          var added := ours.AddSigs(entries);
          if added.Err? {
            return Err(added.error);
          }
          stage := AccumulatingCredits(ours.rewards);
          return Ok(Send(Accumulation(cfg.section, SharesOf(ours.rewards, cfg.index))));
        case AccumulatingCredits(accumulations) =>
          var ours := new RewardDetails(cfg.threshold, accumulations);
          var added := ours.AddSigs(entries);
          if added.Err? {
            return Err(added.error);
          }
          var agreed := PendingAgreements(ours.rewards);
          if agreed.Some? {
            stage := Completed(Proofs(ours.rewards, agreed.value));
          } else {
            stage := AccumulatingCredits(ours.rewards);
          }
          return Ok(NoOp);
        case Completed(_) =>
          return Ok(NoOp);
        case NoStage =>
          return Err(InvalidRewardStage);
      }
    }
  }
}
