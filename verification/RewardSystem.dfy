/** All elders of a section running the payout protocol over a network that may delay, reorder, duplicate
    and lose messages, and its refinement to a machine of signer sets. */
module RewardSystem {
  import opened Collections
  import opened SupplyCap
  import opened RewardStage
  import opened RewardProcess
  import opened RewardCanon

  /** n elders of one section; `subjects` are the credits every proposing elder computes. */
  datatype World = World(n: nat, threshold: nat, prefix: Prefix, section: PublicKey, subjects: seq<Payload>)

  /** The funds of an elder with regard to this payout: not yet split, churning, or done. */
  datatype Funds = NotStarted | Churning(stage: Stage) | Keeping

  /** `paid` lists the credits the elder has propagated. */
  datatype Elder = Elder(funds: Funds, paid: seq<CreditProof>)

  datatype Envelope = Envelope(sender: nat, msg: Msg)

  datatype Sys = Sys(elders: seq<Elder>, sent: seq<Envelope>)

  /** `keyKnown` says whether the section key can be looked up while the message is handled. Anything may come from
      other sections. */
  datatype Step =
    | StartOldie(i: nat)
    | StartNewbie(i: nat)
    | Deliver(k: nat, i: nat, keyKnown: bool)
    | Foreign(msg: Msg, i: nat, keyKnown: bool)

  datatype Handled = Handled(elder: Elder, reply: Option<Msg>)

  function Cfg(w: World, i: nat): Config
  {
    Config(w.prefix, w.section, i, w.threshold)
  }

  function ReplyOf(duty: Duty): Option<Msg>
  {
    match duty
    case NoOp => None
    case Send(msg) => Some(msg)
  }

  /** The credits in id order, each propagated once. */
  function Propagation(proofs: map<CreditId, CreditProof>): (ops: seq<CreditProof>)
    ensures |ops| == |proofs|
  {
    var ids := SortedKeys(proofs.Keys);
    assert forall i :: 0 <= i < |ids| ==> ids[i] in ids;
    seq(|ids|, i requires 0 <= i < |ids| => proofs[ids[i]])
  }

  /** An elder handles a message: errors of the process change nothing. Completion ends the churn, and propagates
      the credits if the section key is known by then; else they are dropped. */
  function Handle(cfg: Config, elder: Elder, msg: Msg, keyKnown: bool): Handled
  {
    if !elder.funds.Churning? then Handled(elder, None)
    else
      match msg
      case Proposal(section, rewards) => (
        var o := ReceiveProposal(cfg, elder.funds.stage, section, rewards);
        match o.duty
        case Err(_) => Handled(elder, None)
        case Ok(duty) => Handled(elder.(funds := Churning(o.stage)), ReplyOf(duty)))
      case Accumulation(section, rewards) =>
        var o := ReceiveAccumulation(cfg, elder.funds.stage, section, rewards);
        match o.duty
        case Err(_) => Handled(elder, None)
        case Ok(duty) =>
          if o.stage.Completed? then
            if keyKnown then Handled(Elder(Keeping, elder.paid + Propagation(o.stage.proofs)), ReplyOf(duty))
            else Handled(Elder(Keeping, elder.paid), None)
          else
            Handled(elder.(funds := Churning(o.stage)), ReplyOf(duty))
  }

  /** A newly split oldie proposes right away. */
  function BeginOldie(cfg: Config, elder: Elder, subjects: seq<Payload>): Handled
  {
    if !elder.funds.NotStarted? then Handled(elder, None)
    else
      var o := Propose(cfg, subjects);
      Handled(elder.(funds := Churning(o.stage)), ReplyOf(o.duty.value))
  }

  function BeginNewbie(elder: Elder): Handled
  {
    if !elder.funds.NotStarted? then Handled(elder, None)
    else Handled(elder.(funds := Churning(AwaitingThreshold)), None)
  }

  function Apply(s: Sys, i: nat, h: Handled): Sys
    requires i < |s.elders|
  {
    Sys(s.elders[i := h.elder], if h.reply.Some? then s.sent + [Envelope(i, h.reply.value)] else s.sent)
  }

  function Next(w: World, s: Sys, step: Step): Sys
  {
    if step.i >= |s.elders| then s
    else
      match step
      case StartOldie(i) => Apply(s, i, BeginOldie(Cfg(w, i), s.elders[i], w.subjects))
      case StartNewbie(i) => Apply(s, i, BeginNewbie(s.elders[i]))
      case Deliver(k, i, keyKnown) =>
        if k >= |s.sent| then s else Apply(s, i, Handle(Cfg(w, i), s.elders[i], s.sent[k].msg, keyKnown))
      case Foreign(msg, i, keyKnown) =>
        if msg.section == w.section then s else Apply(s, i, Handle(Cfg(w, i), s.elders[i], msg, keyKnown))
  }

  function Initial(w: World): Sys
  {
    Sys(seq(w.n, _ => Elder(NotStarted, [])), [])
  }

  /** The state after a run; every reachable state is one. */
  function Exec(w: World, steps: seq<Step>): Sys
  {
    if steps == [] then Initial(w) else Next(w, Exec(w, steps[..|steps| - 1]), steps[|steps| - 1])
  }

  // ---------- the machine of signer sets ----------

  datatype View =
    | Idle
    | Awaiting
    | Proposing(signers: set<nat>)
    | Accumulating(signers: set<nat>)
    | Settled(told: bool)

  datatype Note = Prop(sender: nat) | Acc(sender: nat)

  datatype Seen = Seen(view: View, reply: Option<Note>)

  datatype Abs = Abs(views: seq<View>, sent: seq<Note>)

  predicate Quorum(threshold: nat, empty: bool, signers: set<nat>)
  {
    empty || |signers| >= 1 + threshold
  }

  function See(threshold: nat, empty: bool, me: nat, view: View, note: Note, keyKnown: bool): Seen
  {
    match note
    case Prop(j) => (
      match view
      case Awaiting => Seen(Proposing({me} + {j}), Some(Prop(me)))
      case Proposing(signers) =>
        if Quorum(threshold, empty, signers + {j}) then Seen(Accumulating({me}), Some(Acc(me)))
        else Seen(Proposing(signers + {j}), None)
      case _ => Seen(view, None))
    case Acc(j) =>
      match view
      case Awaiting => Seen(Accumulating({me} + {j}), Some(Acc(me)))
      case Proposing(_) => Seen(Accumulating({me} + {j}), Some(Acc(me)))
      case Accumulating(signers) =>
        if Quorum(threshold, empty, signers + {j}) then Seen(Settled(keyKnown), None)
        else Seen(Accumulating(signers + {j}), None)
      case _ => Seen(view, None)
  }

  function Started(step: Step, view: View): Seen
  {
    if !view.Idle? then Seen(view, None)
    else if step.StartOldie? then Seen(Proposing({step.i}), Some(Prop(step.i)))
    else Seen(Awaiting, None)
  }

  function AbsApply(a: Abs, i: nat, r: Seen): Abs
    requires i < |a.views|
  {
    Abs(a.views[i := r.view], if r.reply.Some? then a.sent + [r.reply.value] else a.sent)
  }

  function AbsNext(threshold: nat, empty: bool, a: Abs, step: Step): Abs
  {
    if step.i >= |a.views| || step.Foreign? then a
    else if !step.Deliver? then AbsApply(a, step.i, Started(step, a.views[step.i]))
    else if step.k >= |a.sent| then a
    else AbsApply(a, step.i, See(threshold, empty, step.i, a.views[step.i], a.sent[step.k], step.keyKnown))
  }

  function AbsExec(n: nat, threshold: nat, empty: bool, steps: seq<Step>): Abs
  {
    if steps == [] then Abs(seq(n, _ => Idle), [])
    else AbsNext(threshold, empty, AbsExec(n, threshold, empty, steps[..|steps| - 1]), steps[|steps| - 1])
  }

  // ---------- refinement ----------

  function First(w: World): Agenda
  {
    Collect(w.subjects)
  }

  function Second(w: World): Agenda
  {
    AgreedAgenda(First(w))
  }

  function ElderOf(threshold: nat, first: Agenda, second: Agenda, view: View): Elder
  {
    match view
    case Idle => Elder(NotStarted, [])
    case Awaiting => Elder(Churning(AwaitingThreshold), [])
    case Proposing(signers) => Elder(Churning(ProposingCredits(Canon(threshold, first, signers))), [])
    case Accumulating(signers) => Elder(Churning(AccumulatingCredits(Canon(threshold, second, signers))), [])
    case Settled(told) => Elder(Keeping, if told then Propagation(CanonProofs(second)) else [])
  }

  function MsgOf(section: PublicKey, first: Agenda, second: Agenda, note: Note): Msg
  {
    match note
    case Prop(j) => Proposal(section, CanonShares(first, j))
    case Acc(j) => Accumulation(section, CanonShares(second, j))
  }

  function HandledOf(cfg: Config, first: Agenda, second: Agenda, r: Seen): Handled
  {
    Handled(ElderOf(cfg.threshold, first, second, r.view),
            if r.reply.Some? then Some(MsgOf(cfg.section, first, second, r.reply.value)) else None)
  }

  /** Handling the picture of a note is the picture of seeing the note. */
  ghost predicate SeesNote(cfg: Config, first: Agenda, second: Agenda, view: View, note: Note, keyKnown: bool)
  {
    Handle(cfg, ElderOf(cfg.threshold, first, second, view), MsgOf(cfg.section, first, second, note), keyKnown)
    == HandledOf(cfg, first, second, See(cfg.threshold, first == map[], cfg.index, view, note, keyKnown))
  }

  /** Joining a phase on someone's message: sign the same credits and add the sender's shares. */
  lemma JoinPhase(cfg: Config, a: Agenda, j: nat)
    requires Keyed(a)
    ensures
      var tallies := Canon(cfg.threshold, a, {cfg.index} + {j});
      && AddAll(cfg.threshold, SignAll(cfg, Subjects(CanonShares(a, j))), CanonShares(a, j)) == Ok(tallies)
      && SharesOf(tallies, cfg.index) == CanonShares(a, cfg.index)
  {
    CollectShares(a, j);
    SignAllIsCanon(cfg, Subjects(CanonShares(a, j)));
    AddAllIsCanon(cfg.threshold, a, {cfg.index}, j);
    SharesAreCanon(cfg.threshold, a, {cfg.index} + {j}, cfg.index);
  }

  /** What a proposal makes of an elder that is not done proposing, as the process sees it. */
  lemma ProposalHandled(cfg: Config, stage: Stage, section: PublicKey, rewards: seq<Entry>, after: Stage, duty: Duty, keyKnown: bool)
    requires ReceiveProposal(cfg, stage, section, rewards) == Outcome(after, Ok(duty))
    ensures Handle(cfg, Elder(Churning(stage), []), Proposal(section, rewards), keyKnown)
         == Handled(Elder(Churning(after), []), ReplyOf(duty))
  {
  }

  lemma JoinsProposals(cfg: Config, entries: seq<Entry>, m: Tallies)
    requires AddAll(cfg.threshold, SignAll(cfg, Subjects(entries)), entries) == Ok(m)
    ensures ReceiveProposal(cfg, AwaitingThreshold, cfg.section, entries)
         == Outcome(ProposingCredits(m), Ok(Send(Proposal(cfg.section, SharesOf(m, cfg.index)))))
  {
  }

  lemma AddsProposals(cfg: Config, tallies: Tallies, entries: seq<Entry>, m: Tallies)
    requires AddAll(cfg.threshold, tallies, entries) == Ok(m)
    ensures ReceiveProposal(cfg, ProposingCredits(tallies), cfg.section, entries) == AfterProposal(cfg, m)
  {
  }

  lemma JoinsAccumulations(cfg: Config, stage: Stage, entries: seq<Entry>, m: Tallies)
    requires stage.AwaitingThreshold? || stage.ProposingCredits?
    requires AddAll(cfg.threshold, SignAll(cfg, Subjects(entries)), entries) == Ok(m)
    ensures ReceiveAccumulation(cfg, stage, cfg.section, entries) == Accumulate(cfg, m)
  {
  }

  lemma AddsAccumulations(cfg: Config, tallies: Tallies, entries: seq<Entry>, m: Tallies)
    requires AddAll(cfg.threshold, tallies, entries) == Ok(m)
    ensures ReceiveAccumulation(cfg, AccumulatingCredits(tallies), cfg.section, entries) == AfterAccumulation(m)
  {
  }

  lemma AwaitingReceives(cfg: Config, first: Agenda, j: nat)
    requires Keyed(first)
    ensures ReceiveProposal(cfg, AwaitingThreshold, cfg.section, CanonShares(first, j))
         == Outcome(ProposingCredits(Canon(cfg.threshold, first, {cfg.index} + {j})),
                    Ok(Send(Proposal(cfg.section, CanonShares(first, cfg.index)))))
  {
    JoinPhase(cfg, first, j);
    JoinsProposals(cfg, CanonShares(first, j), Canon(cfg.threshold, first, {cfg.index} + {j}));
  }

  lemma SeeAwaiting(cfg: Config, first: Agenda, second: Agenda, j: nat, keyKnown: bool)
    requires Keyed(first)
    ensures SeesNote(cfg, first, second, Awaiting, Prop(j), keyKnown)
  {
    AwaitingReceives(cfg, first, j);
    ProposalHandled(cfg, AwaitingThreshold, cfg.section, CanonShares(first, j),
                    ProposingCredits(Canon(cfg.threshold, first, {cfg.index} + {j})),
                    Send(Proposal(cfg.section, CanonShares(first, cfg.index))), keyKnown);
  }

  lemma SeeLateProposal(cfg: Config, first: Agenda, second: Agenda, signers: set<nat>, j: nat, keyKnown: bool)
    ensures SeesNote(cfg, first, second, Accumulating(signers), Prop(j), keyKnown)
  {
    var stage := AccumulatingCredits(Canon(cfg.threshold, second, signers));
    ProposalHandled(cfg, stage, cfg.section, CanonShares(first, j), stage, NoOp, keyKnown);
  }

  lemma SeeProposal(cfg: Config, first: Agenda, second: Agenda, view: View, j: nat, keyKnown: bool)
    requires Keyed(first) && second == AgreedAgenda(first)
    ensures SeesNote(cfg, first, second, view, Prop(j), keyKnown)
  {
    match view {
      case Awaiting => SeeAwaiting(cfg, first, second, j, keyKnown);
      case Proposing(signers) => SeeProposing(cfg, first, second, signers, j, keyKnown);
      case Accumulating(signers) => SeeLateProposal(cfg, first, second, signers, j, keyKnown);
      case _ =>
    }
  }

  /** Where a proposing elder ends up once it holds the shares of `signers`, and what it then sends. */
  function AfterProposals(cfg: Config, first: Agenda, second: Agenda, signers: set<nat>): Handled
  {
    if Enough(cfg.threshold, first, signers)
    then Handled(Elder(Churning(AccumulatingCredits(Canon(cfg.threshold, second, {cfg.index}))), []),
                 Some(Accumulation(cfg.section, CanonShares(second, cfg.index))))
    else Handled(Elder(Churning(ProposingCredits(Canon(cfg.threshold, first, signers))), []), None)
  }

  lemma HandleWhileProposing(cfg: Config, first: Agenda, second: Agenda, signers: set<nat>, j: nat, keyKnown: bool)
    requires Keyed(first) && second == AgreedAgenda(first)
    ensures Handle(cfg, Elder(Churning(ProposingCredits(Canon(cfg.threshold, first, signers))), []),
                   Proposal(cfg.section, CanonShares(first, j)), keyKnown)
         == AfterProposals(cfg, first, second, signers + {j})
  {
    var stage, entries := ProposingCredits(Canon(cfg.threshold, first, signers)), CanonShares(first, j);
    ProposingReceives(cfg, first, signers, j);
    if Enough(cfg.threshold, first, signers + {j}) {
      ProposalHandled(cfg, stage, cfg.section, entries, AccumulatingCredits(Canon(cfg.threshold, second, {cfg.index})),
                      Send(Accumulation(cfg.section, CanonShares(second, cfg.index))), keyKnown);
    } else {
      ProposalHandled(cfg, stage, cfg.section, entries, ProposingCredits(Canon(cfg.threshold, first, signers + {j})), NoOp, keyKnown);
    }
  }

  lemma ProposingReceives(cfg: Config, first: Agenda, signers: set<nat>, j: nat)
    requires Keyed(first)
    ensures ReceiveProposal(cfg, ProposingCredits(Canon(cfg.threshold, first, signers)), cfg.section, CanonShares(first, j))
         == AfterProposal(cfg, Canon(cfg.threshold, first, signers + {j}))
    ensures
      var second := AgreedAgenda(first);
      AfterProposal(cfg, Canon(cfg.threshold, first, signers + {j})) ==
      if Enough(cfg.threshold, first, signers + {j})
      then Outcome(AccumulatingCredits(Canon(cfg.threshold, second, {cfg.index})),
                   Ok(Send(Accumulation(cfg.section, CanonShares(second, cfg.index)))))
      else Outcome(ProposingCredits(Canon(cfg.threshold, first, signers + {j})), Ok(NoOp))
  {
    AddAllIsCanon(cfg.threshold, first, signers, j);
    AddsProposals(cfg, Canon(cfg.threshold, first, signers), CanonShares(first, j), Canon(cfg.threshold, first, signers + {j}));
    ProposalMoves(cfg, first, signers + {j});
  }

  lemma SeeWhileProposing(cfg: Config, first: Agenda, second: Agenda, signers: set<nat>, j: nat, keyKnown: bool)
    ensures HandledOf(cfg, first, second, See(cfg.threshold, first == map[], cfg.index, Proposing(signers), Prop(j), keyKnown))
         == AfterProposals(cfg, first, second, signers + {j})
  {
    ProposedView(cfg, first, second, signers + {j});
  }

  function NextProposing(threshold: nat, empty: bool, me: nat, signers: set<nat>): Seen
  {
    if Quorum(threshold, empty, signers) then Seen(Accumulating({me}), Some(Acc(me))) else Seen(Proposing(signers), None)
  }

  lemma ProposedView(cfg: Config, first: Agenda, second: Agenda, signers: set<nat>)
    ensures HandledOf(cfg, first, second, NextProposing(cfg.threshold, first == map[], cfg.index, signers))
         == AfterProposals(cfg, first, second, signers)
  {
  }

  lemma SeeProposing(cfg: Config, first: Agenda, second: Agenda, signers: set<nat>, j: nat, keyKnown: bool)
    requires Keyed(first) && second == AgreedAgenda(first)
    ensures SeesNote(cfg, first, second, Proposing(signers), Prop(j), keyKnown)
  {
    HandleWhileProposing(cfg, first, second, signers, j, keyKnown);
    SeeWhileProposing(cfg, first, second, signers, j, keyKnown);
    assert ElderOf(cfg.threshold, first, second, Proposing(signers))
        == Elder(Churning(ProposingCredits(Canon(cfg.threshold, first, signers))), []);
  }

  lemma ProposalMoves(cfg: Config, first: Agenda, signers: set<nat>)
    requires Keyed(first)
    ensures
      var second := AgreedAgenda(first);
      AfterProposal(cfg, Canon(cfg.threshold, first, signers)) ==
      if Enough(cfg.threshold, first, signers)
      then Outcome(AccumulatingCredits(Canon(cfg.threshold, second, {cfg.index})),
                   Ok(Send(Accumulation(cfg.section, CanonShares(second, cfg.index)))))
      else Outcome(ProposingCredits(Canon(cfg.threshold, first, signers)), Ok(NoOp))
  {
    var t, me, second := cfg.threshold, cfg.index, AgreedAgenda(first);
    var tallies := Canon(t, first, signers);
    PendingIsCanon(t, first, signers);
    if Enough(t, first, signers) {
      AgreedIsCanon(t, first, signers);
      SignAllIsCanon(cfg, AgreedSubjects(tallies, Agreements(first), SortedKeys(Agreements(first).Keys)));
      SharesAreCanon(t, second, {me}, me);
    }
  }

  lemma AccumulationMoves(threshold: nat, second: Agenda, signers: set<nat>)
    ensures AfterAccumulation(Canon(threshold, second, signers)) ==
            if Enough(threshold, second, signers) then Outcome(Completed(CanonProofs(second)), Ok(NoOp))
            else Outcome(AccumulatingCredits(Canon(threshold, second, signers)), Ok(NoOp))
  {
    PendingIsCanon(threshold, second, signers);
    ProofsAreCanon(threshold, second, signers);
  }

  lemma AgreedShape(first: Agenda, second: Agenda)
    requires Keyed(first) && second == AgreedAgenda(first)
    ensures Keyed(second) && (second == map[] <==> first == map[])
  {
    assert second.Keys == first.Keys;
  }

  lemma NothingBefore<T>(q: seq<T>)
    ensures [] + q == q
  {
  }

  lemma SeeAccumulation(cfg: Config, first: Agenda, second: Agenda, view: View, j: nat, keyKnown: bool)
    requires Keyed(first) && second == AgreedAgenda(first)
    ensures SeesNote(cfg, first, second, view, Acc(j), keyKnown)
  {
    AgreedShape(first, second);
    if view.Accumulating? {
      SeeAccumulating(cfg, first, second, view.signers, j, keyKnown);
    } else {
      SeeJoining(cfg, first, second, view, j, keyKnown);
    }
  }

  lemma SeeJoining(cfg: Config, first: Agenda, second: Agenda, view: View, j: nat, keyKnown: bool)
    requires Keyed(second) && !view.Accumulating?
    ensures SeesNote(cfg, first, second, view, Acc(j), keyKnown)
  {
    match view {
      case Awaiting => HandleJoining(cfg, second, AwaitingThreshold, j, keyKnown);
      case Proposing(signers) => SeeJoiningEarly(cfg, first, second, signers, j, keyKnown);
      case _ =>
    }
  }

  lemma SeeJoiningEarly(cfg: Config, first: Agenda, second: Agenda, signers: set<nat>, j: nat, keyKnown: bool)
    requires Keyed(second)
    ensures SeesNote(cfg, first, second, Proposing(signers), Acc(j), keyKnown)
  {
    HandleJoining(cfg, second, ProposingCredits(Canon(cfg.threshold, first, signers)), j, keyKnown);
  }

  lemma JoiningReceives(cfg: Config, second: Agenda, stage: Stage, j: nat)
    requires Keyed(second) && (stage.AwaitingThreshold? || stage.ProposingCredits?)
    ensures ReceiveAccumulation(cfg, stage, cfg.section, CanonShares(second, j))
         == Outcome(AccumulatingCredits(Canon(cfg.threshold, second, {cfg.index} + {j})),
                    Ok(Send(Accumulation(cfg.section, CanonShares(second, cfg.index)))))
  {
    JoinPhase(cfg, second, j);
    JoinsAccumulations(cfg, stage, CanonShares(second, j), Canon(cfg.threshold, second, {cfg.index} + {j}));
  }

  lemma HandleJoining(cfg: Config, second: Agenda, stage: Stage, j: nat, keyKnown: bool)
    requires Keyed(second) && (stage.AwaitingThreshold? || stage.ProposingCredits?)
    ensures Handle(cfg, Elder(Churning(stage), []), Accumulation(cfg.section, CanonShares(second, j)), keyKnown)
         == Handled(Elder(Churning(AccumulatingCredits(Canon(cfg.threshold, second, {cfg.index} + {j}))), []),
                    Some(Accumulation(cfg.section, CanonShares(second, cfg.index))))
  {
    JoiningReceives(cfg, second, stage, j);
    ProgressHandled(cfg, stage, cfg.section, CanonShares(second, j),
                    AccumulatingCredits(Canon(cfg.threshold, second, {cfg.index} + {j})),
                    Send(Accumulation(cfg.section, CanonShares(second, cfg.index))), keyKnown);
  }

  lemma SeeAccumulating(cfg: Config, first: Agenda, second: Agenda, signers: set<nat>, j: nat, keyKnown: bool)
    requires Keyed(second) && (second == map[] <==> first == map[])
    ensures SeesNote(cfg, first, second, Accumulating(signers), Acc(j), keyKnown)
  {
    HandleWhileAccumulating(cfg, second, signers, j, keyKnown);
    SeeWhileAccumulating(cfg, first, second, signers, j, keyKnown);
    assert ElderOf(cfg.threshold, first, second, Accumulating(signers))
        == Elder(Churning(AccumulatingCredits(Canon(cfg.threshold, second, signers))), []);
  }

  lemma AccumulatingReceives(cfg: Config, second: Agenda, signers: set<nat>, j: nat)
    requires Keyed(second)
    ensures ReceiveAccumulation(cfg, AccumulatingCredits(Canon(cfg.threshold, second, signers)), cfg.section, CanonShares(second, j)) ==
            if Enough(cfg.threshold, second, signers + {j}) then Outcome(Completed(CanonProofs(second)), Ok(NoOp))
            else Outcome(AccumulatingCredits(Canon(cfg.threshold, second, signers + {j})), Ok(NoOp))
  {
    AddAllIsCanon(cfg.threshold, second, signers, j);
    AddsAccumulations(cfg, Canon(cfg.threshold, second, signers), CanonShares(second, j), Canon(cfg.threshold, second, signers + {j}));
    AccumulationMoves(cfg.threshold, second, signers + {j});
  }

  lemma CompletionHandled(cfg: Config, stage: Stage, section: PublicKey, rewards: seq<Entry>, proofs: map<CreditId, CreditProof>, keyKnown: bool)
    requires ReceiveAccumulation(cfg, stage, section, rewards) == Outcome(Completed(proofs), Ok(NoOp))
    ensures Handle(cfg, Elder(Churning(stage), []), Accumulation(section, rewards), keyKnown)
         == Handled(Elder(Keeping, if keyKnown then Propagation(proofs) else []), None)
  {
    NothingBefore(Propagation(proofs));
  }

  /** Where an accumulating elder ends up once it holds the shares of `signers`. */
  function Accumulated(threshold: nat, second: Agenda, signers: set<nat>, keyKnown: bool): Elder
  {
    if Enough(threshold, second, signers) then Elder(Keeping, if keyKnown then Propagation(CanonProofs(second)) else [])
    else Elder(Churning(AccumulatingCredits(Canon(threshold, second, signers))), [])
  }

  lemma HandleWhileAccumulating(cfg: Config, second: Agenda, signers: set<nat>, j: nat, keyKnown: bool)
    requires Keyed(second)
    ensures Handle(cfg, Elder(Churning(AccumulatingCredits(Canon(cfg.threshold, second, signers))), []),
                   Accumulation(cfg.section, CanonShares(second, j)), keyKnown)
         == Handled(Accumulated(cfg.threshold, second, signers + {j}, keyKnown), None)
  {
    var stage, entries := AccumulatingCredits(Canon(cfg.threshold, second, signers)), CanonShares(second, j);
    AccumulatingReceives(cfg, second, signers, j);
    if Enough(cfg.threshold, second, signers + {j}) {
      CompletionHandled(cfg, stage, cfg.section, entries, CanonProofs(second), keyKnown);
    } else {
      ProgressHandled(cfg, stage, cfg.section, entries, AccumulatingCredits(Canon(cfg.threshold, second, signers + {j})), NoOp, keyKnown);
    }
  }

  lemma SeeWhileAccumulating(cfg: Config, first: Agenda, second: Agenda, signers: set<nat>, j: nat, keyKnown: bool)
    requires second == map[] <==> first == map[]
    ensures HandledOf(cfg, first, second, See(cfg.threshold, first == map[], cfg.index, Accumulating(signers), Acc(j), keyKnown))
         == Handled(Accumulated(cfg.threshold, second, signers + {j}, keyKnown), None)
  {
    AccumulatedView(cfg.threshold, first, second, signers + {j}, keyKnown);
  }

  function NextView(threshold: nat, empty: bool, signers: set<nat>, keyKnown: bool): View
  {
    if Quorum(threshold, empty, signers) then Settled(keyKnown) else Accumulating(signers)
  }

  lemma AccumulatedView(threshold: nat, first: Agenda, second: Agenda, signers: set<nat>, keyKnown: bool)
    requires second == map[] <==> first == map[]
    ensures ElderOf(threshold, first, second, NextView(threshold, first == map[], signers, keyKnown))
         == Accumulated(threshold, second, signers, keyKnown)
  {
  }

  lemma ProgressHandled(cfg: Config, stage: Stage, section: PublicKey, rewards: seq<Entry>, after: Stage, duty: Duty, keyKnown: bool)
    requires ReceiveAccumulation(cfg, stage, section, rewards) == Outcome(after, Ok(duty)) && !after.Completed?
    ensures Handle(cfg, Elder(Churning(stage), []), Accumulation(section, rewards), keyKnown)
         == Handled(Elder(Churning(after), []), ReplyOf(duty))
  {
  }

  lemma ProposeIsCanon(cfg: Config, subjects: seq<Payload>)
    ensures
      var first := Collect(subjects);
      Propose(cfg, subjects) == Outcome(ProposingCredits(Canon(cfg.threshold, first, {cfg.index})),
                                        Ok(Send(Proposal(cfg.section, CanonShares(first, cfg.index)))))
  {
    SignAllIsCanon(cfg, subjects);
    SharesAreCanon(cfg.threshold, Collect(subjects), {cfg.index}, cfg.index);
  }

  lemma SeeOldie(w: World, first: Agenda, second: Agenda, view: View, i: nat)
    requires first == First(w)
    ensures BeginOldie(Cfg(w, i), ElderOf(w.threshold, first, second, view), w.subjects)
         == HandledOf(Cfg(w, i), first, second, Started(StartOldie(i), view))
  {
    ProposeIsCanon(Cfg(w, i), w.subjects);
  }

  lemma SeeNewbie(w: World, first: Agenda, second: Agenda, view: View, i: nat)
    ensures BeginNewbie(ElderOf(w.threshold, first, second, view))
         == HandledOf(Cfg(w, i), first, second, Started(StartNewbie(i), view))
  {
  }

  lemma SeeStart(w: World, first: Agenda, second: Agenda, view: View, step: Step)
    requires first == First(w) && !step.Deliver? && !step.Foreign?
    ensures (if step.StartOldie? then BeginOldie(Cfg(w, step.i), ElderOf(w.threshold, first, second, view), w.subjects)
             else BeginNewbie(ElderOf(w.threshold, first, second, view)))
         == HandledOf(Cfg(w, step.i), first, second, Started(step, view))
  {
    if step.StartOldie? {
      SeeOldie(w, first, second, view, step.i);
    } else {
      SeeNewbie(w, first, second, view, step.i);
    }
  }

  function EnvelopeOf(w: World, first: Agenda, second: Agenda, note: Note): Envelope
  {
    Envelope(note.sender, MsgOf(w.section, first, second, note))
  }

  /** The state of the system is the picture of the state of the machine. */
  ghost predicate Pictures(w: World, first: Agenda, second: Agenda, s: Sys, a: Abs)
  {
    && |s.elders| == |a.views|
    && (forall i :: 0 <= i < |a.views| ==> s.elders[i] == ElderOf(w.threshold, first, second, a.views[i]))
    && |s.sent| == |a.sent|
    && (forall k :: 0 <= k < |a.sent| ==> s.sent[k] == EnvelopeOf(w, first, second, a.sent[k]))
  }

  lemma ApplyRefines(w: World, first: Agenda, second: Agenda, s: Sys, a: Abs, i: nat, h: Handled, r: Seen)
    requires Pictures(w, first, second, s, a) && i < |a.views|
    requires h == HandledOf(Cfg(w, i), first, second, r)
    requires r.reply.Some? ==> r.reply.value.sender == i
    ensures Pictures(w, first, second, Apply(s, i, h), AbsApply(a, i, r))
  {
  }

  /** Either kind of message. */
  lemma SeeEither(cfg: Config, first: Agenda, second: Agenda, view: View, note: Note, keyKnown: bool)
    requires Keyed(first) && second == AgreedAgenda(first)
    ensures SeesNote(cfg, first, second, view, note, keyKnown)
  {
    if note.Prop? {
      SeeProposal(cfg, first, second, view, note.sender, keyKnown);
    } else {
      SeeAccumulation(cfg, first, second, view, note.sender, keyKnown);
    }
  }

  lemma DeliveryHandled(cfg: Config, first: Agenda, second: Agenda, view: View, note: Note, keyKnown: bool, elder: Elder, msg: Msg)
    requires Keyed(first) && second == AgreedAgenda(first)
    requires elder == ElderOf(cfg.threshold, first, second, view) && msg == MsgOf(cfg.section, first, second, note)
    ensures Handle(cfg, elder, msg, keyKnown)
         == HandledOf(cfg, first, second, See(cfg.threshold, first == map[], cfg.index, view, note, keyKnown))
  {
    SeeEither(cfg, first, second, view, note, keyKnown);
  }

  lemma RepliesOwn(threshold: nat, empty: bool, me: nat, view: View, note: Note, keyKnown: bool)
    ensures
      var r := See(threshold, empty, me, view, note, keyKnown);
      r.reply.Some? ==> r.reply.value.sender == me
  {
  }

  lemma DeliverRefines(w: World, first: Agenda, second: Agenda, s: Sys, a: Abs, k: nat, i: nat, keyKnown: bool)
    requires Keyed(first) && second == AgreedAgenda(first)
    requires Pictures(w, first, second, s, a) && i < |a.views| && k < |a.sent|
    ensures Pictures(w, first, second, Apply(s, i, Handle(Cfg(w, i), s.elders[i], s.sent[k].msg, keyKnown)),
                     AbsApply(a, i, See(w.threshold, first == map[], i, a.views[i], a.sent[k], keyKnown)))
  {
    var h := Handle(Cfg(w, i), s.elders[i], s.sent[k].msg, keyKnown);
    var r := See(w.threshold, first == map[], i, a.views[i], a.sent[k], keyKnown);
    assert s.sent[k] == EnvelopeOf(w, first, second, a.sent[k]);
    DeliveryHandled(Cfg(w, i), first, second, a.views[i], a.sent[k], keyKnown, s.elders[i], s.sent[k].msg);
    RepliesOwn(w.threshold, first == map[], i, a.views[i], a.sent[k], keyKnown);
    ApplyRefines(w, first, second, s, a, i, h, r);
  }

  lemma StartRefines(w: World, first: Agenda, second: Agenda, s: Sys, a: Abs, step: Step)
    requires first == First(w) && !step.Deliver? && !step.Foreign?
    requires Pictures(w, first, second, s, a) && step.i < |a.views|
    ensures Pictures(w, first, second, Next(w, s, step), AbsApply(a, step.i, Started(step, a.views[step.i])))
  {
    var i, cfg := step.i, Cfg(w, step.i);
    SeeStart(w, first, second, a.views[i], step);
    var h := if step.StartOldie? then BeginOldie(cfg, s.elders[i], w.subjects) else BeginNewbie(s.elders[i]);
    ApplyRefines(w, first, second, s, a, i, h, Started(step, a.views[i]));
  }

  /** A message of another section is an error to every process, and changes nothing. */
  lemma ForeignHandled(cfg: Config, elder: Elder, msg: Msg, keyKnown: bool)
    requires msg.section != cfg.section
    ensures Handle(cfg, elder, msg, keyKnown) == Handled(elder, None)
  {
  }

  lemma ForeignRefines(w: World, s: Sys, step: Step)
    requires step.Foreign?
    ensures Next(w, s, step) == s
  {
    if step.i < |s.elders| && step.msg.section != w.section {
      ForeignHandled(Cfg(w, step.i), s.elders[step.i], step.msg, step.keyKnown);
    }
  }

  lemma NextRefines(w: World, first: Agenda, second: Agenda, s: Sys, a: Abs, step: Step)
    requires first == First(w) && Keyed(first) && second == AgreedAgenda(first)
    requires Pictures(w, first, second, s, a)
    ensures Pictures(w, first, second, Next(w, s, step), AbsNext(w.threshold, first == map[], a, step))
  {
    if step.Foreign? {
      ForeignRefines(w, s, step);
    } else if step.i < |a.views| {
      if !step.Deliver? {
        StartRefines(w, first, second, s, a, step);
      } else if step.k < |a.sent| {
        DeliverRefines(w, first, second, s, a, step.k, step.i, step.keyKnown);
      }
    }
  }

  /** Every run of the system is, state by state, the picture of a run of the machine of signer sets. */
  lemma {:induction false} ExecRefines(w: World, steps: seq<Step>)
    ensures Pictures(w, First(w), Second(w), Exec(w, steps), AbsExec(w.n, w.threshold, First(w) == map[], steps))
  {
    if steps != [] {
      var before := steps[..|steps| - 1];
      ExecRefines(w, before);
      CollectIsKeyed(w.subjects);
      NextRefines(w, First(w), Second(w), Exec(w, before),
                  AbsExec(w.n, w.threshold, First(w) == map[], before), steps[|steps| - 1]);
    }
  }
}
