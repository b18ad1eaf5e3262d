/** Progress of the payout protocol: enough messages from others complete an elder, and once nothing is left
    to deliver everyone is done. */
module RewardProgress {
  import opened Collections
  import opened RewardProcess
  import opened RewardCanon
  import opened RewardSystem
  import opened RewardAgreement

  // ---------- one elder, any messages ----------

  /** A view without whether its credits went out. */
  function Plain(view: View): View
  {
    if view.Settled? then Settled(true) else view
  }

  /** Key lookups decide over propagation only. */
  lemma PlainSee(threshold: nat, empty: bool, me: nat, view: View, note: Note, keyKnown: bool)
    ensures Plain(See(threshold, empty, me, view, note, keyKnown).view) == See(threshold, empty, me, Plain(view), note, true).view
  {
  }

  function SeeAll(threshold: nat, empty: bool, me: nat, start: View, notes: seq<Note>): View
  {
    if notes == [] then start
    else See(threshold, empty, me, SeeAll(threshold, empty, me, start, notes[..|notes| - 1]), notes[|notes| - 1], true).view
  }

  /** How an elder enters the protocol: as a newbie, or as an oldie with its own proposal. */
  ghost predicate Entering(me: nat, view: View)
  {
    view == Awaiting || view == Proposing({me})
  }

  /** What a view tells about the messages seen from others. */
  ghost predicate Recorded(threshold: nat, empty: bool, me: nat, notes: seq<Note>, view: View)
  {
    match view
    case Idle => false
    case Awaiting => notes == []
    case Proposing(signers) =>
      && me in signers
      && Accumulators(notes) == {}
      && Proposers(notes) - {me} <= signers
      && (|Proposers(notes) - {me}| >= 2 ==> !Quorum(threshold, empty, signers))
    case Accumulating(signers) =>
      && me in signers
      && Accumulators(notes) - {me} <= signers
      && (|Accumulators(notes) - {me}| >= 2 ==> !Quorum(threshold, empty, signers))
    case Settled(_) => true
  }

  lemma SendersGrow(notes: seq<Note>, note: Note)
    ensures Proposers(notes + [note]) == if note.Prop? then Proposers(notes) + {note.sender} else Proposers(notes)
    ensures Accumulators(notes + [note]) == if note.Acc? then Accumulators(notes) + {note.sender} else Accumulators(notes)
  {
    var all := notes + [note];
    assert forall m :: m in all <==> m in notes || m == note;
    if note.Prop? {
      assert forall x :: x in Proposers(all) <==> x in Proposers(notes) + {note.sender};
      assert forall x :: x in Accumulators(all) <==> x in Accumulators(notes);
    } else {
      assert forall x :: x in Proposers(all) <==> x in Proposers(notes);
      assert forall x :: x in Accumulators(all) <==> x in Accumulators(notes) + {note.sender};
    }
  }

  lemma AtMostOne(s: set<nat>, x: nat)
    requires s <= {x}
    ensures |s| <= 1
  {
    SubsetSize(s, {x});
  }

  lemma RecordNext(threshold: nat, empty: bool, me: nat, notes: seq<Note>, view: View, note: Note)
    requires Recorded(threshold, empty, me, notes, view)
    ensures Recorded(threshold, empty, me, notes + [note], See(threshold, empty, me, view, note, true).view)
  {
    var j, all := note.sender, notes + [note];
    SendersGrow(notes, note);
    var props, accs := Proposers(all) - {me}, Accumulators(all) - {me};
    if note.Prop? && view.Awaiting? {
      assert Proposers(notes) == {} && Accumulators(notes) == {};
      AtMostOne(props, j);
    } else if note.Acc? && (view.Awaiting? || view.Proposing?) {
      assert Accumulators(notes) == {};
      AtMostOne(accs, j);
    } else if note.Prop? && view.Proposing? {
      assert accs == {};
    }
  }

  lemma {:induction false} AllRecorded(threshold: nat, empty: bool, me: nat, start: View, notes: seq<Note>)
    requires Entering(me, start)
    ensures Recorded(threshold, empty, me, notes, SeeAll(threshold, empty, me, start, notes))
  {
    if notes == [] {
      assert Proposers(notes) - {me} == {};
    } else {
      var before := notes[..|notes| - 1];
      assert before + [notes[|notes| - 1]] == notes;
      AllRecorded(threshold, empty, me, start, before);
      RecordNext(threshold, empty, me, before, SeeAll(threshold, empty, me, start, before), notes[|notes| - 1]);
    }
  }

  /** At least two others that are a quorum together with the elder itself. */
  predicate OthersEnough(threshold: nat, empty: bool, me: nat, senders: set<nat>)
  {
    |senders - {me}| >= 2 && Quorum(threshold, empty, {me} + senders)
  }

  /** Two others that make a quorum with the elder itself suffice, whatever the threshold: their proposals carry it
      past proposing, their accumulations complete it, whatever else arrives and however often. */
  lemma OthersSuffice(threshold: nat, empty: bool, me: nat, start: View, notes: seq<Note>)
    requires Entering(me, start)
    ensures
      var view := SeeAll(threshold, empty, me, start, notes);
      && (OthersEnough(threshold, empty, me, Proposers(notes)) ==> view.Accumulating? || view.Settled?)
      && (OthersEnough(threshold, empty, me, Accumulators(notes)) ==> view.Settled?)
      && (notes != [] ==> !view.Awaiting?)
      && (Accumulators(notes) != {} ==> view.Accumulating? || view.Settled?)
  {
    AllRecorded(threshold, empty, me, start, notes);
    var view := SeeAll(threshold, empty, me, start, notes);
    if view.Proposing? {
      assert {me} + Proposers(notes) <= view.signers;
      SubsetSize({me} + Proposers(notes), view.signers);
    } else if view.Accumulating? {
      assert {me} + Accumulators(notes) <= view.signers;
      SubsetSize({me} + Accumulators(notes), view.signers);
    }
  }

  /** Where accumulations alone lead: the first one is only recorded, later ones are also evaluated. */
  ghost function AloneAt(threshold: nat, empty: bool, start: View, count: nat, signers: set<nat>): View
  {
    if count == 0 then start
    else if count >= 2 && Quorum(threshold, empty, signers) then Settled(true)
    else Accumulating(signers)
  }

  ghost function AloneView(threshold: nat, empty: bool, me: nat, start: View, notes: seq<Note>): View
  {
    AloneAt(threshold, empty, start, |notes|, {me} + Accumulators(notes))
  }

  lemma AloneStep(threshold: nat, empty: bool, me: nat, start: View, count: nat, signers: set<nat>, j: nat)
    requires Entering(me, start) && (count == 0 ==> signers == {me})
    ensures See(threshold, empty, me, AloneAt(threshold, empty, start, count, signers), Acc(j), true).view
         == AloneAt(threshold, empty, start, count + 1, signers + {j})
  {
    if Quorum(threshold, empty, signers) {
      QuorumGrows(threshold, empty, signers, signers + {j});
    }
  }

  lemma AloneNext(threshold: nat, empty: bool, me: nat, start: View, notes: seq<Note>, j: nat)
    requires Entering(me, start)
    ensures See(threshold, empty, me, AloneView(threshold, empty, me, start, notes), Acc(j), true).view
         == AloneView(threshold, empty, me, start, notes + [Acc(j)])
  {
    var signers := {me} + Accumulators(notes);
    assert notes == [] ==> Accumulators(notes) == {};
    AloneStep(threshold, empty, me, start, |notes|, signers, j);
    SendersGrow(notes, Acc(j));
    assert {me} + Accumulators(notes + [Acc(j)]) == signers + {j};
  }

  /** Without proposals in between, an elder is done exactly after two deliveries and a quorum counting itself.
      With a zero threshold a single accumulation therefore leaves it accumulating. */
  lemma {:induction false} AccumulationsAlone(threshold: nat, empty: bool, me: nat, start: View, notes: seq<Note>)
    requires Entering(me, start)
    requires forall m :: m in notes ==> m.Acc?
    ensures SeeAll(threshold, empty, me, start, notes) == AloneView(threshold, empty, me, start, notes)
    ensures SeeAll(threshold, empty, me, start, notes).Settled? <==>
            |notes| >= 2 && Quorum(threshold, empty, {me} + Accumulators(notes))
  {
    if notes != [] {
      var before, note := notes[..|notes| - 1], notes[|notes| - 1];
      assert before + [note] == notes && note in notes;
      AccumulationsAlone(threshold, empty, me, start, before);
      AloneNext(threshold, empty, me, start, before, note.sender);
    }
  }

  datatype Delivery = Delivery(msg: Msg, keyKnown: bool)

  function HandleAll(cfg: Config, elder: Elder, ds: seq<Delivery>): Elder
  {
    if ds == [] then elder
    else Handle(cfg, HandleAll(cfg, elder, ds[..|ds| - 1]), ds[|ds| - 1].msg, ds[|ds| - 1].keyKnown).elder
  }

  ghost predicate Carries(section: PublicKey, first: Agenda, second: Agenda, ds: seq<Delivery>, notes: seq<Note>)
  {
    |ds| == |notes| && forall k :: 0 <= k < |notes| ==> ds[k].msg == MsgOf(section, first, second, notes[k])
  }

  lemma {:induction false} HandleAllRefines(cfg: Config, first: Agenda, second: Agenda, start: View, ds: seq<Delivery>, notes: seq<Note>)
    returns (view: View)
    requires Keyed(first) && second == AgreedAgenda(first) && !start.Settled?
    requires Carries(cfg.section, first, second, ds, notes)
    ensures HandleAll(cfg, ElderOf(cfg.threshold, first, second, start), ds) == ElderOf(cfg.threshold, first, second, view)
    ensures Plain(view) == SeeAll(cfg.threshold, first == map[], cfg.index, start, notes)
  {
    view := start;
    if ds != [] {
      var k := |ds| - 1;
      var before := HandleAllRefines(cfg, first, second, start, ds[..k], notes[..k]);
      SeeEither(cfg, first, second, before, notes[k], ds[k].keyKnown);
      PlainSee(cfg.threshold, first == map[], cfg.index, before, notes[k], ds[k].keyKnown);
      view := See(cfg.threshold, first == map[], cfg.index, before, notes[k], ds[k].keyKnown).view;
    }
  }

  lemma KeepingStays(cfg: Config, elder: Elder, d: Delivery)
    requires elder.funds.Keeping?
    ensures Handle(cfg, elder, d.msg, d.keyKnown).elder == elder
  {
  }

  /** Whoever is done became so at some delivery, and stays as it was then. */
  lemma {:induction false} DoneAt(cfg: Config, elder: Elder, ds: seq<Delivery>) returns (m: nat)
    requires !elder.funds.Keeping? && HandleAll(cfg, elder, ds).funds.Keeping?
    ensures m < |ds|
    ensures !HandleAll(cfg, elder, ds[..m]).funds.Keeping?
    ensures HandleAll(cfg, elder, ds) == Handle(cfg, HandleAll(cfg, elder, ds[..m]), ds[m].msg, ds[m].keyKnown).elder
  {
    m := |ds| - 1;
    var before := ds[..m];
    if HandleAll(cfg, elder, before).funds.Keeping? {
      KeepingStays(cfg, HandleAll(cfg, elder, before), ds[m]);
      m := DoneAt(cfg, elder, before);
      assert before[..m] == ds[..m];
    }
  }

  lemma SettledByKey(threshold: nat, empty: bool, me: nat, view: View, note: Note, keyKnown: bool)
    requires !view.Settled?
    ensures
      var after := See(threshold, empty, me, view, note, keyKnown).view;
      after.Settled? ==> after == Settled(keyKnown)
  {
  }

  lemma KeepingIsSettled(threshold: nat, first: Agenda, second: Agenda, view: View)
    ensures ElderOf(threshold, first, second, view).funds.Keeping? <==> view.Settled?
    ensures view.Settled? ==>
              ElderOf(threshold, first, second, view) == Elder(Keeping, if view.told then Propagation(CanonProofs(second)) else [])
  {
  }

  /** The delivery that completes an elder decides what it propagates. */
  lemma CompletedBy(threshold: nat, first: Agenda, second: Agenda, me: nat, view: View, note: Note, keyKnown: bool)
    requires !view.Settled?
    requires ElderOf(threshold, first, second, See(threshold, first == map[], me, view, note, keyKnown).view).funds.Keeping?
    ensures ElderOf(threshold, first, second, See(threshold, first == map[], me, view, note, keyKnown).view)
         == Elder(Keeping, if keyKnown then Propagation(CanonProofs(second)) else [])
  {
    SettledByKey(threshold, first == map[], me, view, note, keyKnown);
    KeepingIsSettled(threshold, first, second, See(threshold, first == map[], me, view, note, keyKnown).view);
  }

  lemma HandledView(cfg: Config, first: Agenda, second: Agenda, view: View, note: Note, d: Delivery, elder: Elder)
    requires Keyed(first) && second == AgreedAgenda(first)
    requires elder == ElderOf(cfg.threshold, first, second, view) && d.msg == MsgOf(cfg.section, first, second, note)
    ensures Handle(cfg, elder, d.msg, d.keyKnown).elder
         == ElderOf(cfg.threshold, first, second, See(cfg.threshold, first == map[], cfg.index, view, note, d.keyKnown).view)
  {
    SeeEither(cfg, first, second, view, note, d.keyKnown);
  }

  lemma PaidWhenDone(cfg: Config, first: Agenda, second: Agenda, view: View, note: Note, d: Delivery, elder: Elder)
    requires Keyed(first) && second == AgreedAgenda(first)
    requires elder == ElderOf(cfg.threshold, first, second, view) && d.msg == MsgOf(cfg.section, first, second, note)
    requires !elder.funds.Keeping? && Handle(cfg, elder, d.msg, d.keyKnown).elder.funds.Keeping?
    ensures Handle(cfg, elder, d.msg, d.keyKnown).elder == Elder(Keeping, if d.keyKnown then Propagation(CanonProofs(second)) else [])
  {
    HandledView(cfg, first, second, view, note, d, elder);
    CompletedBy(cfg.threshold, first, second, cfg.index, view, note, d.keyKnown);
  }

  lemma ElderIsDone(cfg: Config, first: Agenda, second: Agenda, start: View, elder: Elder, ds: seq<Delivery>, notes: seq<Note>)
    requires Keyed(first) && second == AgreedAgenda(first)
    requires Entering(cfg.index, start) && elder == ElderOf(cfg.threshold, first, second, start)
    requires Carries(cfg.section, first, second, ds, notes)
    requires OthersEnough(cfg.threshold, first == map[], cfg.index, Accumulators(notes))
    ensures HandleAll(cfg, elder, ds).funds.Keeping?
  {
    SettledByOthers(cfg.threshold, first == map[], cfg.index, start, notes);
    SettledHandled(cfg, first, second, start, elder, ds, notes);
  }

  lemma SettledHandled(cfg: Config, first: Agenda, second: Agenda, start: View, elder: Elder, ds: seq<Delivery>, notes: seq<Note>)
    requires Keyed(first) && second == AgreedAgenda(first) && !start.Settled?
    requires elder == ElderOf(cfg.threshold, first, second, start)
    requires Carries(cfg.section, first, second, ds, notes)
    requires SeeAll(cfg.threshold, first == map[], cfg.index, start, notes).Settled?
    ensures HandleAll(cfg, elder, ds).funds.Keeping?
  {
    var view := HandleAllRefines(cfg, first, second, start, ds, notes);
    assert view.Settled?;
  }

  lemma EnteringIsNotDone(threshold: nat, first: Agenda, second: Agenda, me: nat, start: View)
    requires Entering(me, start)
    ensures !ElderOf(threshold, first, second, start).funds.Keeping?
  {
  }

  /** An elder that processes the accumulations of two or more others that are a quorum with itself, in any order,
      with duplicates and with proposals in between, is done, and has propagated the common proofs if the section
      key was known at the delivery that completed it. */
  lemma ElderCompletes(cfg: Config, first: Agenda, second: Agenda, start: View, elder: Elder, ds: seq<Delivery>, notes: seq<Note>)
    returns (m: nat)
    requires Keyed(first) && second == AgreedAgenda(first)
    requires Entering(cfg.index, start) && elder == ElderOf(cfg.threshold, first, second, start)
    requires Carries(cfg.section, first, second, ds, notes)
    requires OthersEnough(cfg.threshold, first == map[], cfg.index, Accumulators(notes))
    ensures m < |ds| && !HandleAll(cfg, elder, ds[..m]).funds.Keeping?
    ensures HandleAll(cfg, elder, ds) == Elder(Keeping, if ds[m].keyKnown then Propagation(CanonProofs(second)) else [])
  {
    ElderIsDone(cfg, first, second, start, elder, ds, notes);
    EnteringIsNotDone(cfg.threshold, first, second, cfg.index, start);
    m := DoneAt(cfg, elder, ds);
    PaidAt(cfg, first, second, start, elder, ds, notes, m);
  }

  lemma PaidAt(cfg: Config, first: Agenda, second: Agenda, start: View, elder: Elder, ds: seq<Delivery>, notes: seq<Note>, m: nat)
    requires Keyed(first) && second == AgreedAgenda(first) && !start.Settled?
    requires elder == ElderOf(cfg.threshold, first, second, start)
    requires Carries(cfg.section, first, second, ds, notes) && m < |ds|
    requires !HandleAll(cfg, elder, ds[..m]).funds.Keeping?
    requires Handle(cfg, HandleAll(cfg, elder, ds[..m]), ds[m].msg, ds[m].keyKnown).elder.funds.Keeping?
    ensures Handle(cfg, HandleAll(cfg, elder, ds[..m]), ds[m].msg, ds[m].keyKnown).elder
         == Elder(Keeping, if ds[m].keyKnown then Propagation(CanonProofs(second)) else [])
  {
    var before := HandleAllRefines(cfg, first, second, start, ds[..m], notes[..m]);
    PaidWhenDone(cfg, first, second, before, notes[m], ds[m], HandleAll(cfg, elder, ds[..m]));
  }

  lemma SettledByOthers(threshold: nat, empty: bool, me: nat, start: View, notes: seq<Note>)
    requires Entering(me, start)
    requires OthersEnough(threshold, empty, me, Accumulators(notes))
    ensures SeeAll(threshold, empty, me, start, notes).Settled?
  {
    OthersSuffice(threshold, empty, me, start, notes);
  }

  // ---------- the whole section ----------

  /** The indices of the messages delivered to elder i since it began the split. */
  function Inbox(w: World, steps: seq<Step>, i: nat): seq<nat>
  {
    if steps == [] then []
    else
      var before, last := steps[..|steps| - 1], steps[|steps| - 1];
      var s := Exec(w, before);
      if last.Deliver? && last.i == i && i < |s.elders| && last.k < |s.sent| && !s.elders[i].funds.NotStarted?
      then Inbox(w, before, i) + [last.k]
      else Inbox(w, before, i)
  }

  /** How elder i began, if it did. */
  function Beginning(steps: seq<Step>, i: nat): View
  {
    if steps == [] then Idle
    else
      var earlier, last := Beginning(steps[..|steps| - 1], i), steps[|steps| - 1];
      if !earlier.Idle? || last.i != i then earlier
      else if last.StartOldie? then Proposing({i})
      else if last.StartNewbie? then Awaiting
      else Idle
  }

  function NotesAt(sent: seq<Note>, ks: seq<nat>): (notes: seq<Note>)
    requires forall x :: x in ks ==> x < |sent|
    ensures |notes| == |ks| && forall m :: 0 <= m < |ks| ==> ks[m] < |sent| && notes[m] == sent[ks[m]]
  {
    assert forall m :: 0 <= m < |ks| ==> ks[m] in ks;
    seq(|ks|, m requires 0 <= m < |ks| => sent[ks[m]])
  }

  /** The view of an elder is what it makes of its inbox. */
  ghost predicate FromInbox(threshold: nat, empty: bool, a: Abs, i: nat, start: View, inbox: seq<nat>)
    requires i < |a.views|
  {
    && (forall x :: x in inbox ==> x < |a.sent|)
    && (if start.Idle? then a.views[i].Idle? && inbox == []
        else Entering(i, start) && Plain(a.views[i]) == SeeAll(threshold, empty, i, start, NotesAt(a.sent, inbox)))
  }

  lemma SentGrows(threshold: nat, empty: bool, a: Abs, i: nat, start: View, inbox: seq<nat>, b: Abs)
    requires i < |a.views| && FromInbox(threshold, empty, a, i, start, inbox)
    requires |b.views| == |a.views| && b.views[i] == a.views[i] && a.sent <= b.sent
    ensures FromInbox(threshold, empty, b, i, start, inbox)
  {
    assert NotesAt(b.sent, inbox) == NotesAt(a.sent, inbox);
  }

  lemma {:induction false} SeeAllNotIdle(threshold: nat, empty: bool, me: nat, start: View, notes: seq<Note>)
    requires !start.Idle?
    ensures !SeeAll(threshold, empty, me, start, notes).Idle?
  {
    if notes != [] {
      SeeAllNotIdle(threshold, empty, me, start, notes[..|notes| - 1]);
    }
  }

  lemma ReceiveOne(threshold: nat, empty: bool, a: Abs, i: nat, start: View, inbox: seq<nat>, k: nat, keyKnown: bool, b: Abs)
    requires i < |a.views| && FromInbox(threshold, empty, a, i, start, inbox) && !start.Idle?
    requires k < |a.sent| && |b.views| == |a.views| && a.sent <= b.sent
    requires b.views[i] == See(threshold, empty, i, a.views[i], a.sent[k], keyKnown).view
    ensures FromInbox(threshold, empty, b, i, start, inbox + [k])
  {
    var more := inbox + [k];
    PlainSee(threshold, empty, i, a.views[i], a.sent[k], keyKnown);
    assert forall x :: x in more ==> x in inbox || x == k;
    assert more[..|more| - 1] == inbox;
    var notes := NotesAt(b.sent, more);
    assert notes[..|notes| - 1] == NotesAt(a.sent, inbox);
    assert notes[|notes| - 1] == a.sent[k];
  }

  lemma BeginOne(threshold: nat, empty: bool, a: Abs, step: Step, b: Abs)
    requires step.i < |a.views| && !step.Deliver? && !step.Foreign? && FromInbox(threshold, empty, a, step.i, Idle, [])
    requires b == AbsApply(a, step.i, Started(step, a.views[step.i]))
    ensures FromInbox(threshold, empty, b, step.i, if step.StartOldie? then Proposing({step.i}) else Awaiting, [])
  {
  }

  /** One step, seen from elder i. */
  lemma StepExplains(threshold: nat, empty: bool, a: Abs, i: nat, start: View, inbox: seq<nat>, step: Step)
    requires i < |a.views| && FromInbox(threshold, empty, a, i, start, inbox)
    ensures
      var b := AbsNext(threshold, empty, a, step);
      var start' :=
        if !start.Idle? || step.i != i then start
        else if step.StartOldie? then Proposing({i})
        else if step.StartNewbie? then Awaiting
        else Idle;
      var inbox' := if step.Deliver? && step.i == i && step.k < |a.sent| && !a.views[i].Idle? then inbox + [step.k] else inbox;
      |b.views| == |a.views| && FromInbox(threshold, empty, b, i, start', inbox')
  {
    var b := AbsNext(threshold, empty, a, step);
    if !start.Idle? {
      SeeAllNotIdle(threshold, empty, i, start, NotesAt(a.sent, inbox));
    }
    if step.i != i || step.Foreign? {
      SentGrows(threshold, empty, a, i, start, inbox, b);
    } else if !step.Deliver? && start.Idle? {
      BeginOne(threshold, empty, a, step, b);
    } else if step.Deliver? && step.k < |a.sent| && !start.Idle? {
      ReceiveOne(threshold, empty, a, i, start, inbox, step.k, step.keyKnown, b);
    } else {
      SentGrows(threshold, empty, a, i, start, inbox, b);
    }
  }

  lemma StartedOrNot(w: World, s: Sys, a: Abs, i: nat)
    requires Pictures(w, First(w), Second(w), s, a) && i < |a.views|
    ensures i < |s.elders| && (s.elders[i].funds.NotStarted? <==> a.views[i].Idle?)
  {
  }

  lemma {:induction false} InboxExplains(w: World, steps: seq<Step>, i: nat)
    requires i < w.n
    ensures |Machine(w, steps).views| == w.n
    ensures FromInbox(w.threshold, First(w) == map[], Machine(w, steps), i, Beginning(steps, i), Inbox(w, steps, i))
  {
    if steps != [] {
      var before, last := steps[..|steps| - 1], steps[|steps| - 1];
      InboxExplains(w, before, i);
      ExecRefines(w, before);
      StartedOrNot(w, Exec(w, before), Machine(w, before), i);
      StepExplains(w.threshold, First(w) == map[], Machine(w, before), i, Beginning(before, i), Inbox(w, before, i), last);
    }
  }

  /** Everyone has begun, and has received every message of the others since, if not its own. */
  ghost predicate Quiescent(w: World, steps: seq<Step>)
  {
    var s := Exec(w, steps);
    && (forall i :: 0 <= i < |s.elders| ==> !s.elders[i].funds.NotStarted?)
    && (forall i, k :: 0 <= i < |s.elders| && 0 <= k < |s.sent| && s.sent[k].sender != i ==> k in Inbox(w, steps, i))
  }

  /** The same, of the machine. */
  ghost predicate AllHeard(threshold: nat, empty: bool, a: Abs, starts: seq<View>, inboxes: seq<seq<nat>>)
  {
    && |starts| == |inboxes| == |a.views|
    && (forall i :: 0 <= i < |a.views| ==> !a.views[i].Idle? && FromInbox(threshold, empty, a, i, starts[i], inboxes[i]))
    && (forall i, k :: 0 <= i < |a.views| && 0 <= k < |a.sent| && a.sent[k].sender != i ==> k in inboxes[i])
  }

  lemma Heard(threshold: nat, empty: bool, a: Abs, starts: seq<View>, inboxes: seq<seq<nat>>, i: nat, note: Note)
    requires AllHeard(threshold, empty, a, starts, inboxes) && i < |a.views|
    requires note in a.sent && note.sender != i
    ensures note in NotesAt(a.sent, inboxes[i])
  {
    var k :| 0 <= k < |a.sent| && a.sent[k] == note;
    var m :| 0 <= m < |inboxes[i]| && inboxes[i][m] == k;
    assert NotesAt(a.sent, inboxes[i])[m] == note;
  }

  ghost function Range(n: nat): (s: set<nat>)
    ensures |s| == n && forall x :: x in s <==> 0 <= x < n
  {
    if n == 0 then {} else Range(n - 1) + {n - 1}
  }

  /** Enough elders for everyone to complete on the messages of the others. */
  predicate SectionEnough(threshold: nat, empty: bool, n: nat)
  {
    n >= 3 && (empty || n >= threshold + 1)
  }

  lemma AllOthersEnough(threshold: nat, empty: bool, me: nat, n: nat, senders: set<nat>)
    requires SectionEnough(threshold, empty, n) && me < n
    requires forall x :: 0 <= x < n && x != me ==> x in senders
    ensures OthersEnough(threshold, empty, me, senders)
  {
    SubsetSize(Range(n) - {me}, senders - {me});
    SubsetSize(Range(n), {me} + senders);
  }

  /** Whoever hears of an accumulation accumulates. */
  lemma JoinsAccumulation(threshold: nat, empty: bool, a: Abs, starts: seq<View>, inboxes: seq<seq<nat>>, i: nat, j: nat)
    requires AllHeard(threshold, empty, a, starts, inboxes) && i < |a.views|
    requires ViewOk(threshold, empty, a.sent, i, a.views[i])
    requires Acc(j) in a.sent
    ensures Acc(i) in a.sent
  {
    if i != j {
      Heard(threshold, empty, a, starts, inboxes, i, Acc(j));
      assert j in Accumulators(NotesAt(a.sent, inboxes[i]));
      OthersSuffice(threshold, empty, i, starts[i], NotesAt(a.sent, inboxes[i]));
    }
  }

  lemma JoinsProposal(threshold: nat, empty: bool, a: Abs, starts: seq<View>, inboxes: seq<seq<nat>>, i: nat, j: nat)
    requires AllHeard(threshold, empty, a, starts, inboxes) && i < |a.views|
    requires ViewOk(threshold, empty, a.sent, i, a.views[i])
    requires Prop(j) in a.sent
    ensures Prop(i) in a.sent || Acc(i) in a.sent
  {
    if i != j {
      Heard(threshold, empty, a, starts, inboxes, i, Prop(j));
      OthersSuffice(threshold, empty, i, starts[i], NotesAt(a.sent, inboxes[i]));
    }
  }

  lemma AllOthersAccumulate(threshold: nat, empty: bool, a: Abs, starts: seq<View>, inboxes: seq<seq<nat>>, i: nat)
    requires AllHeard(threshold, empty, a, starts, inboxes) && i < |a.views|
    requires SectionEnough(threshold, empty, |a.views|)
    requires forall x :: 0 <= x < |a.views| ==> Acc(x) in a.sent
    ensures a.views[i].Settled?
  {
    var notes := NotesAt(a.sent, inboxes[i]);
    forall x | 0 <= x < |a.views| && x != i ensures x in Accumulators(notes) {
      Heard(threshold, empty, a, starts, inboxes, i, Acc(x));
    }
    AllOthersEnough(threshold, empty, i, |a.views|, Accumulators(notes));
    OthersSuffice(threshold, empty, i, starts[i], notes);
  }

  lemma AllOthersPropose(threshold: nat, empty: bool, a: Abs, starts: seq<View>, inboxes: seq<seq<nat>>, i: nat)
    requires AllHeard(threshold, empty, a, starts, inboxes) && i < |a.views|
    requires ViewOk(threshold, empty, a.sent, i, a.views[i])
    requires SectionEnough(threshold, empty, |a.views|)
    requires forall x :: 0 <= x < |a.views| ==> Prop(x) in a.sent
    ensures Acc(i) in a.sent
  {
    var notes := NotesAt(a.sent, inboxes[i]);
    forall x | 0 <= x < |a.views| && x != i ensures x in Proposers(notes) {
      Heard(threshold, empty, a, starts, inboxes, i, Prop(x));
    }
    AllOthersEnough(threshold, empty, i, |a.views|, Proposers(notes));
    OthersSuffice(threshold, empty, i, starts[i], notes);
  }

  /** A proposal alone cannot be the end of it. */
  lemma SomeoneAccumulates(threshold: nat, empty: bool, a: Abs, starts: seq<View>, inboxes: seq<seq<nat>>, note: Note) returns (j: nat)
    requires AllHeard(threshold, empty, a, starts, inboxes) && Inv(|a.views|, threshold, empty, a)
    requires SectionEnough(threshold, empty, |a.views|)
    requires note in a.sent
    ensures Acc(j) in a.sent
  {
    j := note.sender;
    if note.Prop? {
      forall i | 0 <= i < |a.views| ensures Prop(i) in a.sent || Acc(i) in a.sent {
        JoinsProposal(threshold, empty, a, starts, inboxes, i, note.sender);
      }
      if i: nat :| i < |a.views| && Acc(i) in a.sent {
        j := i;
      } else {
        AllOthersPropose(threshold, empty, a, starts, inboxes, 0);
        j := 0;
      }
    }
  }

  lemma AllSettle(threshold: nat, empty: bool, a: Abs, starts: seq<View>, inboxes: seq<seq<nat>>, i: nat)
    requires AllHeard(threshold, empty, a, starts, inboxes) && Inv(|a.views|, threshold, empty, a)
    requires SectionEnough(threshold, empty, |a.views|)
    requires a.sent != [] && i < |a.views|
    ensures a.views[i].Settled?
  {
    var j := SomeoneAccumulates(threshold, empty, a, starts, inboxes, a.sent[0]);
    forall x | 0 <= x < |a.views| ensures Acc(x) in a.sent {
      JoinsAccumulation(threshold, empty, a, starts, inboxes, x, j);
    }
    AllOthersAccumulate(threshold, empty, a, starts, inboxes, i);
  }

  lemma BegunAndExplained(w: World, steps: seq<Step>, i: nat)
    requires Quiescent(w, steps) && i < w.n
    ensures i < |Machine(w, steps).views| && !Machine(w, steps).views[i].Idle?
    ensures FromInbox(w.threshold, First(w) == map[], Machine(w, steps), i, Beginning(steps, i), Inbox(w, steps, i))
  {
    ExecRefines(w, steps);
    InboxExplains(w, steps, i);
    StartedOrNot(w, Exec(w, steps), Machine(w, steps), i);
  }

  lemma OthersInInbox(w: World, steps: seq<Step>, a: Abs, i: nat, k: nat)
    requires Quiescent(w, steps) && a == Machine(w, steps)
    requires i < |a.views| && k < |a.sent| && a.sent[k].sender != i
    ensures k in Inbox(w, steps, i)
  {
    ExecRefines(w, steps);
    assert Exec(w, steps).sent[k].sender == a.sent[k].sender;
  }

  lemma QuiescenceIsHeard(w: World, steps: seq<Step>) returns (starts: seq<View>, inboxes: seq<seq<nat>>)
    requires Quiescent(w, steps)
    ensures AllHeard(w.threshold, First(w) == map[], Machine(w, steps), starts, inboxes)
    ensures |inboxes| == w.n && forall j :: 0 <= j < w.n ==> inboxes[j] == Inbox(w, steps, j)
  {
    var a, t, empty := Machine(w, steps), w.threshold, First(w) == map[];
    AlwaysInv(w.n, t, empty, steps);
    starts := seq(w.n, j requires 0 <= j => Beginning(steps, j));
    inboxes := seq(w.n, j requires 0 <= j => Inbox(w, steps, j));
    forall j | 0 <= j < w.n
      ensures !a.views[j].Idle? && FromInbox(t, empty, a, j, starts[j], inboxes[j])
    {
      BegunAndExplained(w, steps, j);
    }
    forall j, k | 0 <= j < w.n && 0 <= k < |a.sent| && a.sent[k].sender != j ensures k in inboxes[j] {
      OthersInInbox(w, steps, a, j, k);
    }
  }

  lemma EveryoneIsDone(w: World, steps: seq<Step>, i: nat)
    requires SectionEnough(w.threshold, First(w) == map[], w.n)
    requires Quiescent(w, steps) && Exec(w, steps).sent != []
    requires i < |Exec(w, steps).elders|
    ensures Exec(w, steps).elders[i].funds.Keeping?
  {
    ExecRefines(w, steps);
    AlwaysInv(w.n, w.threshold, First(w) == map[], steps);
    var starts, inboxes := QuiescenceIsHeard(w, steps);
    AllSettle(w.threshold, First(w) == map[], Machine(w, steps), starts, inboxes, i);
  }

  /** With three elders or more, and a quorum among them, a section with nothing left to deliver is done: every
      elder has completed, and has propagated the common proofs if it knew the section key at that step. */
  lemma EveryoneSettles(w: World, steps: seq<Step>, i: nat) returns (m: nat)
    requires SectionEnough(w.threshold, First(w) == map[], w.n)
    requires Quiescent(w, steps) && Exec(w, steps).sent != []
    requires i < |Exec(w, steps).elders|
    ensures CompletesAt(w, steps, i, m) && steps[m].Deliver?
    ensures Exec(w, steps).elders[i] == Elder(Keeping, if steps[m].keyKnown then Propagation(CanonProofs(Second(w))) else [])
  {
    EveryoneIsDone(w, steps, i);
    m := DoneCompleted(w, steps, i);
    CompletionPays(w, steps, i, m);
  }
}
