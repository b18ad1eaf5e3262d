/** What the stages and messages look like when every elder works on the same credits: they are determined
    by the set of elders whose shares have been gathered. */
module RewardCanon {
  import opened Collections
  import opened RewardStage
  import opened RewardProcess

  /** The credits of a phase, keyed by their own id. */
  type Agenda = map<CreditId, Payload>

  ghost predicate Keyed(a: Agenda)
  {
    forall id :: id in a ==> IdOf(a[id]) == id
  }

  function ShareMap(signers: set<nat>, p: Payload): map<nat, BlsShare>
  {
    map i | i in signers :: BlsShare(i, p)
  }

  function CanonTally(threshold: nat, p: Payload, signers: set<nat>): Tally
  {
    Tally(p, ShareMap(signers, p), if |signers| >= 1 + threshold then Some(Combined(p)) else None)
  }

  function Canon(threshold: nat, a: Agenda, signers: set<nat>): Tallies
  {
    map id | id in a :: CanonTally(threshold, a[id], signers)
  }

  function CanonEntry(p: Payload, signer: nat): Entry
  {
    Entry(p, SigShare(signer, BlsShare(signer, p)))
  }

  function CanonEntries(a: Agenda, ids: seq<CreditId>, signer: nat): (es: seq<Entry>)
    requires forall id :: id in ids ==> id in a
    ensures |es| == |ids|
    ensures forall i :: 0 <= i < |es| ==> ids[i] in a && es[i] == CanonEntry(a[ids[i]], signer)
  {
    assert forall i :: 0 <= i < |ids| ==> ids[i] in ids;
    seq(|ids|, i requires 0 <= i < |ids| => CanonEntry(a[ids[i]], signer))
  }

  /** The shares an elder sends for the whole agenda, in id order. */
  function CanonShares(a: Agenda, signer: nat): seq<Entry>
  {
    CanonEntries(a, SortedKeys(a.Keys), signer)
  }

  // ---------- one tally ----------

  lemma CombineShares(p: Payload, signers: set<nat>)
    requires signers != {}
    ensures ShareMap(signers, p).Keys == signers
    ensures Combine(ShareMap(signers, p)) == Combined(p)
  {
  }

  lemma CanonTallyGrows(threshold: nat, p: Payload, signers: set<nat>, j: nat)
    ensures TallyWith(threshold, CanonTally(threshold, p, signers), SigShare(j, BlsShare(j, p)))
         == CanonTally(threshold, p, signers + {j})
  {
    if j in signers {
      assert signers + {j} == signers;
    } else {
      var grown := signers + {j};
      assert ShareMap(signers, p)[j := BlsShare(j, p)] == ShareMap(grown, p);
      CombineShares(p, grown);
      assert |ShareMap(grown, p)| == |ShareMap(grown, p).Keys| == |grown|;
    }
  }

  lemma SignedIsCanon(cfg: Config, p: Payload)
    ensures Signed(cfg, p) == CanonTally(cfg.threshold, p, {cfg.index})
  {
    assert ShareMap({}, p) == map[];
    assert CanonTally(cfg.threshold, p, {}) == Unsigned(p);
    CanonTallyGrows(cfg.threshold, p, {}, cfg.index);
    assert {} + {cfg.index} == {cfg.index};
  }

  // ---------- whole agendas ----------

  lemma SignAllIsCanon(cfg: Config, subjects: seq<Payload>)
    ensures SignAll(cfg, subjects) == Canon(cfg.threshold, Collect(subjects), {cfg.index})
  {
    var c := Collect(subjects);
    forall id | id in c ensures Signed(cfg, c[id]) == CanonTally(cfg.threshold, c[id], {cfg.index}) {
      SignedIsCanon(cfg, c[id]);
    }
  }

  /** The tallies when the shares of j have been added for the ids in `done`. */
  function Mixed(threshold: nat, a: Agenda, signers: set<nat>, j: nat, done: seq<CreditId>): Tallies
  {
    map id | id in a :: CanonTally(threshold, a[id], if id in done then signers + {j} else signers)
  }

  lemma {:induction false} AddPrefix(threshold: nat, a: Agenda, signers: set<nat>, j: nat, ids: seq<CreditId>, k: nat)
    requires Keyed(a) && k <= |ids| && Increasing(ids)
    requires forall id :: id in ids ==> id in a
    ensures AddAll(threshold, Canon(threshold, a, signers), CanonEntries(a, ids, j)[..k])
         == Ok(Mixed(threshold, a, signers, j, ids[..k]))
  {
    var entries := CanonEntries(a, ids, j);
    if k == 0 {
      assert ids[..0] == [];
      MixNothing(threshold, a, signers, j);
    } else {
      AddPrefix(threshold, a, signers, j, ids, k - 1);
      var m := Mixed(threshold, a, signers, j, ids[..k - 1]);
      AddAllNext(threshold, Canon(threshold, a, signers), entries, k - 1, m);
      MixNext(threshold, a, signers, j, ids, k - 1);
    }
  }

  lemma MixNothing(threshold: nat, a: Agenda, signers: set<nat>, j: nat)
    ensures Mixed(threshold, a, signers, j, []) == Canon(threshold, a, signers)
  {
  }

  lemma MixNext(threshold: nat, a: Agenda, signers: set<nat>, j: nat, ids: seq<CreditId>, k: nat)
    requires Keyed(a) && k < |ids| && Increasing(ids) && ids[k] in a
    ensures SigAdded(threshold, Mixed(threshold, a, signers, j, ids[..k]), IdOf(a[ids[k]]), CanonEntry(a[ids[k]], j).sig)
         == Ok(Mixed(threshold, a, signers, j, ids[..k + 1]))
  {
    var id := ids[k];
    assert id !in ids[..k];
    assert ids[..k + 1] == ids[..k] + [id];
    CanonTallyGrows(threshold, a[id], signers, j);
    var before, after := Mixed(threshold, a, signers, j, ids[..k]), Mixed(threshold, a, signers, j, ids[..k + 1]);
    assert before[id := CanonTally(threshold, a[id], signers + {j})] == after;
  }

  lemma MixEverything(threshold: nat, a: Agenda, signers: set<nat>, j: nat, ids: seq<CreditId>)
    requires forall id :: id in a ==> id in ids
    ensures Mixed(threshold, a, signers, j, ids) == Canon(threshold, a, signers + {j})
  {
  }

  lemma AddListed(threshold: nat, a: Agenda, signers: set<nat>, j: nat, ids: seq<CreditId>)
    requires Keyed(a) && Increasing(ids)
    requires forall id :: id in ids <==> id in a
    ensures AddAll(threshold, Canon(threshold, a, signers), CanonEntries(a, ids, j)) == Ok(Canon(threshold, a, signers + {j}))
  {
    var entries := CanonEntries(a, ids, j);
    AddPrefix(threshold, a, signers, j, ids, |ids|);
    assert entries[..|ids|] == entries && ids[..|ids|] == ids;
    MixEverything(threshold, a, signers, j, ids);
  }

  /** A full message adds its sender to the signers of every credit. */
  lemma AddAllIsCanon(threshold: nat, a: Agenda, signers: set<nat>, j: nat)
    requires Keyed(a)
    ensures AddAll(threshold, Canon(threshold, a, signers), CanonShares(a, j)) == Ok(Canon(threshold, a, signers + {j}))
  {
    AddListed(threshold, a, signers, j, SortedKeys(a.Keys));
  }

  lemma {:induction false} EntriesAreCanon(threshold: nat, a: Agenda, signers: set<nat>, ids: seq<CreditId>, j: nat)
    requires j in signers
    requires forall id :: id in ids ==> id in a
    ensures EntriesFor(Canon(threshold, a, signers), ids, j) == CanonEntries(a, ids, j)
  {
    if ids == [] {
    } else {
      assert ids[0] in ids;
      EntriesAreCanon(threshold, a, signers, ids[1..], j);
      assert CanonEntries(a, ids, j) == [CanonEntry(a[ids[0]], j)] + CanonEntries(a, ids[1..], j);
    }
  }

  lemma SharesAreCanon(threshold: nat, a: Agenda, signers: set<nat>, j: nat)
    requires j in signers
    ensures SharesOf(Canon(threshold, a, signers), j) == CanonShares(a, j)
  {
    var tallies := Canon(threshold, a, signers);
    assert tallies.Keys == a.Keys;
    EntriesAreCanon(threshold, a, signers, SortedKeys(a.Keys), j);
  }

  /** Listing an agenda and collecting the list gives the agenda back. */
  lemma {:induction false} CollectListed(a: Agenda, ids: seq<CreditId>, ps: seq<Payload>, k: nat)
    requires Keyed(a) && k <= |ids| == |ps|
    requires forall i :: 0 <= i < |ids| ==> ids[i] in a && ps[i] == a[ids[i]]
    ensures Collect(ps[..k]) == map id | id in a && id in ids[..k] :: a[id]
  {
    if k > 0 {
      CollectListed(a, ids, ps, k - 1);
      assert ps[..k][..k - 1] == ps[..k - 1];
      assert ids[..k] == ids[..k - 1] + [ids[k - 1]];
    }
  }

  lemma CollectAll(a: Agenda, ids: seq<CreditId>, ps: seq<Payload>)
    requires Keyed(a) && |ids| == |ps|
    requires forall id :: id in a ==> id in ids
    requires forall i :: 0 <= i < |ids| ==> ids[i] in a && ps[i] == a[ids[i]]
    ensures Collect(ps) == a
  {
    CollectListed(a, ids, ps, |ps|);
    assert ps[..|ps|] == ps && ids[..|ps|] == ids;
  }

  lemma CollectShares(a: Agenda, j: nat)
    requires Keyed(a)
    ensures Collect(Subjects(CanonShares(a, j))) == a
  {
    CollectAll(a, SortedKeys(a.Keys), Subjects(CanonShares(a, j)));
  }

  lemma {:induction false} CollectIsKeyed(subjects: seq<Payload>)
    ensures Keyed(Collect(subjects))
  {
    if subjects != [] {
      CollectIsKeyed(subjects[..|subjects| - 1]);
    }
  }

  // ---------- agreement ----------

  /** Every credit has its agreement: trivially so when there is none, else with enough signers. */
  predicate Enough(threshold: nat, a: Agenda, signers: set<nat>)
  {
    a == map[] || |signers| >= 1 + threshold
  }

  function Agreements(a: Agenda): map<CreditId, Signature>
  {
    map id | id in a :: Combined(a[id])
  }

  lemma PendingIsCanon(threshold: nat, a: Agenda, signers: set<nat>)
    ensures PendingAgreements(Canon(threshold, a, signers)) ==
            if Enough(threshold, a, signers) then Some(Agreements(a)) else None
  {
    var tallies := Canon(threshold, a, signers);
    AllOrNothing(tallies);
    if a != map[] {
      var id :| id in a;
      assert tallies[id].pending.Some? <==> |signers| >= 1 + threshold;
    }
    if Enough(threshold, a, signers) {
      assert forall k :: k in tallies ==> tallies[k].pending.Some?;
      assert PendingAgreements(tallies).value == Agreements(a);
    }
  }

  /** The second phase is about the credits together with the section's agreement on them. */
  function AgreedAgenda(a: Agenda): Agenda
  {
    map id | id in a :: Agreed(SignedCredit(CreditOf(a[id]), Combined(a[id])))
  }

  lemma AgreedKeys(threshold: nat, a: Agenda, signers: set<nat>)
    requires Keyed(a)
    ensures Keyed(AgreedAgenda(a)) && AgreedAgenda(a).Keys == a.Keys
    ensures Agreements(a).Keys == a.Keys && Canon(threshold, a, signers).Keys == a.Keys
  {
  }

  lemma AgreedListed(tallies: Tallies, a: Agenda, ids: seq<CreditId>)
    requires Keyed(a) && Keyed(AgreedAgenda(a)) && AgreedAgenda(a).Keys == Agreements(a).Keys == tallies.Keys == a.Keys
    requires forall id :: id in a ==> tallies[id].subject == a[id]
    requires forall id :: id in ids <==> id in a
    ensures Collect(AgreedSubjects(tallies, Agreements(a), ids)) == AgreedAgenda(a)
  {
    CollectAll(AgreedAgenda(a), ids, AgreedSubjects(tallies, Agreements(a), ids));
  }

  lemma AgreedIsCanon(threshold: nat, a: Agenda, signers: set<nat>)
    requires Keyed(a)
    ensures Keyed(AgreedAgenda(a)) && Agreements(a).Keys == a.Keys && Canon(threshold, a, signers).Keys == a.Keys
    ensures Collect(AgreedSubjects(Canon(threshold, a, signers), Agreements(a), SortedKeys(Agreements(a).Keys))) == AgreedAgenda(a)
  {
    AgreedKeys(threshold, a, signers);
    AgreedListed(Canon(threshold, a, signers), a, SortedKeys(a.Keys));
  }

  /** The proofs every elder ends with. */
  function CanonProofs(b: Agenda): map<CreditId, CreditProof>
  {
    map id | id in b :: CreditProof(SignedOf(b[id]), Combined(b[id]))
  }

  lemma ProofsAreCanon(threshold: nat, b: Agenda, signers: set<nat>)
    ensures Proofs(Canon(threshold, b, signers), Agreements(b)) == CanonProofs(b)
  {
  }
}
