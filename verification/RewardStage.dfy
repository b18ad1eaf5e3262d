/** Credits, signature shares and the tallies that gather shares until a threshold is passed. */
module RewardStage {
  import opened Collections

  type CreditId = nat

  /** The text of a reward credit, as the two values it is formatted from. */
  datatype Memo = Memo(age: nat, section: PublicKey)

  datatype Credit = Credit(id: CreditId, amount: nat, recipient: PublicKey, msg: Memo)

  /** A signature of the whole section; `Mangled` comes from shares that do not belong together. */
  datatype Signature = Combined(payload: Payload) | Mangled

  datatype SignedCredit = SignedCredit(credit: Credit, actorSignature: Signature)

  /** What gets signed: a proposed credit in the first phase, an agreed one in the second. */
  datatype Payload = Proposed(credit: Credit) | Agreed(signed: SignedCredit)

  /** The share made by the secret key share of `signer`. */
  datatype BlsShare = BlsShare(signer: nat, payload: Payload)

  /** A share together with the index it claims. */
  datatype SigShare = SigShare(index: nat, share: BlsShare)

  datatype CreditProof = CreditProof(signed: SignedCredit, replicasSig: Signature)

  /** A `CreditProposal` or a `CreditAccumulation`: its subject, the shares seen and the agreement reached. */
  datatype Tally = Tally(subject: Payload, signatures: map<nat, BlsShare>, pending: Option<Signature>)

  /** One reward of a message: its subject and the sender's share. */
  datatype Entry = Entry(subject: Payload, sig: SigShare)

  type Tallies = map<CreditId, Tally>

  datatype Error = InvalidOwner | Logic | InvalidRewardStage

  function CreditOf(p: Payload): Credit
  {
    match p
    case Proposed(credit) => credit
    case Agreed(signed) => signed.credit
  }

  function IdOf(p: Payload): CreditId
  {
    CreditOf(p).id
  }

  predicate OneMessage(shares: map<nat, BlsShare>, p: Payload)
  {
    forall i :: i in shares ==> shares[i] == BlsShare(i, p)
  }

  /** `combine_signatures` of enough shares: a function of the message when every share is over it. */
  function Combine(shares: map<nat, BlsShare>): Signature
    requires shares.Keys != {}
  {
    var p := shares[Least(shares.Keys)].payload;
    if OneMessage(shares, p) then Combined(p) else Mangled
  }

  /** Whether the share at this index is known already, and if so whether it is the same. */
  function Check(sig: SigShare, signatures: map<nat, BlsShare>): Option<bool>
  {
    if sig.index in signatures then Some(signatures[sig.index] == sig.share) else None
  }

  function TallyWith(threshold: nat, tally: Tally, sig: SigShare): Tally
  {
    if Check(sig, tally.signatures) == Some(true) then tally
    else
      var signatures := tally.signatures[sig.index := sig.share];
      assert sig.index in signatures.Keys;
      var pending := if |signatures| >= 1 + threshold then Some(Combine(signatures)) else tally.pending;
      Tally(tally.subject, signatures, pending)
  }

  function SigAdded(threshold: nat, tallies: Tallies, id: CreditId, sig: SigShare): Result<Tallies, Error>
  {
    if id !in tallies then Err(Logic)
    else Ok(tallies[id := TallyWith(threshold, tallies[id], sig)])
  }

  /** Adding the shares of a message one after the other, stopping at the first unknown credit. */
  function AddAll(threshold: nat, tallies: Tallies, entries: seq<Entry>): Result<Tallies, Error>
  {
    if entries == [] then Ok(tallies)
    else
      var last := entries[|entries| - 1];
      match AddAll(threshold, tallies, entries[..|entries| - 1])
      case Err(e) => Err(e)
      case Ok(m) => SigAdded(threshold, m, IdOf(last.subject), last.sig)
  }

  lemma AddAllNext(threshold: nat, start: Tallies, entries: seq<Entry>, k: nat, m: Tallies)
    requires k < |entries|
    requires AddAll(threshold, start, entries[..k]) == Ok(m)
    ensures AddAll(threshold, start, entries[..k + 1]) == SigAdded(threshold, m, IdOf(entries[k].subject), entries[k].sig)
  {
    assert entries[..k + 1][..k] == entries[..k];
  }

  lemma {:induction false} AddAllStops(threshold: nat, tallies: Tallies, entries: seq<Entry>, k: nat)
    requires k <= |entries|
    requires AddAll(threshold, tallies, entries[..k]).Err?
    ensures AddAll(threshold, tallies, entries) == AddAll(threshold, tallies, entries[..k])
  {
    if k == |entries| {
      assert entries[..k] == entries;
    } else {
      assert entries[..|entries| - 1][..k] == entries[..k];
      AddAllStops(threshold, tallies, entries[..|entries| - 1], k);
    }
  }

  /** The agreements reached so far, but only if every reward has one. */
  function PendingAgreements(tallies: Tallies): Option<map<CreditId, Signature>>
  {
    var agreed := map k | k in tallies && tallies[k].pending.Some? :: tallies[k].pending.value;
    if |agreed| == |tallies| then Some(agreed) else None
  }

  lemma AllOrNothing(tallies: Tallies)
    ensures PendingAgreements(tallies).Some? <==> forall k :: k in tallies ==> tallies[k].pending.Some?
    ensures PendingAgreements(tallies).Some? ==> PendingAgreements(tallies).value.Keys == tallies.Keys
    ensures PendingAgreements(tallies).Some? ==>
              forall k :: k in tallies ==> PendingAgreements(tallies).value[k] == tallies[k].pending.value
  {
    var agreed := map k | k in tallies && tallies[k].pending.Some? :: tallies[k].pending.value;
    assert agreed.Keys <= tallies.Keys;
    assert tallies.Keys == agreed.Keys + (tallies.Keys - agreed.Keys);
    if k :| k in tallies && tallies[k].pending.None? {
      assert k in tallies.Keys - agreed.Keys;
    } else {
      assert agreed.Keys == tallies.Keys;
    }
  }

  function EntriesFor(tallies: Tallies, ids: seq<CreditId>, index: nat): seq<Entry>
    requires forall id :: id in ids ==> id in tallies
  {
    if ids == [] then []
    else
      assert ids[0] in ids;
      var tally := tallies[ids[0]];
      var rest := EntriesFor(tallies, ids[1..], index);
      if index in tally.signatures then [Entry(tally.subject, SigShare(index, tally.signatures[index]))] + rest
      else rest
  }

  /** `get_proposal` and `get_accumulation`: the shares made at an index, in id order. */
  function SharesOf(tallies: Tallies, index: nat): seq<Entry>
  {
    EntriesFor(tallies, SortedKeys(tallies.Keys), index)
  }

  /** The details under construction; the stage keeps a copy of `rewards`. */
  class RewardDetails {
    const threshold: nat
    var rewards: Tallies

    constructor (threshold: nat, rewards: Tallies)
      ensures this.threshold == threshold && this.rewards == rewards
    {
      this.threshold := threshold;
      this.rewards := rewards;
    }

    method AddSig(id: CreditId, sig: SigShare) returns (r: Result<(), Error>)
      modifies this
      ensures
        match SigAdded(threshold, old(rewards), id, sig)
        case Ok(m) => r == Ok(()) && rewards == m
        case Err(e) => r == Err(e) && rewards == old(rewards)
    {
      if id !in rewards {
        return Err(Logic);
      }
      var credit := rewards[id];
      if Check(sig, credit.signatures) == Some(true) {
        assert rewards[id := credit] == rewards;
        return Ok(());
      }
      var signatures := credit.signatures[sig.index := sig.share];
      assert sig.index in signatures.Keys;
      credit := credit.(signatures := signatures);
      var minCount := 1 + threshold;
      if |signatures| >= minCount {
        credit := credit.(pending := Some(Combine(signatures)));
      }
      rewards := rewards[id := credit];
      return Ok(());
    }

    /** The loop over the shares of a message. */
    method AddSigs(entries: seq<Entry>) returns (r: Result<(), Error>)
      modifies this
      ensures
        match AddAll(threshold, old(rewards), entries)
        case Ok(m) => r == Ok(()) && rewards == m
        case Err(e) => r == Err(e)
    {
      for i := 0 to |entries|
        invariant AddAll(threshold, old(rewards), entries[..i]) == Ok(rewards)
      {
        assert entries[..i + 1][..i] == entries[..i];
        r := AddSig(IdOf(entries[i].subject), entries[i].sig);
        if r.Err? {
          AddAllStops(threshold, old(rewards), entries, i + 1);
          return;
        }
      }
      assert entries[..|entries|] == entries;
      r := Ok(());
    }
  }
}
