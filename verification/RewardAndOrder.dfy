/**
 The referral reward beside the settlement that triggers it: a settlement qualifies the payer's
 referral through repositories outside its own transaction, before it commits.
 */
module RewardAndOrder {
  import opened Common
  import opened BookingModel
  import opened BookingRaces
  import BookingTheorems
  import ReferralReward

  /** `granted` are the orders whose settlements have issued a reward. */
  datatype Both = Both(core: State, store: ReferralReward.Store, granted: set<Id>)

  /** A step of the bookings, sweeps and settlements, or the reward call of an open settlement. */
  datatype Move = Core(ev: Event) | Qualify(tx: Id)

  ghost function Issued(b: Both, tx: Id): ReferralReward.Store
    requires tx in b.core.settles && b.core.settles[tx].order in b.core.db.orders
  {
    var o := b.core.settles[tx].order;
    ReferralReward.Issue(b.store, ReferralReward.ByReferred(b.store, b.core.db.orders[o].parent), o).0
  }

  /** The reward is committed at once, whatever becomes of the settlement. */
  ghost function Do(b: Both, m: Move): Both {
    match m
    case Core(ev) => b.(core := Step(b.core, ev))
    case Qualify(tx) =>
      if tx !in b.core.settles || b.core.settles[tx].order !in b.core.db.orders then b
      else
        var store := Issued(b, tx);
        var grown := store.rewards.Keys != b.store.rewards.Keys;
        b.(store := store, granted := b.granted + if grown then {b.core.settles[tx].order} else {})
  }

  ghost function Run(b: Both, ms: seq<Move>): Both {
    if ms == [] then b else Do(Run(b, ms[..|ms| - 1]), ms[|ms| - 1])
  }

  predicate Paid(s: State, o: Id) { o in s.db.orders && s.db.orders[o].status == OrderPaid }

  ghost predicate Settling(s: State, o: Id) { exists t :: t in s.settles && s.settles[t].order == o }

  /** Every reward belongs to an order that is PAID, or that an open settlement is about to make so. */
  ghost predicate Backed(b: Both) {
    forall o | o in b.granted :: Paid(b.core, o) || Settling(b.core, o)
  }

  /** A settlement that has issued its reward is aborted. */
  predicate Unbacks(b: Both, m: Move) {
    && m.Core? && m.ev.Abort? && m.ev.tx in b.core.settles && b.core.settles[m.ev.tx].order in b.granted
  }

  lemma OrderStaysBacked(s: State, ev: Event, o: Id)
    requires Inv(s) && (Paid(s, o) || Settling(s, o))
    requires !(ev.Abort? && ev.tx in s.settles && s.settles[ev.tx].order == o)
    ensures Paid(Step(s, ev), o) || Settling(Step(s, ev), o)
  {
    if Paid(s, o) {
      BookingTheorems.PaidStep(s, ev, o);
    } else {
      var t :| t in s.settles && s.settles[t].order == o;
      SettlementStays(s, ev, t);
    }
  }

  lemma SettlementStays(s: State, ev: Event, t: Id)
    requires t in s.settles && ev != Abort(t)
    ensures Paid(Step(s, ev), s.settles[t].order) || (t in Step(s, ev).settles && Step(s, ev).settles[t] == s.settles[t])
  {
  }

  lemma AbortUnbacks(s: State, tx: Id)
    requires Inv(s) && tx in s.settles
    ensures var o := s.settles[tx].order; !Paid(Step(s, Abort(tx)), o) && !Settling(Step(s, Abort(tx)), o)
  {
    assert SettleOk(s.db, s.settles[tx]);
  }

  /** One step keeps every reward backed if and only if it does not abort a settlement that has issued one. */
  lemma StepBackedIff(b: Both, m: Move)
    requires Inv(b.core) && Backed(b)
    ensures Backed(Do(b, m)) <==> !Unbacks(b, m)
  {
    if Unbacks(b, m) {
      AbortUnbacks(b.core, m.ev.tx);
    } else if m.Core? {
      forall o | o in b.granted ensures Paid(Do(b, m).core, o) || Settling(Do(b, m).core, o) {
        OrderStaysBacked(b.core, m.ev, o);
      }
    }
  }

  lemma {:induction false} RunCore(b: Both, ms: seq<Move>)
    requires Inv(b.core)
    ensures Inv(Run(b, ms).core)
  {
    if ms != [] {
      RunCore(b, ms[..|ms| - 1]);
      var c := Run(b, ms[..|ms| - 1]);
      if ms[|ms| - 1].Core? { StepInv(c.core, ms[|ms| - 1].ev); }
    }
  }

  ghost predicate BackedThroughout(b: Both, ms: seq<Move>) {
    forall k :: 0 <= k <= |ms| ==> Backed(Run(b, ms[..k]))
  }

  ghost predicate NeverUnbacks(b: Both, ms: seq<Move>) {
    forall k :: 0 <= k < |ms| ==> !Unbacks(Run(b, ms[..k]), ms[k])
  }

  lemma BackedAt(b: Both, ms: seq<Move>, k: nat)
    requires Inv(b.core) && k < |ms| && Backed(Run(b, ms[..k]))
    ensures Backed(Run(b, ms[..k + 1])) <==> !Unbacks(Run(b, ms[..k]), ms[k])
  {
    RunCore(b, ms[..k]);
    assert ms[..k + 1][..k] == ms[..k];
    StepBackedIff(Run(b, ms[..k]), ms[k]);
  }

  lemma {:induction false} StaysBacked(b: Both, ms: seq<Move>, k: nat)
    requires Inv(b.core) && Backed(b) && k <= |ms| && NeverUnbacks(b, ms)
    ensures Backed(Run(b, ms[..k]))
  {
    if k > 0 {
      StaysBacked(b, ms, k - 1);
      assert !Unbacks(Run(b, ms[..k - 1]), ms[k - 1]);
      BackedAt(b, ms, k - 1);
    }
  }

  /**
   In every state along a run each reward belongs to an order that is PAID or being settled, if and only
   if no settlement is aborted after it has issued its reward.
   */
  lemma RewardsBackedIff(b: Both, ms: seq<Move>)
    requires Inv(b.core) && Backed(b)
    ensures BackedThroughout(b, ms) <==> NeverUnbacks(b, ms)
  {
    if NeverUnbacks(b, ms) {
      forall k | 0 <= k <= |ms| ensures Backed(Run(b, ms[..k])) { StaysBacked(b, ms, k); }
    }
    if BackedThroughout(b, ms) {
      forall k | 0 <= k < |ms| ensures !Unbacks(Run(b, ms[..k]), ms[k]) {
        assert Backed(Run(b, ms[..k])) && Backed(Run(b, ms[..k + 1]));
        BackedAt(b, ms, k);
      }
    }
  }

  /** So when no settlement is open, a reward then implies a PAID order. */
  lemma RewardImpliesPaid(b: Both, ms: seq<Move>, o: Id)
    requires Inv(b.core) && Backed(b) && NeverUnbacks(b, ms)
    requires Run(b, ms).core.settles == map[] && o in Run(b, ms).granted
    ensures Paid(Run(b, ms).core, o)
  {
    StaysBacked(b, ms, |ms|);
    assert ms[..|ms|] == ms;
  }

  /** A settlement aborted after its reward call leaves the reward, and an order that is not PAID. */
  lemma AbortedSettlementLeavesReward(b: Both, tx: Id, o: Id, id: Id)
    requires Inv(b.core) && ReferralReward.StoreInv(b.store) && tx in b.core.settles && b.core.settles[tx].order == o
    requires ReferralReward.ByReferred(b.store, b.core.db.orders[o].parent) == Some(id)
    requires b.store.referrals[id].status in {ReferralReward.Pending, ReferralReward.Qualified} && id !in b.store.rewards
    ensures var c := Run(b, [Qualify(tx), Core(Abort(tx))]);
            && ReferralReward.RewardDone(c.store, id) && o in c.granted
            && !Paid(c.core, o) && !Settling(c.core, o)
  {
    var ms := [Qualify(tx), Core(Abort(tx))];
    assert ms[..1] == [Qualify(tx)] && ms[..1][..0] == [];
    assert Run(b, ms[..1]) == Do(b, Qualify(tx));
    IssueRewards(b.store, id, o);
    AbortUnbacks(b.core, tx);
  }

  lemma CreditPasses(s: ReferralReward.Store, id: Id, row: ReferralReward.Referral)
    requires ReferralReward.Reconciled(s) && row.referrer in s.wallets && row.amount > 0
    ensures var r := ReferralReward.Credit(s, id, row);
            r.Ok? && r.value.referrals == s.referrals && r.value.rewards == s.rewards
  {
    assert ReferralReward.JournalTotal(s.journal, row.referrer) >= 0;
  }

  /** The reward row and the mark. */
  lemma RowWritten(s: ReferralReward.Store, id: Id, row: ReferralReward.Referral)
    requires id in s.referrals && id !in s.rewards
    requires s.referrals[id].referrer == row.referrer && s.referrals[id].amount == row.amount
    ensures var t := ReferralReward.MarkRewarded(ReferralReward.CreateReward(s, id, row.referrer, row.amount), id);
            ReferralReward.RewardDone(t, id) && t.rewards.Keys == s.rewards.Keys + {id}
  {
  }

  /** Up to the credit: the referral is qualified and its referrer has a wallet. */
  lemma Prepared(s: ReferralReward.Store, id: Id, order: Id)
    requires ReferralReward.StoreInv(s) && id in s.referrals
    ensures var row, s2 := s.referrals[id], ReferralReward.EnsureWallet(ReferralReward.Qualify(s, id, order), s.referrals[id].referrer);
            && ReferralReward.Reconciled(s2) && row.referrer in s2.wallets && row.amount > 0 && s2.rewards == s.rewards
            && id in s2.referrals && s2.referrals[id].referrer == row.referrer && s2.referrals[id].amount == row.amount
  {
    ReferralReward.QualifyInv(s, id, order);
    ReferralReward.EnsureWalletInv(ReferralReward.Qualify(s, id, order), s.referrals[id].referrer);
  }

  lemma IssueRewards(s: ReferralReward.Store, id: Id, order: Id)
    requires ReferralReward.StoreInv(s) && id in s.referrals && id !in s.rewards
    requires s.referrals[id].status in {ReferralReward.Pending, ReferralReward.Qualified}
    ensures var t := ReferralReward.Issue(s, Some(id), order).0;
            ReferralReward.RewardDone(t, id) && id in t.rewards.Keys && t.rewards.Keys != s.rewards.Keys
  {
    var row := s.referrals[id];
    var s2 := ReferralReward.EnsureWallet(ReferralReward.Qualify(s, id, order), row.referrer);
    Prepared(s, id, order);
    CreditPasses(s2, id, row);
    RowWritten(ReferralReward.Credit(s2, id, row).value, id, row);
  }
}
