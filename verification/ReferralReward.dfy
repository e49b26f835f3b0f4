/**
 The referral reward: a sequence of single statements on shared stores, run by any number of
 settlements at once, that may stop between any two statements and be started again.
 */
module ReferralReward {
  import opened Common

  const REWARD_AMOUNT := 2000

  datatype Status = Pending | Qualified | Rewarded | Expired

  datatype Referral = Referral(referrer: Id, referred: Id, amount: int, status: Status, order: Option<Id>)

  /** The idempotency keys of the wallet journal: one per referral, and those of every other use. */
  datatype Key = RewardKey(referral: Id) | OtherKey(text: string)

  /** A journal line; debits have a negative amount. */
  datatype Entry = Entry(user: Id, amount: int, key: Option<Key>)

  datatype Reward = Reward(user: Id, amount: int)

  /** `referrals` and `rewards` are keyed by referral id: UNIQUE(referral_id) on the reward rows. */
  datatype Store = Store(referrals: map<Id, Referral>, wallets: map<Id, int>, journal: seq<Entry>, rewards: map<Id, Reward>)

  // ---- Statements ----

  ghost function ByReferred(s: Store, user: Id): (r: Option<Id>)
    ensures r.Some? ==> r.value in s.referrals && s.referrals[r.value].referred == user
    ensures r.None? ==> forall i :: i in s.referrals ==> s.referrals[i].referred != user
  {
    if i :| i in s.referrals && s.referrals[i].referred == user then Some(i) else None
  }

  /** UPDATE ... SET status = 'QUALIFIED' WHERE status = 'PENDING'. */
  function Qualify(s: Store, id: Id, order: Id): Store {
    if id in s.referrals && s.referrals[id].status == Pending then
      s.(referrals := s.referrals[id := s.referrals[id].(status := Qualified, order := Some(order))])
    else s
  }

  function EnsureWallet(s: Store, user: Id): Store {
    if user in s.wallets then s else s.(wallets := s.wallets[user := 0])
  }

  predicate KeyClaimed(journal: seq<Entry>, key: Option<Key>) {
    key.Some? && exists i :: 0 <= i < |journal| && journal[i].key == key
  }

  datatype WalletError = NoWallet | BadAmount | Insufficient

  /** wallet_apply: key check, balance change and journal line in one statement. */
  function WalletApply(s: Store, user: Id, amount: int, key: Option<Key>): Result<Store, WalletError> {
    if amount == 0 then Err(BadAmount)
    else if user !in s.wallets then Err(NoWallet)
    else if KeyClaimed(s.journal, key) then Ok(s)
    else if s.wallets[user] + amount < 0 then Err(Insufficient)
    else Ok(s.(wallets := s.wallets[user := s.wallets[user] + amount], journal := s.journal + [Entry(user, amount, key)]))
  }

  /** CreateReward; an existing row of the referral is adopted. */
  function CreateReward(s: Store, id: Id, user: Id, amount: int): Store {
    if id in s.rewards then s else s.(rewards := s.rewards[id := Reward(user, amount)])
  }

  /** UPDATE ... SET status = 'REWARDED', whatever the status was. */
  function MarkRewarded(s: Store, id: Id): Store {
    if id in s.referrals then s.(referrals := s.referrals[id := s.referrals[id].(status := Rewarded)]) else s
  }

  // ---- Concurrent runs ----

  datatype Pc = AtQualify | AtWallet | AtCredit | AtReward | AtMark

  /** A run of QualifyOnOrderPaid in progress, with the referral row as it was read. */
  datatype Run = Run(pc: Pc, id: Id, row: Referral, order: Id)

  /** `finished` are the referrals on which some run reached its end. */
  datatype State = State(store: Store, runs: map<Id, Run>, finished: set<Id>)

  datatype Event =
    | Apply(id: Id, referrer: Id, referred: Id)
    | Start(run: Id, user: Id, order: Id)
    | Advance(run: Id)
    | Crash(run: Id)
    | Expire(id: Id)
    | OtherMovement(user: Id, amount: int, text: Option<string>)
    | OpenWallet(user: Id)

  predicate Applies(s: Store, id: Id, referrer: Id, referred: Id) {
    && referrer != referred && id !in s.referrals
    && forall i :: i in s.referrals ==> s.referrals[i].referred != referred
  }

  function NewReferral(referrer: Id, referred: Id): Referral {
    Referral(referrer, referred, REWARD_AMOUNT, Pending, None)
  }

  ghost function DoStart(s: State, run: Id, user: Id, order: Id): State {
    var r := ByReferred(s.store, user);
    if run in s.runs || r.None? || s.store.referrals[r.value].status in {Rewarded, Expired} then s
    else s.(runs := s.runs[run := Run(AtQualify, r.value, s.store.referrals[r.value], order)])
  }

  /** The next statement of a run; a failing credit ends the run. */
  ghost function DoAdvance(s: State, run: Id): State {
    if run !in s.runs then s
    else
      var r := s.runs[run];
      match r.pc
      case AtQualify => s.(store := Qualify(s.store, r.id, r.order), runs := s.runs[run := r.(pc := AtWallet)])
      case AtWallet => s.(store := EnsureWallet(s.store, r.row.referrer), runs := s.runs[run := r.(pc := AtCredit)])
      case AtCredit =>
        (match Credit(s.store, r.id, r.row)
         case Err(_) => s.(runs := s.runs - {run})
         case Ok(store) => s.(store := store, runs := s.runs[run := r.(pc := AtReward)]))
      case AtReward =>
        s.(store := CreateReward(s.store, r.id, r.row.referrer, r.row.amount), runs := s.runs[run := r.(pc := AtMark)])
      case AtMark => State(MarkRewarded(s.store, r.id), s.runs - {run}, s.finished + {r.id})
  }

  /** The keyed credit of the referrer; CreditEntry refuses an amount that is not positive. */
  function Credit(s: Store, id: Id, row: Referral): Result<Store, WalletError> {
    if row.amount <= 0 then Err(BadAmount) else WalletApply(s, row.referrer, row.amount, Some(RewardKey(id)))
  }

  ghost function Step(s: State, e: Event): State {
    match e
    case Apply(id, referrer, referred) =>
      if Applies(s.store, id, referrer, referred) then
        s.(store := s.store.(referrals := s.store.referrals[id := NewReferral(referrer, referred)]))
      else s
    case Start(run, user, order) => DoStart(s, run, user, order)
    case Advance(run) => DoAdvance(s, run)
    case Crash(run) => s.(runs := s.runs - {run})
    case Expire(id) =>
      if id in s.store.referrals && s.store.referrals[id].status != Rewarded then
        s.(store := s.store.(referrals := s.store.referrals[id := s.store.referrals[id].(status := Expired)]))
      else s
    case OtherMovement(user, amount, text) =>
      (match WalletApply(s.store, user, amount, if text.Some? then Some(OtherKey(text.value)) else None)
       case Err(_) => s
       case Ok(store) => s.(store := store))
    case OpenWallet(user) => s.(store := EnsureWallet(s.store, user))
  }

  ghost function Exec(s: State, es: seq<Event>): State {
    if es == [] then s else Step(Exec(s, es[..|es| - 1]), es[|es| - 1])
  }

  // ---- The journal ----

  /** What the journal says user `u` owns. */
  function JournalTotal(journal: seq<Entry>, u: Id): int {
    if journal == [] then 0
    else JournalTotal(journal[..|journal| - 1], u)
         + (if journal[|journal| - 1].user == u then journal[|journal| - 1].amount else 0)
  }

  /** How many journal lines carry the reward key of referral `id`. */
  function Credits(journal: seq<Entry>, id: Id): nat {
    if journal == [] then 0
    else Credits(journal[..|journal| - 1], id)
         + (if journal[|journal| - 1].key == Some(RewardKey(id)) then 1 else 0)
  }

  lemma KeyClaimedAppend(journal: seq<Entry>, e: Entry, key: Key)
    ensures KeyClaimed(journal + [e], Some(key)) <==> KeyClaimed(journal, Some(key)) || e.key == Some(key)
  {
    assert (journal + [e])[|journal|] == e;
    if KeyClaimed(journal, Some(key)) {
      var i :| 0 <= i < |journal| && journal[i].key == Some(key);
      assert (journal + [e])[i] == journal[i];
    }
  }

  lemma {:induction false} CreditsZero(journal: seq<Entry>, id: Id)
    ensures Credits(journal, id) == 0 <==> !KeyClaimed(journal, Some(RewardKey(id)))
  {
    if journal != [] {
      CreditsZero(journal[..|journal| - 1], id);
      KeyClaimedAppend(journal[..|journal| - 1], journal[|journal| - 1], RewardKey(id));
      assert journal == journal[..|journal| - 1] + [journal[|journal| - 1]];
    }
  }

  lemma AppendEntry(journal: seq<Entry>, e: Entry, u: Id, id: Id)
    ensures JournalTotal(journal + [e], u) == JournalTotal(journal, u) + (if e.user == u then e.amount else 0)
    ensures Credits(journal + [e], id) == Credits(journal, id) + (if e.key == Some(RewardKey(id)) then 1 else 0)
  {
    assert (journal + [e])[..|journal|] == journal;
  }

  // ---- Invariant ----

  /** Every balance is what the journal adds up to, never negative; without a wallet there are no lines. */
  ghost predicate Reconciled(s: Store) {
    forall u :: JournalTotal(s.journal, u) >= 0
                && JournalTotal(s.journal, u) == if u in s.wallets then s.wallets[u] else 0
  }

  /** A reward line credits the referrer of an existing referral with its amount. */
  ghost predicate LinesMatch(s: Store) {
    forall i :: 0 <= i < |s.journal| && s.journal[i].key.Some? && s.journal[i].key.value.RewardKey?
      ==> var id := s.journal[i].key.value.referral;
          id in s.referrals && s.journal[i].user == s.referrals[id].referrer && s.journal[i].amount == s.referrals[id].amount
  }

  ghost predicate RewardDone(s: Store, id: Id) {
    id in s.referrals && id in s.rewards && s.rewards[id] == Reward(s.referrals[id].referrer, s.referrals[id].amount)
  }

  ghost predicate CreditedOnce(s: Store) {
    forall id :: Credits(s.journal, id) <= 1
  }

  ghost predicate ReferralsOk(s: Store) {
    && (forall i, j | i in s.referrals && j in s.referrals :: s.referrals[i].referred == s.referrals[j].referred ==> i == j)
    && (forall id :: id in s.referrals ==> s.referrals[id].amount > 0 && s.referrals[id].referrer != s.referrals[id].referred)
  }

  /** A reward row comes after its credit, and the REWARDED mark after the row. */
  ghost predicate RewardsOk(s: Store) {
    && (forall id :: id in s.rewards ==> RewardDone(s, id) && Credits(s.journal, id) == 1)
    && (forall id :: id in s.referrals && s.referrals[id].status == Rewarded ==> id in s.rewards)
  }

  ghost predicate StoreInv(s: Store) {
    Reconciled(s) && LinesMatch(s) && CreditedOnce(s) && ReferralsOk(s) && RewardsOk(s)
  }

  ghost predicate RunOk(s: Store, r: Run) {
    && r.id in s.referrals
    && r.row.referrer == s.referrals[r.id].referrer && r.row.amount == s.referrals[r.id].amount
    && (r.pc in {AtCredit, AtReward, AtMark} ==> r.row.referrer in s.wallets)
    && (r.pc in {AtReward, AtMark} ==> Credits(s.journal, r.id) == 1)
    && (r.pc == AtMark ==> r.id in s.rewards)
  }

  ghost predicate Inv(s: State) {
    && StoreInv(s.store)
    && (forall r :: r in s.runs ==> RunOk(s.store, s.runs[r]))
    && (forall id :: id in s.finished ==> id in s.store.referrals && s.store.referrals[id].status == Rewarded)
  }

  /** What later statements of any run rely on never goes away. */
  ghost predicate Keeps(s: Store, t: Store) {
    && (forall id :: id in s.referrals ==>
          && id in t.referrals
          && t.referrals[id].referrer == s.referrals[id].referrer && t.referrals[id].amount == s.referrals[id].amount
          && (s.referrals[id].status == Rewarded ==> t.referrals[id].status == Rewarded))
    && s.wallets.Keys <= t.wallets.Keys && s.rewards.Keys <= t.rewards.Keys
    && (forall id :: Credits(s.journal, id) <= Credits(t.journal, id) <= 1)
  }

  lemma KeepsRuns(s: State, t: Store)
    requires Inv(s) && StoreInv(t) && Keeps(s.store, t)
    ensures Inv(s.(store := t))
  {
  }

  /** A line the journal may gain: a reward line only for its own referral, unused so far. */
  ghost predicate Postable(s: Store, e: Entry) {
    && e.user in s.wallets && s.wallets[e.user] + e.amount >= 0
    && (e.key.Some? && e.key.value.RewardKey? ==>
          && e.key.value.referral in s.referrals
          && Credits(s.journal, e.key.value.referral) == 0
          && e.user == s.referrals[e.key.value.referral].referrer
          && e.amount == s.referrals[e.key.value.referral].amount)
  }

  function Post(s: Store, e: Entry): Store
    requires e.user in s.wallets
  {
    s.(wallets := s.wallets[e.user := s.wallets[e.user] + e.amount], journal := s.journal + [e])
  }

  lemma PostReconciled(s: Store, e: Entry)
    requires Reconciled(s) && Postable(s, e)
    ensures Reconciled(Post(s, e))
  {
    forall u { AppendEntry(s.journal, e, u, 0); }
  }

  lemma PostCredits(s: Store, e: Entry)
    requires CreditedOnce(s) && RewardsOk(s) && Postable(s, e)
    ensures CreditedOnce(Post(s, e)) && RewardsOk(Post(s, e)) && Keeps(s, Post(s, e))
  {
    forall id { AppendEntry(s.journal, e, 0, id); }
  }

  lemma PostInv(s: Store, e: Entry)
    requires StoreInv(s) && Postable(s, e)
    ensures StoreInv(Post(s, e)) && Keeps(s, Post(s, e))
  {
    PostReconciled(s, e);
    PostCredits(s, e);
  }

  /** wallet_apply keeps the books: balances reconciled and each reward key used once. */
  lemma WalletApplyInv(s: Store, user: Id, amount: int, key: Option<Key>)
    requires StoreInv(s)
    requires key.Some? && key.value.RewardKey? ==>
               && key.value.referral in s.referrals
               && user == s.referrals[key.value.referral].referrer && amount == s.referrals[key.value.referral].amount
    ensures WalletApply(s, user, amount, key).Ok? ==>
              var t := WalletApply(s, user, amount, key).value;
              StoreInv(t) && Keeps(s, t)
              && (key.Some? && key.value.RewardKey? ==> Credits(t.journal, key.value.referral) == 1)
  {
    var e := Entry(user, amount, key);
    if key.Some? && key.value.RewardKey? {
      CreditsZero(s.journal, key.value.referral);
      AppendEntry(s.journal, e, 0, key.value.referral);
    }
    if WalletApply(s, user, amount, key).Ok? && !KeyClaimed(s.journal, key) {
      PostInv(s, e);
    }
  }

  lemma QualifyInv(s: Store, id: Id, order: Id)
    requires StoreInv(s)
    ensures StoreInv(Qualify(s, id, order)) && Keeps(s, Qualify(s, id, order))
  {
  }

  lemma EnsureWalletInv(s: Store, user: Id)
    requires StoreInv(s)
    ensures StoreInv(EnsureWallet(s, user)) && Keeps(s, EnsureWallet(s, user))
  {
  }

  lemma MarkInv(s: Store, id: Id)
    requires StoreInv(s) && id in s.rewards
    ensures StoreInv(MarkRewarded(s, id)) && Keeps(s, MarkRewarded(s, id))
  {
  }

  lemma RewardInv(s: Store, id: Id)
    requires StoreInv(s) && id in s.referrals && Credits(s.journal, id) == 1
    ensures var t := CreateReward(s, id, s.referrals[id].referrer, s.referrals[id].amount);
            StoreInv(t) && Keeps(s, t)
  {
  }

  lemma MovesOn(s: State, t: Store, run: Id, next: Run)
    requires Inv(s) && StoreInv(t) && Keeps(s.store, t) && RunOk(t, next)
    ensures Inv(State(t, s.runs[run := next], s.finished))
  {
    KeepsRuns(s, t);
  }

  lemma Finishes(s: State, run: Id)
    requires Inv(s) && run in s.runs && s.runs[run].pc == AtMark
    ensures Inv(DoAdvance(s, run)) && Keeps(s.store, DoAdvance(s, run).store)
  {
    assert RunOk(s.store, s.runs[run]);
    MarkInv(s.store, s.runs[run].id);
    KeepsRuns(s, MarkRewarded(s.store, s.runs[run].id));
  }

  lemma CreditStep(s: State, run: Id)
    requires Inv(s) && run in s.runs && s.runs[run].pc == AtCredit
    ensures Inv(DoAdvance(s, run)) && Keeps(s.store, DoAdvance(s, run).store)
  {
    var r := s.runs[run];
    assert RunOk(s.store, r);
    WalletApplyInv(s.store, r.row.referrer, r.row.amount, Some(RewardKey(r.id)));
    if Credit(s.store, r.id, r.row).Ok? {
      MovesOn(s, Credit(s.store, r.id, r.row).value, run, r.(pc := AtReward));
    }
  }

  lemma AdvanceInv(s: State, run: Id)
    requires Inv(s)
    ensures Inv(DoAdvance(s, run)) && Keeps(s.store, DoAdvance(s, run).store)
  {
    if run in s.runs {
      var r := s.runs[run];
      assert RunOk(s.store, r);
      match r.pc
      case AtQualify =>
        QualifyInv(s.store, r.id, r.order);
        MovesOn(s, Qualify(s.store, r.id, r.order), run, r.(pc := AtWallet));
      case AtWallet =>
        EnsureWalletInv(s.store, r.row.referrer);
        MovesOn(s, EnsureWallet(s.store, r.row.referrer), run, r.(pc := AtCredit));
      case AtCredit => CreditStep(s, run);
      case AtReward =>
        RewardInv(s.store, r.id);
        MovesOn(s, CreateReward(s.store, r.id, r.row.referrer, r.row.amount), run, r.(pc := AtMark));
      case AtMark => Finishes(s, run);
    }
  }

  lemma ApplyInv(s: Store, id: Id, referrer: Id, referred: Id)
    requires StoreInv(s) && Applies(s, id, referrer, referred)
    ensures var t := s.(referrals := s.referrals[id := NewReferral(referrer, referred)]); StoreInv(t) && Keeps(s, t)
  {
  }

  lemma ExpireInv(s: Store, id: Id)
    requires StoreInv(s) && id in s.referrals && s.referrals[id].status != Rewarded
    ensures var t := s.(referrals := s.referrals[id := s.referrals[id].(status := Expired)]); StoreInv(t) && Keeps(s, t)
  {
  }

  lemma MovementInv(s: State, user: Id, amount: int, text: Option<string>)
    requires Inv(s)
    ensures var t := Step(s, OtherMovement(user, amount, text)); Inv(t) && Keeps(s.store, t.store)
  {
    WalletApplyInv(s.store, user, amount, if text.Some? then Some(OtherKey(text.value)) else None);
    KeepsRuns(s, Step(s, OtherMovement(user, amount, text)).store);
  }

  lemma RowEventInv(s: State, e: Event)
    requires Inv(s) && (e.Apply? || e.Expire?)
    ensures Inv(Step(s, e)) && Keeps(s.store, Step(s, e).store)
  {
    if e.Apply? && Applies(s.store, e.id, e.referrer, e.referred) {
      ApplyInv(s.store, e.id, e.referrer, e.referred);
      KeepsRuns(s, Step(s, e).store);
    }
    if e.Expire? && e.id in s.store.referrals && s.store.referrals[e.id].status != Rewarded {
      ExpireInv(s.store, e.id);
      KeepsRuns(s, Step(s, e).store);
    }
  }

  lemma StepInv(s: State, e: Event)
    requires Inv(s)
    ensures Inv(Step(s, e)) && Keeps(s.store, Step(s, e).store)
  {
    match e
    case Start(run, user, order) =>
    case Advance(run) => AdvanceInv(s, run);
    case Crash(run) =>
    case OtherMovement(user, amount, text) => MovementInv(s, user, amount, text);
    case OpenWallet(user) =>
      EnsureWalletInv(s.store, user);
      KeepsRuns(s, Step(s, e).store);
    case _ => RowEventInv(s, e);
  }

  lemma {:induction false} RunInv(s: State, es: seq<Event>)
    requires Inv(s)
    ensures Inv(Exec(s, es)) && Keeps(s.store, Exec(s, es).store)
  {
    if es != [] {
      RunInv(s, es[..|es| - 1]);
      StepInv(Exec(s, es[..|es| - 1]), es[|es| - 1]);
    }
  }

  // ---- Exactly once ----

  ghost predicate Idle(s: State) { s.runs == map[] && s.finished == {} }

  /** The referral is rewarded: one credit line to its referrer, one reward row, status REWARDED. */
  ghost predicate ExactlyOnce(s: Store, id: Id) {
    && RewardDone(s, id) && s.referrals[id].status == Rewarded && Credits(s.journal, id) == 1
    && exists i :: 0 <= i < |s.journal|
         && s.journal[i] == Entry(s.referrals[id].referrer, s.referrals[id].amount, Some(RewardKey(id)))
  }

  lemma RewardedIsExactlyOnce(s: Store, id: Id)
    requires StoreInv(s) && id in s.referrals && s.referrals[id].status == Rewarded
    ensures ExactlyOnce(s, id)
  {
    CreditsZero(s.journal, id);
    var i :| 0 <= i < |s.journal| && s.journal[i].key == Some(RewardKey(id));
  }

  /**
   Over every interleaving of runs, crashes, restarts and other wallet traffic, a referral is
   credited at most once; once any run on it has finished, exactly once, and it stays so.
   */
  lemma RewardExactlyOnce(s: State, es: seq<Event>, id: Id)
    requires Idle(s) && StoreInv(s.store)
    ensures Credits(Exec(s, es).store.journal, id) <= 1
    ensures id in Exec(s, es).finished ==> ExactlyOnce(Exec(s, es).store, id)
  {
    RunInv(s, es);
    if id in Exec(s, es).finished {
      RewardedIsExactlyOnce(Exec(s, es).store, id);
    }
  }

  /** The journal explains every balance in every reachable state. */
  lemma BooksReconcile(s: State, es: seq<Event>, u: Id)
    requires Idle(s) && StoreInv(s.store) && u in Exec(s, es).store.wallets
    ensures Exec(s, es).store.wallets[u] == JournalTotal(Exec(s, es).store.journal, u) >= 0
  {
    RunInv(s, es);
  }

  // ---- One run alone, from any crash point ----

  /** `n` statements of the run in a row. */
  ghost function Advances(s: State, run: Id, n: nat): State {
    if n == 0 then s else DoAdvance(Advances(s, run, n - 1), run)
  }

  lemma {:induction false} AdvancesInv(s: State, run: Id, n: nat)
    requires Inv(s)
    ensures Inv(Advances(s, run, n))
  {
    if n > 0 {
      AdvancesInv(s, run, n - 1);
      AdvanceInv(Advances(s, run, n - 1), run);
    }
  }

  lemma CreditSucceeds(s: Store, r: Run)
    requires StoreInv(s) && RunOk(s, r) && r.pc == AtCredit
    ensures Credit(s, r.id, r.row).Ok?
  {
    assert JournalTotal(s.journal, r.row.referrer) >= 0;
  }

  lemma ToCredit(s: State, run: Id)
    requires run in s.runs && s.runs[run].pc == AtQualify
    ensures run in Advances(s, run, 2).runs && Advances(s, run, 2).runs[run] == s.runs[run].(pc := AtCredit)
  {
    var s1 := DoAdvance(s, run);
    assert Advances(s, run, 1) == s1 by { assert Advances(s, run, 0) == s; }
    assert s1.runs[run] == s.runs[run].(pc := AtWallet);
  }

  lemma FromCredit(s: State, run: Id)
    requires Inv(s) && run in s.runs && s.runs[run].pc == AtCredit
    ensures s.runs[run].id in DoAdvance(DoAdvance(DoAdvance(s, run), run), run).finished
  {
    var r := s.runs[run];
    CreditSucceeds(s.store, r);
    var s1 := DoAdvance(s, run);
    assert s1.runs[run] == r.(pc := AtReward);
    var s2 := DoAdvance(s1, run);
    assert s2.runs[run] == r.(pc := AtMark);
  }

  /** Five statements after its start, a run that nothing interrupts has marked its referral. */
  lemma FiveStatements(s: State, run: Id)
    requires Inv(s) && run in s.runs && s.runs[run].pc == AtQualify
    ensures s.runs[run].id in Advances(s, run, 5).finished
  {
    var s2 := Advances(s, run, 2);
    AdvancesInv(s, run, 2);
    ToCredit(s, run);
    FromCredit(s2, run);
    assert Advances(s, run, 3) == DoAdvance(s2, run);
    assert Advances(s, run, 4) == DoAdvance(DoAdvance(s2, run), run);
  }

  /**
   Whatever earlier runs left behind, one run that is not interrupted leaves a referral that is
   not expired with exactly one reward.
   */
  lemma RecoveryFinishes(s: State, es: seq<Event>, run: Id, user: Id, order: Id, id: Id)
    requires Idle(s) && StoreInv(s.store) && run !in Exec(s, es).runs
    requires ByReferred(Exec(s, es).store, user) == Some(id)
    requires Exec(s, es).store.referrals[id].status != Expired
    ensures ExactlyOnce(Advances(DoStart(Exec(s, es), run, user, order), run, 5).store, id)
  {
    RunInv(s, es);
    var s1 := DoStart(Exec(s, es), run, user, order);
    AdvancesInv(s1, run, 5);
    if s1 == Exec(s, es) {
      NotRunning(s1, run, 5);
    } else {
      FiveStatements(s1, run);
    }
    RewardedIsExactlyOnce(Advances(s1, run, 5).store, id);
  }

  lemma {:induction false} NotRunning(s: State, run: Id, n: nat)
    requires run !in s.runs
    ensures Advances(s, run, n) == s
  {
    if n > 0 { NotRunning(s, run, n - 1); }
  }

  // ---- The order that qualified ----

  /** The run was begun by this event, for this referral's payer and an order of theirs. */
  ghost predicate Begun(s: State, e: Event, run: Id, r: Run) {
    && e.Start? && e.run == run && e.order == r.order
    && r.id in s.store.referrals && s.store.referrals[r.id].referred == e.user
    && s.store.referrals[r.id].status != Rewarded && s.store.referrals[r.id].status != Expired
  }

  /** Every run in progress was begun by an event of the history. */
  lemma {:induction false} BegunAt(s: State, es: seq<Event>, run: Id) returns (k: nat)
    requires Idle(s) && run in Exec(s, es).runs
    ensures k < |es| && Begun(Exec(s, es[..k]), es[k], run, Exec(s, es).runs[run])
  {
    var n := |es| - 1;
    var was := Exec(s, es[..n]);
    if es[n].Start? && run !in was.runs {
      k := n;
    } else {
      k := BegunAt(s, es[..n], run);
      assert es[..n][..k] == es[..k];
    }
  }

  /** A referral's order is recorded once, by the run that takes it from PENDING to QUALIFIED, and then kept. */
  lemma OrderStep(s: State, e: Event, id: Id)
    requires id in s.store.referrals
    ensures var before, after := s.store.referrals, Step(s, e).store.referrals;
            && id in after && after[id].referred == before[id].referred
            && (after[id].order != before[id].order ==>
                  && e.Advance? && e.run in s.runs && s.runs[e.run].id == id
                  && before[id].status == Pending && after[id].status == Qualified
                  && after[id].order == Some(s.runs[e.run].order))
  {
  }

  lemma {:induction false} ReferredKept(s: State, es: seq<Event>, k: nat, id: Id)
    requires k <= |es| && id in Exec(s, es[..k]).store.referrals
    ensures id in Exec(s, es).store.referrals
    ensures Exec(s, es).store.referrals[id].referred == Exec(s, es[..k]).store.referrals[id].referred
    decreases |es|
  {
    if k < |es| {
      assert es[..|es| - 1][..k] == es[..k];
      ReferredKept(s, es[..|es| - 1], k, id);
      OrderStep(Exec(s, es[..|es| - 1]), es[|es| - 1], id);
    } else {
      assert es[..k] == es;
    }
  }

  /**
   Over every run: the order recorded on a referral is one that its referred user paid, for which the reward was called
   while the referral was PENDING or QUALIFIED.
   */
  lemma {:induction false} RecordedOrderWasPaid(s: State, es: seq<Event>, id: Id) returns (k: nat)
    requires Idle(s) && id in Exec(s, es).store.referrals && Exec(s, es).store.referrals[id].order.Some?
    requires id !in s.store.referrals || s.store.referrals[id].order.None?
    ensures k < |es| && es[k].Start? && Some(es[k].order) == Exec(s, es).store.referrals[id].order
    ensures es[k].user == Exec(s, es).store.referrals[id].referred
    ensures var at := Exec(s, es[..k]).store.referrals; id in at && at[id].status != Rewarded && at[id].status != Expired
  {
    k := 0;
    var n := |es| - 1;
    var was := Exec(s, es[..n]);
    if id in was.store.referrals {
      OrderStep(was, es[n], id);
      if was.store.referrals[id].order == Exec(s, es).store.referrals[id].order {
        k := RecordedOrderWasPaid(s, es[..n], id);
      } else {
        k := BegunAt(s, es[..n], es[n].run);
        ReferredKept(s, es[..n], k, id);
      }
      assert es[..n][..k] == es[..k];
    }
  }

  // ---- Single events ----

  /** A signup makes a PENDING referral of 2000 unless it is one's own code or the user was referred before. */
  lemma AppliedIff(s: State, id: Id, referrer: Id, referred: Id)
    requires id !in s.store.referrals
    ensures var after := Step(s, Apply(id, referrer, referred)).store.referrals;
            after == if referrer != referred && (forall i :: i in s.store.referrals ==> s.store.referrals[i].referred != referred)
                     then s.store.referrals[id := Referral(referrer, referred, 2000, Pending, None)]
                     else s.store.referrals
  {
  }

  /** Expiry ends a referral unless it is REWARDED. */
  lemma ExpiredIff(s: State, id: Id)
    requires id in s.store.referrals
    ensures var after := Step(s, Expire(id)).store.referrals;
            id in after && (after[id].status == if s.store.referrals[id].status == Rewarded then Rewarded else Expired)
  {
  }

  ghost predicate NoRunOn(s: State, id: Id) { forall r :: r in s.runs ==> s.runs[r].id != id }

  lemma CreditsOnlyOwn(s: Store, user: Id, amount: int, key: Option<Key>, id: Id)
    requires key != Some(RewardKey(id)) && WalletApply(s, user, amount, key).Ok?
    ensures Credits(WalletApply(s, user, amount, key).value.journal, id) == Credits(s.journal, id)
  {
    AppendEntry(s.journal, Entry(user, amount, key), user, id);
  }

  lemma ExpiredStep(s: State, e: Event, id: Id)
    requires id in s.store.referrals && s.store.referrals[id].status == Expired && NoRunOn(s, id)
    ensures var t := Step(s, e);
            && id in t.store.referrals && t.store.referrals[id].status == Expired && NoRunOn(t, id)
            && Credits(t.store.journal, id) == Credits(s.store.journal, id)
  {
    match e
    case Advance(run) =>
      if run in s.runs && s.runs[run].pc == AtCredit {
        var r := s.runs[run];
        if Credit(s.store, r.id, r.row).Ok? {
          CreditsOnlyOwn(s.store, r.row.referrer, r.row.amount, Some(RewardKey(r.id)), id);
        }
      }
    case OtherMovement(user, amount, text) =>
      var key := if text.Some? then Some(OtherKey(text.value)) else None;
      if WalletApply(s.store, user, amount, key).Ok? { CreditsOnlyOwn(s.store, user, amount, key, id); }
    case _ =>
  }

  /** An expired referral on which no run is in progress is never credited again, whatever is paid later. */
  lemma {:induction false} ExpiredForGood(s: State, es: seq<Event>, id: Id)
    requires id in s.store.referrals && s.store.referrals[id].status == Expired && NoRunOn(s, id)
    ensures var t := Exec(s, es);
            && id in t.store.referrals && t.store.referrals[id].status == Expired && NoRunOn(t, id)
            && Credits(t.store.journal, id) == Credits(s.store.journal, id)
  {
    if es != [] {
      ExpiredForGood(s, es[..|es| - 1], id);
      ExpiredStep(Exec(s, es[..|es| - 1]), es[|es| - 1], id);
    }
  }

  /** A wallet movement, answer by answer: a used key changes nothing, a debit may go down to zero. */
  lemma WalletAnswers(s: Store, user: Id, amount: int, key: Option<Key>)
    ensures var r := WalletApply(s, user, amount, key);
            var used := key.Some? && exists i :: 0 <= i < |s.journal| && s.journal[i].key == key;
            && (r == Err(BadAmount) <==> amount == 0)
            && (r == Err(NoWallet) <==> amount != 0 && user !in s.wallets)
            && (r == Err(Insufficient) <==> amount != 0 && user in s.wallets && !used && s.wallets[user] < -amount)
            && (r.Ok? && used ==> r.value == s)
            && (r.Ok? && !used ==> r.value == s.(wallets := s.wallets[user := s.wallets[user] + amount],
                                                 journal := s.journal + [Entry(user, amount, key)]))
  {
  }

  // ---- The service ----

  datatype ApplyError = InvalidInput | UnknownCode | OwnCode | AlreadyReferred

  class Service {
    var referrals: map<Id, Referral>
    var wallets: map<Id, int>
    var journal: seq<Entry>
    var rewards: map<Id, Reward>
    /** Referral codes, normalised to upper case, and their owners. */
    var codes: map<string, Id>

    constructor (s: Store, codes: map<string, Id>)
      ensures Stores() == s && this.codes == codes
    {
      referrals, wallets, journal, rewards := s.referrals, s.wallets, s.journal, s.rewards;
      this.codes := codes;
    }

    function Stores(): Store
      reads this
    {
      Store(referrals, wallets, journal, rewards)
    }

    /** What the referral table promises of its rows. */
    ghost predicate Valid()
      reads this
    {
      ReferralsOk(Stores())
    }

    /** `code` is trimmed and upper-cased; `id` is the id the table will generate. */
    method ApplyCode(referred: Id, code: string, id: Id) returns (r: Result<Id, ApplyError>)
      requires Valid() && id !in referrals
      modifies this`referrals
      ensures Valid()
      ensures r.Ok? <==> code != "" && code in codes && codes[code] != referred
                         && forall i :: i in old(referrals) ==> old(referrals)[i].referred != referred
      ensures r.Ok? ==> Applies(old(Stores()), id, codes[code], referred)
      ensures r == Err(InvalidInput) <==> code == ""
      ensures r == Err(UnknownCode) <==> code != "" && code !in codes
      ensures r == Err(OwnCode) <==> code != "" && code in codes && codes[code] == referred
      ensures r.Ok? ==> r.value == id && referrals == old(referrals)[id := NewReferral(codes[code], referred)]
      ensures r.Err? ==> referrals == old(referrals)
    {
      if code == "" { return Err(InvalidInput); }
      if code !in codes { return Err(UnknownCode); }
      if codes[code] == referred { return Err(OwnCode); }
      if i :| i in referrals && referrals[i].referred == referred { return Err(AlreadyReferred); }
      referrals := referrals[id := NewReferral(codes[code], referred)];
      r := Ok(id);
    }

    /** Returns false when the wallet refused the credit. */
    method QualifyOnOrderPaid(user: Id, order: Id) returns (ok: bool)
      requires Valid()
      modifies this
      ensures Valid()
      ensures (Stores(), ok) == Issue(old(Stores()), ByReferred(old(Stores()), user), order)
    {
      var found: Option<Id> := None;
      if i :| i in referrals && referrals[i].referred == user { found := Some(i); }
      assert found == ByReferred(Stores(), user);
      if found.None? || referrals[found.value].status == Rewarded || referrals[found.value].status == Expired {
        return true;
      }
      IssueKeepsReferrals(Stores(), found, order);
      ok := IssueReward(found.value, order);
    }

    /** The statements from the compare-and-set to the mark. */
    method IssueReward(id: Id, order: Id) returns (ok: bool)
      requires id in referrals && referrals[id].status != Rewarded && referrals[id].status != Expired
      modifies this
      ensures (Stores(), ok) == Issue(old(Stores()), Some(id), order)
    {
      var row := referrals[id];
      if referrals[id].status == Pending {
        referrals := referrals[id := referrals[id].(status := Qualified, order := Some(order))];
      }
      if row.referrer !in wallets { wallets := wallets[row.referrer := 0]; }
      var credited := Credit(Stores(), id, row);
      if credited.Err? { return false; }
      wallets, journal := credited.value.wallets, credited.value.journal;
      if id !in rewards { rewards := rewards[id := Reward(row.referrer, row.amount)]; }
      referrals := referrals[id := referrals[id].(status := Rewarded)];
      ok := true;
    }
  }

  /** The five statements on the referral that was found, with nothing in between. */
  function Issue(s: Store, found: Option<Id>, order: Id): (Store, bool)
    requires found.Some? ==> found.value in s.referrals
  {
    if found.None? || s.referrals[found.value].status in {Rewarded, Expired} then (s, true)
    else
      var row := s.referrals[found.value];
      var s2 := EnsureWallet(Qualify(s, found.value, order), row.referrer);
      match Credit(s2, found.value, row)
      case Err(_) => (s2, false)
      case Ok(s3) => (MarkRewarded(CreateReward(s3, found.value, row.referrer, row.amount), found.value), true)
  }

  /** The store when the credit is made. */
  function Ready(s: Store, id: Id, order: Id): Store
    requires id in s.referrals
  {
    EnsureWallet(Qualify(s, id, order), s.referrals[id].referrer)
  }

  function Balance(s: Store, user: Id): int { if user in s.wallets then s.wallets[user] else 0 }

  lemma ReadyIs(s: Store, id: Id, order: Id)
    requires id in s.referrals && s.referrals[id].status in {Pending, Qualified}
    ensures var row, t := s.referrals[id], Ready(s, id, order);
            && t.referrals == s.referrals[id := row.(status := Qualified, order := if row.status == Pending then Some(order) else row.order)]
            && t.wallets == s.wallets[row.referrer := Balance(s, row.referrer)]
            && t.journal == s.journal && t.rewards == s.rewards
  {
  }

  lemma CreditIs(s: Store, id: Id, row: Referral)
    requires row.amount > 0 && row.referrer in s.wallets && s.wallets[row.referrer] >= 0
    ensures Credit(s, id, row) == Ok(if Credits(s.journal, id) > 0 then s
                                     else Post(s, Entry(row.referrer, row.amount, Some(RewardKey(id)))))
  {
    CreditsZero(s.journal, id);
  }

  lemma IssueCredits(s: Store, id: Id, order: Id)
    requires StoreInv(s) && id in s.referrals && s.referrals[id].status in {Pending, Qualified}
    ensures var row := s.referrals[id];
            Credit(Ready(s, id, order), id, row)
            == Ok(if Credits(s.journal, id) > 0 then Ready(s, id, order)
                  else Post(Ready(s, id, order), Entry(row.referrer, row.amount, Some(RewardKey(id)))))
  {
    ReadyIs(s, id, order);
    assert JournalTotal(s.journal, s.referrals[id].referrer) >= 0;
    CreditIs(Ready(s, id, order), id, s.referrals[id]);
  }

  lemma IssueIs(s: Store, id: Id, order: Id, t: Store)
    requires id in s.referrals && s.referrals[id].status in {Pending, Qualified}
    requires Credit(Ready(s, id, order), id, s.referrals[id]) == Ok(t) && t.rewards == s.rewards
    requires id in t.referrals && (id in s.rewards ==> s.rewards[id] == Reward(s.referrals[id].referrer, s.referrals[id].amount))
    ensures var row := s.referrals[id];
            Issue(s, Some(id), order)
            == (Store(t.referrals[id := t.referrals[id].(status := Rewarded)], t.wallets, t.journal,
                      s.rewards[id := Reward(row.referrer, row.amount)]), true)
  {
    assert s.rewards[id := Reward(s.referrals[id].referrer, s.referrals[id].amount)]
        == CreateReward(t, id, s.referrals[id].referrer, s.referrals[id].amount).rewards;
  }

  /**
   What one call leaves behind, whatever was there: an open referral REWARDED with its first order, the reward row, the
   credit unless it was there already; every other referral, reward, wallet and journal line as it was.
   */
  lemma IssueLeaves(s: Store, id: Id, order: Id)
    requires StoreInv(s) && id in s.referrals && s.referrals[id].status in {Pending, Qualified}
    ensures var row, credited := s.referrals[id], Credits(s.journal, id) > 0;
            var (t, ok) := Issue(s, Some(id), order);
            && ok
            && t.referrals == s.referrals[id := row.(status := Rewarded, order := if row.status == Pending then Some(order) else row.order)]
            && t.rewards == s.rewards[id := Reward(row.referrer, row.amount)]
            && t.journal == s.journal + (if credited then [] else [Entry(row.referrer, row.amount, Some(RewardKey(id)))])
            && t.wallets == s.wallets[row.referrer := Balance(s, row.referrer) + if credited then 0 else row.amount]
  {
    IssueCredits(s, id, order);
    ReadyIs(s, id, order);
    assert id in s.rewards ==> RewardDone(s, id);
    IssueIs(s, id, order, Credit(Ready(s, id, order), id, s.referrals[id]).value);
    assert s.journal + [] == s.journal;
  }

  /** A call reports a failure only for a referral that is open and whose credit the wallet refuses. */
  lemma IssueFailsIff(s: Store, found: Option<Id>, order: Id)
    requires found.Some? ==> found.value in s.referrals
    ensures Issue(s, found, order).1 <==>
            || found.None? || s.referrals[found.value].status == Rewarded || s.referrals[found.value].status == Expired
            || (var row := s.referrals[found.value];
                row.amount > 0 && (KeyClaimed(s.journal, Some(RewardKey(found.value))) || Balance(s, row.referrer) + row.amount >= 0))
    ensures found.None? || s.referrals[found.value].status in {Rewarded, Expired} ==> Issue(s, found, order).0 == s
  {
  }

  /** The same referrals of the same people with the same amounts; statuses may differ. */
  ghost predicate SamePeople(rs: map<Id, Referral>, ts: map<Id, Referral>) {
    && rs.Keys == ts.Keys
    && forall id | id in rs :: rs[id].(status := Pending, order := None) == ts[id].(status := Pending, order := None)
  }

  lemma StatusOnly(rs: map<Id, Referral>, id: Id, status: Status, order: Option<Id>)
    requires id in rs
    ensures SamePeople(rs, rs[id := rs[id].(status := status, order := order)])
  {
  }

  lemma SamePeopleTwice(rs: map<Id, Referral>, ts: map<Id, Referral>, us: map<Id, Referral>)
    requires SamePeople(rs, ts) && SamePeople(ts, us)
    ensures SamePeople(rs, us)
  {
    forall id | id in rs ensures rs[id].(status := Pending, order := None) == us[id].(status := Pending, order := None) {
      assert id in ts;
    }
  }

  lemma QualifySamePeople(s: Store, id: Id, order: Id)
    requires id in s.referrals
    ensures SamePeople(s.referrals, Qualify(s, id, order).referrals)
  {
    StatusOnly(s.referrals, id, Qualified, Some(order));
  }

  lemma CreditSamePeople(s: Store, id: Id, row: Referral)
    ensures Credit(s, id, row).Ok? ==> Credit(s, id, row).value.referrals == s.referrals
  {
  }

  lemma IssueSamePeople(s: Store, id: Id, order: Id)
    requires id in s.referrals
    ensures SamePeople(s.referrals, Issue(s, Some(id), order).0.referrals)
  {
    var row, s1 := s.referrals[id], Qualify(s, id, order);
    QualifySamePeople(s, id, order);
    CreditSamePeople(EnsureWallet(s1, row.referrer), id, row);
    StatusOnly(s1.referrals, id, Rewarded, s1.referrals[id].order);
    SamePeopleTwice(s.referrals, s1.referrals, MarkRewarded(s1, id).referrals);
  }

  lemma SamePeopleOk(s: Store, t: Store)
    requires ReferralsOk(s) && SamePeople(s.referrals, t.referrals)
    ensures ReferralsOk(t)
  {
  }

  lemma IssueKeepsReferrals(s: Store, found: Option<Id>, order: Id)
    requires ReferralsOk(s) && (found.Some? ==> found.value in s.referrals)
    ensures ReferralsOk(Issue(s, found, order).0)
  {
    if found.Some? {
      IssueSamePeople(s, found.value, order);
      SamePeopleOk(s, Issue(s, found, order).0);
    }
  }

  /** The method above is a run of the protocol that nothing interrupts. */
  lemma IssueIsUninterruptedRun(s: State, run: Id, user: Id, order: Id)
    requires run !in s.runs
    ensures Issue(s.store, ByReferred(s.store, user), order).0 == Advances(DoStart(s, run, user, order), run, 5).store
  {
    var s0 := DoStart(s, run, user, order);
    if s0 == s {
      NotRunning(s, run, 5);
    } else {
      var r := s0.runs[run];
      ToCredit(s0, run);
      var s2 := Advances(s0, run, 2);
      QualifyThenWallet(s0, run);
      AdvancesSplit(s0, run, 3, 2);
      var s3 := DoAdvance(s2, run);
      assert Advances(s0, run, 3) == s3;
      if Credit(s2.store, r.id, r.row).Err? {
        NotRunning(s3, run, 2);
      } else {
        assert s3.runs[run] == r.(pc := AtReward);
        RewardThenMark(s3, run);
      }
    }
  }

  lemma QualifyThenWallet(s: State, run: Id)
    requires run in s.runs && s.runs[run].pc == AtQualify
    ensures Advances(s, run, 2).store == EnsureWallet(Qualify(s.store, s.runs[run].id, s.runs[run].order), s.runs[run].row.referrer)
  {
    assert Advances(s, run, 1) == DoAdvance(s, run) by { assert Advances(s, run, 0) == s; }
  }

  lemma RewardThenMark(s: State, run: Id)
    requires run in s.runs && s.runs[run].pc == AtReward
    ensures var r := s.runs[run];
            Advances(s, run, 2).store == MarkRewarded(CreateReward(s.store, r.id, r.row.referrer, r.row.amount), r.id)
  {
    assert Advances(s, run, 1) == DoAdvance(s, run) by { assert Advances(s, run, 0) == s; }
  }

  lemma {:induction false} AdvancesSplit(s: State, run: Id, n: nat, m: nat)
    ensures Advances(s, run, n + m) == Advances(Advances(s, run, n), run, m)
  {
    if m > 0 { AdvancesSplit(s, run, n, m - 1); }
  }
}
