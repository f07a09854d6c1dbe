/** What the financial profile is after each command that writes it. */
module PaymentProfile {
  import opened Options
  import opened PaymentAccounts
  import opened PaymentSafety
  import opened PaymentChallenges
  import opened PaymentCommands

  type Accounts = map<AccountId, Account>

  /** A reference names an account by its id or by its masked number. */
  predicate Names(reference: Option<string>, id: AccountId, a: Account) {
    reference == Some(id) || a.reference == reference
  }

  ghost predicate VerifiedAndNamed(accounts: Accounts, reference: Option<string>, x: AccountId) {
    x in accounts && Effective(accounts[x]) == Verified && Names(reference, x, accounts[x])
  }

  /** x is the only effectively verified account that the reference names. */
  ghost predicate OnlyReferred(accounts: Accounts, reference: Option<string>, x: AccountId) {
    VerifiedAndNamed(accounts, reference, x) && forall y :: VerifiedAndNamed(accounts, reference, y) ==> y == x
  }

  ghost predicate NoReference(profile: Option<Profile>) {
    profile.None? || profile.value.reference.None? || profile.value.reference == Some("")
  }

  /** The profile with the terms of an account, ready when the tax profile is verified. */
  function TermsOf(id: AccountId, a: Account, tax: TaxProfile): Profile {
    Profile(Some(id), a.schedule, a.currency, tax, tax == TaxVerified)
  }

  /**
   The profile that a transaction writes for the effectively verified account id: with no reference
   before, the account becomes the reference; otherwise the only verified account that the reference
   names stays it; and if there is no such account, the profile is not ready.
   */
  ghost predicate WrittenFor(before: Option<Profile>, seen: Accounts, id: AccountId, tax: TaxProfile,
                             after: Option<Profile>)
    requires id in seen
  {
    if NoReference(before) then after == Some(TermsOf(id, seen[id], tax))
    else
      var reference := before.value.reference;
      && (forall x :: OnlyReferred(seen, reference, x) ==> after == Some(TermsOf(x, seen[x], tax)))
      && ((forall x :: !OnlyReferred(seen, reference, x)) ==>
            after == Some(Profile(reference, "manual", before.value.currency, tax, false)))
  }

  lemma SyncWrites(view: Db, cur: Db, id: AccountId)
    requires id in view.accounts && Sync(view, cur, id, false).Ok?
    ensures WrittenFor(view.profile, view.accounts, id, view.tax, Sync(view, cur, id, false).value.profile)
  {
    if !NoReference(view.profile) {
      var reference := view.profile.value.reference;
      var named := set x | x in VerifiedIds(view) && References(view.profile, x, view.accounts[x]);
      hide Effective;
      assert forall x :: VerifiedAndNamed(view.accounts, reference, x) <==> x in named;
      hide VerifiedAndNamed;
      forall x ensures OnlyReferred(view.accounts, reference, x) <==> named == {x} {
        SoleMember(named, x);
      }
      OnlyOne(named);
    }
  }

  /** An approved account writes the profile from what its transaction saw. */
  lemma ReviewWritesProfile(snap: Db, cur: Db, id: AccountId)
    requires ReviewTx(snap, cur, id, true).Ok?
    ensures var db := ReviewTx(snap, cur, id, true).value;
            && id in db.accounts
            && WrittenFor(snap.profile, snap.accounts[id := db.accounts[id]], id, snap.tax, db.profile)
  {
    ReviewedOnce(snap, cur, id, true, true);
    var db := ReviewTx(snap, cur, id, true).value;
    var row := Locked(snap, cur, id).value.(status := Verified, lastReview := Some(ManualVerify));
    hide Effective, Sync, Locked, WrittenFor;
    ReviewKeepsAccounts(Put(snap, id, row), Put(cur, id, row), id);
    assert db.accounts[id] == row;
    SyncWrites(Put(snap, id, row), Put(cur, id, row), id);
  }

  /** So does an account that the bank's answer verified. */
  lemma ConfirmationWritesProfile(snap: Db, cur: Db, id: AccountId, token: Uuid, verdict: Verdict)
    requires FinishConfirmation(snap, cur, id, token, verdict, true).Ok?
    requires var db := FinishConfirmation(snap, cur, id, token, verdict, true).value;
             id in db.accounts && Effective(db.accounts[id]) == Verified
    ensures var db := FinishConfirmation(snap, cur, id, token, verdict, true).value;
            WrittenFor(snap.profile, snap.accounts[id := db.accounts[id]], id, snap.tax, db.profile)
  {
    AnswerCountedOnce(snap, cur, id, token, verdict, verdict);
    var db := FinishConfirmation(snap, cur, id, token, verdict, true).value;
    var row := ConfirmedRow(Locked(snap, cur, id).value, verdict);
    assert Effective(db.accounts[id]) == Verified ==> db.accounts[id].status == Verified;
    hide Effective, Sync, Locked, WrittenFor, ConfirmedRow;
    assert row.status != Pending ==> db.accounts == cur.accounts[id := row] by {
      if row.status != Pending {
        ReviewKeepsAccounts(Put(snap, id, row), Put(cur, id, row), id);
      }
    }
    assert db.accounts[id] == row;
    SyncWritesIf(Put(snap, id, row), Put(cur, id, row), id);
  }

  lemma SyncWritesIf(view: Db, cur: Db, id: AccountId)
    requires id in view.accounts
    ensures Sync(view, cur, id, false).Ok? ==>
              WrittenFor(view.profile, view.accounts, id, view.tax, Sync(view, cur, id, false).value.profile)
  {
    if Sync(view, cur, id, false).Ok? {
      SyncWrites(view, cur, id);
    }
  }

  /** And an account that the rail verified at once. */
  lemma InitiationWritesProfile(snap: Db, cur: Db, id: AccountId, r: Reservation, reply: RailReply)
    requires FinishInitiation(snap, cur, id, r, ResultOf(reply), true).Ok?
    requires var db := FinishInitiation(snap, cur, id, r, ResultOf(reply), true).value;
             id in db.accounts && Effective(db.accounts[id]) == Verified
    ensures var db := FinishInitiation(snap, cur, id, r, ResultOf(reply), true).value;
            WrittenFor(snap.profile, snap.accounts[id := db.accounts[id]], id, snap.tax, db.profile)
  {
    AnswerRecordedOnce(snap, cur, id, r, reply, r, reply);
    var db := FinishInitiation(snap, cur, id, r, ResultOf(reply), true).value;
    var locked := Locked(snap, cur, id).value;
    var row := InitiatedRow(locked, r, ResultOf(reply));
    assert locked.challenge == cur.accounts[id].challenge;
    hide Effective, Sync, Locked, WrittenFor, InitiatedRow, ResultOf, Accepted;
    assert locked.challenge.status != Initiated;
    if Effective(row) == Verified {
      ReviewKeepsAccounts(Put(snap, id, row), Put(cur, id, row), id);
    }
    assert db.accounts[id] == row;
    SyncWritesIf(Put(snap, id, row), Put(cur, id, row), id);
  }

  // ----- Refreshing

  /** The account shown as primary: the only one stored as verified that the reference names. */
  ghost predicate Primary(db: Db, x: AccountId) {
    StoredAndNamed(db, x) && forall y :: StoredAndNamed(db, y) ==> y == x
  }

  ghost predicate StoredAndNamed(db: Db, x: AccountId) {
    && db.profile.Some? && x in db.accounts && db.accounts[x].status == Verified
    && Names(db.profile.value.reference, x, db.accounts[x])
  }

  ghost predicate CountsAsVerified(db: Db, x: AccountId) {
    x in db.accounts && Effective(db.accounts[x]) == Verified
  }

  ghost predicate SoleVerified(db: Db, x: AccountId) {
    CountsAsVerified(db, x) && forall y :: CountsAsVerified(db, y) ==> y == x
  }

  /**
   The account that a refresh goes on with: the primary one if it counts as verified, or
   else the only verified one.
   */
  ghost predicate RefreshedFrom(db: Db, x: AccountId) {
    if exists p :: Primary(db, p) && Effective(db.accounts[p]) == Verified then Primary(db, x) else SoleVerified(db, x)
  }

  lemma ChoiceIsRefreshed(view: Db)
    ensures forall x :: RefreshChoice(view) == Some(x) <==> RefreshedFrom(view, x)
  {
    var verified := VerifiedIds(view);
    var matches := set id | id in view.accounts && view.accounts[id].status == Verified
                            && References(view.profile, id, view.accounts[id]);
    hide Effective;
    assert forall x :: StoredAndNamed(view, x) <==> x in matches;
    assert forall x :: CountsAsVerified(view, x) <==> x in verified;
    hide StoredAndNamed;
    forall x ensures (Primary(view, x) <==> matches == {x}) && (SoleVerified(view, x) <==> verified == {x}) {
      SoleMember(matches, x);
      SoleMember(verified, x);
    }
    OnlyOne(matches);
    OnlyOne(verified);
    hide Primary, SoleVerified, VerifiedIds;
  }

  lemma SoleMember(s: set<AccountId>, x: AccountId)
    ensures s == {x} <==> x in s && forall y :: y in s ==> y == x
  {
  }

  lemma OnlyOne(s: set<AccountId>)
    ensures forall x :: TheOnly(s) == Some(x) <==> s == {x}
  {
  }

  /**
   A refresh writes the profile for the account it goes on with; without one it withdraws readiness and
   changes nothing else. No account row changes.
   */
  lemma RefreshWritesProfile(view: Db, cur: Db)
    requires RefreshTx(view, cur).Ok?
    ensures var db := RefreshTx(view, cur).value;
            && db.accounts == cur.accounts && db.tax == cur.tax
            && (forall x :: RefreshedFrom(view, x) && x in view.accounts ==>
                  WrittenFor(view.profile, view.accounts, x, view.tax, db.profile))
            && ((forall x :: !RefreshedFrom(view, x)) ==>
                  if view.profile.None? then db.profile == cur.profile
                  else db.profile == Some(view.profile.value.(ready := false)))
  {
    ChoiceIsRefreshed(view);
    var choice := RefreshChoice(view);
    hide RefreshChoice, RefreshedFrom, WrittenFor;
    if choice.Some? && choice.value in view.accounts {
      SyncWrites(view, cur, choice.value);
    }
  }

  /** A rejected account refreshes the profile from the other accounts. */
  lemma RejectionRefreshes(snap: Db, cur: Db, id: AccountId)
    requires ReviewTx(snap, cur, id, false).Ok?
    ensures var db := ReviewTx(snap, cur, id, false).value;
            && id in db.accounts
            && RefreshTx(Put(snap, id, db.accounts[id]), Put(cur, id, db.accounts[id])) == Ok(db)
  {
    ReviewedOnce(snap, cur, id, false, false);
    var db := ReviewTx(snap, cur, id, false).value;
    var row := Locked(snap, cur, id).value.(status := RequiresAttention, lastReview := Some(ManualVerify));
    hide Effective, RefreshTx, Locked;
    ReviewKeepsAccounts(Put(snap, id, row), Put(cur, id, row), id);
    assert db.accounts[id] == row;
  }

  /**
   So a provider whose only verified account is the reference, or that has none yet, is ready after a
   refresh exactly when its tax profile is verified.
   */
  lemma RefreshMakesReady(db: Db, x: AccountId)
    requires SoleVerified(db, x) && (NoReference(db.profile) || db.profile.value.reference == Some(x))
    ensures RefreshTx(db, db).Ok? && RefreshTx(db, db).value.profile == Some(TermsOf(x, db.accounts[x], db.tax))
  {
    assert RefreshedFrom(db, x) by {
      if p :| Primary(db, p) && Effective(db.accounts[p]) == Verified {
        assert CountsAsVerified(db, p);
      }
    }
    ChoiceIsRefreshed(db);
    assert RefreshTx(db, db).Ok?;
    RefreshWritesProfile(db, db);
    if !NoReference(db.profile) {
      var reference := db.profile.value.reference;
      assert forall y :: VerifiedAndNamed(db.accounts, reference, y) ==> CountsAsVerified(db, y);
      assert OnlyReferred(db.accounts, reference, x);
    }
    hide RefreshTx, RefreshChoice, Effective;
  }
}
