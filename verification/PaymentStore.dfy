/** The transactions as the program runs them: rows and profile are updated step by step and rolled back on error. */
module PaymentStore {
  import opened Options
  import opened PaymentAccounts

  lemma OnlyMember<T(!new)>(s: set<T>)
    ensures |s| == 1 <==> exists y :: s == {y}
    ensures |s| == 1 ==> forall x :: x in s ==> TheOnly(s) == Some(x)
    ensures |s| != 1 ==> TheOnly(s) == None
  {
    if |s| == 1 {
      var y :| y in s;
      assert |s - {y}| == 0;
      assert s == {y};
    }
  }

  /** after is what the transaction asked for, or nothing happened. */
  ghost predicate Committed(tx: Result<Db, Error>, before: Db, after: Db, r: Option<Error>) {
    match tx
    case Ok(db) => after == db && r.None?
    case Err(e) => after == before && r == Some(e)
  }

  class Store {
    var accounts: map<AccountId, Account>
    var profile: Option<Profile>
    var tax: TaxProfile

    constructor (db: Db)
      ensures State() == db
    {
      accounts, profile, tax := db.accounts, db.profile, db.tax;
    }

    function State(): Db
      reads this
    {
      Db(accounts, profile, tax)
    }

    method Rollback(before: Db)
      modifies this
      ensures State() == before
    {
      accounts, profile, tax := before.accounts, before.profile, before.tax;
    }

    /** Supersedes the accounts that the snapshot shows as waiting for a correction; ok is false on a conflict. */
    method SupersedeAccounts(snap: Db) returns (ok: bool)
      modifies this
      ensures ok <==> forall a :: Superseding(snap, a) ==> Unchanged(snap, old(State()), a)
      ensures State() == if ok then old(State()).(accounts := Supersede(snap, old(accounts))) else old(State())
    {
      var before := State();
      var attention := set a | a in snap.accounts && snap.accounts[a].status == RequiresAttention;
      var left := attention;
      while left != {}
        invariant left <= attention
        invariant profile == before.profile && tax == before.tax
        invariant accounts.Keys == before.accounts.Keys
        invariant forall a :: a in attention - left ==> Unchanged(snap, before, a)
        invariant forall a :: a in accounts ==>
                    accounts[a] == if a in attention - left then before.accounts[a].(status := Superseded)
                                   else before.accounts[a]
        decreases left
      {
        var a :| a in left;
        if !Unchanged(snap, before, a) {
          Rollback(before);
          assert Superseding(snap, a);
          return false;
        }
        accounts := accounts[a := accounts[a].(status := Superseded)];
        left := left - {a};
      }
      assert forall a :: Superseding(snap, a) ==> a in attention - left;
      assert accounts == Supersede(snap, before.accounts);
      ok := true;
    }

    method CreateAccount(snap: Db, id: AccountId, identifier: string, currency: string, schedule: string)
      returns (r: Option<Error>)
      modifies this
      ensures Committed(CreateTx(snap, old(State()), id, identifier, currency, schedule), old(State()), State(), r)
    {
      hide Supersede, Unchanged, Effective, NewAccount;
      var before := State();
      if |identifier| < 4 {
        return Some(IdentifierRequired);
      }
      var pending := set a | a in snap.accounts && Effective(snap.accounts[a]) == Pending;
      if pending != {} {
        var a :| a in pending;
        return Some(PendingInProgress);
      }
      assert forall a :: a in snap.accounts ==> a !in pending;
      var ok := SupersedeAccounts(snap);
      if !ok {
        return Some(SerializationFailure);
      }
      if PendingElsewhere(accounts, id) || id in accounts {
        Rollback(before);
        return Some(PendingInProgress);
      }
      accounts := accounts[id := NewAccount(identifier, currency, schedule)];
      r := None;
    }

    /** Locks a row and writes the demotion of a legacy verification back. */
    method LockAccount(snap: Db, id: AccountId) returns (r: Result<Account, Error>)
      modifies this
      ensures r == Locked(snap, old(State()), id)
      ensures State() == if r.Ok? then Put(old(State()), id, r.value) else old(State())
    {
      if id !in snap.accounts {
        return Err(NotFound);
      }
      if !Unchanged(snap, State(), id) {
        return Err(SerializationFailure);
      }
      var row := snap.accounts[id];
      if row.status == Verified && Effective(row) == Pending {
        if PendingElsewhere(accounts, id) {
          return Err(UniqueViolation);
        }
        row := row.(status := Pending);
      }
      assert id in accounts;
      assert accounts[id := accounts[id]] == accounts;
      accounts := accounts[id := row];
      r := Ok(row);
    }

    method SyncFinancialProfile(view: Db, id: AccountId, selectPrimary: bool) returns (r: Option<Error>)
      requires id in view.accounts
      modifies this
      ensures Committed(Sync(view, old(State()), id, selectPrimary), old(State()), State(), r)
    {
      var existing := set x | x in view.accounts && Effective(view.accounts[x]) == Verified
                              && References(view.profile, x, view.accounts[x]);
      OnlyMember(existing);
      assert existing == set x | x in VerifiedIds(view) && References(view.profile, x, view.accounts[x]);
      var selected: Option<AccountId> := None;
      if selectPrimary || !HasReference(view.profile) {
        selected := Some(id);
      } else if |existing| == 1 {
        var x :| x in existing;
        selected := Some(x);
      }
      if view.profile != profile {
        return Some(SerializationFailure);
      }
      var reference := if selected.Some? then selected else if profile.Some? then profile.value.reference else None;
      var schedule, currency := "manual", if profile.Some? then profile.value.currency else view.accounts[id].currency;
      if selected.Some? {
        schedule, currency := view.accounts[selected.value].schedule, view.accounts[selected.value].currency;
      }
      profile := Some(Profile(reference, schedule, currency, view.tax, selected.Some? && view.tax == TaxVerified));
      r := None;
    }

    method RefreshReadiness(view: Db) returns (r: Option<Error>)
      modifies this
      ensures Committed(RefreshTx(view, old(State())), old(State()), State(), r)
    {
      var verified := set id | id in view.accounts && Effective(view.accounts[id]) == Verified;
      var matches := set id | id in view.accounts && view.accounts[id].status == Verified
                              && References(view.profile, id, view.accounts[id]);
      OnlyMember(matches);
      OnlyMember(verified);
      assert verified == VerifiedIds(view);
      var choice: Option<AccountId> := None;
      if |matches| == 1 {
        var x :| x in matches;
        if x in verified {
          choice := Some(x);
        }
      }
      if choice.None? && |verified| == 1 {
        var x :| x in verified;
        choice := Some(x);
      }
      assert choice == RefreshChoice(view);
      if choice.Some? {
        r := SyncFinancialProfile(view, choice.value, false);
      } else if view.profile.Some? {
        if view.profile != profile {
          return Some(SerializationFailure);
        }
        profile := Some(profile.value.(ready := false));
        r := None;
      } else {
        r := None;
      }
    }

    method FinishAccountReview(view: Db, id: AccountId) returns (r: Option<Error>)
      requires id in view.accounts
      modifies this
      ensures Committed(FinishReview(view, old(State()), id), old(State()), State(), r)
    {
      if Effective(view.accounts[id]) == Verified {
        r := SyncFinancialProfile(view, id, false);
      } else {
        r := RefreshReadiness(view);
      }
    }

    method ReserveMicroDeposit(snap: Db, id: AccountId, newKey: Uuid, now: Time, available: bool, allowed: bool)
      returns (r: Result<Reservation, Error>)
      modifies this
      ensures match ReserveInitiation(snap, old(State()), id, newKey, now, available, allowed)
              case Ok((db, reservation)) => State() == db && r == Ok(reservation)
              case Err(e) => State() == old(State()) && r == Err(e)
    {
      var before := State();
      var locked := LockAccount(snap, id);
      if locked.Err? {
        return Err(locked.error);
      }
      var row := locked.value;
      var failure: Option<Error> :=
        if !allowed then Some(ReviewNotAllowed)
        else if row.status != Pending then Some(NotPending)
        else if !available then Some(BankVerificationUnavailable)
        else if row.challenge.status == Initiated || row.challenge.status == Failed
                then Some(MicroDepositReviewRequired)
        else None;
      if failure.Some? {
        Rollback(before);
        return Err(failure.value);
      }
      var c := row.challenge;
      var key := newKey;
      if c.requestKey.Some? && c.status == Initiating {
        key := c.requestKey.value;
      }
      var at := c.initiatedAt.GetOr(now);
      accounts := accounts[id := row.(challenge :=
        c.(status := Initiating, requestKey := Some(key), initiatedAt := Some(at)))];
      r := Ok(Reservation(key, at));
    }

    method FinishMicroDeposit(snap: Db, id: AccountId, reservation: Reservation, result: RailResult, allowed: bool)
      returns (r: Option<Error>)
      modifies this
      ensures Committed(FinishInitiation(snap, old(State()), id, reservation, result, allowed), old(State()), State(),
              r)
    {
      if !Accepted(result) {
        return Some(BankVerificationUnavailable);
      }
      var before := State();
      var locked := LockAccount(snap, id);
      if locked.Err? {
        return Some(locked.error);
      }
      var row := locked.value;
      if row.status != Pending || row.challenge.requestKey != Some(reservation.key) {
        Rollback(before);
        return Some(NotPending);
      }
      if !allowed {
        Rollback(before);
        return Some(ReviewNotAllowed);
      }
      if row.challenge.status == Initiated {
        return None;
      }
      var row' := InitiatedRow(row, reservation, result);
      accounts := accounts[id := row'];
      assert accounts == before.accounts[id := row'];
      if Effective(row') == Verified {
        r := FinishAccountReview(Put(snap, id, row'), id);
        if r.Some? {
          Rollback(before);
        }
      } else {
        r := None;
      }
    }

    method ReserveConfirm(snap: Db, id: AccountId, fingerprint: string, newKey: Uuid, now: Time,
                          available: bool, allowed: bool) returns (r: Result<Attempt, Error>)
      modifies this
      ensures match ReserveConfirmation(snap, old(State()), id, fingerprint, newKey, now, available, allowed)
              case Ok((db, attempt)) => State() == db && r == Ok(attempt)
              case Err(e) => State() == old(State()) && r == Err(e)
    {
      var before := State();
      var locked := LockAccount(snap, id);
      if locked.Err? {
        return Err(locked.error);
      }
      var row := locked.value;
      var c := row.challenge;
      var failure: Option<Error> :=
        if !allowed then Some(ReviewNotAllowed)
        else if !available then Some(BankVerificationUnavailable)
        else if row.status != Pending then Some(NotPending)
        else if !Confirmable(row) then Some(BankVerificationUnavailable)
        else if c.status != Initiated then Some(MicroDepositNotInitiated)
        else if c.expiresAt.None? || c.expiresAt.value <= now then Some(MicroDepositExpired)
        else if c.confirmingAt.Some? && now - c.confirmingAt.value < CONFIRMATION_WINDOW
                then Some(ConfirmationInProgress)
        else if c.confirmingAt.Some? && c.fingerprint != Some(fingerprint) then Some(ConfirmationUncertain)
        else if c.attempts >= MAX_ATTEMPTS then Some(MicroDepositFailed)
        else None;
      if failure.Some? {
        Rollback(before);
        return Err(failure.value);
      }
      var token := newKey;
      if c.confirmingAt.Some? && c.token.Some? {
        token := c.token.value;
      }
      accounts := accounts[id := row.(challenge := c.(
        confirmingAt := Some(now), token := Some(token), fingerprint := Some(fingerprint)))];
      r := Ok(Attempt(token, row.rail.value.externalRef));
    }

    method FinishConfirm(snap: Db, id: AccountId, token: Uuid, verdict: Verdict, allowed: bool)
      returns (r: Option<Error>)
      modifies this
      ensures Committed(FinishConfirmation(snap, old(State()), id, token, verdict, allowed), old(State()), State(), r)
    {
      var before := State();
      var locked := LockAccount(snap, id);
      if locked.Err? {
        return Some(locked.error);
      }
      var row := locked.value;
      if row.status != Pending || row.challenge.token != Some(token) {
        Rollback(before);
        return Some(NotPending);
      }
      if !allowed {
        Rollback(before);
        return Some(ReviewNotAllowed);
      }
      var row' := ConfirmedRow(row, verdict);
      accounts := accounts[id := row'];
      assert accounts == before.accounts[id := row'];
      if row'.status != Pending {
        r := FinishAccountReview(Put(snap, id, row'), id);
        if r.Some? {
          Rollback(before);
        }
      } else {
        r := None;
      }
    }

    method Review(snap: Db, id: AccountId, approve: bool) returns (r: Option<Error>)
      modifies this
      ensures Committed(ReviewTx(snap, old(State()), id, approve), old(State()), State(), r)
    {
      var before := State();
      var locked := LockAccount(snap, id);
      if locked.Err? {
        return Some(locked.error);
      }
      var row := locked.value;
      if row.status != Pending {
        Rollback(before);
        return Some(NotPending);
      }
      var row' := row.(status := if approve then Verified else RequiresAttention, lastReview := Some(ManualVerify));
      accounts := accounts[id := row'];
      assert accounts == before.accounts[id := row'];
      r := FinishAccountReview(Put(snap, id, row'), id);
      if r.Some? {
        Rollback(before);
      }
    }

    method SelectPrimary(snap: Db, id: AccountId) returns (r: Option<Error>)
      modifies this
      ensures Committed(SelectPrimaryTx(snap, old(State()), id), old(State()), State(), r)
    {
      var before := State();
      var locked := LockAccount(snap, id);
      if locked.Err? {
        return Some(locked.error);
      }
      if locked.value.status != Verified {
        Rollback(before);
        return Some(VerifiedAccountRequired);
      }
      assert accounts == before.accounts;
      r := SyncFinancialProfile(snap, id, true);
      if r.Some? {
        Rollback(before);
      }
    }
  }
}
