/** Which error each bank-account command reports. */
module PaymentErrors {
  import opened Options
  import opened PaymentAccounts
  import opened PaymentCommands

  /** An account that the snapshot does not show is not found; one that changed since makes the transaction retry. */
  lemma LockReports(snap: Db, cur: Db, id: AccountId)
    ensures var r := Locked(snap, cur, id);
            && (r == Err(NotFound) <==> id !in snap.accounts)
            && (r == Err(SerializationFailure) <==>
                  id in snap.accounts && !(id in cur.accounts && cur.accounts[id] == snap.accounts[id]))
            && (r.Err? ==> r.error == NotFound || r.error == SerializationFailure || r.error == UniqueViolation)
  {
  }

  /** Once the row is locked: permission, status, availability, and a challenge that is out already, in this order. */
  lemma InitiationReports(snap: Db, cur: Db, id: AccountId, key: Uuid, now: Time, available: bool, allowed: bool)
    ensures var r := ReserveInitiation(snap, cur, id, key, now, available, allowed);
            match Locked(snap, cur, id)
            case Err(e) => r == Err(e)
            case Ok(_) =>
              && id in cur.accounts
              && var pending, status := Effective(cur.accounts[id]) == Pending, cur.accounts[id].challenge.status;
              && (r == Err(ReviewNotAllowed) <==> !allowed)
              && (r == Err(NotPending) <==> allowed && !pending)
              && (r == Err(BankVerificationUnavailable) <==> allowed && pending && !available)
              && (r == Err(MicroDepositReviewRequired) <==>
                    allowed && pending && available && (status == Initiated || status == Failed))
  {
    if Locked(snap, cur, id).Ok? {
      LockShowsEffectiveStatus(snap, cur, id);
    }
    hide Locked, Effective;
  }

  /** A result that is not a live deposit with a reference is reported before the row is looked at. */
  lemma RecordingReports(snap: Db, cur: Db, id: AccountId, r: Reservation, result: RailResult, allowed: bool)
    ensures var tx := FinishInitiation(snap, cur, id, r, result, allowed);
            var live := result.ok && result.mode == LiveMode && |result.externalRef| > 0
                        && (result.depositMethod == MicroDeposits || result.depositMethod == NoMethod);
            && (tx == Err(BankVerificationUnavailable) <==> !live)
            && (live ==>
                  match Locked(snap, cur, id)
                  case Err(e) => tx == Err(e)
                  case Ok(_) =>
                    && id in cur.accounts
                    && var held := Effective(cur.accounts[id]) == Pending
                                   && cur.accounts[id].challenge.requestKey == Some(r.key);
                    && (tx == Err(NotPending) <==> !held)
                    && (tx == Err(ReviewNotAllowed) <==> held && !allowed))
  {
    if Locked(snap, cur, id).Ok? {
      LockShowsEffectiveStatus(snap, cur, id);
    } else {
      LockReports(snap, cur, id);
    }
    hide Locked, Effective, SyncedProfile, InitiatedRow, RefreshChoice;
  }

  /**
   A confirmation: permission, availability, status, the deposit, its expiry, the outstanding answer,
   and the attempts.
   */
  lemma ConfirmationReports(snap: Db, cur: Db, id: AccountId, fingerprint: string, key: Uuid, now: Time,
                            available: bool, allowed: bool)
    requires Locked(snap, cur, id).Ok?
    ensures id in cur.accounts
    ensures var r := ReserveConfirmation(snap, cur, id, fingerprint, key, now, available, allowed);
            var a, c := cur.accounts[id], cur.accounts[id].challenge;
            var pending := Effective(a) == Pending;
            var stripe := a.rail.Some? && a.rail.value.live && a.rail.value.provider == StripeConnect
                          && c.via == Some(ViaStripe);
            var open := allowed && available && pending && stripe && c.status == Initiated;
            var current := open && c.expiresAt.Some? && now < c.expiresAt.value;
            var waiting := c.confirmingAt.Some? && now < c.confirmingAt.value + 60_000;
            && (r == Err(ReviewNotAllowed) <==> !allowed)
            && (r == Err(BankVerificationUnavailable) <==> allowed && (!available || (pending && !stripe)))
            && (r == Err(NotPending) <==> allowed && available && !pending)
            && (r == Err(MicroDepositNotInitiated) <==>
                  allowed && available && pending && stripe && c.status != Initiated)
            && (r == Err(MicroDepositExpired) <==> open && !current)
            && (r == Err(ConfirmationInProgress) <==> current && waiting)
            && (r == Err(ConfirmationUncertain) <==>
                  current && c.confirmingAt.Some? && !waiting && c.fingerprint != Some(fingerprint))
            && (r == Err(MicroDepositFailed) <==>
                  && current && !waiting && c.attempts >= 3
                  && (c.confirmingAt.Some? ==> c.fingerprint == Some(fingerprint)))
  {
    LockShowsEffectiveStatus(snap, cur, id);
    hide Locked, Effective;
  }

  /** An answer to a token that is not outstanding is refused, whatever it is. */
  lemma CountingReports(snap: Db, cur: Db, id: AccountId, token: Uuid, verdict: Verdict, allowed: bool)
    ensures var r := FinishConfirmation(snap, cur, id, token, verdict, allowed);
            match Locked(snap, cur, id)
            case Err(e) => r == Err(e)
            case Ok(_) =>
              && id in cur.accounts
              && var held := Effective(cur.accounts[id]) == Pending && cur.accounts[id].challenge.token == Some(token);
              && (r == Err(NotPending) <==> !held)
              && (r == Err(ReviewNotAllowed) <==> held && !allowed)
  {
    if Locked(snap, cur, id).Ok? {
      LockShowsEffectiveStatus(snap, cur, id);
    }
    hide Locked, Effective, SyncedProfile, ConfirmedRow, RefreshChoice;
  }

  lemma ReviewReports(snap: Db, cur: Db, id: AccountId, approve: bool)
    ensures var r := ReviewTx(snap, cur, id, approve);
            match Locked(snap, cur, id)
            case Err(e) => r == Err(e)
            case Ok(_) => id in cur.accounts && (r == Err(NotPending) <==> Effective(cur.accounts[id]) != Pending)
  {
    if Locked(snap, cur, id).Ok? {
      LockShowsEffectiveStatus(snap, cur, id);
    }
    hide Locked, Effective, SyncedProfile, RefreshChoice;
  }

  lemma SelectionReports(snap: Db, cur: Db, id: AccountId)
    ensures var r := SelectPrimaryTx(snap, cur, id);
            match Locked(snap, cur, id)
            case Err(e) => r == Err(e)
            case Ok(_) =>
              && id in cur.accounts
              && (r == Err(VerifiedAccountRequired) <==> Effective(cur.accounts[id]) != Verified)
              && (r == Err(SerializationFailure) <==>
                    Effective(cur.accounts[id]) == Verified && snap.profile != cur.profile)
  {
    if Locked(snap, cur, id).Ok? {
      LockShowsEffectiveStatus(snap, cur, id);
    }
    hide Locked, Effective, SyncedProfile;
  }

  /** A creation: the identifier, a pending account, a conflict on an account waiting for a correction, the index. */
  lemma CreateReports(snap: Db, cur: Db, id: AccountId, identifier: string, currency: string, schedule: string)
    ensures var r := CreateTx(snap, cur, id, identifier, currency, schedule);
            var pending := exists a :: a in snap.accounts && Effective(snap.accounts[a]) == Pending;
            var changed := exists a :: a in snap.accounts && snap.accounts[a].status == RequiresAttention
                                       && !(a in cur.accounts && cur.accounts[a] == snap.accounts[a]);
            && (r == Err(IdentifierRequired) <==> |identifier| < 4)
            && (r == Err(SerializationFailure) <==> |identifier| >= 4 && !pending && changed)
            && (r.Err? && |identifier| >= 4 && (pending || !changed) ==> r.error == PendingInProgress)
  {
    hide Effective, NewAccount, Supersede;
    assert (exists a :: Superseding(snap, a) && !Unchanged(snap, cur, a))
      <==> exists a :: a in snap.accounts && snap.accounts[a].status == RequiresAttention
                       && !(a in cur.accounts && cur.accounts[a] == snap.accounts[a])
    by {
      assert forall a :: Superseding(snap, a) <==> a in snap.accounts && snap.accounts[a].status == RequiresAttention;
      assert forall a :: a in snap.accounts ==>
               (Unchanged(snap, cur, a) <==> a in cur.accounts && cur.accounts[a] == snap.accounts[a]);
    }
  }
}
