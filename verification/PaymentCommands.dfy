/** What each bank-account command leaves behind, and what it does when it is repeated. */
module PaymentCommands {
  import opened Options
  import opened PaymentAccounts
  import opened PaymentEvidence
  import opened PaymentWorld
  import opened PaymentSafety
  import opened PaymentChallenges

  /** No account but id differs between the two states. */
  ghost predicate OnlyAccount(cur: Db, db: Db, id: AccountId) {
    id in cur.accounts && id in db.accounts && db.accounts == cur.accounts[id := db.accounts[id]]
  }

  /** Neither does the profile. */
  ghost predicate OnlyRow(cur: Db, db: Db, id: AccountId) {
    OnlyAccount(cur, db, id) && db.profile == cur.profile && db.tax == cur.tax
  }

  // ----- Locking

  /** The locked row shows the effective status and is otherwise the stored one; locking it again changes nothing. */
  lemma LockShowsEffectiveStatus(snap: Db, cur: Db, id: AccountId)
    requires Locked(snap, cur, id).Ok?
    ensures var row := Locked(snap, cur, id).value;
            && id in cur.accounts && row == cur.accounts[id].(status := Effective(cur.accounts[id]))
            && Effective(row) == row.status
            && Locked(Put(cur, id, row), Put(cur, id, row), id) == Ok(row)
  {
  }

  /** The unique index on pending rows. */
  ghost predicate OnePending(db: Db) {
    forall a, b ::
      (a in db.accounts && b in db.accounts && db.accounts[a].status == Pending && db.accounts[b].status == Pending)
        ==> a == b
  }

  lemma LockKeepsIndex(snap: Db, cur: Db, id: AccountId, row: Account)
    requires OnePending(cur) && Locked(snap, cur, id).Ok? && Effective(cur.accounts[id]) == Pending
    ensures OnePending(cur.(accounts := cur.accounts[id := row]))
  {
    var db := cur.(accounts := cur.accounts[id := row]);
    assert forall other :: other in cur.accounts && other != id ==> cur.accounts[other].status != Pending by {
      assert !PendingElsewhere(cur.accounts, id);
    }
  }

  /** No transaction writes a second pending row, also those that do not ask for one. */
  lemma StepKeepsIndex(w: World, e: Event)
    requires w.history != [] && OnePending(Cur(w))
    ensures OnePending(Cur(Step(w, e)))
  {
    hide Step;
    StepHistory(w, e);
    if Enabled(w, e) && HasSnapshot(e) && Transact(w, e).Ok? {
      if e.Create? {
        CreateKeepsIndex(w, e);
      } else if KeepsRows(e) {
        RowsKept(w, e);
      } else {
        OneAccountShape(w, e);
        hide Transact, NewRow, Locked;
        LockKeepsIndex(w.history[e.at], Cur(w), e.id, NewRow(w, e));
      }
    }
  }

  lemma CreateKeepsIndex(w: World, e: Event)
    requires w.history != [] && Enabled(w, e) && e.Create? && Transact(w, e).Ok?
    ensures OnePending(Transact(w, e).value)
  {
    var superseded := Supersede(w.history[e.at], Cur(w).accounts);
    assert !PendingElsewhere(superseded, e.id);
    assert Transact(w, e).value.accounts == superseded[e.id := NewAccount(e.identifier, e.currency, e.schedule)];
    hide Transact, Supersede, NewAccount;
  }

  /** In every run at most one account has a pending row. */
  lemma {:induction false} RunKeepsIndex(db: Db, events: seq<Event>)
    requires OnePending(db)
    ensures OnePending(Cur(Run(Start(db), events)))
    decreases |events|
  {
    hide Step, OnePending;
    if events != [] {
      RunKeepsIndex(db, events[..|events| - 1]);
      StepKeepsIndex(Run(Start(db), events[..|events| - 1]), events[|events| - 1]);
    }
  }

  // ----- Initiating a micro-deposit

  /** The reserved challenge of a row. */
  ghost predicate Holds(row: Account, r: Reservation) {
    && row.status == Pending && row.challenge.status == Initiating
    && row.challenge.requestKey == Some(r.key) && row.challenge.initiatedAt == Some(r.initiatedAt)
  }

  /**
   A reservation is held by the account's row, and nothing else changes. Repeating the request before
   an answer is recorded gives the same reservation, whatever new key and time it comes with.
   */
  lemma ReservedOnce(snap: Db, cur: Db, id: AccountId, key: Uuid, now: Time, key': Uuid, now': Time)
    requires ReserveInitiation(snap, cur, id, key, now, true, true).Ok?
    ensures var (db, r) := ReserveInitiation(snap, cur, id, key, now, true, true).value;
            && OnlyRow(cur, db, id) && Holds(db.accounts[id], r)
            && db.accounts[id].challenge.attempts == cur.accounts[id].challenge.attempts
            && (r.key == key || cur.accounts[id].challenge.requestKey == Some(r.key))
            && ReserveInitiation(db, db, id, key', now', true, true) == Ok((db, r))
  {
    LockShowsEffectiveStatus(snap, cur, id);
    var (db, r) := ReserveInitiation(snap, cur, id, key, now, true, true).value;
    var row := db.accounts[id];
    hide Effective;
    assert Locked(db, db, id) == Ok(row);
    assert row == row.(challenge :=
           row.challenge.(status := Initiating, requestKey := Some(r.key), initiatedAt := Some(r.initiatedAt)));
    assert Put(db, id, row) == db;
  }

  lemma VerifiedIsLockedAsIs(db: Db, id: AccountId)
    requires id in db.accounts && Effective(db.accounts[id]) == db.accounts[id].status
    ensures Locked(db, db, id) == Ok(db.accounts[id])
  {
  }

  /**
   An accepted answer is recorded for the reservation that the row holds, and once: recording another
   answer for it changes nothing, and no answer to another reservation is recorded.
   */
  lemma AnswerRecordedOnce(snap: Db, cur: Db, id: AccountId, r: Reservation, reply: RailReply,
                           r': Reservation, reply': RailReply)
    requires FinishInitiation(snap, cur, id, r, ResultOf(reply), true).Ok? && Accepted(ResultOf(reply'))
    ensures var db := FinishInitiation(snap, cur, id, r, ResultOf(reply), true).value;
            && OnlyAccount(cur, db, id)
            && var was, row := cur.accounts[id].challenge, db.accounts[id];
            && was.requestKey == row.challenge.requestKey == Some(r.key) && row.challenge.attempts == was.attempts
            && (row.status == Verified <==> was.status != Initiated && reply.SetupSucceeded?)
            && (row.status == Verified || row.status == Pending) && Effective(row) == row.status
            && (row.status == Pending ==> row.challenge.status == Initiated)
            && FinishInitiation(db, db, id, r', ResultOf(reply'), true)
               == if row.status == Pending && r'.key == r.key then Ok(db) else Err(NotPending)
  {
    LockShowsEffectiveStatus(snap, cur, id);
    var result := ResultOf(reply);
    var locked := Locked(snap, cur, id).value;
    var row' := InitiatedRow(locked, r, result);
    VerifiedByRail(locked, r, reply);
    assert Effective(row') == row'.status;
    hide Effective, Locked;
    if locked.challenge.status != Initiated && Effective(row') == Verified {
      ReviewKeepsAccounts(Put(snap, id, row'), Put(cur, id, row'), id);
    }
    hide FinishReview;
    var db := FinishInitiation(snap, cur, id, r, result, true).value;
    assert OnlyAccount(cur, db, id);
    VerifiedIsLockedAsIs(db, id);
    assert Put(db, id, db.accounts[id]) == db;
  }

  // ----- Confirming it

  /**
   A reserved confirmation leaves one outstanding token with its evidence. Until it has an answer, a
   further request is refused for a minute, and after that goes on only with the same evidence and
   then under the same token.
   */
  lemma ConfirmationWaits(snap: Db, cur: Db, id: AccountId, fingerprint: string, key: Uuid, now: Time,
                          fingerprint': string, key': Uuid, now': Time)
    requires ReserveConfirmation(snap, cur, id, fingerprint, key, now, true, true).Ok?
    ensures var (db, attempt) := ReserveConfirmation(snap, cur, id, fingerprint, key, now, true, true).value;
            && OnlyRow(cur, db, id)
            && var row := db.accounts[id];
            && row.status == Pending && row.challenge.status == Initiated && Confirmable(row)
            && row.challenge.attempts == cur.accounts[id].challenge.attempts < MAX_ATTEMPTS
            && row.challenge.expiresAt.Some? && now < row.challenge.expiresAt.value
            && row.challenge.token == Some(attempt.token) && row.challenge.fingerprint == Some(fingerprint)
            && var again := ReserveConfirmation(db, db, id, fingerprint', key', now', true, true);
            && (row.challenge.expiresAt.value <= now' ==> again == Err(MicroDepositExpired))
            && (now' < row.challenge.expiresAt.value ==>
                  if now' < now + CONFIRMATION_WINDOW then again == Err(ConfirmationInProgress)
                  else if fingerprint' != fingerprint then again == Err(ConfirmationUncertain)
                  else again.Ok? && again.value.1 == attempt)
  {
    LockShowsEffectiveStatus(snap, cur, id);
    var (db, attempt) := ReserveConfirmation(snap, cur, id, fingerprint, key, now, true, true).value;
    hide Effective;
    assert Locked(db, db, id) == Ok(db.accounts[id]);
  }

  /** What an answer of the bank makes of the status: no answer leaves it, and a mismatch counts until the third. */
  function StatusAfter(verdict: Verdict, attempts: nat): Status {
    match verdict
    case NoVerdict => Pending
    case Match => Verified
    case Mismatch => if attempts + 1 < MAX_ATTEMPTS then Pending else RequiresAttention
  }

  /**
   A definitive answer is counted once and uses up its token; failing to reach the bank leaves the row
   as it is, so the same token can be answered later.
   */
  lemma AnswerCountedOnce(snap: Db, cur: Db, id: AccountId, token: Uuid, verdict: Verdict, verdict': Verdict)
    requires FinishConfirmation(snap, cur, id, token, verdict, true).Ok?
    ensures var db := FinishConfirmation(snap, cur, id, token, verdict, true).value;
            && OnlyAccount(cur, db, id)
            && var was, row := cur.accounts[id], db.accounts[id];
            && was.challenge.token == Some(token)
            && row.status == StatusAfter(verdict, was.challenge.attempts)
            && (Confirmable(was) ==> Effective(row) == row.status)
            && row.challenge.attempts == was.challenge.attempts + (if verdict == NoVerdict then 0 else 1)
            && (verdict == NoVerdict ==>
                  && OnlyRow(cur, db, id)
                  && row == was.(status := Effective(was), challenge := was.challenge.(status := Initiated)))
            && (verdict != NoVerdict ==>
                  && row.challenge.token == None && row.challenge.confirmingAt == None
                  && FinishConfirmation(db, db, id, token, verdict', true).Err?)
  {
    LockShowsEffectiveStatus(snap, cur, id);
    var row := Locked(snap, cur, id).value;
    var row' := ConfirmedRow(row, verdict);
    ConfirmedStatus(row, verdict);
    hide Effective, ConfirmedRow;
    if row'.status != Pending {
      ReviewKeepsAccounts(Put(snap, id, row'), Put(cur, id, row'), id);
    }
    hide FinishReview;
    var db := FinishConfirmation(snap, cur, id, token, verdict, true).value;
    assert db.accounts == cur.accounts[id := row'];
  }

  lemma ConfirmedStatus(row: Account, verdict: Verdict)
    requires row.status == Pending
    ensures var row' := ConfirmedRow(row, verdict);
            && row'.status == StatusAfter(verdict, row.challenge.attempts)
            && (Confirmable(row) ==> Effective(row') == row'.status)
            && row'.challenge.attempts == row.challenge.attempts + (if verdict == NoVerdict then 0 else 1)
            && (verdict == NoVerdict ==> row' == row.(challenge := row.challenge.(status := Initiated)))
            && (verdict != NoVerdict ==> row'.challenge.token == None && row'.challenge.confirmingAt == None)
  {
  }

  // ----- Review and selection

  /** A review decides its account for good or sends it back, touches no other, and cannot be repeated. */
  lemma ReviewedOnce(snap: Db, cur: Db, id: AccountId, approve: bool, approve': bool)
    requires ReviewTx(snap, cur, id, approve).Ok?
    ensures var db := ReviewTx(snap, cur, id, approve).value;
            && OnlyAccount(cur, db, id) && db.accounts[id].challenge == cur.accounts[id].challenge
            && Effective(cur.accounts[id]) == Pending
            && (if approve then Effective(db.accounts[id]) == Verified && MethodOf(db.accounts[id]) == Manual
                else Effective(db.accounts[id]) == RequiresAttention)
            && ReviewTx(db, db, id, approve') == Err(NotPending)
  {
    LockShowsEffectiveStatus(snap, cur, id);
    var row' := Locked(snap, cur, id).value.(status := if approve then Verified else RequiresAttention,
                                             lastReview := Some(ManualVerify));
    assert Effective(row') == row'.status;
    hide Locked;
    ReviewKeepsAccounts(Put(snap, id, row'), Put(cur, id, row'), id);
    hide FinishReview, Effective;
    VerifiedIsLockedAsIs(ReviewTx(snap, cur, id, approve).value, id);
  }

  /**
   A selected account is the reference with its own terms, no account row changes, and selecting it
   again changes nothing while the tax status is the one the first selection saw.
   */
  lemma SelectionIsStable(snap: Db, cur: Db, id: AccountId)
    requires SelectPrimaryTx(snap, cur, id).Ok?
    ensures var db := SelectPrimaryTx(snap, cur, id).value;
            && db.accounts == cur.accounts && Effective(db.accounts[id]) == Verified
            && db.profile == Some(Profile(Some(id), cur.accounts[id].schedule, cur.accounts[id].currency, snap.tax,
                                          snap.tax == TaxVerified))
            && (db.tax == snap.tax ==> SelectPrimaryTx(db, db, id) == Ok(db))
  {
    LockShowsEffectiveStatus(snap, cur, id);
    hide Effective;
  }
}
