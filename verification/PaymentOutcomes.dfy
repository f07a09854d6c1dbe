/** When each bank-account command succeeds, and the values it passes on. */
module PaymentOutcomes {
  import opened Options
  import opened PaymentAccounts
  import opened PaymentSafety
  import opened PaymentChallenges
  import opened PaymentCommands
  import opened PaymentProfile

  /** The row is as it was in the snapshot, and turning a legacy verification back meets no other pending row. */
  ghost predicate Lockable(snap: Db, cur: Db, id: AccountId) {
    && id in snap.accounts && id in cur.accounts && snap.accounts[id] == cur.accounts[id]
    && (cur.accounts[id].status != Effective(cur.accounts[id]) ==>
          forall other :: other in cur.accounts && other != id ==> cur.accounts[other].status != Pending)
  }

  /** Only a verification that the simulator or the retired hash check made, and nobody confirmed, does not count. */
  lemma EffectiveStatus(a: Account)
    ensures var legacy := && a.status == Verified && a.lastReview != Some(ManualVerify)
                          && !(a.rail.Some? && a.rail.value.live && a.rail.value.provider == StripeConnect)
                          && ((a.rail.Some? && a.rail.value.provider == Simulated) || a.challenge.via == Some(ViaHash));
            Effective(a) == if legacy then Pending else a.status
  {
  }

  lemma LockSucceedsExactly(snap: Db, cur: Db, id: AccountId)
    ensures Locked(snap, cur, id).Ok? <==> Lockable(snap, cur, id)
  {
  }

  // ----- Creating

  /** A created account is pending with the caller's terms and the last four characters of its number. */
  lemma CreatedAsGiven(snap: Db, cur: Db, id: AccountId, identifier: string, currency: string, schedule: string)
    requires CreateTx(snap, cur, id, identifier, currency, schedule).Ok?
    ensures var db := CreateTx(snap, cur, id, identifier, currency, schedule).value;
            && id !in cur.accounts && id in db.accounts && db.profile == cur.profile && db.tax == cur.tax
            && var a := db.accounts[id];
            && a.status == Pending && a.currency == currency && a.schedule == schedule
            && a.reference == Some("••••" + identifier[|identifier| - 4..])
            && a.rail.None? && a.lastReview.None? && a.challenge.status == NoChallenge && a.challenge.requestKey.None?
            && a.challenge.initiatedAt.None? && a.challenge.expiresAt.None? && a.challenge.attempts == 0
            && a.challenge.via.None? && a.challenge.confirmingAt.None? && a.challenge.token.None?
  {
    assert |identifier| == 4 ==> identifier[|identifier| - 4..] == identifier;
  }

  lemma CreateSucceedsExactly(snap: Db, cur: Db, id: AccountId, identifier: string, currency: string, schedule: string)
    ensures CreateTx(snap, cur, id, identifier, currency, schedule).Ok? <==>
              && |identifier| >= 4 && id !in cur.accounts
              && (forall a :: a in snap.accounts ==> Effective(snap.accounts[a]) != Pending)
              && (forall a :: a in snap.accounts && snap.accounts[a].status == RequiresAttention ==>
                    a in cur.accounts && cur.accounts[a] == snap.accounts[a])
              && (forall a :: a in cur.accounts ==> cur.accounts[a].status != Pending)
  {
    var superseded := Supersede(snap, cur.accounts);
    hide Effective, NewAccount;
    if forall a :: a in snap.accounts && snap.accounts[a].status == RequiresAttention ==>
         a in cur.accounts && cur.accounts[a] == snap.accounts[a]
    {
      assert forall a :: Superseding(snap, a) ==> Unchanged(snap, cur, a);
      assert forall a :: a in superseded ==> (superseded[a].status == Pending <==> cur.accounts[a].status == Pending);
    } else {
      var a :| a in snap.accounts && snap.accounts[a].status == RequiresAttention
               && !(a in cur.accounts && cur.accounts[a] == snap.accounts[a]);
      assert Superseding(snap, a) && !Unchanged(snap, cur, a);
    }
  }

  // ----- Initiating

  lemma InitiationSucceedsExactly(snap: Db, cur: Db, id: AccountId, key: Uuid, now: Time, available: bool,
                                  allowed: bool)
    ensures ReserveInitiation(snap, cur, id, key, now, available, allowed).Ok? <==>
              && Lockable(snap, cur, id) && available && allowed && Effective(cur.accounts[id]) == Pending
              && cur.accounts[id].challenge.status != Initiated && cur.accounts[id].challenge.status != Failed
  {
    LockSucceedsExactly(snap, cur, id);
    hide Lockable;
    if Locked(snap, cur, id).Ok? {
      LockShowsEffectiveStatus(snap, cur, id);
    }
    hide Locked, Effective;
  }

  /** A new reservation takes the new key, and the time of an earlier one when there was one. */
  lemma InitiationReserves(snap: Db, cur: Db, id: AccountId, key: Uuid, now: Time)
    requires ReserveInitiation(snap, cur, id, key, now, true, true).Ok?
    ensures var (db, r) := ReserveInitiation(snap, cur, id, key, now, true, true).value;
            && id in cur.accounts
            && var c := cur.accounts[id].challenge;
            && r.key == (if c.status == Initiating && c.requestKey.Some? then c.requestKey.value else key)
            && r.initiatedAt == (if c.initiatedAt.Some? then c.initiatedAt.value else now)
  {
    LockShowsEffectiveStatus(snap, cur, id);
    hide Locked, Effective;
  }

  /** Which answers of the rail are recorded at all. */
  lemma AcceptedExactly(reply: RailReply)
    ensures Accepted(ResultOf(reply)) <==> (reply.SetupSucceeded? || reply.SetupStarted?) && reply.ref != ""
  {
  }

  lemma RecordingSucceedsExactly(snap: Db, cur: Db, id: AccountId, r: Reservation, reply: RailReply, allowed: bool)
    ensures FinishInitiation(snap, cur, id, r, ResultOf(reply), allowed).Ok? <==>
              && (reply.SetupSucceeded? || reply.SetupStarted?) && reply.ref != ""
              && Lockable(snap, cur, id) && allowed && Effective(cur.accounts[id]) == Pending
              && cur.accounts[id].challenge.requestKey == Some(r.key)
              && (reply.SetupSucceeded? && cur.accounts[id].challenge.status != Initiated ==>
                    snap.profile == cur.profile)
  {
    AcceptedExactly(reply);
    LockSucceedsExactly(snap, cur, id);
    hide Lockable;
    if Accepted(ResultOf(reply)) && Locked(snap, cur, id).Ok? {
      LockShowsEffectiveStatus(snap, cur, id);
      var row := Locked(snap, cur, id).value;
      if row.status == Pending {
        VerifiedByRail(row, r, reply);
        assert InitiatedRow(row, r, ResultOf(reply)).status == Verified <==> reply.SetupSucceeded?;
      }
    }
    hide Locked, Effective, Accepted, ResultOf, SyncedProfile, InitiatedRow;
  }

  /**
   A deposit that the rail started can be confirmed with its own reference until seven days after the
   reservation, and not later.
   */
  lemma StartedDepositCanBeConfirmed(snap: Db, cur: Db, id: AccountId, r: Reservation, ref: string,
                                     fingerprint: string, key: Uuid, now: Time)
    requires FinishInitiation(snap, cur, id, r, ResultOf(SetupStarted(ref)), true).Ok?
    requires id in cur.accounts && cur.accounts[id].challenge.status != Initiated
    requires cur.accounts[id].challenge.attempts < 3 && cur.accounts[id].challenge.confirmingAt.None?
    ensures var db := FinishInitiation(snap, cur, id, r, ResultOf(SetupStarted(ref)), true).value;
            && OnlyRow(cur, db, id) && db.accounts[id].rail == Some(Rail(true, StripeConnect, ref))
            && var confirmation := ReserveConfirmation(db, db, id, fingerprint, key, now, true, true);
            if now < r.initiatedAt + 7 * 24 * 60 * 60 * 1000
            then confirmation.Ok? && confirmation.value.1 == Attempt(key, ref)
            else confirmation == Err(MicroDepositExpired)
  {
    AnswerRecordedOnce(snap, cur, id, r, SetupStarted(ref), r, SetupStarted(ref));
    LockShowsEffectiveStatus(snap, cur, id);
    var db := FinishInitiation(snap, cur, id, r, ResultOf(SetupStarted(ref)), true).value;
    var row := InitiatedRow(Locked(snap, cur, id).value, r, ResultOf(SetupStarted(ref)));
    assert db == Put(cur, id, row);
    VerifiedIsLockedAsIs(db, id);
    hide Locked, Effective, FinishInitiation;
  }

  // ----- Confirming

  lemma ConfirmationSucceedsExactly(snap: Db, cur: Db, id: AccountId, fingerprint: string, key: Uuid, now: Time,
                                    available: bool, allowed: bool)
    ensures ReserveConfirmation(snap, cur, id, fingerprint, key, now, available, allowed).Ok? <==>
              && Lockable(snap, cur, id) && available && allowed && Effective(cur.accounts[id]) == Pending
              && var a, c := cur.accounts[id], cur.accounts[id].challenge;
              && a.rail.Some? && a.rail.value.live && a.rail.value.provider == StripeConnect && c.via == Some(ViaStripe)
              && c.status == Initiated && c.expiresAt.Some? && now < c.expiresAt.value && c.attempts < 3
              && (c.confirmingAt.Some? ==> c.confirmingAt.value + 60_000 <= now && c.fingerprint == Some(fingerprint))
  {
    LockSucceedsExactly(snap, cur, id);
    hide Lockable;
    if Locked(snap, cur, id).Ok? {
      LockShowsEffectiveStatus(snap, cur, id);
    }
    hide Locked, Effective;
  }

  /** The bank is asked under the outstanding token or a new one, about the reference that the rail gave. */
  lemma ConfirmationAsks(snap: Db, cur: Db, id: AccountId, fingerprint: string, key: Uuid, now: Time)
    requires ReserveConfirmation(snap, cur, id, fingerprint, key, now, true, true).Ok?
    ensures var attempt := ReserveConfirmation(snap, cur, id, fingerprint, key, now, true, true).value.1;
            && id in cur.accounts && cur.accounts[id].rail.Some?
            && var c := cur.accounts[id].challenge;
            && attempt.externalRef == cur.accounts[id].rail.value.externalRef
            && attempt.token == if c.confirmingAt.Some? && c.token.Some? then c.token.value else key
  {
    LockShowsEffectiveStatus(snap, cur, id);
    hide Locked, Effective;
  }

  /** The profile is written, so it must be as the transaction saw it. */
  ghost predicate ProfileWritable(view: Db, cur: Db) {
    (view.profile.Some? || exists x :: RefreshedFrom(view, x)) ==> view.profile == cur.profile
  }

  lemma RefreshSucceedsExactly(view: Db, cur: Db)
    ensures RefreshTx(view, cur).Ok? <==> ProfileWritable(view, cur)
  {
    ChoiceIsRefreshed(view);
    var choice := RefreshChoice(view);
    if choice.Some? {
      assert RefreshedFrom(view, choice.value);
    }
    assert forall x :: RefreshedFrom(view, x) ==> x in view.accounts;
    hide RefreshChoice, RefreshedFrom, SyncedProfile;
  }

  lemma CountingSucceedsExactly(snap: Db, cur: Db, id: AccountId, token: Uuid, verdict: Verdict, allowed: bool)
    requires id in cur.accounts && Confirmable(cur.accounts[id])
    ensures FinishConfirmation(snap, cur, id, token, verdict, allowed).Ok? <==>
              && Lockable(snap, cur, id) && allowed && Effective(cur.accounts[id]) == Pending
              && cur.accounts[id].challenge.token == Some(token)
              && var row := cur.accounts[id].(status := Pending);
              && (verdict == Match ==> snap.profile == cur.profile)
              && (verdict == Mismatch && row.challenge.attempts >= 2 ==>
                    ProfileWritable(Put(snap, id, ConfirmedRow(row, verdict)),
                                    Put(cur, id, ConfirmedRow(row, verdict))))
  {
    LockSucceedsExactly(snap, cur, id);
    hide Lockable;
    if Locked(snap, cur, id).Ok? {
      LockShowsEffectiveStatus(snap, cur, id);
      var row := Locked(snap, cur, id).value;
      if row.status == Pending {
        ConfirmedStatus(row, verdict);
        RefreshSucceedsExactly(Put(snap, id, ConfirmedRow(row, verdict)), Put(cur, id, ConfirmedRow(row, verdict)));
      }
    }
    hide Locked, Effective, RefreshTx, SyncedProfile, ConfirmedRow, ProfileWritable;
  }

  // ----- Review and selection

  lemma ReviewSucceedsExactly(snap: Db, cur: Db, id: AccountId, approve: bool)
    ensures ReviewTx(snap, cur, id, approve).Ok? <==>
              && Lockable(snap, cur, id) && Effective(cur.accounts[id]) == Pending
              && var row := cur.accounts[id].(status := RequiresAttention, lastReview := Some(ManualVerify));
              if approve then snap.profile == cur.profile else ProfileWritable(Put(snap, id, row), Put(cur, id, row))
  {
    LockSucceedsExactly(snap, cur, id);
    hide Lockable;
    if Locked(snap, cur, id).Ok? {
      LockShowsEffectiveStatus(snap, cur, id);
      var row := Locked(snap, cur, id).value.(status := RequiresAttention, lastReview := Some(ManualVerify));
      assert row == cur.accounts[id].(status := RequiresAttention, lastReview := Some(ManualVerify));
      assert Effective(row) == RequiresAttention;
      assert Effective(row.(status := Verified)) == Verified;
      RefreshSucceedsExactly(Put(snap, id, row), Put(cur, id, row));
    }
    hide Locked, Effective, RefreshTx, SyncedProfile, ProfileWritable;
  }

  lemma SelectionSucceedsExactly(snap: Db, cur: Db, id: AccountId)
    ensures SelectPrimaryTx(snap, cur, id).Ok? <==>
              && Lockable(snap, cur, id) && Effective(cur.accounts[id]) == Verified && snap.profile == cur.profile
  {
    LockSucceedsExactly(snap, cur, id);
    hide Lockable;
    if Locked(snap, cur, id).Ok? {
      LockShowsEffectiveStatus(snap, cur, id);
    }
    hide Locked, Effective, SyncedProfile;
  }

  // ----- The rows they leave

  /** A reservation writes its key and time into the challenge and nothing else. */
  lemma InitiationWrites(snap: Db, cur: Db, id: AccountId, key: Uuid, now: Time)
    requires ReserveInitiation(snap, cur, id, key, now, true, true).Ok?
    ensures var (db, r) := ReserveInitiation(snap, cur, id, key, now, true, true).value;
            && id in cur.accounts && id in db.accounts
            && var was := cur.accounts[id];
            db.accounts[id] == was.(status := Pending, challenge := was.challenge.(status := Initiating,
                                      requestKey := Some(r.key), initiatedAt := Some(r.initiatedAt)))
  {
    LockShowsEffectiveStatus(snap, cur, id);
    hide Locked, Effective;
  }

  /** A recorded answer writes the rail and the outcome; one for an initiated challenge writes nothing. */
  lemma RecordingWrites(snap: Db, cur: Db, id: AccountId, r: Reservation, reply: RailReply)
    requires FinishInitiation(snap, cur, id, r, ResultOf(reply), true).Ok?
    ensures var db := FinishInitiation(snap, cur, id, r, ResultOf(reply), true).value;
            && id in cur.accounts && id in db.accounts
            && var was := cur.accounts[id];
            db.accounts[id]
            == if was.challenge.status == Initiated then was.(status := Pending)
               else if reply.SetupSucceeded? then
                 was.(status := Verified, rail := Some(Rail(true, StripeConnect, reply.ref)),
                      lastReview := Some(MicroDepositPath),
                      challenge := was.challenge.(status := Confirmed, via := Some(ViaStripe),
                                                  expiresAt := Some(r.initiatedAt + 604_800_000)))
               else
                 was.(status := Pending, rail := Some(Rail(true, StripeConnect, reply.ref)),
                      challenge := was.challenge.(status := Initiated, via := Some(ViaStripe),
                                                  expiresAt := Some(r.initiatedAt + 604_800_000)))
  {
    AcceptedExactly(reply);
    LockShowsEffectiveStatus(snap, cur, id);
    var row := Locked(snap, cur, id).value;
    var row' := InitiatedRow(row, r, ResultOf(reply));
    VerifiedByRail(row, r, reply);
    hide Locked, Effective;
    if row.challenge.status != Initiated && Effective(row') == Verified {
      ReviewKeepsAccounts(Put(snap, id, row'), Put(cur, id, row'), id);
    }
    hide FinishReview;
  }

  /** A reserved confirmation writes when it was asked, its token and its evidence. */
  lemma ConfirmationWrites(snap: Db, cur: Db, id: AccountId, fingerprint: string, key: Uuid, now: Time)
    requires ReserveConfirmation(snap, cur, id, fingerprint, key, now, true, true).Ok?
    ensures var (db, attempt) := ReserveConfirmation(snap, cur, id, fingerprint, key, now, true, true).value;
            && id in cur.accounts && id in db.accounts
            && var was := cur.accounts[id];
            db.accounts[id] == was.(status := Pending, challenge := was.challenge.(confirmingAt := Some(now),
                                      token := Some(attempt.token), fingerprint := Some(fingerprint)))
  {
    LockShowsEffectiveStatus(snap, cur, id);
    hide Locked, Effective;
  }

  /** An answer writes the status, the count, and how the account was reviewed. */
  lemma CountingWrites(snap: Db, cur: Db, id: AccountId, token: Uuid, verdict: Verdict)
    requires FinishConfirmation(snap, cur, id, token, verdict, true).Ok?
    ensures var db := FinishConfirmation(snap, cur, id, token, verdict, true).value;
            && id in cur.accounts && id in db.accounts
            && var was := cur.accounts[id];
            var counted := was.challenge.(attempts := was.challenge.attempts + 1, confirmingAt := None, token := None);
            db.accounts[id] ==
              match verdict
              case NoVerdict => was.(status := Pending, challenge := was.challenge.(status := Initiated))
              case Match =>
                was.(status := Verified, lastReview := Some(MicroDepositPath),
                     challenge := counted.(status := Confirmed))
              case Mismatch =>
                if was.challenge.attempts < 2 then was.(status := Pending, challenge := counted.(status := Initiated))
                else was.(status := RequiresAttention, lastReview := Some(MicroDepositPath),
                          challenge := counted.(status := Failed))
  {
    LockShowsEffectiveStatus(snap, cur, id);
    var row' := ConfirmedRow(Locked(snap, cur, id).value, verdict);
    hide Locked, Effective;
    if row'.status != Pending {
      ReviewKeepsAccounts(Put(snap, id, row'), Put(cur, id, row'), id);
    }
    hide FinishReview;
  }

  /** A review writes the status and that a person decided. */
  lemma ReviewWrites(snap: Db, cur: Db, id: AccountId, approve: bool)
    requires ReviewTx(snap, cur, id, approve).Ok?
    ensures var db := ReviewTx(snap, cur, id, approve).value;
            && id in cur.accounts && id in db.accounts
            && db.accounts[id] == cur.accounts[id].(status := if approve then Verified else RequiresAttention,
                                                    lastReview := Some(ManualVerify))
  {
    LockShowsEffectiveStatus(snap, cur, id);
    var row' := Locked(snap, cur, id).value.(status := if approve then Verified else RequiresAttention,
                                             lastReview := Some(ManualVerify));
    hide Locked, Effective;
    ReviewKeepsAccounts(Put(snap, id, row'), Put(cur, id, row'), id);
    hide FinishReview;
  }
}
