/**
 The micro-deposit protocol of an account made by createProviderPaymentAccount: one idempotency key,
 honest attempt counting, one outstanding token, one piece of evidence for each token.
 */
module PaymentChallenges {
  import opened Options
  import opened PaymentAccounts
  import opened PaymentEvidence
  import opened PaymentWorld
  import opened PaymentSafety

  predicate RecordedToken(log: seq<Recorded>, token: Uuid) {
    exists i :: 0 <= i < |log| && log[i].token == token
  }

  ghost predicate Mismatches(log: seq<Recorded>) {
    forall i :: 0 <= i < |log| ==> log[i].verdict == Mismatch
  }

  ghost predicate TokensDistinct(log: seq<Recorded>) {
    forall i, j :: 0 <= i < j < |log| ==> log[i].token != log[j].token
  }

  /** How the row of a created account agrees with the answers recorded for it. */
  ghost predicate RowOk(row: Account, log: seq<Recorded>, initiations: nat) {
    var c := row.challenge;
    && row.status != NotConfigured
    && (row.status == Verified ==> Effective(row) == Verified)
    && (row.status == Pending ==> row.lastReview.None?)
    && (row.status == RequiresAttention ==> (row.lastReview == Some(MicroDepositPath) <==> c.status == Failed))
    && c.via != Some(ViaHash)
    && (c.status == NoChallenge <==> c.requestKey.None?)
    && initiations == (if c.status == NoChallenge || c.status == Initiating then 0 else 1)
    && c.attempts == |log| <= MAX_ATTEMPTS
    && TokensDistinct(log)
    && (c.status == NoChallenge || c.status == Initiating ==> log == [])
    && (c.status == Initiated ==> Mismatches(log) && |log| < MAX_ATTEMPTS)
    && (c.status == Confirmed ==> row.status == Verified && (log != [] ==> log[|log| - 1].verdict == Match))
    && (c.status == Failed <==> |log| == MAX_ATTEMPTS && Mismatches(log))
    && (c.status == Failed ==> row.status == RequiresAttention || row.status == Superseded)
    && (c.confirmingAt.Some? <==> c.token.Some?)
    && (c.token.Some? ==> c.status == Initiated && Confirmable(row) && !RecordedToken(log, c.token.value))
  }

  /** How the row agrees with what was reserved and sent. */
  ghost predicate LinksOk(w: World, id: AccountId, c: Challenge, log: seq<Recorded>) {
    && (forall r :: Reserved(id, r) in w.reservations ==> c.requestKey == Some(r.key))
    && (forall k :: RailCall(id, k) in w.railCalls ==> c.requestKey == Some(k))
    && (forall t, e :: Issued(id, t, e) in w.issued ==>
          && Valid(e) && t in w.used
          && (RecordedToken(log, t) || (c.token == Some(t) && c.fingerprint == Some(FingerprintText(e)))))
    && (forall t, e, f :: Issued(id, t, e) in w.issued && Issued(id, t, f) in w.issued ==> e == f)
    && (forall t :: RecordedToken(log, t) ==> t in w.used)
    && (c.token.Some? ==> c.token.value in w.used)
  }

  ghost predicate AccountOk(w: World, id: AccountId)
    requires w.history != []
  {
    && id in Cur(w).accounts
    && RowOk(Cur(w).accounts[id], Verdicts(w, id), Initiations(w, id))
    && LinksOk(w, id, Cur(w).accounts[id].challenge, Verdicts(w, id))
  }

  /** Nothing was logged for an account that does not exist. */
  ghost predicate LogsKnown(w: World)
    requires w.history != []
  {
    && (forall x :: x in w.reservations ==> x.id in Cur(w).accounts)
    && (forall x :: x in w.railCalls ==> x.id in Cur(w).accounts)
    && (forall x :: x in w.issued ==> x.id in Cur(w).accounts)
    && w.initiations.Keys <= Cur(w).accounts.Keys && w.verdicts.Keys <= Cur(w).accounts.Keys
  }

  ghost predicate ProtocolOk(w: World) {
    && w.history != []
    && LogsKnown(w)
    && w.bankCalls <= w.issued
    && forall id :: id in w.created ==> AccountOk(w, id)
  }

  // ----- Shapes of the steps, whatever the profile

  lemma ReviewKeepsAccounts(view: Db, cur: Db, id: AccountId)
    requires id in view.accounts && FinishReview(view, cur, id).Ok?
    ensures FinishReview(view, cur, id).value.accounts == cur.accounts
  {
  }

  lemma OneAccountShape(w: World, e: Event)
    requires w.history != [] && Enabled(w, e) && OneAccount(e) && !e.SelectPrimary? && Transact(w, e).Ok?
    ensures Locked(w.history[e.at], Cur(w), e.id).Ok?
    ensures OneRow(Cur(w), Transact(w, e).value, e.id, NewRow(w, e))
    ensures Effective(Cur(w).accounts[e.id]) == Pending
  {
    OneAccountForm(w, e);
    hide Transact, NewRow, FinishReview, Locked;
    var snap, cur, id, row := w.history[e.at], Cur(w), e.id, NewRow(w, e);
    if FinishReview(Put(snap, id, row), Put(cur, id, row), id).Ok? {
      ReviewKeepsAccounts(Put(snap, id, row), Put(cur, id, row), id);
    }
  }

  /** Events that change no account row. */
  predicate KeepsRows(e: Event) {
    !e.Create? && (!OneAccount(e) || e.SelectPrimary?)
  }

  lemma RowsKept(w: World, e: Event)
    requires w.history != [] && Enabled(w, e) && KeepsRows(e) && Transact(w, e).Ok?
    ensures Transact(w, e).value.accounts == Cur(w).accounts
  {
  }

  /** A created account that is pending is locked as it is. */
  lemma CreatedIsLockedAsIs(w: World, e: Event)
    requires w.history != [] && Enabled(w, e) && OneAccount(e) && !e.SelectPrimary? && Transact(w, e).Ok?
    requires AccountOk(w, e.id)
    ensures Locked(w.history[e.at], Cur(w), e.id) == Ok(Cur(w).accounts[e.id])
    ensures Cur(w).accounts[e.id].status == Pending
  {
    OneAccountShape(w, e);
    LockedPending(w.history[e.at], Cur(w), e.id);
  }

  // ----- Single steps on a row

  lemma ReserveInitRow(w: World, e: Event)
    requires w.history != [] && Enabled(w, e) && e.ReserveInit? && Transact(w, e).Ok? && AccountOk(w, e.id)
    ensures var row := Cur(w).accounts[e.id];
            var c := row.challenge;
            && c.status != Initiated && c.status != Failed
            && exists key, at ::
                 && NewRow(w, e) == row.(challenge := c.(status := Initiating, requestKey := Some(key),
                                                         initiatedAt := Some(at)))
                 && Step(w, e).reservations == w.reservations + {Reserved(e.id, Reservation(key, at))}
                 && (c.requestKey.Some? && c.status == Initiating ==> c.requestKey == Some(key))
  {
    CreatedIsLockedAsIs(w, e);
    var tx := ReserveInitiation(w.history[e.at], Cur(w), e.id, e.newKey, e.now, e.available, e.allowed);
    var r := tx.value.1;
    assert Step(w, e).reservations == w.reservations + {Reserved(e.id, Reservation(r.key, r.initiatedAt))};
  }

  lemma ReserveConfirmRow(w: World, e: Event)
    requires w.history != [] && Enabled(w, e) && e.ReserveConfirm? && Transact(w, e).Ok? && AccountOk(w, e.id)
    ensures var row := Cur(w).accounts[e.id];
            var c := row.challenge;
            && c.status == Initiated && Confirmable(row)
            && exists token ::
                 && NewRow(w, e) == row.(challenge := c.(confirmingAt := Some(e.now), token := Some(token),
                                                         fingerprint := Some(FingerprintText(e.evidence))))
                 && Step(w, e).issued == w.issued + {Issued(e.id, token, e.evidence)}
                 && (if c.token.Some?
                     then c.token == Some(token) && c.fingerprint == Some(FingerprintText(e.evidence))
                     else token == e.newToken)
  {
    hide FingerprintText;
    CreatedIsLockedAsIs(w, e);
    var tx := ReserveConfirmation(w.history[e.at], Cur(w), e.id, FingerprintText(e.evidence), e.newToken, e.now,
                                  e.available, e.allowed);
    var a := tx.value.1;
    assert Step(w, e).issued == w.issued + {Issued(e.id, a.token, e.evidence)};
  }

  /** Only Stripe's live answers get past the check, so an account that the rail verified counts as verified. */
  lemma VerifiedByRail(row: Account, r: Reservation, reply: RailReply)
    requires Accepted(ResultOf(reply))
    ensures var row' := InitiatedRow(row, r, ResultOf(reply));
            && MethodOf(row') in {Bank, Manual} && Effective(row') == row'.status
            && row'.rail.value.provider == StripeConnect && row'.rail.value.live
  {
  }

  lemma RecordToken(log: seq<Recorded>, token: Uuid, verdict: Verdict)
    ensures forall t :: RecordedToken(log + [Recorded(token, verdict)], t) <==> RecordedToken(log, t) || t == token
    ensures TokensDistinct(log) && !RecordedToken(log, token) ==> TokensDistinct(log + [Recorded(token, verdict)])
  {
    var log' := log + [Recorded(token, verdict)];
    assert log'[|log|].token == token;
    forall t | RecordedToken(log, t) ensures RecordedToken(log', t) {
      var i :| 0 <= i < |log| && log[i].token == t;
      assert log'[i].token == t;
    }
  }

  lemma ConfirmedRowOk(row: Account, log: seq<Recorded>, initiations: nat, token: Uuid, verdict: Verdict)
    requires RowOk(row, log, initiations) && row.status == Pending && row.challenge.token == Some(token)
    ensures RowOk(ConfirmedRow(row, verdict),
                  if verdict == NoVerdict then log else log + [Recorded(token, verdict)], initiations)
  {
    RecordToken(log, token, verdict);
  }

  // ----- Each step keeps the protocol

  lemma StepLogs(w: World, e: Event)
    requires w.history != [] && Enabled(w, e)
    ensures var w' := Step(w, e);
            && w.used <= w'.used
            && (forall id :: Verdicts(w', id) != Verdicts(w, id) ==> e.FinishConfirm? && e.id == id)
            && (forall id :: Initiations(w', id) != Initiations(w, id) ==> e.FinishInit? && e.id == id)
            && (!e.ReserveInit? ==> w'.reservations == w.reservations)
            && (!e.CallRail? ==> w'.railCalls == w.railCalls)
            && (!e.ReserveConfirm? ==> w'.issued == w.issued)
            && (!e.CallBank? ==> w'.bankCalls == w.bankCalls)
            && w'.created == if e.Create? && Transact(w, e).Ok? then w.created + {e.id} else w.created
  {
    hide Transact, ReserveInitiation, ReserveConfirmation, Enabled;
  }

  lemma LinksFrame(w: World, w': World, id: AccountId, c: Challenge, c': Challenge, log: seq<Recorded>)
    requires LinksOk(w, id, c, log) && w.used <= w'.used
    requires c'.requestKey == c.requestKey && c'.token == c.token && c'.fingerprint == c.fingerprint
    requires forall r :: Reserved(id, r) in w'.reservations ==> Reserved(id, r) in w.reservations
    requires forall k :: RailCall(id, k) in w'.railCalls ==> RailCall(id, k) in w.railCalls
    requires forall t, e :: Issued(id, t, e) in w'.issued ==> Issued(id, t, e) in w.issued
    ensures LinksOk(w', id, c', log)
  {
    hide FingerprintText, RecordedToken;
  }

  /** An account that the event is not about. */
  lemma OtherAccountKept(w: World, e: Event, id: AccountId)
    requires ProtocolOk(w) && Enabled(w, e) && id in w.created && AccountOk(w, id)
    requires OneAccount(e) && !e.SelectPrimary? && id != e.id && Transact(w, e).Ok?
    ensures AccountOk(Step(w, e), id)
  {
    var w' := Step(w, e);
    OneAccountShape(w, e);
    StepLogs(w, e);
    StepHistory(w, e);
    if e.ReserveInit? {
      ReserveInitLogs(w, e);
    } else if e.ReserveConfirm? {
      ReserveConfirmLogs(w, e);
    }
    hide Step, Transact, RowOk, LinksOk, NewRow;
    LinksFrame(w, w', id, Cur(w).accounts[id].challenge, Cur(w).accounts[id].challenge, Verdicts(w, id));
  }

  lemma ReserveInitLogs(w: World, e: Event)
    requires w.history != [] && Enabled(w, e) && e.ReserveInit? && Transact(w, e).Ok?
    ensures forall x :: x in Step(w, e).reservations ==> x in w.reservations || x.id == e.id
  {
  }

  lemma ReserveConfirmLogs(w: World, e: Event)
    requires w.history != [] && Enabled(w, e) && e.ReserveConfirm? && Transact(w, e).Ok?
    ensures forall x :: x in Step(w, e).issued ==> x in w.issued || x.id == e.id
  {
  }

  lemma ReserveKeepsLinks(w: World, w': World, id: AccountId, c: Challenge, c': Challenge, log: seq<Recorded>,
                          r: Reservation)
    requires LinksOk(w, id, c, log)
    requires w'.used >= w.used && w'.railCalls == w.railCalls && w'.issued == w.issued
    requires w'.reservations == w.reservations + {Reserved(id, r)}
    requires c' == c.(status := c'.status, requestKey := Some(r.key), initiatedAt := c'.initiatedAt)
    requires c.requestKey.Some? ==> c.requestKey == Some(r.key)
    ensures LinksOk(w', id, c', log)
  {
  }

  lemma ReserveInitKept(w: World, e: Event)
    requires ProtocolOk(w) && Enabled(w, e) && e.ReserveInit? && Transact(w, e).Ok? && e.id in w.created
    ensures AccountOk(Step(w, e), e.id)
  {
    var w', row := Step(w, e), Cur(w).accounts[e.id];
    OneAccountShape(w, e);
    CreatedIsLockedAsIs(w, e);
    ReserveInitRow(w, e);
    StepLogs(w, e);
    StepHistory(w, e);
    hide Step, Transact, LinksOk;
    var c := row.challenge;
    var key, at :|
      && NewRow(w, e) == row.(challenge := c.(status := Initiating, requestKey := Some(key), initiatedAt := Some(at)))
      && w'.reservations == w.reservations + {Reserved(e.id, Reservation(key, at))}
      && (c.requestKey.Some? && c.status == Initiating ==> c.requestKey == Some(key));
    assert Cur(w').accounts[e.id] == NewRow(w, e);
    ReserveKeepsLinks(w, w', e.id, row.challenge, NewRow(w, e).challenge, Verdicts(w, e.id), Reservation(key, at));
    hide NewRow;
  }

  lemma InitiatedRowOk(row: Account, log: seq<Recorded>, r: Reservation, reply: RailReply)
    requires RowOk(row, log, 0) && row.status == Pending && row.challenge.status == Initiating
    requires Accepted(ResultOf(reply))
    ensures RowOk(InitiatedRow(row, r, ResultOf(reply)), log, 1)
  {
    VerifiedByRail(row, r, reply);
    hide MethodOf, TokensDistinct, RecordedToken, ResultOf;
  }

  lemma FinishInitRow(w: World, e: Event)
    requires w.history != [] && Enabled(w, e) && e.FinishInit? && Transact(w, e).Ok? && AccountOk(w, e.id)
    ensures var row, row' := Cur(w).accounts[e.id], NewRow(w, e);
            && Accepted(ResultOf(e.reply)) && row.status == Pending
            && row' == (if row.challenge.status == Initiated then row
               else InitiatedRow(row, e.reservation, ResultOf(e.reply)))
            && row.challenge.requestKey == Some(e.reservation.key)
            && Initiations(Step(w, e), e.id)
               == Initiations(w, e.id) + if row.challenge.status == Initiated then 0 else 1
  {
    CreatedIsLockedAsIs(w, e);
    hide RowOk, LinksOk, Effective, FinishReview, InitiatedRow, ResultOf, Accepted;
  }

  lemma FinishInitKept(w: World, e: Event)
    requires ProtocolOk(w) && Enabled(w, e) && e.FinishInit? && Transact(w, e).Ok? && e.id in w.created
    ensures AccountOk(Step(w, e), e.id)
  {
    var w', row := Step(w, e), Cur(w).accounts[e.id];
    OneAccountShape(w, e);
    FinishInitRow(w, e);
    StepLogs(w, e);
    StepHistory(w, e);
    assert Cur(w').accounts[e.id] == NewRow(w, e);
    hide Step, Transact, LinksOk, NewRow, ResultOf, Accepted;
    LinksFrame(w, w', e.id, row.challenge, NewRow(w, e).challenge, Verdicts(w, e.id));
    if row.challenge.status != Initiated {
      assert row.challenge.status == Initiating;
      InitiatedRowOk(row, Verdicts(w, e.id), e.reservation, e.reply);
    }
    hide RowOk;
  }

  /** Reserving a confirmation adds one issued token, the outstanding one or a fresh one. */
  lemma IssueKeepsLinks(w: World, w': World, id: AccountId, c: Challenge, log: seq<Recorded>,
                        token: Uuid, evidence: Evidence, at: Time)
    requires LinksOk(w, id, c, log) && Valid(evidence)
    requires w.used <= w'.used && token in w'.used
    requires w'.reservations == w.reservations && w'.railCalls == w.railCalls
    requires w'.issued == w.issued + {Issued(id, token, evidence)}
    requires c.token.None? ==> token !in w.used
    requires c.token.Some? ==> c.token == Some(token) && c.fingerprint == Some(FingerprintText(evidence))
                               && !RecordedToken(log, token)
    ensures LinksOk(w', id, c.(confirmingAt := Some(at), token := Some(token),
                               fingerprint := Some(FingerprintText(evidence))), log)
    ensures !RecordedToken(log, token)
  {
    hide FingerprintText, RecordedToken;
    forall f | Issued(id, token, f) in w.issued ensures f == evidence {
      FingerprintInjective(evidence, f);
    }
  }

  lemma ReserveConfirmKept(w: World, e: Event)
    requires ProtocolOk(w) && Enabled(w, e) && e.ReserveConfirm? && Transact(w, e).Ok? && e.id in w.created
    ensures AccountOk(Step(w, e), e.id)
  {
    var w', row, log := Step(w, e), Cur(w).accounts[e.id], Verdicts(w, e.id);
    OneAccountShape(w, e);
    CreatedIsLockedAsIs(w, e);
    ReserveConfirmRow(w, e);
    StepLogs(w, e);
    StepHistory(w, e);
    assert w'.used == w.used + {e.newToken};
    hide Step, Transact, FingerprintText, LinksOk;
    var c := row.challenge;
    var token :| && NewRow(w, e) == row.(challenge := c.(confirmingAt := Some(e.now), token := Some(token),
                                                         fingerprint := Some(FingerprintText(e.evidence))))
                 && w'.issued == w.issued + {Issued(e.id, token, e.evidence)}
                 && (if c.token.Some? then c.token == Some(token) && c.fingerprint == Some(FingerprintText(e.evidence))
                     else token == e.newToken);
    TokenUsed(w, e.id, c, log);
    IssueKeepsLinks(w, w', e.id, c, log, token, e.evidence, e.now);
    assert Cur(w').accounts[e.id] == NewRow(w, e);
    hide NewRow, RecordedToken;
  }

  lemma TokenUsed(w: World, id: AccountId, c: Challenge, log: seq<Recorded>)
    requires LinksOk(w, id, c, log)
    ensures c.token.Some? ==> c.token.value in w.used
  {
  }

  lemma FinishConfirmKept(w: World, e: Event)
    requires ProtocolOk(w) && Enabled(w, e) && e.FinishConfirm? && Transact(w, e).Ok? && e.id in w.created
    ensures AccountOk(Step(w, e), e.id)
  {
    var w', row := Step(w, e), Cur(w).accounts[e.id];
    var log, log' := Verdicts(w, e.id), Verdicts(w', e.id);
    OneAccountShape(w, e);
    CreatedIsLockedAsIs(w, e);
    StepLogs(w, e);
    StepHistory(w, e);
    assert row.challenge.token == Some(e.token);
    assert Cur(w').accounts[e.id] == NewRow(w, e) == ConfirmedRow(row, e.verdict);
    assert log' == if e.verdict == NoVerdict then log else log + [Recorded(e.token, e.verdict)];
    hide Step, Transact, NewRow, RowOk;
    ConfirmedRowOk(row, log, Initiations(w, e.id), e.token, e.verdict);
    RecordToken(log, e.token, e.verdict);
    hide FingerprintText, RecordedToken;
  }

  lemma ReviewKept(w: World, e: Event)
    requires ProtocolOk(w) && Enabled(w, e) && e.Review? && Transact(w, e).Ok? && e.id in w.created
    ensures AccountOk(Step(w, e), e.id)
  {
    var w', row := Step(w, e), Cur(w).accounts[e.id];
    OneAccountShape(w, e);
    CreatedIsLockedAsIs(w, e);
    StepLogs(w, e);
    StepHistory(w, e);
    assert Cur(w').accounts[e.id] == NewRow(w, e);
    hide Step, Transact;
    LinksFrame(w, w', e.id, row.challenge, row.challenge, Verdicts(w, e.id));
  }

  lemma KeepsRowsKept(w: World, e: Event, id: AccountId)
    requires ProtocolOk(w) && Enabled(w, e) && KeepsRows(e) && id in w.created
    ensures AccountOk(Step(w, e), id)
  {
    var w' := Step(w, e);
    StepLogs(w, e);
    StepHistory(w, e);
    if Transact(w, e).Ok? {
      RowsKept(w, e);
    }
    if e.CallRail? {
      assert w'.railCalls == w.railCalls + {RailCall(e.id, e.reservation.key)};
    } else {
      LinksFrame(w, w', id, Cur(w).accounts[id].challenge, Cur(w).accounts[id].challenge, Verdicts(w, id));
    }
  }

  lemma CreateKept(w: World, e: Event, id: AccountId)
    requires ProtocolOk(w) && Enabled(w, e) && e.Create? && Transact(w, e).Ok? && id in Step(w, e).created
    ensures AccountOk(Step(w, e), id)
  {
    var w' := Step(w, e);
    StepLogs(w, e);
    StepHistory(w, e);
    CreateShape(w, e);
    hide Step, Transact;
    if id != e.id {
      LinksFrame(w, w', id, Cur(w).accounts[id].challenge, Cur(w).accounts[id].challenge, Verdicts(w, id));
    }
  }

  lemma KeysGrow(w: World, e: Event)
    requires w.history != [] && Enabled(w, e)
    ensures Cur(w).accounts.Keys <= Cur(Step(w, e)).accounts.Keys
  {
    StepHistory(w, e);
    hide Step;
    if HasSnapshot(e) && Transact(w, e).Ok? {
      if e.Create? {
        CreateShape(w, e);
      } else if KeepsRows(e) {
        RowsKept(w, e);
      } else {
        OneAccountShape(w, e);
      }
    }
  }

  /** New log entries are about an account that exists. */
  lemma NewLogs(w: World, e: Event)
    requires w.history != [] && Enabled(w, e) && LogsKnown(w)
    ensures var w', known := Step(w, e), Cur(w).accounts.Keys;
            && (forall x :: x in w'.reservations ==> x.id in known)
            && (forall x :: x in w'.railCalls ==> x.id in known)
            && (forall x :: x in w'.issued ==> x.id in known)
            && w'.initiations.Keys <= known && w'.verdicts.Keys <= known
  {
    if OneAccount(e) && !e.SelectPrimary? && Transact(w, e).Ok? {
      OneAccountShape(w, e);
    }
    hide Transact, ReserveInitiation, ReserveConfirmation;
  }

  lemma LogsStayKnown(w: World, e: Event)
    requires ProtocolOk(w)
    ensures LogsKnown(Step(w, e)) && Step(w, e).bankCalls <= Step(w, e).issued
  {
    if Enabled(w, e) {
      KeysGrow(w, e);
      NewLogs(w, e);
      CallsIssued(w, e);
      hide Step, AccountOk;
    }
  }

  lemma CallsIssued(w: World, e: Event)
    requires w.history != [] && Enabled(w, e) && w.bankCalls <= w.issued
    ensures Step(w, e).bankCalls <= Step(w, e).issued
  {
    hide Transact, ReserveInitiation, ReserveConfirmation;
  }

  lemma StepProtocol(w: World, e: Event)
    requires ProtocolOk(w)
    ensures ProtocolOk(Step(w, e))
  {
    LogsStayKnown(w, e);
    if Enabled(w, e) {
      StepLogs(w, e);
      var w' := Step(w, e);
      StepHistory(w, e);
      hide Step, AccountOk, LogsKnown, Enabled;
      forall id | id in w'.created ensures AccountOk(w', id) {
        if KeepsRows(e) {
          KeepsRowsKept(w, e, id);
        } else if Transact(w, e).Err? {
          FailedStep(w, e);
        } else if e.Create? {
          CreateKept(w, e, id);
        } else if id != e.id {
          OtherAccountKept(w, e, id);
        } else {
          match e
          case ReserveInit(_, _, _, _, _, _) => ReserveInitKept(w, e);
          case FinishInit(_, _, _, _, _) => FinishInitKept(w, e);
          case ReserveConfirm(_, _, _, _, _, _, _) => ReserveConfirmKept(w, e);
          case FinishConfirm(_, _, _, _, _) => FinishConfirmKept(w, e);
          case Review(_, _, _) => ReviewKept(w, e);
        }
      }
    }
  }

  lemma FailedStep(w: World, e: Event)
    requires w.history != [] && Enabled(w, e) && !e.CallRail? && !e.CallBank? && Transact(w, e).Err?
    ensures Step(w, e) == w
  {
  }

  // ----- Main results

  lemma {:induction false} RunProtocol(db: Db, events: seq<Event>)
    ensures ProtocolOk(Run(Start(db), events))
    decreases |events|
  {
    if events != [] {
      var init, last := events[..|events| - 1], events[|events| - 1];
      RunProtocol(db, init);
      StepProtocol(Run(Start(db), init), last);
    }
  }

  /** All calls that start a micro-deposit for a created account carry one key, and it is initiated at most once. */
  lemma OneIdempotencyKey(db: Db, events: seq<Event>, id: AccountId)
    requires id in Run(Start(db), events).created
    ensures var w := Run(Start(db), events);
            && (forall k, k' :: RailCall(id, k) in w.railCalls && RailCall(id, k') in w.railCalls ==> k == k')
            && Initiations(w, id) <= 1
  {
    RunProtocol(db, events);
    assert AccountOk(Run(Start(db), events), id);
  }

  /** Attempts are the definitive answers of the bank, at most three, each for a different token. */
  lemma AttemptsAreVerdicts(db: Db, events: seq<Event>, id: AccountId)
    requires id in Run(Start(db), events).created
    ensures var w := Run(Start(db), events);
            id in Cur(w).accounts &&
            var row, log := Cur(w).accounts[id], Verdicts(w, id);
            && row.challenge.attempts == |log| <= MAX_ATTEMPTS
            && TokensDistinct(log)
            && (row.challenge.status == Failed <==> |log| == MAX_ATTEMPTS && Mismatches(log))
            && (row.status == RequiresAttention ==>
                  (row.lastReview == Some(MicroDepositPath) <==> |log| == MAX_ATTEMPTS && Mismatches(log)))
            && (row.status == Pending ==> Mismatches(log) && |log| < MAX_ATTEMPTS)
            && (|log| == MAX_ATTEMPTS && Mismatches(log)
               ==> row.status == RequiresAttention || row.status == Superseded)
  {
    RunProtocol(db, events);
    assert AccountOk(Run(Start(db), events), id);
  }

  /** A token that was sent to the bank, or will be, and has no answer on record. */
  ghost predicate Outstanding(w: World, id: AccountId, token: Uuid) {
    (exists e :: Issued(id, token, e) in w.issued) && !RecordedToken(Verdicts(w, id), token)
  }

  /** Calls under one token carry one piece of evidence, and an account has at most one token without an answer. */
  lemma OneEvidencePerToken(db: Db, events: seq<Event>, id: AccountId)
    requires id in Run(Start(db), events).created
    ensures var w := Run(Start(db), events);
            && (forall t, e, f :: Issued(id, t, e) in w.bankCalls && Issued(id, t, f) in w.bankCalls ==> e == f)
            && (forall t, u :: Outstanding(w, id, t) && Outstanding(w, id, u) ==> t == u)
  {
    RunProtocol(db, events);
    var w := Run(Start(db), events);
    assert AccountOk(w, id);
    forall t, e, f | Issued(id, t, e) in w.bankCalls && Issued(id, t, f) in w.bankCalls ensures e == f {
      assert Issued(id, t, e) in w.issued && Issued(id, t, f) in w.issued;
    }
  }
}
