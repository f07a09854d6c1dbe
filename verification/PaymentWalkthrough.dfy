/** One complete run: an account is created, verified by a micro-deposit, and makes its provider ready. */
module PaymentWalkthrough {
  import opened Options
  import opened PaymentAccounts
  import opened PaymentEvidence
  import opened PaymentWorld
  import opened PaymentProfile

  /** A step whose transaction succeeds appends its state. */
  lemma Appends(w: World, e: Event, db: Db)
    requires w.history != [] && Enabled(w, e) && !e.CallRail? && !e.CallBank? && Transact(w, e) == Ok(db)
    ensures Step(w, e).history == w.history + [db]
  {
  }

  /** Creations, reservations, answers and verdicts are logged. */
  lemma StepLogsEvent(w: World, e: Event)
    requires w.history != [] && Enabled(w, e)
    ensures var w' := Step(w, e);
            match e
            case Create(_, id, _, _, _) => Transact(w, e).Ok? ==> w'.created == w.created + {id} && id in w'.used
            case ReserveInit(at, id, key, now, available, allowed) =>
              var tx := ReserveInitiation(w.history[at], Cur(w), id, key, now, available, allowed);
              tx.Ok? ==> w'.reservations == w.reservations + {Reserved(id, tx.value.1)}
            case CallRail(id, r) => w' == w.(railCalls := w.railCalls + {RailCall(id, r.key)})
            case FinishInit(_, id, _, _, _) =>
              Transact(w, e).Ok? && id in Cur(w).accounts ==>
                Initiations(w', id) == Initiations(w, id)
                                       + (if Cur(w).accounts[id].challenge.status == Initiated then 0 else 1)
            case ReserveConfirm(at, id, evidence, token, now, available, allowed) =>
              var tx := ReserveConfirmation(w.history[at], Cur(w), id, FingerprintText(evidence), token, now,
                                            available, allowed);
              tx.Ok? ==> w'.issued == w.issued + {Issued(id, tx.value.1.token, evidence)} && token in w'.used
            case CallBank(id, token, evidence) => w' == w.(bankCalls := w.bankCalls + {Issued(id, token, evidence)})
            case FinishConfirm(_, id, token, verdict, _) =>
              Transact(w, e).Ok? ==>
                Verdicts(w', id) == if verdict == NoVerdict then Verdicts(w, id)
                                    else Verdicts(w, id) + [Recorded(token, verdict)]
            case _ => true
  {
    hide FingerprintText, CreateTx, FinishInitiation, FinishConfirmation, ReviewTx, SelectPrimaryTx, RefreshTx;
  }

  // ----- The run

  const ID := "a"

  function Empty(tax: TaxProfile): Db {
    Db(map[], None, tax)
  }

  function Single(row: Account, tax: TaxProfile): Db {
    Db(map[ID := row], None, tax)
  }

  function Fresh(identifier: string, currency: string, schedule: string): Account {
    NewAccount(identifier, currency, schedule)
  }

  function Keyed(row: Account, key: Uuid, at: Time): Account {
    row.(challenge := row.challenge.(status := Initiating, requestKey := Some(key), initiatedAt := Some(at)))
  }

  function Started(row: Account, ref: string, at: Time): Account {
    row.(rail := Some(Rail(true, StripeConnect, ref)),
         challenge := row.challenge.(status := Initiated, via := Some(ViaStripe),
                                       expiresAt := Some(at + CHALLENGE_LIFETIME)))
  }

  function Asked(row: Account, token: Uuid, fingerprint: string, now: Time): Account {
    row.(challenge := row.challenge.(confirmingAt := Some(now), token := Some(token), fingerprint := Some(fingerprint)))
  }

  function Passed(row: Account): Account {
    row.(status := Verified, lastReview := Some(MicroDepositPath),
         challenge := row.challenge.(status := Confirmed, attempts := row.challenge.attempts + 1,
                                       confirmingAt := None, token := None))
  }

  lemma Creates(tax: TaxProfile, identifier: string, currency: string, schedule: string)
    requires |identifier| >= 4
    ensures CreateTx(Empty(tax), Empty(tax), ID, identifier, currency, schedule)
            == Ok(Single(Fresh(identifier, currency, schedule), tax))
  {
    assert Supersede(Empty(tax), map[]) == map[];
  }

  lemma PutSingle(row: Account, row': Account, tax: TaxProfile)
    ensures Put(Single(row, tax), ID, row') == Single(row', tax)
  {
  }

  lemma LocksSingle(row: Account, tax: TaxProfile)
    requires row.status == Pending
    ensures Locked(Single(row, tax), Single(row, tax), ID) == Ok(row)
  {
  }

  lemma Reserves(row: Account, tax: TaxProfile, key: Uuid, at: Time)
    requires row.status == Pending && row.challenge == NO_CHALLENGE
    ensures var db := Single(row, tax);
            ReserveInitiation(db, db, ID, key, at, true, true)
              == Ok((Single(Keyed(row, key, at), tax), Reservation(key, at)))
  {
    LocksSingle(row, tax);
    PutSingle(row, Keyed(row, key, at), tax);
    hide Locked, Single, Put;
  }

  lemma Starts(row: Account, tax: TaxProfile, key: Uuid, at: Time, ref: string)
    requires row.status == Pending && row.challenge.status == Initiating && row.challenge.requestKey == Some(key)
    requires ref != ""
    ensures var db := Single(row, tax);
            FinishInitiation(db, db, ID, Reservation(key, at), ResultOf(SetupStarted(ref)), true)
            == Ok(Single(Started(row, ref, at), tax))
  {
    LocksSingle(row, tax);
    PutSingle(row, Started(row, ref, at), tax);
    assert InitiatedRow(row, Reservation(key, at), ResultOf(SetupStarted(ref))) == Started(row, ref, at);
    hide Locked, Single, Put, InitiatedRow, FinishReview;
  }

  lemma Asks(row: Account, tax: TaxProfile, ref: string, fingerprint: string, token: Uuid, now: Time)
    requires row.status == Pending && row.rail == Some(Rail(true, StripeConnect, ref))
    requires row.challenge.via == Some(ViaStripe)
    requires row.challenge.status == Initiated && row.challenge.expiresAt.Some? && now < row.challenge.expiresAt.value
    requires row.challenge.confirmingAt.None? && row.challenge.attempts == 0
    ensures var db := Single(row, tax);
            ReserveConfirmation(db, db, ID, fingerprint, token, now, true, true)
            == Ok((Single(Asked(row, token, fingerprint, now), tax), Attempt(token, ref)))
  {
    LocksSingle(row, tax);
    PutSingle(row, Asked(row, token, fingerprint, now), tax);
    hide Locked, Single, Put;
  }

  lemma Confirms(row: Account, tax: TaxProfile, token: Uuid)
    requires row.status == Pending && Confirmable(row) && row.challenge.token == Some(token)
    requires row.challenge.attempts == 0
    ensures var db := Single(row, tax);
            FinishConfirmation(db, db, ID, token, Match, true)
            == Ok(Single(Passed(row), tax).(profile := Some(TermsOf(ID, row, tax))))
  {
    var db := Single(row, tax);
    LocksSingle(row, tax);
    PutSingle(row, Passed(row), tax);
    assert ConfirmedRow(row, Match) == Passed(row);
    assert Effective(Passed(row)) == Verified;
    hide Locked, Put, ConfirmedRow, Effective;
    var after := Single(Passed(row), tax);
    assert Sync(after, after, ID, false) == Ok(after.(profile := Some(TermsOf(ID, row, tax))));
    hide Single;
  }

  /** What the run shows of a world: how many states there were, the last one, the ids in use, and the calls. */
  datatype Look = Look(size: nat, db: Db, used: set<Uuid>, reservations: set<Reserved>, railCalls: set<RailCall>,
    issued: set<Issued>, bankCalls: set<Issued>)

  function Seen(w: World): Look
    requires w.history != []
  {
    Look(|w.history|, Cur(w), w.used, w.reservations, w.railCalls, w.issued, w.bankCalls)
  }

  lemma StepCreates(w: World, tax: TaxProfile, identifier: string, currency: string, schedule: string)
    requires |w.history| == 1 && Cur(w) == Empty(tax) && w.used == {} && |identifier| >= 4
    ensures Seen(Step(w, Create(0, ID, identifier, currency, schedule)))
            == Seen(w).(size := 2, db := Single(Fresh(identifier, currency, schedule), tax), used := {ID})
  {
    var e := Create(0, ID, identifier, currency, schedule);
    Creates(tax, identifier, currency, schedule);
    assert FreshId(w, ID);
    hide CreateTx, Fresh, FreshId;
    Appends(w, e, Single(Fresh(identifier, currency, schedule), tax));
    hide Empty, Single;
  }

  lemma StepReserves(w: World, tax: TaxProfile, row: Account, key: Uuid, at: Time)
    requires |w.history| == 2 && Cur(w) == Single(row, tax) && w.reservations == {}
    requires row.status == Pending && row.challenge == NO_CHALLENGE
    ensures Seen(Step(w, ReserveInit(1, ID, key, at, true, true)))
            == Seen(w).(size := 3, db := Single(Keyed(row, key, at), tax),
                        reservations := {Reserved(ID, Reservation(key, at))})
  {
    Reserves(row, tax, key, at);
    hide ReserveInitiation, Single, Keyed;
    Appends(w, ReserveInit(1, ID, key, at, true, true), Single(Keyed(row, key, at), tax));
  }

  lemma StepCalls(w: World, r: Reservation)
    requires w.history != [] && w.reservations == {Reserved(ID, r)} && w.railCalls == {}
    ensures Seen(Step(w, CallRail(ID, r))) == Seen(w).(railCalls := {RailCall(ID, r.key)})
  {
  }

  lemma StepStarts(w: World, tax: TaxProfile, row: Account, key: Uuid, at: Time, ref: string)
    requires |w.history| == 3 && Cur(w) == Single(row, tax) && w.reservations == {Reserved(ID, Reservation(key, at))}
    requires row.status == Pending && row.challenge.status == Initiating && row.challenge.requestKey == Some(key)
    requires ref != ""
    ensures Seen(Step(w, FinishInit(2, ID, Reservation(key, at), SetupStarted(ref), true)))
            == Seen(w).(size := 4, db := Single(Started(row, ref, at), tax))
  {
    Starts(row, tax, key, at, ref);
    hide FinishInitiation, Single, Started, ResultOf;
    Appends(w, FinishInit(2, ID, Reservation(key, at), SetupStarted(ref), true), Single(Started(row, ref, at), tax));
  }

  lemma StepAsks(w: World, tax: TaxProfile, row: Account, ref: string, evidence: Evidence, token: Uuid, now: Time)
    requires |w.history| == 4 && Cur(w) == Single(row, tax) && w.used == {ID} && w.issued == {}
    requires row.status == Pending && row.rail == Some(Rail(true, StripeConnect, ref))
    requires row.challenge.via == Some(ViaStripe)
    requires row.challenge.status == Initiated && row.challenge.expiresAt.Some? && now < row.challenge.expiresAt.value
    requires row.challenge.confirmingAt.None? && row.challenge.attempts == 0 && Valid(evidence) && token != ID
    ensures Seen(Step(w, ReserveConfirm(3, ID, evidence, token, now, true, true)))
            == Seen(w).(size := 5, db := Single(Asked(row, token, FingerprintText(evidence), now), tax),
                        used := {ID, token}, issued := {Issued(ID, token, evidence)})
  {
    Asks(row, tax, ref, FingerprintText(evidence), token, now);
    hide ReserveConfirmation, Single, Asked, FingerprintText, Valid;
    var e := ReserveConfirm(3, ID, evidence, token, now, true, true);
    Appends(w, e, Single(Asked(row, token, FingerprintText(evidence), now), tax));
  }

  lemma StepAsksBank(w: World, token: Uuid, evidence: Evidence)
    requires w.history != [] && w.issued == {Issued(ID, token, evidence)} && w.bankCalls == {}
    ensures Seen(Step(w, CallBank(ID, token, evidence))) == Seen(w).(bankCalls := {Issued(ID, token, evidence)})
  {
  }

  lemma StepConfirms(w: World, tax: TaxProfile, row: Account, token: Uuid, evidence: Evidence)
    requires |w.history| == 5 && Cur(w) == Single(row, tax) && w.issued == {Issued(ID, token, evidence)}
    requires row.status == Pending && Confirmable(row) && row.challenge.token == Some(token)
    requires row.challenge.attempts == 0
    ensures Seen(Step(w, FinishConfirm(4, ID, token, Match, true)))
            == Seen(w).(size := 6, db := Single(Passed(row), tax).(profile := Some(TermsOf(ID, row, tax))))
  {
    Confirms(row, tax, token);
    var db := Single(Passed(row), tax).(profile := Some(TermsOf(ID, row, tax)));
    hide FinishConfirmation, Single, Passed, TermsOf, Confirmable;
    assert Issued(ID, token, evidence) in w.issued;
    Appends(w, FinishConfirm(4, ID, token, Match, true), db);
  }

  lemma FreshPending(identifier: string, currency: string, schedule: string)
    ensures var row := Fresh(identifier, currency, schedule);
            && row.status == Pending && row.challenge == NO_CHALLENGE && row.currency == currency
            && row.schedule == schedule
  {
  }

  lemma KeyedPending(row: Account, key: Uuid, at: Time)
    requires row.status == Pending
    ensures var row' := Keyed(row, key, at);
            && row'.status == Pending && row'.challenge.status == Initiating && row'.challenge.requestKey == Some(key)
            && row'.challenge.attempts == row.challenge.attempts
            && row'.challenge.confirmingAt == row.challenge.confirmingAt
            && row'.currency == row.currency && row'.schedule == row.schedule
  {
  }

  lemma AskedPending(row: Account, token: Uuid, fingerprint: string, now: Time)
    requires row.status == Pending && Confirmable(row)
    ensures var asked := Asked(row, token, fingerprint, now);
            && asked.status == Pending && Confirmable(asked) && asked.challenge.token == Some(token)
            && asked.challenge.attempts == row.challenge.attempts
            && asked.schedule == row.schedule && asked.currency == row.currency
  {
  }

  lemma PassedIsVerified(row: Account)
    requires Confirmable(row)
    ensures Effective(Passed(row)) == Verified
  {
  }

  lemma FirstHalf(w: World, tax: TaxProfile, identifier: string, currency: string, schedule: string, key: Uuid,
                  at: Time, ref: string) returns (w4: World, row: Account)
    requires w.history != [] && Seen(w) == Look(1, Empty(tax), {}, {}, {}, {}, {}) && |identifier| >= 4 && ref != ""
    ensures w4 == Step(Step(Step(Step(w, Create(0, ID, identifier, currency, schedule)),
                                 ReserveInit(1, ID, key, at, true, true)),
                            CallRail(ID, Reservation(key, at))),
                       FinishInit(2, ID, Reservation(key, at), SetupStarted(ref), true))
    ensures Seen(w4) == Look(4, Single(row, tax), {ID}, {Reserved(ID, Reservation(key, at))}, {RailCall(ID, key)},
                             {}, {})
    ensures row == Started(Keyed(Fresh(identifier, currency, schedule), key, at), ref, at)
  {
    var row0 := Fresh(identifier, currency, schedule);
    FreshPending(identifier, currency, schedule);
    var row1 := Keyed(row0, key, at);
    KeyedPending(row0, key, at);
    row := Started(row1, ref, at);
    hide Step, Fresh, Keyed, Started, Empty, Single;
    StepCreates(w, tax, identifier, currency, schedule);
    var w1 := Step(w, Create(0, ID, identifier, currency, schedule));
    StepReserves(w1, tax, row0, key, at);
    var w2 := Step(w1, ReserveInit(1, ID, key, at, true, true));
    StepCalls(w2, Reservation(key, at));
    var w3 := Step(w2, CallRail(ID, Reservation(key, at)));
    StepStarts(w3, tax, row1, key, at, ref);
    w4 := Step(w3, FinishInit(2, ID, Reservation(key, at), SetupStarted(ref), true));
  }

  lemma SecondHalf(w: World, tax: TaxProfile, row: Account, reservations: set<Reserved>, railCalls: set<RailCall>,
                   ref: string, evidence: Evidence, token: Uuid, now: Time) returns (w7: World)
    requires w.history != [] && Seen(w) == Look(4, Single(row, tax), {ID}, reservations, railCalls, {}, {})
    requires row.status == Pending && row.rail == Some(Rail(true, StripeConnect, ref))
    requires row.challenge.via == Some(ViaStripe)
    requires row.challenge.status == Initiated && row.challenge.expiresAt.Some? && now < row.challenge.expiresAt.value
    requires row.challenge.confirmingAt.None? && row.challenge.attempts == 0 && Valid(evidence) && token != ID
    ensures w7 == Step(Step(Step(w, ReserveConfirm(3, ID, evidence, token, now, true, true)),
                            CallBank(ID, token, evidence)),
                       FinishConfirm(4, ID, token, Match, true))
    ensures w7.railCalls == railCalls && w7.bankCalls == {Issued(ID, token, evidence)}
    ensures ID in Cur(w7).accounts && Effective(Cur(w7).accounts[ID]) == Verified
    ensures Cur(w7).profile == Some(TermsOf(ID, row, tax))
  {
    assert Confirmable(row);
    var fingerprint := FingerprintText(evidence);
    var asked := Asked(row, token, fingerprint, now);
    AskedPending(row, token, fingerprint, now);
    assert TermsOf(ID, asked, tax) == TermsOf(ID, row, tax);
    PassedIsVerified(asked);
    hide Step, FingerprintText, Asked, Passed, Confirmable, Valid, TermsOf, Effective;
    StepAsks(w, tax, row, ref, evidence, token, now);
    var w5 := Step(w, ReserveConfirm(3, ID, evidence, token, now, true, true));
    StepAsksBank(w5, token, evidence);
    var w6 := Step(w5, CallBank(ID, token, evidence));
    StepConfirms(w6, tax, asked, token, evidence);
    w7 := Step(w6, FinishConfirm(4, ID, token, Match, true));
  }

  /**
   An account is created; a deposit is reserved, started and recorded; an answer is reserved,
   checked and recorded.
   */
  function Walk(identifier: string, currency: string, schedule: string, key: Uuid, at: Time, ref: string,
                evidence: Evidence, token: Uuid, now: Time): seq<Event>
  {
    [Create(0, ID, identifier, currency, schedule)]
    + [ReserveInit(1, ID, key, at, true, true), CallRail(ID, Reservation(key, at)),
       FinishInit(2, ID, Reservation(key, at), SetupStarted(ref), true)]
    + [ReserveConfirm(3, ID, evidence, token, now, true, true), CallBank(ID, token, evidence),
       FinishConfirm(4, ID, token, Match, true)]
  }

  lemma RunOne(w: World, e: Event)
    requires w.history != []
    ensures Run(w, [e]) == Step(w, e)
  {
    hide Step;
  }

  lemma RunThree(w: World, events: seq<Event>, a: Event, b: Event, c: Event)
    requires w.history != []
    ensures Run(w, events + [a, b, c]) == Step(Step(Step(Run(w, events), a), b), c)
  {
    hide Step, Run;
    RunAppend(w, events, a);
    RunAppend(w, events + [a], b);
    RunAppend(w, events + [a] + [b], c);
    assert events + [a] + [b] + [c] == events + [a, b, c];
  }

  /**
   Whatever the number, terms, keys, reference and evidence are: after these seven events the account is
   verified, one call to the rail and one to the bank are logged, and the provider's profile refers to
   the account, ready if the tax profile is verified.
   */
  lemma DepositVerifies(tax: TaxProfile, identifier: string, currency: string, schedule: string, key: Uuid, at: Time,
                        ref: string, evidence: Evidence, token: Uuid, now: Time)
    requires |identifier| >= 4 && ref != "" && Valid(evidence) && token != ID && now < at + CHALLENGE_LIFETIME
    ensures var w := Run(Start(Empty(tax)), Walk(identifier, currency, schedule, key, at, ref, evidence, token, now));
            && w.railCalls == {RailCall(ID, key)} && w.bankCalls == {Issued(ID, token, evidence)}
            && ID in Cur(w).accounts && Effective(Cur(w).accounts[ID]) == Verified
            && Cur(w).profile == Some(Profile(Some(ID), schedule, currency, tax, tax == TaxVerified))
  {
    var w0 := Start(Empty(tax));
    assert Seen(w0) == Look(1, Empty(tax), {}, {}, {}, {}, {});
    var row0 := Fresh(identifier, currency, schedule);
    FreshPending(identifier, currency, schedule);
    KeyedPending(row0, key, at);
    hide Step, Run, Start, Fresh, Keyed, Valid, Effective, Empty, Single;
    var w4, row := FirstHalf(w0, tax, identifier, currency, schedule, key, at, ref);
    var w7 := SecondHalf(w4, tax, row, {Reserved(ID, Reservation(key, at))}, {RailCall(ID, key)}, ref,
                         evidence, token, now);
    hide Started;
    var e1, e2 := Create(0, ID, identifier, currency, schedule), ReserveInit(1, ID, key, at, true, true);
    var e3, e4 := CallRail(ID, Reservation(key, at)), FinishInit(2, ID, Reservation(key, at), SetupStarted(ref), true);
    RunOne(w0, e1);
    RunThree(w0, [e1], e2, e3, e4);
    RunThree(w0, [e1] + [e2, e3, e4], ReserveConfirm(3, ID, evidence, token, now, true, true),
      CallBank(ID, token, evidence), FinishConfirm(4, ID, token, Match, true));
  }
}
