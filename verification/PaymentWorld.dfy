/**
 All runs of the bank-account commands of one provider: transactions of concurrent commands in any
 order, on any earlier snapshot, with calls to the bank in between. A command that crashes has no
 further events; a repeated request has its own.
 */
module PaymentWorld {
  import opened Options
  import opened PaymentAccounts
  import opened PaymentEvidence

  datatype Reserved = Reserved(id: AccountId, reservation: Reservation)

  datatype Issued = Issued(id: AccountId, token: Uuid, evidence: Evidence)

  datatype RailCall = RailCall(id: AccountId, key: Uuid)

  datatype Recorded = Recorded(token: Uuid, verdict: Verdict)

  /** history holds every committed state; the other fields are logs of what the program did. */
  datatype World = World(
    history: seq<Db>,
    created: set<AccountId>,
    used: set<Uuid>,
    reservations: set<Reserved>,
    railCalls: set<RailCall>,
    initiations: map<AccountId, nat>,
    issued: set<Issued>,
    bankCalls: set<Issued>,
    verdicts: map<AccountId, seq<Recorded>>)

  datatype Event =
    | Create(at: nat, id: AccountId, identifier: string, currency: string, schedule: string)
    | ReserveInit(at: nat, id: AccountId, newKey: Uuid, now: Time, available: bool, allowed: bool)
    | CallRail(id: AccountId, reservation: Reservation)
    | FinishInit(at: nat, id: AccountId, reservation: Reservation, reply: RailReply, allowed: bool)
    | ReserveConfirm(at: nat, id: AccountId, evidence: Evidence, newToken: Uuid, now: Time, available: bool,
      allowed: bool)
    | CallBank(id: AccountId, token: Uuid, evidence: Evidence)
    | FinishConfirm(at: nat, id: AccountId, token: Uuid, verdict: Verdict, allowed: bool)
    | Review(at: nat, id: AccountId, approve: bool)
    | SelectPrimary(at: nat, id: AccountId)
    | Refresh(at: nat)
    | TaxReview(tax: TaxProfile)

  ghost function Start(db: Db): World {
    World([db], {}, {}, {}, {}, map[], {}, {}, map[])
  }

  function Cur(w: World): Db
    requires w.history != []
  {
    w.history[|w.history| - 1]
  }

  function Initiations(w: World, id: AccountId): nat {
    if id in w.initiations then w.initiations[id] else 0
  }

  function Verdicts(w: World, id: AccountId): seq<Recorded> {
    if id in w.verdicts then w.verdicts[id] else []
  }

  predicate FreshId(w: World, id: AccountId)
    requires w.history != []
  {
    id !in w.used && id !in Cur(w).accounts && id != "" && !IsMask(id)
  }

  predicate HasSnapshot(e: Event) {
    !(e.CallRail? || e.CallBank? || e.TaxReview?)
  }

  /**
   What the environment owes the program: snapshots of past states, UUIDs never handed out before,
   and commands that finish only what they reserved.
   */
  ghost predicate Enabled(w: World, e: Event)
    requires w.history != []
  {
    && (HasSnapshot(e) ==> e.at < |w.history|)
    && match e
       case Create(_, id, _, _, _) => FreshId(w, id)
       case CallRail(id, r) => Reserved(id, r) in w.reservations
       case FinishInit(_, id, r, _, _) => Reserved(id, r) in w.reservations
       case ReserveConfirm(_, _, evidence, newToken, _, _, _) => Valid(evidence) && newToken !in w.used
       case CallBank(id, token, evidence) => Issued(id, token, evidence) in w.issued
       case FinishConfirm(_, id, token, _, _) => exists evidence :: Issued(id, token, evidence) in w.issued
       case _ => true
  }

  /** The state after the transaction of e, or the error that leaves everything as it was. */
  ghost function Transact(w: World, e: Event): Result<Db, Error>
    requires w.history != [] && Enabled(w, e)
  {
    var cur := Cur(w);
    match e
    case Create(at, id, identifier, currency, schedule) =>
      CreateTx(w.history[at], cur, id, identifier, currency, schedule)
    case ReserveInit(at, id, newKey, now, available, allowed) =>
      (match ReserveInitiation(w.history[at], cur, id, newKey, now, available, allowed)
       case Ok((db, _)) => Ok(db)
       case Err(error) => Err(error))
    case FinishInit(at, id, r, reply, allowed) =>
      FinishInitiation(w.history[at], cur, id, r, ResultOf(reply), allowed)
    case ReserveConfirm(at, id, evidence, newToken, now, available, allowed) =>
      (match ReserveConfirmation(w.history[at], cur, id, FingerprintText(evidence), newToken, now, available, allowed)
       case Ok((db, _)) => Ok(db)
       case Err(error) => Err(error))
    case FinishConfirm(at, id, token, verdict, allowed) =>
      FinishConfirmation(w.history[at], cur, id, token, verdict, allowed)
    case Review(at, id, approve) => ReviewTx(w.history[at], cur, id, approve)
    case SelectPrimary(at, id) => SelectPrimaryTx(w.history[at], cur, id)
    case Refresh(at) => RefreshTx(w.history[at], cur)
    case TaxReview(tax) => Ok(cur.(tax := tax))
    case _ => Ok(cur)
  }

  ghost function Commit(w: World, db: Db): World {
    w.(history := w.history + [db])
  }

  /** One step of a run. Events that are not enabled, and transactions that fail, change nothing. */
  ghost function Step(w: World, e: Event): (w': World)
    requires w.history != []
    ensures w'.history != []
  {
    if !Enabled(w, e) then w
    else if e.CallRail? then w.(railCalls := w.railCalls + {RailCall(e.id, e.reservation.key)})
    else if e.CallBank? then w.(bankCalls := w.bankCalls + {Issued(e.id, e.token, e.evidence)})
    else
      match Transact(w, e)
      case Err(_) => w
      case Ok(db) =>
        match e
        case Create(_, id, _, _, _) => Commit(w, db).(created := w.created + {id}, used := w.used + {id})
        case ReserveInit(at, id, newKey, now, available, allowed) =>
          var r := ReserveInitiation(w.history[at], Cur(w), id, newKey, now, available, allowed).value.1;
          Commit(w, db).(reservations := w.reservations + {Reserved(id, r)})
        case FinishInit(_, id, _, _, _) =>
          if id in Cur(w).accounts && Cur(w).accounts[id].challenge.status != Initiated
          then Commit(w, db).(initiations := w.initiations[id := Initiations(w, id) + 1])
          else Commit(w, db)
        case ReserveConfirm(at, id, evidence, newToken, now, available, allowed) =>
          var a := ReserveConfirmation(w.history[at], Cur(w), id, FingerprintText(evidence), newToken, now,
                                       available, allowed).value.1;
          Commit(w, db).(used := w.used + {newToken}, issued := w.issued + {Issued(id, a.token, evidence)})
        case FinishConfirm(_, id, token, verdict, _) =>
          if verdict == NoVerdict then Commit(w, db)
          else Commit(w, db).(verdicts := w.verdicts[id := Verdicts(w, id) + [Recorded(token, verdict)]])
        case _ => Commit(w, db)
  }

  ghost function Run(w: World, events: seq<Event>): (w': World)
    requires w.history != []
    ensures w'.history != []
  {
    if events == [] then w
    else Step(Run(w, events[..|events| - 1]), events[|events| - 1])
  }

  lemma RunAppend(w: World, events: seq<Event>, e: Event)
    requires w.history != []
    ensures Run(w, events + [e]) == Step(Run(w, events), e)
  {
    hide Step;
    assert (events + [e])[..|events + [e]| - 1] == events;
  }
}
