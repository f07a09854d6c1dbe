/**
 Bank accounts of one provider and the transactions of src/lib/provider-payment-accounts.ts.

 withPostgresTransaction runs at isolation level "repeatable read"
 (src/shared/infrastructure/db/client.ts:80). A transaction therefore reads from a snapshot, and
 a row that it locks or writes must not have changed since that snapshot: otherwise the database
 aborts it with code 40001. Every transaction below takes the snapshot it reads and the current
 state it writes. All of them hold the provider row lock while they write.
 */
module PaymentAccounts {
  import opened Options

  type AccountId = string
  type Uuid = string
  /** Milliseconds. */
  type Time = int

  const MAX_ATTEMPTS: nat := 3
  const CONFIRMATION_WINDOW: Time := 60_000
  const CHALLENGE_LIFETIME: Time := 7 * 86_400_000

  datatype Status = NotConfigured | Pending | Verified | RequiresAttention | Superseded

  datatype RailProvider = StripeConnect | Simulated | OtherProvider

  datatype Rail = Rail(live: bool, provider: RailProvider, externalRef: string)

  datatype ReviewPath = ManualVerify | MicroDepositPath

  datatype ChallengeStatus = NoChallenge | Initiating | Initiated | Confirmed | Failed

  datatype VerifyVia = ViaStripe | ViaHash

  datatype Challenge = Challenge(
    status: ChallengeStatus,
    requestKey: Option<Uuid>,
    initiatedAt: Option<Time>,
    expiresAt: Option<Time>,
    attempts: nat,
    via: Option<VerifyVia>,
    confirmingAt: Option<Time>,
    token: Option<Uuid>,
    fingerprint: Option<string>)

  const NO_CHALLENGE := Challenge(NoChallenge, None, None, None, 0, None, None, None, None)

  datatype Account = Account(
    status: Status,
    reference: Option<string>,
    currency: string,
    schedule: string,
    rail: Option<Rail>,
    lastReview: Option<ReviewPath>,
    challenge: Challenge)

  datatype TaxProfile = TaxMissing | TaxPendingReview | TaxVerified

  datatype Profile = Profile(reference: Option<string>, schedule: string, currency: string, tax: TaxProfile,
                             ready: bool)

  datatype Db = Db(accounts: map<AccountId, Account>, profile: Option<Profile>, tax: TaxProfile)

  datatype Error =
    | NotFound | NotPending | SerializationFailure | PendingInProgress | UniqueViolation | IdentifierRequired
    | ReviewNotAllowed | BankVerificationUnavailable | MicroDepositReviewRequired | MicroDepositNotInitiated
    | MicroDepositExpired | ConfirmationInProgress | ConfirmationUncertain | MicroDepositFailed
    | VerifiedAccountRequired

  // ----- What a row means

  datatype VerificationMethod = Manual | Bank | Unverified

  function MethodOf(a: Account): VerificationMethod {
    if a.lastReview == Some(ManualVerify) then Manual
    else if a.rail.Some? && a.rail.value.live && a.rail.value.provider == StripeConnect then Bank
    else Unverified
  }

  /** A row verified by the retired simulated or hash check counts as pending. */
  function Effective(a: Account): Status {
    if a.status == Verified && MethodOf(a) == Unverified
       && ((a.rail.Some? && a.rail.value.provider == Simulated) || a.challenge.via == Some(ViaHash))
    then Pending else a.status
  }

  predicate Active(a: Account) {
    Effective(a) == Pending || Effective(a) == RequiresAttention
  }

  /** Rows no transaction may change again. */
  predicate Settled(a: Account) {
    Effective(a) == Verified || a.status == Superseded
  }

  /** The first four characters of every masked reference. */
  const MASK := "••••"

  function MaskedReference(identifier: string): string {
    MASK + if identifier == "" then "????"
           else if |identifier| <= 4 then identifier else identifier[|identifier| - 4..]
  }

  predicate IsMask(s: string) {
    MASK <= s
  }

  // ----- Row locks

  /** The unique index on the raw status: at most one pending row per provider. */
  predicate PendingElsewhere(accounts: map<AccountId, Account>, id: AccountId) {
    exists other :: other in accounts && other != id && accounts[other].status == Pending
  }

  predicate Unchanged(snap: Db, cur: Db, id: AccountId) {
    id in snap.accounts && id in cur.accounts && snap.accounts[id] == cur.accounts[id]
  }

  /** lockedAccount: the row as the transaction goes on with it. */
  function Locked(snap: Db, cur: Db, id: AccountId): Result<Account, Error> {
    if id !in snap.accounts then Err(NotFound)
    else if !Unchanged(snap, cur, id) then Err(SerializationFailure)
    else
      var row := snap.accounts[id];
      if row.status == Verified && Effective(row) == Pending then
        if PendingElsewhere(cur.accounts, id) then Err(UniqueViolation)
        else Ok(row.(status := Pending))
      else Ok(row)
  }

  function Put(db: Db, id: AccountId, row: Account): Db {
    db.(accounts := db.accounts[id := row])
  }

  // ----- The financial profile

  predicate References(p: Option<Profile>, id: AccountId, a: Account) {
    p.Some? && (p.value.reference == Some(id) || a.reference == p.value.reference)
  }

  predicate HasReference(p: Option<Profile>) {
    p.Some? && p.value.reference.Some? && p.value.reference.value != ""
  }

  ghost function VerifiedIds(db: Db): set<AccountId> {
    set id | id in db.accounts && Effective(db.accounts[id]) == Verified
  }

  ghost function TheOnly<T(!new)>(s: set<T>): (x: Option<T>)
    ensures x.Some? ==> s == {x.value}
    ensures (exists y :: s == {y}) ==> x.Some?
  {
    if y :| s == {y} then Some(y) else None
  }

  /** The account the profile should point to after account id was verified or chosen. */
  ghost function Selected(view: Db, id: AccountId, selectPrimary: bool): Option<AccountId> {
    if selectPrimary || !HasReference(view.profile) then Some(id)
    else TheOnly(set x | x in VerifiedIds(view) && References(view.profile, x, view.accounts[x]))
  }

  /** The profile row that syncProviderFinancialProfile writes. */
  ghost function SyncedProfile(view: Db, id: AccountId, selectPrimary: bool): Profile
    requires id in view.accounts
  {
    var selected := Selected(view, id, selectPrimary);
    var p := view.profile;
    var chosen := if selected.Some? && selected.value in view.accounts then Some(view.accounts[selected.value])
        else None;
    Profile(
      if selected.Some? then selected else if p.Some? then p.value.reference else None,
      if chosen.Some? then chosen.value.schedule else "manual",
      if chosen.Some? then chosen.value.currency else if p.Some? then p.value.currency else view.accounts[id].currency,
      view.tax,
      selected.Some? && view.tax == TaxVerified)
  }

  /** view is what the transaction sees, its own writes included; cur is the state it writes into. */
  ghost function Sync(view: Db, cur: Db, id: AccountId, selectPrimary: bool): Result<Db, Error>
    requires id in view.accounts
  {
    if view.profile != cur.profile then Err(SerializationFailure)
    else Ok(cur.(profile := Some(SyncedProfile(view, id, selectPrimary))))
  }

  /** The account refreshProviderBankingReadiness goes on with. Primary accounts are matched on the raw status. */
  ghost function RefreshChoice(view: Db): Option<AccountId> {
    var verified := VerifiedIds(view);
    var matches := set id | id in view.accounts && view.accounts[id].status == Verified
                            && References(view.profile, id, view.accounts[id]);
    var primary := TheOnly(matches);
    if primary.Some? && primary.value in verified then primary else TheOnly(verified)
  }

  ghost function RefreshTx(view: Db, cur: Db): Result<Db, Error> {
    var choice := RefreshChoice(view);
    if choice.Some? && choice.value in view.accounts then Sync(view, cur, choice.value, false)
    else if view.profile.None? then Ok(cur)
    else if view.profile != cur.profile then Err(SerializationFailure)
    else Ok(cur.(profile := Some(cur.profile.value.(ready := false))))
  }

  ghost function FinishReview(view: Db, cur: Db, id: AccountId): Result<Db, Error>
    requires id in view.accounts
  {
    if Effective(view.accounts[id]) == Verified then Sync(view, cur, id, false) else RefreshTx(view, cur)
  }

  // ----- Transactions

  predicate Superseding(snap: Db, id: AccountId) {
    id in snap.accounts && snap.accounts[id].status == RequiresAttention
  }

  /** The accounts once those that the snapshot shows as waiting for a correction are superseded. */
  function Supersede(snap: Db, accounts: map<AccountId, Account>): map<AccountId, Account> {
    map a | a in accounts ::
      if Superseding(snap, a) then accounts[a].(status := Superseded) else accounts[a]
  }

  /** createProviderPaymentAccount */
  ghost function CreateTx(snap: Db, cur: Db, id: AccountId, identifier: string, currency: string, schedule: string)
    : Result<Db, Error>
  {
    if |identifier| < 4 then Err(IdentifierRequired)
    else if exists a :: a in snap.accounts && Effective(snap.accounts[a]) == Pending then Err(PendingInProgress)
    else if exists a :: Superseding(snap, a) && !Unchanged(snap, cur, a) then Err(SerializationFailure)
    else
      var superseded := Supersede(snap, cur.accounts);
      if PendingElsewhere(superseded, id) || id in superseded then Err(PendingInProgress)
      else
        Ok(cur.(accounts := superseded[id := NewAccount(identifier, currency, schedule)]))
  }

  function NewAccount(identifier: string, currency: string, schedule: string): Account {
    Account(Pending, Some(MaskedReference(identifier)), currency, schedule, None, None, NO_CHALLENGE)
  }

  datatype Reservation = Reservation(key: Uuid, initiatedAt: Time)

  /** First transaction of initiatePaymentAccountMicroDeposit. */
  function ReserveInitiation(snap: Db, cur: Db, id: AccountId, newKey: Uuid, now: Time, available: bool, allowed: bool)
    : Result<(Db, Reservation), Error>
  {
    match Locked(snap, cur, id)
    case Err(e) => Err(e)
    case Ok(row) =>
      if !allowed then Err(ReviewNotAllowed)
      else if row.status != Pending then Err(NotPending)
      else if !available then Err(BankVerificationUnavailable)
      else if row.challenge.status == Initiated || row.challenge.status == Failed then Err(MicroDepositReviewRequired)
      else
        var c := row.challenge;
        var key := if c.requestKey.Some? && c.status == Initiating then c.requestKey.value else newKey;
        var at := c.initiatedAt.GetOr(now);
        var c' := c.(status := Initiating, requestKey := Some(key), initiatedAt := Some(at));
        Ok((Put(cur, id, row.(challenge := c')), Reservation(key, at)))
  }

  datatype RailMode = LiveMode | SimulatedMode | ScaffoldMode

  datatype DepositMethod = MicroDeposits | FinancialConnections | NoMethod

  /** What initiatePayoutRailMicroDeposit returns; a missing reference is empty. */
  datatype RailResult = RailResult(
    ok: bool, provider: RailProvider, mode: RailMode, externalRef: string, depositMethod: DepositMethod,
      alreadyVerified: bool)

  /** How the configured rail may have answered. */
  datatype RailReply =
    | SimulatedDeposit(ref: string)
    | StripeRefused(ref: string)
    | SessionOpened(ref: string)
    | SetupSucceeded(ref: string)
    | SetupStarted(ref: string)

  /** The results of src/lib/payout-rail: the simulator never claims to be live, and only Stripe verifies at once. */
  function ResultOf(reply: RailReply): RailResult {
    match reply
    case SimulatedDeposit(ref) => RailResult(true, Simulated, SimulatedMode, ref, NoMethod, false)
    case StripeRefused(ref) => RailResult(false, StripeConnect, ScaffoldMode, ref, NoMethod, false)
    case SessionOpened(ref) => RailResult(true, StripeConnect, LiveMode, ref, FinancialConnections, false)
    case SetupSucceeded(ref) => RailResult(true, StripeConnect, LiveMode, ref, MicroDeposits, true)
    case SetupStarted(ref) => RailResult(true, StripeConnect, LiveMode, ref, MicroDeposits, false)
  }

  /** The check between the call to the rail and the second transaction. */
  predicate Accepted(result: RailResult) {
    result.ok && result.mode == LiveMode && result.externalRef != "" && result.depositMethod != FinancialConnections
  }

  function InitiatedRow(row: Account, r: Reservation, result: RailResult): Account {
    row.(status := if result.alreadyVerified then Verified else Pending,
         rail := Some(Rail(true, result.provider, result.externalRef)),
         lastReview := if result.alreadyVerified then Some(MicroDepositPath) else row.lastReview,
         challenge := row.challenge.(
           status := if result.alreadyVerified then Confirmed else Initiated,
           via := Some(ViaStripe),
           expiresAt := Some(r.initiatedAt + CHALLENGE_LIFETIME)))
  }

  /** The rest of initiatePaymentAccountMicroDeposit after the call to the rail. */
  ghost function FinishInitiation(snap: Db, cur: Db, id: AccountId, r: Reservation, result: RailResult, allowed: bool)
    : Result<Db, Error>
  {
    if !Accepted(result) then Err(BankVerificationUnavailable)
    else
      match Locked(snap, cur, id)
      case Err(e) => Err(e)
      case Ok(row) =>
        if row.status != Pending || row.challenge.requestKey != Some(r.key) then Err(NotPending)
        else if !allowed then Err(ReviewNotAllowed)
        else if row.challenge.status == Initiated then Ok(Put(cur, id, row))
        else
          var row' := InitiatedRow(row, r, result);
          if Effective(row') == Verified then FinishReview(Put(snap, id, row'), Put(cur, id, row'), id)
          else Ok(Put(cur, id, row'))
  }

  datatype Attempt = Attempt(token: Uuid, externalRef: string)

  predicate Confirmable(row: Account) {
    && row.rail.Some? && row.rail.value.live && row.rail.value.provider == StripeConnect
    && row.challenge.via == Some(ViaStripe)
  }

  /** First transaction of confirmPaymentAccountMicroDeposit. */
  function ReserveConfirmation(snap: Db, cur: Db, id: AccountId, fingerprint: string, newKey: Uuid, now: Time,
                               available: bool, allowed: bool)
    : Result<(Db, Attempt), Error>
  {
    match Locked(snap, cur, id)
    case Err(e) => Err(e)
    case Ok(row) =>
      var c := row.challenge;
      if !allowed then Err(ReviewNotAllowed)
      else if !available then Err(BankVerificationUnavailable)
      else if row.status != Pending then Err(NotPending)
      else if !Confirmable(row) then Err(BankVerificationUnavailable)
      else if c.status != Initiated then Err(MicroDepositNotInitiated)
      else if c.expiresAt.None? || c.expiresAt.value <= now then Err(MicroDepositExpired)
      else if c.confirmingAt.Some? && now - c.confirmingAt.value < CONFIRMATION_WINDOW then Err(ConfirmationInProgress)
      else if c.confirmingAt.Some? && c.fingerprint != Some(fingerprint) then Err(ConfirmationUncertain)
      else if c.attempts >= MAX_ATTEMPTS then Err(MicroDepositFailed)
      else
        var token := if c.confirmingAt.Some? && c.token.Some? then c.token.value else newKey;
        var c' := c.(confirmingAt := Some(now), token := Some(token), fingerprint := Some(fingerprint));
        Ok((Put(cur, id, row.(challenge := c')), Attempt(token, row.rail.value.externalRef)))
  }

  /** What the bank said about a confirmation; failing to reach it is no verdict. */
  datatype Verdict = Match | Mismatch | NoVerdict

  function ConfirmedRow(row: Account, verdict: Verdict): Account {
    var c := row.challenge;
    var attempts := c.attempts + if verdict == NoVerdict then 0 else 1;
    var failed := verdict == Mismatch && attempts >= MAX_ATTEMPTS;
    row.(status := if verdict == Match then Verified else if failed then RequiresAttention else Pending,
         lastReview := if verdict == Match || failed then Some(MicroDepositPath) else row.lastReview,
         challenge := c.(
           status := if verdict == Match then Confirmed else if failed then Failed else Initiated,
           attempts := attempts,
           confirmingAt := if verdict == NoVerdict then c.confirmingAt else None,
           token := if verdict == NoVerdict then c.token else None))
  }

  /** Second transaction of confirmPaymentAccountMicroDeposit. */
  ghost function FinishConfirmation(snap: Db, cur: Db, id: AccountId, token: Uuid, verdict: Verdict, allowed: bool)
    : Result<Db, Error>
  {
    match Locked(snap, cur, id)
    case Err(e) => Err(e)
    case Ok(row) =>
      if row.status != Pending || row.challenge.token != Some(token) then Err(NotPending)
      else if !allowed then Err(ReviewNotAllowed)
      else
        var row' := ConfirmedRow(row, verdict);
        if row'.status != Pending then FinishReview(Put(snap, id, row'), Put(cur, id, row'), id)
        else Ok(Put(cur, id, row'))
  }

  /** reviewProviderPaymentAccount, with its status and reason already checked. */
  ghost function ReviewTx(snap: Db, cur: Db, id: AccountId, approve: bool): Result<Db, Error> {
    match Locked(snap, cur, id)
    case Err(e) => Err(e)
    case Ok(row) =>
      if row.status != Pending then Err(NotPending)
      else
        var row' := row.(status := if approve then Verified else RequiresAttention, lastReview := Some(ManualVerify));
        FinishReview(Put(snap, id, row'), Put(cur, id, row'), id)
  }

  /** selectPrimaryProviderPaymentAccount */
  ghost function SelectPrimaryTx(snap: Db, cur: Db, id: AccountId): Result<Db, Error> {
    match Locked(snap, cur, id)
    case Err(e) => Err(e)
    case Ok(row) =>
      if row.status != Verified then Err(VerifiedAccountRequired)
      else Sync(snap, cur, id, true)
  }
}
