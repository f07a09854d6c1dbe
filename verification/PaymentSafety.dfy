/** What every run keeps: settled accounts, the financial profile, and the one account under review. */
module PaymentSafety {
  import opened Options
  import opened PaymentAccounts
  import opened PaymentEvidence
  import opened PaymentWorld

  /** Ids are not empty and never look like a masked reference; references always do. */
  ghost predicate WellFormed(db: Db) {
    forall id :: id in db.accounts ==>
      && id != "" && !IsMask(id)
      && (db.accounts[id].reference.Some? ==> IsMask(db.accounts[id].reference.value))
  }

  /** No account has disappeared, and settled accounts are as they were. */
  ghost predicate Later(before: Db, now: Db) {
    forall id :: id in before.accounts ==>
      id in now.accounts && (Settled(before.accounts[id]) ==> now.accounts[id] == before.accounts[id])
  }

  /** A ready profile points to an effectively verified account, carries its terms, and has a verified tax profile. */
  ghost predicate ProfileOk(db: Db) {
    db.profile.Some? && db.profile.value.ready ==>
      var p := db.profile.value;
      && p.reference.Some? && p.reference.value in VerifiedIds(db)
      && p.currency == db.accounts[p.reference.value].currency
      && p.schedule == db.accounts[p.reference.value].schedule
      && p.tax == TaxVerified
  }

  /** What the transaction sees as verified is so in the state it writes to. */
  ghost predicate VerifiedWithin(view: Db, db: Db) {
    forall id :: id in VerifiedIds(view) ==> id in db.accounts && db.accounts[id] == view.accounts[id]
  }

  // ----- Single transactions

  lemma LaterTransitive(a: Db, b: Db, c: Db)
    requires Later(a, b) && Later(b, c)
    ensures Later(a, c)
  {
  }

  /** A locked row that is still pending was not settled. */
  lemma LockedPending(snap: Db, cur: Db, id: AccountId)
    requires Locked(snap, cur, id).Ok?
    ensures id in cur.accounts && snap.accounts[id] == cur.accounts[id]
    ensures var row := Locked(snap, cur, id).value;
            && row.reference == cur.accounts[id].reference && row.challenge == cur.accounts[id].challenge
            && (row.status == Pending <==> Effective(cur.accounts[id]) == Pending)
            && (Settled(cur.accounts[id]) ==> row == cur.accounts[id] && row.status != Pending)
  {
  }

  lemma PutLater(cur: Db, id: AccountId, row: Account)
    requires id in cur.accounts
    requires Settled(cur.accounts[id]) ==> row == cur.accounts[id]
    ensures Later(cur, Put(cur, id, row))
  {
  }

  lemma PutVerifiedWithin(snap: Db, cur: Db, id: AccountId, row: Account)
    requires Later(snap, cur) && id in cur.accounts
    ensures VerifiedWithin(Put(snap, id, row), Put(cur, id, row))
  {
  }

  lemma LaterVerifiedWithin(snap: Db, cur: Db)
    requires Later(snap, cur)
    ensures VerifiedWithin(snap, cur)
  {
  }

  lemma SyncEffect(view: Db, cur: Db, id: AccountId, selectPrimary: bool)
    requires id in VerifiedIds(view) && VerifiedWithin(view, cur)
    ensures Sync(view, cur, id, selectPrimary).Ok? ==>
              var db := Sync(view, cur, id, selectPrimary).value;
              db.accounts == cur.accounts && db.tax == cur.tax && ProfileOk(db)
  {
    if !selectPrimary && HasReference(view.profile) {
      var existing := set x | x in VerifiedIds(view) && References(view.profile, x, view.accounts[x]);
      var selected := TheOnly(existing);
      assert selected.Some? ==> selected.value in existing;
    }
  }

  lemma RefreshEffect(view: Db, cur: Db)
    requires VerifiedWithin(view, cur) && ProfileOk(cur)
    ensures RefreshTx(view, cur).Ok? ==>
              var db := RefreshTx(view, cur).value;
              db.accounts == cur.accounts && db.tax == cur.tax && ProfileOk(db)
  {
    var choice := RefreshChoice(view);
    if choice.Some? {
      assert choice.value in VerifiedIds(view);
      SyncEffect(view, cur, choice.value, false);
    }
  }

  lemma FinishReviewEffect(snap: Db, cur: Db, id: AccountId, row: Account)
    requires Later(snap, cur) && id in cur.accounts && ProfileOk(Put(cur, id, row))
    ensures var tx := FinishReview(Put(snap, id, row), Put(cur, id, row), id);
            tx.Ok? ==> tx.value.accounts == cur.accounts[id := row] && tx.value.tax == cur.tax && ProfileOk(tx.value)
  {
    PutVerifiedWithin(snap, cur, id, row);
    if Effective(row) == Verified {
      SyncEffect(Put(snap, id, row), Put(cur, id, row), id, false);
    } else {
      RefreshEffect(Put(snap, id, row), Put(cur, id, row));
    }
  }

  lemma LaterProfileOk(cur: Db, db: Db)
    requires ProfileOk(cur) && Later(cur, db) && db.profile == cur.profile
    ensures ProfileOk(db)
  {
  }

  // ----- The shape of every step

  /** Either the accounts stay, or one locked row is replaced by row, or an account is created. */
  ghost predicate OneRow(cur: Db, db: Db, id: AccountId, row: Account) {
    id in cur.accounts && db.accounts == cur.accounts[id := row]
  }

  /** The row that an event about one account leaves behind. */
  ghost function NewRow(w: World, e: Event): Account
    requires w.history != [] && Enabled(w, e) && HasSnapshot(e) && !e.Create? && !e.Refresh?
    requires Locked(w.history[e.at], Cur(w), e.id).Ok?
  {
    var row := Locked(w.history[e.at], Cur(w), e.id).value;
    match e
    case ReserveInit(at, id, newKey, now, available, allowed) =>
      var tx := ReserveInitiation(w.history[at], Cur(w), id, newKey, now, available, allowed);
      if tx.Ok? && id in tx.value.0.accounts then tx.value.0.accounts[id] else row
    case FinishInit(_, _, r, reply, _) =>
      if row.challenge.status == Initiated then row else InitiatedRow(row, r, ResultOf(reply))
    case ReserveConfirm(at, id, evidence, newToken, now, available, allowed) =>
      var tx := ReserveConfirmation(w.history[at], Cur(w), id, FingerprintText(evidence), newToken, now, available,
          allowed);
      if tx.Ok? && id in tx.value.0.accounts then tx.value.0.accounts[id] else row
    case FinishConfirm(_, _, _, verdict, _) => ConfirmedRow(row, verdict)
    case Review(_, _, approve) =>
      row.(status := if approve then Verified else RequiresAttention, lastReview := Some(ManualVerify))
    case _ => row
  }

  predicate OneAccount(e: Event) {
    HasSnapshot(e) && !e.Create? && !e.Refresh?
  }

  /** Such an event writes the row, and finishes the review when the row is decided. */
  lemma OneAccountForm(w: World, e: Event)
    requires w.history != [] && Enabled(w, e) && OneAccount(e) && !e.SelectPrimary? && Transact(w, e).Ok?
    ensures Locked(w.history[e.at], Cur(w), e.id).Ok?
    ensures Effective(Cur(w).accounts[e.id]) == Pending
    ensures NewRow(w, e).reference == Cur(w).accounts[e.id].reference
    ensures var snap, cur, id, row := w.history[e.at], Cur(w), e.id, NewRow(w, e);
            || Transact(w, e) == Ok(Put(cur, id, row))
            || Transact(w, e) == FinishReview(Put(snap, id, row), Put(cur, id, row), id)
  {
    hide FinishReview;
    LockedPending(w.history[e.at], Cur(w), e.id);
  }

  /** Only an account that was effectively pending is changed by an event about one account. */
  lemma OneAccountEffect(w: World, e: Event)
    requires w.history != [] && Enabled(w, e) && OneAccount(e) && Transact(w, e).Ok?
    requires Later(w.history[e.at], Cur(w)) && ProfileOk(Cur(w))
    ensures Locked(w.history[e.at], Cur(w), e.id).Ok?
    ensures OneRow(Cur(w), Transact(w, e).value, e.id, NewRow(w, e))
    ensures Settled(Cur(w).accounts[e.id]) ==> NewRow(w, e) == Cur(w).accounts[e.id]
    ensures !e.SelectPrimary? ==> Effective(Cur(w).accounts[e.id]) == Pending
    ensures NewRow(w, e).reference == Cur(w).accounts[e.id].reference
    ensures Later(Cur(w), Transact(w, e).value) && ProfileOk(Transact(w, e).value)
  {
    var snap, cur, id := w.history[e.at], Cur(w), e.id;
    if e.SelectPrimary? {
      LockedPending(snap, cur, id);
      assert cur.accounts[id := NewRow(w, e)] == cur.accounts;
      LaterVerifiedWithin(snap, cur);
      SyncEffect(snap, cur, id, true);
    } else {
      OneAccountForm(w, e);
      hide Transact, FinishReview, NewRow;
      var row := NewRow(w, e);
      PutLater(cur, id, row);
      LaterProfileOk(cur, Put(cur, id, row));
      FinishReviewEffect(snap, cur, id, row);
    }
  }

  /** What a successful creation does to the accounts. */
  lemma CreateShape(w: World, e: Event)
    requires w.history != [] && Enabled(w, e) && e.Create? && Transact(w, e).Ok?
    ensures var snap, cur, db := w.history[e.at], Cur(w), Transact(w, e).value;
            && db.accounts.Keys == cur.accounts.Keys + {e.id} && e.id !in cur.accounts && db.profile == cur.profile
            && db.accounts[e.id] == NewAccount(e.identifier, e.currency, e.schedule)
            && forall a :: a in cur.accounts ==>
                 db.accounts[a] == if Superseding(snap, a) then cur.accounts[a].(status := Superseded)
                   else cur.accounts[a]
    ensures forall a :: a in Cur(w).accounts && Superseding(w.history[e.at], a)
                        ==> Cur(w).accounts[a].status == RequiresAttention
    ensures !exists a :: a in w.history[e.at].accounts && Effective(w.history[e.at].accounts[a]) == Pending
  {
    var snap, cur := w.history[e.at], Cur(w);
    forall a | a in cur.accounts && Superseding(snap, a) ensures cur.accounts[a].status == RequiresAttention {
      assert Unchanged(snap, cur, a);
    }
  }

  lemma CreateEffect(w: World, e: Event)
    requires w.history != [] && Enabled(w, e) && e.Create? && Transact(w, e).Ok? && ProfileOk(Cur(w))
    ensures Later(Cur(w), Transact(w, e).value) && ProfileOk(Transact(w, e).value)
  {
    CreateShape(w, e);
    hide Transact;
    LaterProfileOk(Cur(w), Transact(w, e).value);
  }

  ghost predicate SnapshotsLater(w: World) {
    w.history != [] && forall i :: 0 <= i < |w.history| ==> Later(w.history[i], Cur(w))
  }

  ghost predicate HistoryWellFormed(w: World) {
    forall i :: 0 <= i < |w.history| ==> WellFormed(w.history[i])
  }

  ghost predicate Safe(w: World) {
    SnapshotsLater(w) && HistoryWellFormed(w) && ProfileOk(Cur(w))
  }

  lemma NewAccountMasked(identifier: string, currency: string, schedule: string)
    ensures NewAccount(identifier, currency, schedule).reference.Some?
    ensures IsMask(NewAccount(identifier, currency, schedule).reference.value)
  {
  }

  /** Calls and tax reviews leave the accounts and the profile alone. */
  lemma OutsideEffect(w: World, e: Event)
    requires Safe(w) && Enabled(w, e) && !HasSnapshot(e) && Transact(w, e).Ok?
    ensures var db := Transact(w, e).value; Later(Cur(w), db) && ProfileOk(db) && db.accounts == Cur(w).accounts
  {
    hide IsMask;
    var db := Transact(w, e).value;
    assert db.accounts == Cur(w).accounts && db.profile == Cur(w).profile;
    hide Transact;
    LaterProfileOk(Cur(w), db);
  }

  lemma RefreshTransactEffect(w: World, e: Event)
    requires Safe(w) && Enabled(w, e) && e.Refresh? && Transact(w, e).Ok?
    ensures var db := Transact(w, e).value; Later(Cur(w), db) && ProfileOk(db) && db.accounts == Cur(w).accounts
  {
    LaterVerifiedWithin(w.history[e.at], Cur(w));
    RefreshEffect(w.history[e.at], Cur(w));
  }

  lemma CreateWellFormed(w: World, e: Event)
    requires Safe(w) && Enabled(w, e) && e.Create? && Transact(w, e).Ok?
    ensures WellFormed(Transact(w, e).value)
  {
    CreateShape(w, e);
    NewAccountMasked(e.identifier, e.currency, e.schedule);
    assert WellFormed(Cur(w));
    hide Transact, NewAccount, IsMask, ProfileOk, SnapshotsLater;
  }

  lemma OneRowWellFormed(cur: Db, db: Db, id: AccountId, row: Account)
    requires OneRow(cur, db, id, row) && WellFormed(cur) && row.reference == cur.accounts[id].reference
    ensures WellFormed(db)
  {
    hide IsMask;
  }

  lemma TransactEffect(w: World, e: Event)
    requires Safe(w) && Enabled(w, e) && Transact(w, e).Ok?
    ensures var db := Transact(w, e).value;
            Later(Cur(w), db) && ProfileOk(db) && WellFormed(db)
  {
    assert WellFormed(Cur(w));
    hide Transact, NewRow, IsMask, ProfileOk, Later, Enabled, OneRow, Settled, Effective;
    if !HasSnapshot(e) {
      OutsideEffect(w, e);
    } else if e.Create? {
      CreateEffect(w, e);
      CreateWellFormed(w, e);
    } else if e.Refresh? {
      RefreshTransactEffect(w, e);
    } else {
      OneAccountEffect(w, e);
      OneRowWellFormed(Cur(w), Transact(w, e).value, e.id, NewRow(w, e));
    }
  }

  lemma StepHistory(w: World, e: Event)
    requires w.history != []
    ensures Step(w, e).history ==
            if Enabled(w, e) && !e.CallRail? && !e.CallBank? && Transact(w, e).Ok?
            then w.history + [Transact(w, e).value] else w.history
  {
  }

  lemma StepSafe(w: World, e: Event)
    requires Safe(w)
    ensures Safe(Step(w, e))
  {
    hide Step, ProfileOk, WellFormed;
    var w' := Step(w, e);
    StepHistory(w, e);
    if w'.history != w.history {
      TransactEffect(w, e);
      forall i | 0 <= i < |w'.history| ensures Later(w'.history[i], Cur(w')) {
        if i < |w.history| {
          LaterTransitive(w.history[i], Cur(w), Cur(w'));
        }
      }
    }
  }

  lemma StepLater(w: World, e: Event)
    requires Safe(w)
    ensures Later(Cur(w), Cur(Step(w, e)))
  {
    hide Step, ProfileOk, WellFormed;
    StepSafe(w, e);
    StepHistory(w, e);
    var w' := Step(w, e);
    assert w'.history[|w.history| - 1] == Cur(w);
  }

  // ----- Main results

  lemma {:induction false} RunSafe(db: Db, events: seq<Event>)
    requires WellFormed(db) && ProfileOk(db)
    ensures Safe(Run(Start(db), events))
    decreases |events|
  {
    if events != [] {
      RunSafe(db, events[..|events| - 1]);
      StepSafe(Run(Start(db), events[..|events| - 1]), events[|events| - 1]);
    }
  }

  lemma {:induction false} RunLater(db: Db, events: seq<Event>, more: seq<Event>)
    requires WellFormed(db) && ProfileOk(db)
    ensures Later(Cur(Run(Start(db), events)), Cur(Run(Start(db), events + more)))
    decreases |more|
  {
    hide Step, Settled, WellFormed, ProfileOk;
    if more == [] {
      assert events + more == events;
    } else {
      hide Run, Later, Safe;
      var init, last := more[..|more| - 1], more[|more| - 1];
      RunLater(db, events, init);
      assert events + more == events + init + [last];
      RunAppend(Start(db), events + init, last);
      RunSafe(db, events + init);
      StepLater(Run(Start(db), events + init), last);
      LaterTransitive(Cur(Run(Start(db), events)), Cur(Run(Start(db), events + init)),
        Cur(Run(Start(db), events + more)));
    }
  }

  /** In every run, effectively verified and superseded accounts never change again. */
  lemma SettledForever(db: Db, events: seq<Event>, more: seq<Event>, id: AccountId)
    requires WellFormed(db) && ProfileOk(db)
    requires var w := Run(Start(db), events); id in Cur(w).accounts && Settled(Cur(w).accounts[id])
    ensures var w, w' := Run(Start(db), events), Run(Start(db), events + more);
            id in Cur(w').accounts && Cur(w').accounts[id] == Cur(w).accounts[id]
  {
    hide Run, Settled, ProfileOk;
    RunLater(db, events, more);
  }

  /** In every run, a ready profile points to an effectively verified account of the provider and carries its terms. */
  lemma ReadyMeansVerified(db: Db, events: seq<Event>)
    requires WellFormed(db) && ProfileOk(db)
    ensures ProfileOk(Cur(Run(Start(db), events)))
  {
    RunSafe(db, events);
  }

  /** The profile refers to the account id. */
  ghost predicate PointsTo(db: Db, id: AccountId) {
    id in db.accounts && db.profile.Some? && db.profile.value.reference == Some(id)
  }

  lemma SyncKeepsReference(view: Db, cur: Db, id: AccountId, to: AccountId)
    requires id in view.accounts && WellFormed(view) && to != "" && !IsMask(to)
    requires PointsTo(cur, to) && Sync(view, cur, id, false).Ok?
    ensures PointsTo(Sync(view, cur, id, false).value, to)
  {
    var existing := set x | x in VerifiedIds(view) && References(view.profile, x, view.accounts[x]);
    assert forall x :: x in existing ==> x == to;
  }

  lemma RefreshKeepsReference(view: Db, cur: Db, to: AccountId)
    requires WellFormed(view) && to != "" && !IsMask(to)
    requires PointsTo(cur, to) && RefreshTx(view, cur).Ok?
    ensures PointsTo(RefreshTx(view, cur).value, to)
  {
    var choice := RefreshChoice(view);
    if choice.Some? && choice.value in view.accounts {
      SyncKeepsReference(view, cur, choice.value, to);
    }
  }

  lemma ReviewKeepsReference(snap: Db, cur: Db, id: AccountId, row: Account, to: AccountId)
    requires WellFormed(snap) && id in snap.accounts && row.reference == snap.accounts[id].reference
    requires to != "" && !IsMask(to) && PointsTo(cur, to)
    requires FinishReview(Put(snap, id, row), Put(cur, id, row), id).Ok?
    ensures PointsTo(FinishReview(Put(snap, id, row), Put(cur, id, row), id).value, to)
  {
    var view, cur' := Put(snap, id, row), Put(cur, id, row);
    assert WellFormed(view) && PointsTo(cur', to);
    if Effective(row) == Verified {
      SyncKeepsReference(view, cur', id, to);
    } else {
      RefreshKeepsReference(view, cur', to);
    }
  }

  /** Once the profile refers to an account id, only a selection by the provider changes it. */
  lemma OnlySelectionChangesReference(w: World, e: Event, id: AccountId)
    requires Safe(w) && PointsTo(Cur(w), id) && !e.SelectPrimary?
    ensures PointsTo(Cur(Step(w, e)), id)
  {
    hide FinishReview, RefreshTx, NewRow, IsMask, Step;
    StepHistory(w, e);
    if Enabled(w, e) && HasSnapshot(e) && Transact(w, e).Ok? {
      var snap, cur := w.history[e.at], Cur(w);
      assert WellFormed(snap) && WellFormed(cur);
      if e.Refresh? {
        RefreshKeepsReference(snap, cur, id);
      } else if OneAccount(e) {
        OneAccountForm(w, e);
        hide Transact;
        LockedPending(snap, cur, e.id);
        var row := NewRow(w, e);
        if FinishReview(Put(snap, e.id, row), Put(cur, e.id, row), e.id).Ok? {
          ReviewKeepsReference(snap, cur, e.id, row, id);
        }
      }
    }
  }

  lemma {:induction false} ReferenceKeptBetweenSelections(db: Db, events: seq<Event>, more: seq<Event>, id: AccountId)
    requires WellFormed(db) && ProfileOk(db)
    requires PointsTo(Cur(Run(Start(db), events)), id)
    requires forall e :: e in more ==> !e.SelectPrimary?
    ensures PointsTo(Cur(Run(Start(db), events + more)), id)
    decreases |more|
  {
    if more == [] {
      assert events + more == events;
    } else {
      var init, last := more[..|more| - 1], more[|more| - 1];
      assert more == init + [last];
      ReferenceKeptBetweenSelections(db, events, init, id);
      assert (events + more)[..|events + more| - 1] == events + init;
      RunSafe(db, events + init);
      OnlySelectionChangesReference(Run(Start(db), events + init), last, id);
    }
  }

  // ----- At most one account under review

  ghost predicate AtMostOneActive(db: Db) {
    forall a, b :: a in db.accounts && b in db.accounts && Active(db.accounts[a]) && Active(db.accounts[b]) ==> a == b
  }

  /** Every account that is active now was waiting for a correction when the snapshot was taken. */
  ghost predicate SeesActive(snap: Db, cur: Db) {
    forall a :: a in cur.accounts && Active(cur.accounts[a]) ==> Superseding(snap, a)
  }

  lemma ReplacingKeepsOneActive(cur: Db, db: Db, id: AccountId, row: Account)
    requires AtMostOneActive(cur) && OneRow(cur, db, id, row)
    requires Active(cur.accounts[id]) || row == cur.accounts[id]
    ensures AtMostOneActive(db)
  {
  }

  /** Only a creation can add an active account. */
  lemma OtherStepsKeepOneActive(w: World, e: Event)
    requires Safe(w) && !e.Create? && AtMostOneActive(Cur(w))
    ensures AtMostOneActive(Cur(Step(w, e)))
  {
    hide Step;
    StepHistory(w, e);
    if Enabled(w, e) && HasSnapshot(e) && Transact(w, e).Ok? {
      if e.Refresh? {
        LaterVerifiedWithin(w.history[e.at], Cur(w));
        RefreshEffect(w.history[e.at], Cur(w));
      } else {
        OneAccountEffect(w, e);
        LockedPending(w.history[e.at], Cur(w), e.id);
        hide Transact, NewRow;
        ReplacingKeepsOneActive(Cur(w), Transact(w, e).value, e.id, NewRow(w, e));
      }
    }
  }

  /**
   A creation leaves at most one active account exactly when its snapshot shows every account that
   is active at its commit.
   */
  lemma CreateKeepsOneActive(w: World, e: Event)
    requires Safe(w) && e.Create? && Enabled(w, e) && Transact(w, e).Ok?
    ensures AtMostOneActive(Transact(w, e).value) <==> SeesActive(w.history[e.at], Cur(w))
  {
    CreateShape(w, e);
    hide Transact;
    var snap, cur, db := w.history[e.at], Cur(w), Transact(w, e).value;
    assert Active(db.accounts[e.id]);
    if a :| a in cur.accounts && Active(cur.accounts[a]) && !Superseding(snap, a) {
      assert Active(db.accounts[a]) && a != e.id;
    }
  }

  ghost predicate Correcting(snap: Db) {
    exists a :: Superseding(snap, a)
  }

  /**
   From a state with at most one active account, a creation is safe whenever its snapshot shows an
   account waiting for a correction, and otherwise exactly when no account is active at its commit.
   */
  lemma CreateIsSafe(w: World, e: Event)
    requires Safe(w) && e.Create? && Enabled(w, e) && Transact(w, e).Ok? && AtMostOneActive(Cur(w))
    ensures AtMostOneActive(Transact(w, e).value) <==>
              Correcting(w.history[e.at])
              || forall a :: a in Cur(w).accounts ==> !Active(Cur(w).accounts[a])
  {
    CreateKeepsOneActive(w, e);
    var snap, cur := w.history[e.at], Cur(w);
    if a :| Superseding(snap, a) {
      CreateShape(w, e);
      hide Transact;
      SupersededIsThere(snap, cur, a, e);
      assert Active(cur.accounts[a]);
    }
    hide Transact;
  }

  lemma SupersededIsThere(snap: Db, cur: Db, a: AccountId, e: Event)
    requires e.Create? && Superseding(snap, a) && CreateTx(snap, cur, e.id, e.identifier, e.currency, e.schedule).Ok?
    ensures a in cur.accounts && cur.accounts[a].status == RequiresAttention
  {
    assert Unchanged(snap, cur, a);
  }

  /** A snapshot on which nothing was committed before the commit shows all of them. */
  lemma SerialCreateSeesActive(w: World, e: Event)
    requires Safe(w) && e.Create? && Enabled(w, e) && Transact(w, e).Ok?
    requires w.history[e.at] == Cur(w)
    ensures SeesActive(w.history[e.at], Cur(w))
  {
    CreateShape(w, e);
  }

  ghost predicate CreationsSeeActive(db: Db, events: seq<Event>)
    decreases |events|
  {
    events == [] ||
    var w, e := Run(Start(db), events[..|events| - 1]), events[|events| - 1];
    && CreationsSeeActive(db, events[..|events| - 1])
    && (e.Create? && Enabled(w, e) && Transact(w, e).Ok? ==> SeesActive(w.history[e.at], Cur(w)))
  }

  /** Runs whose creations see the active accounts never have two of them. */
  lemma {:induction false} OneActiveAccount(db: Db, events: seq<Event>)
    requires WellFormed(db) && ProfileOk(db) && AtMostOneActive(db) && CreationsSeeActive(db, events)
    ensures AtMostOneActive(Cur(Run(Start(db), events)))
    decreases |events|
  {
    if events != [] {
      var init, e := events[..|events| - 1], events[|events| - 1];
      var w := Run(Start(db), init);
      OneActiveAccount(db, init);
      RunSafe(db, init);
      StepHistory(w, e);
      if e.Create? {
        if Enabled(w, e) && Transact(w, e).Ok? {
          CreateKeepsOneActive(w, e);
        }
      } else {
        OtherStepsKeepOneActive(w, e);
      }
    }
  }
}
