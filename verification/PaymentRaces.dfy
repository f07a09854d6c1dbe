/** A run that leaves two accounts of one provider under review. */
module PaymentRaces {
  import opened Options
  import opened PaymentAccounts
  import opened PaymentWorld
  import opened PaymentSafety

  const EMPTY := Db(map[], None, TaxMissing)

  lemma RunThree(w: World, a: Event, b: Event, c: Event)
    requires w.history != []
    ensures Run(w, [a, b, c]) == Step(Step(Step(w, a), b), c)
  {
    hide Step;
    assert [a, b, c] == [a, b] + [c] && [a, b] == [a] + [b] && [a] == [] + [a];
    RunAppend(w, [a, b], c);
    RunAppend(w, [a], b);
    RunAppend(w, [], a);
  }

  /** A creation that sees no account under review, and meets no pending one, succeeds. */
  lemma BlindCreate(w: World, e: Event)
    requires w.history != [] && e.Create? && Enabled(w, e) && |e.identifier| >= 4
    requires forall a :: a in w.history[e.at].accounts ==> !Active(w.history[e.at].accounts[a])
    requires forall a :: a in Cur(w).accounts ==> Cur(w).accounts[a].status != Pending
    ensures Step(w, e).history == w.history + [Put(Cur(w), e.id, NewAccount(e.identifier, e.currency, e.schedule))]
    ensures Step(w, e).used == w.used + {e.id}
  {
    assert forall a :: !Superseding(w.history[e.at], a);
    assert Supersede(w.history[e.at], Cur(w).accounts) == Cur(w).accounts;
  }

  /** An administrator rejects the only account. */
  lemma RejectOnly(w: World, e: Event)
    requires w.history != [] && e.Review? && !e.approve && e.at < |w.history| && w.history[e.at] == Cur(w)
    requires Cur(w).accounts.Keys == {e.id} && Cur(w).accounts[e.id].status == Pending && Cur(w).profile.None?
    ensures Step(w, e).history ==
            w.history + [Put(Cur(w), e.id,
              Cur(w).accounts[e.id].(status := RequiresAttention, lastReview := Some(ManualVerify)))]
    ensures Step(w, e).used == w.used
  {
    var row := Cur(w).accounts[e.id].(status := RequiresAttention, lastReview := Some(ManualVerify));
    var view := Put(Cur(w), e.id, row);
    assert VerifiedIds(view) == {};
    assert RefreshTx(view, view) == Ok(view) by {
      var choice := RefreshChoice(view);
      var matches := set id | id in view.accounts && view.accounts[id].status == Verified
                              && References(view.profile, id, view.accounts[id]);
      assert matches == {};
    }
  }

  const CREATED_A := NewAccount("12345678", "USD", "manual")
  const REJECTED_A := CREATED_A.(status := RequiresAttention, lastReview := Some(ManualVerify))
  const CREATE_A := Create(0, "a", "12345678", "USD", "manual")
  const REJECT_A := Review(1, "a", false)
  const CREATE_B := Create(0, "b", "87654321", "USD", "manual")

  lemma RejectedState()
    ensures Step(Start(EMPTY), CREATE_A).history == [EMPTY, Put(EMPTY, "a", CREATED_A)]
    ensures var w := Step(Step(Start(EMPTY), CREATE_A), REJECT_A);
            w.history == [EMPTY, Put(EMPTY, "a", CREATED_A), Put(EMPTY, "a", REJECTED_A)] && w.used == {"a"}
  {
    var w0 := Start(EMPTY);
    BlindCreate(w0, CREATE_A);
    var w1 := Step(w0, CREATE_A);
    hide Step;
    RejectOnly(w1, REJECT_A);
    assert Put(Put(EMPTY, "a", CREATED_A), "a", REJECTED_A) == Put(EMPTY, "a", REJECTED_A);
  }

  /**
   A creation whose snapshot is older than another creation and its rejection does not see the
   rejected account, and the unique index on pending rows does not stop it: two accounts of the
   provider are then under review.
   */
  lemma StaleCreateLeavesTwoActive()
    ensures AtMostOneActive(EMPTY) && WellFormed(EMPTY) && ProfileOk(EMPTY)
    ensures !AtMostOneActive(Cur(Run(Start(EMPTY), [CREATE_A, REJECT_A, CREATE_B])))
  {
    hide Step;
    RejectedState();
    var w := Step(Step(Start(EMPTY), CREATE_A), REJECT_A);
    BlindCreate(w, CREATE_B);
    RunThree(Start(EMPTY), CREATE_A, REJECT_A, CREATE_B);
    var db := Cur(Step(w, CREATE_B));
    assert Active(db.accounts["a"]) && Active(db.accounts["b"]);
  }
}
