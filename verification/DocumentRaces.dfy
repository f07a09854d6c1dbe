/** A run that shows that two documents replacing the same one can both become verified. */
module DocumentRaces {
  import opened Options
  import opened Documents
  import opened DocumentRuns

  const P := OtherId("passport")
  const OLD := Doc("provider", "identity", None, Pending, None)

  function Replacing(key: string): Submission {
    Submission("provider", key, "payload", "identity", Some(P))
  }

  function A(): DocId { IdOf(Replacing("a")) }

  function B(): DocId { IdOf(Replacing("b")) }

  const START: Docs := map[P := OLD]
  const REPLACED := OLD.(status := Superseded)

  const SUBMIT_A := Submit(0, Replacing("a"), true, true)
  const SUBMIT_B := Submit(0, Replacing("b"), true, true)
  const APPROVE_A := Review(2, 2, "provider", A(), true, true)
  const APPROVE_B := Review(2, 2, "provider", B(), true, true)

  lemma DocsOkStart()
    ensures DocsOk(START) && OneSuccessorVerified(START)
  {
    forall id, n: nat | n > 0 ensures Ancestor(START, id, n) != Some(id) {
      assert n == 1 ==> Ancestor(START, id, n) == None;
    }
  }

  lemma SubmitState(cur: Docs, key: string)
    requires P in cur && IdOf(Replacing(key)) !in cur
    ensures SubmitTx(START, cur, Replacing(key), true)
            == Ok(cur[P := cur[P].(status := Superseded)][IdOf(Replacing(key)) := NewDoc(Replacing(key))])
  {
  }

  /** While the replaced document stays superseded, its row does not conflict and the snapshot hides the sibling. */
  lemma ApproveState(snap: Docs, cur: Docs, id: DocId)
    requires id in snap && id in cur && snap[id] == cur[id] && P in snap && P in cur && id != P
    requires snap[P] == cur[P] == REPLACED
    requires snap[id].provider == "provider" && snap[id].status == Pending && snap[id].predecessor == Some(P)
    requires forall other :: other in snap ==> snap[other].status != Verified
    ensures ReviewTx(snap, snap, cur, "provider", id, true, true) == Ok(cur[id := cur[id].(status := Verified)])
  {
  }

  lemma Appended(w: World, e: Event, docs: Docs)
    requires w.history != [] && Enabled(w, e) && !e.ReadBack? && Transact(w, e) == Ok(docs)
    ensures Step(w, e).history == w.history + [docs]
  {
  }

  lemma RunFour(w: World, a: Event, b: Event, c: Event, d: Event)
    requires w.history != []
    ensures Run(w, [a, b, c, d]) == Step(Step(Step(Step(w, a), b), c), d)
  {
    hide Step;
    RunSnoc(w, [], a);
    RunSnoc(w, [a], b);
    RunSnoc(w, [a, b], c);
    RunSnoc(w, [a, b, c], d);
    assert [] + [a] == [a] && [a] + [b] == [a, b] && [a, b] + [c] == [a, b, c] && [a, b, c] + [d] == [a, b, c, d];
  }

  lemma RunSnoc(w: World, events: seq<Event>, e: Event)
    requires w.history != []
    ensures Run(w, events + [e]) == Step(Run(w, events), e)
  {
    assert (events + [e])[..|events|] == events;
  }

  /**
   The second submission read the pending document before the first one superseded it, and both
   approvals take their snapshot after that: neither sees the other, and the row they lock is not
   changed by either.
   */
  lemma StaleSiblingsBothVerified()
    ensures DocsOk(START) && OneSuccessorVerified(START)
    ensures !OneSuccessorVerified(Cur(Run(Start(START), [SUBMIT_A, SUBMIT_B, APPROVE_A, APPROVE_B])))
  {
    hide Step, SubmitTx, ReviewTx, DocsOk, OneSuccessorVerified;
    DocsOkStart();
    var w0 := Start(START);
    var docA, docB := NewDoc(Replacing("a")), NewDoc(Replacing("b"));
    var s1 := START[P := REPLACED][A() := docA];
    SubmitState(START, "a");
    Appended(w0, SUBMIT_A, s1);
    var w1 := Step(w0, SUBMIT_A);
    var s2 := s1[P := REPLACED][B() := docB];
    SubmitState(s1, "b");
    Appended(w1, SUBMIT_B, s2);
    var w2 := Step(w1, SUBMIT_B);
    var s3 := s2[A() := docA.(status := Verified)];
    ApproveState(s2, s2, A());
    Appended(w2, APPROVE_A, s3);
    var w3 := Step(w2, APPROVE_A);
    var s4 := s3[B() := docB.(status := Verified)];
    ApproveState(s2, s3, B());
    Appended(w3, APPROVE_B, s4);
    RunFour(w0, SUBMIT_A, SUBMIT_B, APPROVE_A, APPROVE_B);
    TwoVerified(s4);
  }

  lemma TwoVerified(docs: Docs)
    requires A() in docs && B() in docs && docs[A()].status == Verified && docs[B()].status == Verified
    requires docs[A()].predecessor == Some(P) == docs[B()].predecessor
    ensures !OneSuccessorVerified(docs)
  {
    assert A().key == "a" && B().key == "b";
  }
}
