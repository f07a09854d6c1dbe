/** All interleavings of submissions, repeated requests, lost acknowledgements and reviews. */
module DocumentRuns {
  import opened Options
  import opened Documents

  /** A successful answer to a submission. */
  datatype Answer = Answer(submission: Submission, doc: DocId)

  datatype World = World(history: seq<Docs>, inserted: map<DocId, nat>, answers: set<Answer>)

  datatype Event =
    /** The predecessor was read in state number read; acknowledged is false when the commit is not confirmed. */
    | Submit(read: nat, submission: Submission, lease: bool, acknowledged: bool)
    | ReadBack(submission: Submission)
    /** The document was read in state number read, and the transaction's snapshot is state number at. */
    | Review(read: nat, at: nat, provider: ProviderId, id: DocId, approve: bool, gate: bool)

  function Cur(w: World): Docs
    requires w.history != []
  {
    w.history[|w.history| - 1]
  }

  predicate Enabled(w: World, e: Event) {
    match e
    case Submit(read, _, _, _) => read < |w.history|
    case ReadBack(_) => true
    case Review(read, at, _, _, _, _) => read <= at < |w.history|
  }

  function Transact(w: World, e: Event): Result<Docs, Error>
    requires w.history != [] && Enabled(w, e)
  {
    match e
    case Submit(read, s, lease, _) => SubmitTx(w.history[read], Cur(w), s, lease)
    case ReadBack(_) => Ok(Cur(w))
    case Review(read, at, provider, id, approve, gate) =>
      ReviewTx(w.history[read], w.history[at], Cur(w), provider, id, approve, gate)
  }

  function Inserted(w: World, id: DocId): nat {
    if id in w.inserted then w.inserted[id] else 0
  }

  function Step(w: World, e: Event): (w': World)
    requires w.history != []
    ensures w'.history != []
  {
    if !Enabled(w, e) then w
    else if e.ReadBack? then
      match ReadCommitted(Cur(w), e.submission)
      case Ok(Some(id)) => w.(answers := w.answers + {Answer(e.submission, id)})
      case _ => w
    else
      match Transact(w, e)
      case Err(_) => w
      case Ok(docs) =>
        var w' := w.(history := w.history + [docs]);
        if e.Submit? then
          var id := IdOf(e.submission);
          w'.(inserted := w.inserted[id := Inserted(w, id) + 1],
              answers := if e.acknowledged then w.answers + {Answer(e.submission, id)} else w.answers)
        else w'
  }

  function Run(w: World, events: seq<Event>): (w': World)
    requires w.history != []
    ensures w'.history != []
  {
    if events == [] then w
    else Step(Run(w, events[..|events| - 1]), events[|events| - 1])
  }

  function Start(docs: Docs): World {
    World([docs], map[], {})
  }

  lemma StepHistory(w: World, e: Event)
    requires w.history != []
    ensures Step(w, e).history ==
            if Enabled(w, e) && !e.ReadBack? && Transact(w, e).Ok? then w.history + [Transact(w, e).value]
               else w.history
  {
  }

  // ----- What every step keeps

  /** Documents stay, with their identity; verified ones may only be superseded, and superseded ones stay so. */
  ghost predicate Later(before: Docs, now: Docs) {
    forall id :: id in before ==>
      && id in now
      && now[id].(status := before[id].status) == before[id]
      && (before[id].status == Superseded ==> now[id].status == Superseded)
      && (before[id].status == Verified ==> now[id].status == Verified || now[id].status == Superseded)
  }

  /** A document that has a successor shares its provider and family and is verified or superseded. */
  ghost predicate PredecessorsSettled(docs: Docs) {
    forall id :: id in docs && docs[id].predecessor.Some? ==>
      var p := docs[id].predecessor.value;
      && p in docs && docs[p].provider == docs[id].provider && docs[p].family == docs[id].family
      && (docs[p].status == Verified || docs[p].status == Superseded)
  }

  /** A verified document's predecessor is superseded. */
  ghost predicate NotBothVerified(docs: Docs) {
    forall id :: id in docs && docs[id].status == Verified && docs[id].predecessor.Some? ==>
      docs[id].predecessor.value in docs && docs[docs[id].predecessor.value].status == Superseded
  }

  /** The document that is n replacements back. */
  function Ancestor(docs: Docs, id: DocId, n: nat): Option<DocId>
    decreases n
  {
    if n == 0 then Some(id)
    else if id !in docs || docs[id].predecessor.None? then None
    else Ancestor(docs, docs[id].predecessor.value, n - 1)
  }

  ghost predicate Acyclic(docs: Docs) {
    forall id, n :: n > 0 ==> Ancestor(docs, id, n) != Some(id)
  }

  /** At most one of the documents that replace the same predecessor is verified. */
  ghost predicate OneSuccessorVerified(docs: Docs) {
    forall a, b ::
      (a in docs && b in docs && docs[a].status == Verified && docs[b].status == Verified
       && docs[a].predecessor.Some? && docs[a].predecessor == docs[b].predecessor) ==> a == b
  }

  lemma LaterTransitive(a: Docs, b: Docs, c: Docs)
    requires Later(a, b) && Later(b, c)
    ensures Later(a, c)
  {
  }

  /** docs is cur with the new pending document of s, whose predecessor is verified or superseded. */
  ghost predicate Submitted(cur: Docs, docs: Docs, s: Submission) {
    && IdOf(s) !in cur && docs.Keys == cur.Keys + {IdOf(s)} && docs[IdOf(s)] == NewDoc(s)
    && (forall id :: id in cur && docs[id] != cur[id] ==>
          s.predecessor == Some(id) && docs[id] == cur[id].(status := Superseded))
    && (s.predecessor.Some? ==>
          var p := s.predecessor.value;
          && p in cur && cur[p].provider == s.provider && cur[p].family == s.family
          && (docs[p].status == Verified || docs[p].status == Superseded))
  }

  lemma SubmitForm(read: Docs, cur: Docs, s: Submission, lease: bool)
    requires Later(read, cur) && SubmitTx(read, cur, s, lease).Ok?
    ensures Submitted(cur, SubmitTx(read, cur, s, lease).value, s)
  {
    if s.predecessor.Some? {
      var p := s.predecessor.value;
      assert p in cur && cur[p].(status := read[p].status) == read[p];
    }
  }

  /** A submission can be read back under its key and payload, and nothing else can be submitted under the key. */
  lemma SubmittedOnce(read: Docs, cur: Docs, s: Submission, lease: bool, read': Docs, s': Submission, lease': bool)
    requires SubmitTx(read, cur, s, lease).Ok? && IdOf(s') == IdOf(s)
    ensures var docs := SubmitTx(read, cur, s, lease).value;
            && SubmitTx(read', docs, s', lease').Err?
            && ReadCommitted(docs, s') == if s'.fingerprint == s.fingerprint then Ok(Some(IdOf(s))) else Err(KeyReused)
  {
  }

  lemma SubmittedKeeps(cur: Docs, docs: Docs, s: Submission)
    requires Submitted(cur, docs, s) && PredecessorsSettled(cur) && NotBothVerified(cur)
    ensures Later(cur, docs) && PredecessorsSettled(docs) && NotBothVerified(docs)
  {
  }

  lemma SubmitKeeps(read: Docs, cur: Docs, s: Submission, lease: bool)
    requires Later(read, cur) && PredecessorsSettled(cur) && NotBothVerified(cur)
    requires SubmitTx(read, cur, s, lease).Ok?
    ensures var docs := SubmitTx(read, cur, s, lease).value;
            && Later(cur, docs) && PredecessorsSettled(docs) && NotBothVerified(docs)
            && Submitted(cur, docs, s)
  {
    SubmitForm(read, cur, s, lease);
    hide SubmitTx;
    SubmittedKeeps(cur, SubmitTx(read, cur, s, lease).value, s);
  }

  /** docs is cur with the pending document id reviewed and, on approval, its verified predecessor superseded. */
  ghost predicate Reviewed(cur: Docs, docs: Docs, id: DocId, approve: bool) {
    && id in cur && cur[id].status == Pending && docs.Keys == cur.Keys
    && docs[id] == cur[id].(status := if approve then Verified else Rejected)
    && (forall other :: other in cur && other != id && docs[other] != cur[other] ==>
          && approve && cur[id].predecessor == Some(other)
          && cur[other].status == Verified && docs[other] == cur[other].(status := Superseded))
    && (approve && cur[id].predecessor.Some? ==>
          cur[id].predecessor.value in docs && docs[cur[id].predecessor.value].status == Superseded)
  }

  lemma ReviewForm(read: Docs, snap: Docs, cur: Docs, provider: ProviderId, id: DocId, approve: bool, gate: bool)
    requires Later(read, snap) && Later(snap, cur) && PredecessorsSettled(cur)
    requires ReviewTx(read, snap, cur, provider, id, approve, gate).Ok?
    ensures Reviewed(cur, ReviewTx(read, snap, cur, provider, id, approve, gate).value, id, approve)
  {
    LaterTransitive(read, snap, cur);
    assert cur[id].predecessor == read[id].predecessor && cur[id].provider == provider;
  }

  /** A reviewed document cannot be reviewed again, whatever earlier state the second review reads. */
  lemma ReviewedOnce(read: Docs, snap: Docs, cur: Docs, provider: ProviderId, id: DocId, approve: bool, gate: bool,
                     read': Docs, snap': Docs, approve': bool, gate': bool)
    requires Later(read, snap) && Later(snap, cur) && PredecessorsSettled(cur)
    requires ReviewTx(read, snap, cur, provider, id, approve, gate).Ok?
    ensures ReviewTx(read', snap', ReviewTx(read, snap, cur, provider, id, approve, gate).value, provider, id,
            approve', gate').Err?
  {
    ReviewForm(read, snap, cur, provider, id, approve, gate);
    var docs := ReviewTx(read, snap, cur, provider, id, approve, gate).value;
    hide Later, PredecessorsSettled;
    assert docs[id].status != Pending;
  }

  lemma ReviewedKeeps(cur: Docs, docs: Docs, id: DocId, approve: bool)
    requires Reviewed(cur, docs, id, approve) && PredecessorsSettled(cur) && NotBothVerified(cur)
    ensures Later(cur, docs) && PredecessorsSettled(docs) && NotBothVerified(docs)
  {
  }

  lemma ReviewKeeps(read: Docs, snap: Docs, cur: Docs, provider: ProviderId, id: DocId, approve: bool, gate: bool)
    requires Later(read, snap) && Later(snap, cur) && PredecessorsSettled(cur) && NotBothVerified(cur)
    requires ReviewTx(read, snap, cur, provider, id, approve, gate).Ok?
    ensures var docs := ReviewTx(read, snap, cur, provider, id, approve, gate).value;
            && Later(cur, docs) && PredecessorsSettled(docs) && NotBothVerified(docs)
            && Reviewed(cur, docs, id, approve)
  {
    ReviewForm(read, snap, cur, provider, id, approve, gate);
    hide ReviewTx;
    ReviewedKeeps(cur, ReviewTx(read, snap, cur, provider, id, approve, gate).value, id, approve);
  }

  ghost predicate SamePredecessors(before: Docs, now: Docs) {
    forall x :: x in before ==> x in now && now[x].predecessor == before[x].predecessor
  }

  lemma {:induction false} AncestorKept(before: Docs, now: Docs, id: DocId, n: nat)
    requires id in before && PredecessorsSettled(before)
    requires SamePredecessors(before, now)
    ensures Ancestor(now, id, n) == Ancestor(before, id, n)
    ensures Ancestor(now, id, n).Some? ==> Ancestor(now, id, n).value in before
    decreases n
  {
    if n > 0 && before[id].predecessor.Some? {
      AncestorKept(before, now, before[id].predecessor.value, n - 1);
    }
  }

  lemma LaterKeepsPredecessors(before: Docs, now: Docs)
    requires Later(before, now)
    ensures SamePredecessors(before, now)
  {
  }

  lemma NoCircleThrough(before: Docs, now: Docs, id: DocId, n: nat)
    requires PredecessorsSettled(before) && Acyclic(before) && SamePredecessors(before, now) && n > 0
    requires forall x :: x in now && x !in before && now[x].predecessor.Some? ==> now[x].predecessor.value in before
    ensures Ancestor(now, id, n) != Some(id)
  {
    if id in before {
      AncestorKept(before, now, id, n);
    } else if id in now && now[id].predecessor.Some? {
      AncestorKept(before, now, now[id].predecessor.value, n - 1);
    }
  }

  lemma AcyclicKept(before: Docs, now: Docs)
    requires PredecessorsSettled(before) && Acyclic(before) && Later(before, now)
    requires forall x :: x in now && x !in before && now[x].predecessor.Some? ==> now[x].predecessor.value in before
    ensures Acyclic(now)
  {
    LaterKeepsPredecessors(before, now);
    hide Ancestor, SamePredecessors, PredecessorsSettled, Later;
    forall id, n: nat | n > 0 ensures Ancestor(now, id, n) != Some(id) {
      NoCircleThrough(before, now, id, n);
    }
  }

  ghost predicate DocsOk(docs: Docs) {
    PredecessorsSettled(docs) && NotBothVerified(docs) && Acyclic(docs)
  }

  ghost predicate Safe(w: World) {
    && w.history != []
    && (forall i, j :: 0 <= i <= j < |w.history| ==> Later(w.history[i], w.history[j]))
    && DocsOk(Cur(w))
  }

  lemma TransactKeeps(w: World, e: Event)
    requires Safe(w) && Enabled(w, e) && Transact(w, e).Ok?
    ensures Later(Cur(w), Transact(w, e).value) && DocsOk(Transact(w, e).value)
  {
    hide Acyclic, SubmitTx, ReviewTx;
    if e.Submit? {
      SubmitKeeps(w.history[e.read], Cur(w), e.submission, e.lease);
    } else if e.Review? {
      ReviewKeeps(w.history[e.read], w.history[e.at], Cur(w), e.provider, e.id, e.approve, e.gate);
    }
    hide Transact;
    AcyclicKept(Cur(w), Transact(w, e).value);
  }

  lemma StepSafe(w: World, e: Event)
    requires Safe(w)
    ensures Safe(Step(w, e))
  {
    hide Step, DocsOk;
    var w' := Step(w, e);
    StepHistory(w, e);
    if w'.history != w.history {
      TransactKeeps(w, e);
      forall i, j | 0 <= i <= j < |w'.history| ensures Later(w'.history[i], w'.history[j]) {
        if j == |w.history| && i < j {
          LaterTransitive(w.history[i], Cur(w), Cur(w'));
        }
      }
    }
  }

  // ----- Main results

  /** In every run, whatever stale state the submissions and reviews worked with. */
  lemma {:induction false} RunSafe(docs: Docs, events: seq<Event>)
    requires DocsOk(docs)
    ensures Safe(Run(Start(docs), events))
    decreases |events|
  {
    hide Step, DocsOk;
    if events != [] {
      RunSafe(docs, events[..|events| - 1]);
      StepSafe(Run(Start(docs), events[..|events| - 1]), events[|events| - 1]);
    }
  }

  // ----- Siblings

  /** Every sibling that is verified now was already verified in the snapshot. */
  ghost predicate SeesSiblings(snap: Docs, cur: Docs, id: DocId, p: DocId) {
    forall other :: Sibling(cur, id, p, other) && cur[other].status == Verified ==>
      other in snap && snap[other].status == Verified
  }

  ghost predicate NoVerifiedSibling(docs: Docs, id: DocId, p: DocId) {
    forall other :: Sibling(docs, id, p, other) ==> docs[other].status != Verified
  }

  predicate Approves(w: World, e: Event)
    requires w.history != []
  {
    e.Review? && e.approve && e.id in Cur(w) && Cur(w)[e.id].predecessor.Some?
  }

  lemma FewerVerified(cur: Docs, docs: Docs)
    requires OneSuccessorVerified(cur)
    requires forall id :: id in docs && docs[id].status == Verified && docs[id].predecessor.Some? ==>
               id in cur && cur[id].status == Verified && cur[id].predecessor == docs[id].predecessor
    ensures OneSuccessorVerified(docs)
  {
  }

  lemma OtherStepsKeepOneSuccessor(w: World, e: Event)
    requires Safe(w) && OneSuccessorVerified(Cur(w)) && !Approves(w, e)
    ensures OneSuccessorVerified(Cur(Step(w, e)))
  {
    hide Step, SubmitTx, ReviewTx, NotBothVerified, Acyclic;
    StepHistory(w, e);
    if Enabled(w, e) && !e.ReadBack? && Transact(w, e).Ok? {
      if e.Submit? {
        SubmitKeeps(w.history[e.read], Cur(w), e.submission, e.lease);
      } else {
        ReviewKeeps(w.history[e.read], w.history[e.at], Cur(w), e.provider, e.id, e.approve, e.gate);
      }
      hide PredecessorsSettled, Transact;
      FewerVerified(Cur(w), Transact(w, e).value);
    }
  }

  /** An approval succeeds only when its snapshot shows no verified sibling. */
  lemma ApprovedWithoutVerifiedSibling(read: Docs, snap: Docs, cur: Docs, provider: ProviderId, id: DocId, gate: bool)
    requires Later(read, cur) && ReviewTx(read, snap, cur, provider, id, true, gate).Ok?
    requires id in cur && cur[id].predecessor.Some?
    ensures NoVerifiedSibling(snap, id, cur[id].predecessor.value)
  {
    assert read[id].predecessor == cur[id].predecessor;
  }

  lemma ApprovedOneSuccessor(cur: Docs, docs: Docs, id: DocId)
    requires Reviewed(cur, docs, id, true) && Acyclic(cur) && OneSuccessorVerified(cur) && cur[id].predecessor.Some?
    ensures OneSuccessorVerified(docs) <==> NoVerifiedSibling(cur, id, cur[id].predecessor.value)
  {
    var p := cur[id].predecessor.value;
    forall other | Sibling(cur, id, p, other) ensures docs[other] == cur[other] {
      SiblingIsNotPredecessor(cur, p, other);
    }
    hide Acyclic;
    if NoVerifiedSibling(cur, id, p) {
      forall a, b | && a in docs && b in docs && docs[a].status == Verified && docs[b].status == Verified
                    && docs[a].predecessor.Some? && docs[a].predecessor == docs[b].predecessor
        ensures a == b
      {
        assert Sibling(cur, id, p, a) || docs[a].predecessor != Some(p) || a == id;
        assert Sibling(cur, id, p, b) || docs[b].predecessor != Some(p) || b == id;
      }
    } else {
      var other :| Sibling(cur, id, p, other) && cur[other].status == Verified;
      assert docs[other].status == docs[id].status == Verified && docs[other].predecessor == docs[id].predecessor;
    }
  }

  lemma SeenSiblings(snap: Docs, cur: Docs, id: DocId, p: DocId)
    requires Later(snap, cur) && NoVerifiedSibling(snap, id, p)
    ensures SeesSiblings(snap, cur, id, p) <==> NoVerifiedSibling(cur, id, p)
  {
  }

  /** An approval keeps at most one verified successor exactly when its snapshot shows the verified siblings. */
  lemma ApprovalKeepsOneSuccessor(w: World, e: Event)
    requires Safe(w) && OneSuccessorVerified(Cur(w)) && Approves(w, e) && Enabled(w, e) && Transact(w, e).Ok?
    ensures OneSuccessorVerified(Transact(w, e).value)
            <==> SeesSiblings(w.history[e.at], Cur(w), e.id, Cur(w)[e.id].predecessor.value)
  {
    hide Later, ReviewTx, Acyclic, PredecessorsSettled, NotBothVerified, OneSuccessorVerified, SeesSiblings,
      NoVerifiedSibling;
    var read, snap, cur := w.history[e.read], w.history[e.at], Cur(w);
    ReviewKeeps(read, snap, cur, e.provider, e.id, true, e.gate);
    ApprovedWithoutVerifiedSibling(read, snap, cur, e.provider, e.id, e.gate);
    SeenSiblings(snap, cur, e.id, cur[e.id].predecessor.value);
    ApprovedOneSuccessor(cur, Transact(w, e).value, e.id);
  }

  lemma SiblingIsNotPredecessor(docs: Docs, p: DocId, other: DocId)
    requires Acyclic(docs) && other in docs && docs[other].predecessor == Some(p)
    ensures other != p
  {
    assert Ancestor(docs, other, 1) == Ancestor(docs, p, 0) == Some(p);
  }

  /** That is so whenever the replaced document was verified in the snapshot: approving a sibling changes it. */
  lemma VerifiedPredecessorSeesSiblings(w: World, e: Event)
    requires Safe(w) && Approves(w, e) && Enabled(w, e) && Transact(w, e).Ok?
    requires var p := Cur(w)[e.id].predecessor.value;
             p in w.history[e.at] && w.history[e.at][p].status == Verified
    ensures SeesSiblings(w.history[e.at], Cur(w), e.id, Cur(w)[e.id].predecessor.value)
  {
    var p := Cur(w)[e.id].predecessor.value;
    assert Later(w.history[e.read], Cur(w));
    assert Unchanged(w.history[e.at], Cur(w), p);
  }

  /** And whenever nothing was committed since the snapshot. */
  lemma CurrentSnapshotSeesSiblings(w: World, e: Event)
    requires Safe(w) && Approves(w, e) && Enabled(w, e) && w.history[e.at] == Cur(w)
    ensures SeesSiblings(w.history[e.at], Cur(w), e.id, Cur(w)[e.id].predecessor.value)
  {
  }

  /**
   So an approval whose snapshot shows the replaced document as verified always keeps the law, and any
   other exactly when no sibling is verified at its commit.
   */
  lemma ApprovalIsSafe(w: World, e: Event)
    requires Safe(w) && OneSuccessorVerified(Cur(w)) && Approves(w, e) && Enabled(w, e) && Transact(w, e).Ok?
    ensures var p := Cur(w)[e.id].predecessor.value;
            OneSuccessorVerified(Transact(w, e).value) <==>
              || (p in w.history[e.at] && w.history[e.at][p].status == Verified)
              || NoVerifiedSibling(Cur(w), e.id, p)
  {
    hide OneSuccessorVerified, ReviewTx, Acyclic, PredecessorsSettled, NotBothVerified, NoVerifiedSibling;
    var p, snap, cur := Cur(w)[e.id].predecessor.value, w.history[e.at], Cur(w);
    ApprovalKeepsOneSuccessor(w, e);
    ApprovedWithoutVerifiedSibling(w.history[e.read], snap, cur, e.provider, e.id, e.gate);
    SeenSiblings(snap, cur, e.id, p);
    if p in snap && snap[p].status == Verified {
      VerifiedPredecessorSeesSiblings(w, e);
    }
  }

  ghost predicate ApprovalsSeeSiblings(docs: Docs, events: seq<Event>)
    decreases |events|
  {
    events == [] ||
    var w, e := Run(Start(docs), events[..|events| - 1]), events[|events| - 1];
    && ApprovalsSeeSiblings(docs, events[..|events| - 1])
    && (Approves(w, e) && Enabled(w, e) && Transact(w, e).Ok? ==>
          SeesSiblings(w.history[e.at], Cur(w), e.id, Cur(w)[e.id].predecessor.value))
  }

  lemma {:induction false} OneVerifiedSuccessor(docs: Docs, events: seq<Event>)
    requires DocsOk(docs) && OneSuccessorVerified(docs) && ApprovalsSeeSiblings(docs, events)
    ensures OneSuccessorVerified(Cur(Run(Start(docs), events)))
    decreases |events|
  {
    hide Step, DocsOk, OneSuccessorVerified, SeesSiblings, Transact;
    if events != [] {
      var init, e := events[..|events| - 1], events[|events| - 1];
      var w := Run(Start(docs), init);
      OneVerifiedSuccessor(docs, init);
      RunSafe(docs, init);
      StepHistory(w, e);
      if !Approves(w, e) {
        OtherStepsKeepOneSuccessor(w, e);
      } else if Enabled(w, e) && Transact(w, e).Ok? {
        ApprovalKeepsOneSuccessor(w, e);
      }
    }
  }

  // ----- Exactly once

  /** Every answer is about the row of its own key and payload, and no row was inserted twice. */
  ghost predicate ExactlyOnce(w: World)
    requires w.history != []
  {
    && (forall r :: r in w.answers ==>
          && r.doc == IdOf(r.submission) && r.doc in Cur(w)
          && Cur(w)[r.doc].fingerprint == Some(r.submission.fingerprint))
    && (forall id :: Inserted(w, id) <= 1)
    && (forall id :: Inserted(w, id) > 0 ==> id in Cur(w))
  }

  lemma LaterKeepsAnswers(w: World, docs: Docs)
    requires w.history != [] && ExactlyOnce(w) && Later(Cur(w), docs)
    ensures ExactlyOnce(w.(history := w.history + [docs]))
  {
    var w' := w.(history := w.history + [docs]);
    assert forall id :: Inserted(w', id) == Inserted(w, id);
    forall r | r in w'.answers
      ensures r.doc in docs && docs[r.doc].fingerprint == Some(r.submission.fingerprint)
    {
      assert docs[r.doc].(status := Cur(w)[r.doc].status) == Cur(w)[r.doc];
    }
  }

  lemma InsertExactlyOnce(w: World, w': World, s: Submission)
    requires w.history != [] && w'.history != [] && ExactlyOnce(w.(history := w'.history))
    requires IdOf(s) in Cur(w') && Cur(w')[IdOf(s)].fingerprint == Some(s.fingerprint)
    requires Inserted(w, IdOf(s)) == 0 && w'.inserted == w.inserted[IdOf(s) := 1]
    requires w'.answers <= w.answers + {Answer(s, IdOf(s))}
    ensures ExactlyOnce(w')
  {
    var v := w.(history := w'.history);
    assert forall id :: Inserted(w', id) == if id == IdOf(s) then 1 else Inserted(v, id);
  }

  lemma StepExactlyOnce(w: World, e: Event)
    requires Safe(w) && ExactlyOnce(w)
    ensures ExactlyOnce(Step(w, e))
  {
    hide DocsOk, SubmitTx, ReviewTx;
    if Enabled(w, e) && !e.ReadBack? && Transact(w, e).Ok? {
      TransactKeeps(w, e);
      LaterKeepsAnswers(w, Transact(w, e).value);
      if e.Submit? {
        DocsOkParts(Cur(w));
        SubmitKeeps(w.history[e.read], Cur(w), e.submission, e.lease);
        hide Safe, Later, PredecessorsSettled, NotBothVerified;
        assert Inserted(w, IdOf(e.submission)) == 0;
        InsertExactlyOnce(w, Step(w, e), e.submission);
      }
    } else {
      assert forall id :: Inserted(Step(w, e), id) == Inserted(w, id);
    }
  }

  lemma DocsOkParts(docs: Docs)
    requires DocsOk(docs)
    ensures PredecessorsSettled(docs) && NotBothVerified(docs)
  {
  }

  lemma {:induction false} SubmittedExactlyOnce(docs: Docs, events: seq<Event>)
    requires DocsOk(docs)
    ensures ExactlyOnce(Run(Start(docs), events))
    decreases |events|
  {
    hide Step, DocsOk;
    if events != [] {
      SubmittedExactlyOnce(docs, events[..|events| - 1]);
      RunSafe(docs, events[..|events| - 1]);
      StepExactlyOnce(Run(Start(docs), events[..|events| - 1]), events[|events| - 1]);
    }
  }

  /** Two successful answers under one key are about the same document and the same payload. */
  lemma SameKeySameAnswer(docs: Docs, events: seq<Event>, r: Answer, s: Answer)
    requires DocsOk(docs)
    requires r in Run(Start(docs), events).answers && s in Run(Start(docs), events).answers
    requires r.submission.provider == s.submission.provider && r.submission.key == s.submission.key
    ensures r.doc == s.doc && r.submission.fingerprint == s.submission.fingerprint
  {
    SubmittedExactlyOnce(docs, events);
  }
}
