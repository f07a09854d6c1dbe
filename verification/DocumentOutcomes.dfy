/** When a submission or a review succeeds, and what it writes. */
module DocumentOutcomes {
  import opened Options
  import opened Documents

  /**
   A submission succeeds exactly when its key is new, the lease is still held, and the document that it
   replaces, if any, was read as one of the same provider and family that is not superseded.
   */
  lemma SubmitSucceedsExactly(read: Docs, cur: Docs, s: Submission, lease: bool)
    ensures SubmitTx(read, cur, s, lease).Ok? <==>
              && lease && UploadId(s.provider, s.key) !in cur
              && (s.predecessor.Some? ==>
                    var p := s.predecessor.value;
                    && p in read && read[p].provider == s.provider && read[p].family == s.family
                    && (read[p].status == Pending || read[p].status == Verified || read[p].status == Rejected))
  {
  }

  /** Any other document to replace is reported as an invalid replacement, before anything else is looked at. */
  lemma InvalidReplacementExactly(read: Docs, cur: Docs, s: Submission, lease: bool)
    ensures SubmitTx(read, cur, s, lease) == Err(InvalidReplacement) <==>
              && s.predecessor.Some?
              && var p := s.predecessor.value;
              p in read ==> read[p].provider != s.provider || read[p].family != s.family || read[p].status == Superseded
  {
  }

  /**
   It adds the pending document with the submitted data, and supersedes the replaced one unless that
   was read as verified. No other document changes.
   */
  lemma SubmitWrites(read: Docs, cur: Docs, s: Submission, lease: bool, other: DocId)
    requires SubmitTx(read, cur, s, lease).Ok?
    ensures var docs, id := SubmitTx(read, cur, s, lease).value, UploadId(s.provider, s.key);
            && id in docs && docs[id] == Doc(s.provider, s.family, s.predecessor, Pending, Some(s.fingerprint))
            && (other != id ==> (other in docs <==> other in cur))
            && (other in cur ==>
                  if s.predecessor == Some(other) && other in read && read[other].status != Verified
                  then docs[other] == cur[other].(status := Superseded)
                  else docs[other] == cur[other])
  {
  }

  /**
   A review succeeds exactly when the document was read as a pending one of the provider, is still as the
   snapshot shows it, and, for an approval, the gate is open, the replaced document has not changed since
   the snapshot, and no other document that replaces it is verified there.
   */
  lemma ReviewSucceedsExactly(read: Docs, snap: Docs, cur: Docs, provider: ProviderId, id: DocId, approve: bool,
                              gate: bool)
    ensures ReviewTx(read, snap, cur, provider, id, approve, gate).Ok? <==>
              && id in read && read[id].provider == provider && read[id].status == Pending
              && id in snap && id in cur && snap[id] == cur[id] && snap[id].status == Pending
              && (approve ==> gate)
              && (approve && read[id].predecessor.Some? ==>
                    var p := read[id].predecessor.value;
                    && (p in snap ==> p in cur && cur[p] == snap[p])
                    && (forall other :: other in snap && other != id && snap[other].predecessor == Some(p) ==>
                          snap[other].status != Verified))
  {
    if id in read && read[id].predecessor.Some? {
      var p := read[id].predecessor.value;
      assert forall other :: Sibling(snap, id, p, other)
                             <==> other in snap && other != id && snap[other].predecessor == Some(p);
    }
  }

  /** It sets the status of the document and, on approval, supersedes the provider's verified predecessor. */
  lemma ReviewWrites(read: Docs, snap: Docs, cur: Docs, provider: ProviderId, id: DocId, approve: bool, gate: bool,
                     other: DocId)
    requires ReviewTx(read, snap, cur, provider, id, approve, gate).Ok?
    requires id in read && read[id].predecessor != Some(id)
    ensures var docs := ReviewTx(read, snap, cur, provider, id, approve, gate).value;
            && docs.Keys == cur.Keys && id in docs
            && docs[id] == cur[id].(status := if approve then Verified else Rejected)
            && (other in cur && other != id ==>
                  if approve && read[id].predecessor == Some(other) && cur[other].provider == provider
                     && cur[other].status == Verified
                  then docs[other] == cur[other].(status := Superseded)
                  else docs[other] == cur[other])
  {
  }
}
