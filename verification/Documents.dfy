/**
 Document submission, replacement and review of src/lib/provider-documents.ts.

 A submission reads the document it replaces before its transaction; a review reads the document
 before its transaction and the siblings in the transaction's snapshot. Both therefore work with an
 earlier state, while a row that a transaction locks or writes must be unchanged since its snapshot
 (isolation level "repeatable read", src/shared/infrastructure/db/client.ts:80).
 */
module Documents {
  import opened Options

  type ProviderId = string

  /** The id of an uploaded document is a digest of the provider and the idempotency key. */
  datatype DocId = UploadId(provider: ProviderId, key: string) | OtherId(text: string)

  datatype Status = Pending | Verified | Rejected | Superseded

  /** family stands for the type, the subject and the definition version, which a replacement must share. */
  datatype Doc = Doc(provider: ProviderId, family: string, predecessor: Option<DocId>, status: Status,
                     fingerprint: Option<string>)

  type Docs = map<DocId, Doc>

  datatype Error =
    | InvalidReplacement | LeaseChanged | RegistrationUnconfirmed | KeyReused | NotFound | NotPending
    | GateBlocked | ReplacementObsolete | SerializationFailure

  datatype Submission = Submission(provider: ProviderId, key: string, fingerprint: string, family: string,
                                   predecessor: Option<DocId>)

  function IdOf(s: Submission): DocId {
    UploadId(s.provider, s.key)
  }

  // ----- Submitting

  /** The check of the replaced document, on the state in which it was read. */
  predicate ReplacementOk(read: Docs, s: Submission) {
    s.predecessor.Some? ==>
      && s.predecessor.value in read
      && read[s.predecessor.value].provider == s.provider
      && read[s.predecessor.value].family == s.family
      && read[s.predecessor.value].status != Superseded
  }

  /** A replaced document that is not verified is superseded at once. */
  function Supersedes(read: Docs, s: Submission): Option<DocId>
    requires ReplacementOk(read, s)
  {
    if s.predecessor.Some? && read[s.predecessor.value].status != Verified then s.predecessor else None
  }

  function SetStatus(docs: Docs, id: DocId, status: Status): Docs {
    if id in docs then docs[id := docs[id].(status := status)] else docs
  }

  function NewDoc(s: Submission): Doc {
    Doc(s.provider, s.family, s.predecessor, Pending, Some(s.fingerprint))
  }

  /** The submission as far as it writes: read is the state of its predecessor check, cur the state at its commit. */
  function SubmitTx(read: Docs, cur: Docs, s: Submission, lease: bool): Result<Docs, Error> {
    if !ReplacementOk(read, s) then Err(InvalidReplacement)
    else if !lease then Err(LeaseChanged)
    else
      var superseded := match Supersedes(read, s) case Some(p) => SetStatus(cur, p, Superseded) case None => cur;
      if IdOf(s) in superseded then Err(RegistrationUnconfirmed)
      else Ok(superseded[IdOf(s) := NewDoc(s)])
  }

  /** The lookup that answers a repeated request, and a commit whose acknowledgement was lost. */
  function ReadCommitted(docs: Docs, s: Submission): Result<Option<DocId>, Error> {
    if IdOf(s) !in docs then Ok(None)
    else if docs[IdOf(s)].fingerprint != Some(s.fingerprint) then Err(KeyReused)
    else Ok(Some(IdOf(s)))
  }

  // ----- Reviewing

  predicate Unchanged(snap: Docs, cur: Docs, id: DocId) {
    id in snap ==> id in cur && snap[id] == cur[id]
  }

  predicate Sibling(docs: Docs, id: DocId, p: DocId, other: DocId) {
    other in docs && other != id && docs[other].predecessor == Some(p)
  }

  /** The document as the review reads it before its transaction. */
  function ReadForReview(read: Docs, provider: ProviderId, id: DocId, approve: bool, gate: bool): Result<Doc, Error> {
    if id !in read || read[id].provider != provider then Err(NotFound)
    else if read[id].status != Pending then Err(NotPending)
    else if approve && !gate then Err(GateBlocked)
    else Ok(read[id])
  }

  /** gate stands for the expiry, preview and inspection checks. */
  function ReviewTx(read: Docs, snap: Docs, cur: Docs, provider: ProviderId, id: DocId, approve: bool, gate: bool)
    : Result<Docs, Error>
  {
    match ReadForReview(read, provider, id, approve, gate)
    case Err(e) => Err(e)
    case Ok(existing) =>
      var p := existing.predecessor;
      if approve && p.Some? && !Unchanged(snap, cur, p.value) then Err(SerializationFailure)
      else if approve && p.Some? && exists other ::
              other in snap && Sibling(snap, id, p.value, other) && snap[other].status == Verified
      then Err(ReplacementObsolete)
      else if id !in snap || snap[id].status != Pending then Err(NotPending)
      else if !Unchanged(snap, cur, id) then Err(SerializationFailure)
      else
        var reviewed := SetStatus(cur, id, if approve then Verified else Rejected);
        if approve && p.Some? && p.value in reviewed && reviewed[p.value].provider == provider
           && reviewed[p.value].status == Verified
        then Ok(SetStatus(reviewed, p.value, Superseded))
        else Ok(reviewed)
  }

  // ----- The transactions as the program runs them

  class Store {
    var docs: Docs

    constructor (docs: Docs)
      ensures this.docs == docs
    {
      this.docs := docs;
    }

    /** The predecessor check and the registration transaction of submitProviderDocumentAttempt. */
    method Submit(read: Docs, s: Submission, lease: bool) returns (r: Result<DocId, Error>)
      modifies this
      ensures match SubmitTx(read, old(docs), s, lease)
              case Ok(now) => docs == now && r == Ok(IdOf(s))
              case Err(e) => docs == old(docs) && r == Err(e)
    {
      if !ReplacementOk(read, s) {
        return Err(InvalidReplacement);
      }
      var before := docs;
      if !lease {
        return Err(LeaseChanged);
      }
      var supersedeIds: seq<DocId> := [];
      if s.predecessor.Some? && read[s.predecessor.value].status != Verified {
        supersedeIds := [s.predecessor.value];
      }
      for i := 0 to |supersedeIds|
        invariant docs == if i == 0 then before else SetStatus(before, supersedeIds[0], Superseded)
      {
        docs := SetStatus(docs, supersedeIds[i], Superseded);
      }
      if IdOf(s) in docs {
        docs := before;
        return Err(RegistrationUnconfirmed);
      }
      docs := docs[IdOf(s) := NewDoc(s)];
      r := Ok(IdOf(s));
    }

    method Review(read: Docs, snap: Docs, provider: ProviderId, id: DocId, approve: bool, gate: bool)
      returns (r: Option<Error>)
      modifies this
      ensures match ReviewTx(read, snap, old(docs), provider, id, approve, gate)
              case Ok(now) => docs == now && r.None?
              case Err(e) => docs == old(docs) && r == Some(e)
    {
      var existing := ReadForReview(read, provider, id, approve, gate);
      if existing.Err? {
        return Some(existing.error);
      }
      var p := existing.value.predecessor;
      if approve && p.Some? {
        if !Unchanged(snap, docs, p.value) {
          return Some(SerializationFailure);
        }
        var siblings := set other | other in snap && Sibling(snap, id, p.value, other)
            && snap[other].status == Verified;
        if siblings != {} {
          var other :| other in siblings;
          return Some(ReplacementObsolete);
        }
        assert forall other :: other in snap && Sibling(snap, id, p.value, other) && snap[other].status == Verified
                               ==> other in siblings;
      }
      if id !in snap || snap[id].status != Pending {
        return Some(NotPending);
      }
      if !Unchanged(snap, docs, id) {
        return Some(SerializationFailure);
      }
      docs := SetStatus(docs, id, if approve then Verified else Rejected);
      if approve && p.Some? && p.value in docs && docs[p.value].provider == provider
         && docs[p.value].status == Verified {
        docs := SetStatus(docs, p.value, Superseded);
      }
      r := None;
    }
  }
}
