/** The store calls the module makes to write one artifact: which calls are
    made, in which order, and what each leaves in the case, given how each
    call turned out. The case's request log records these calls, so the
    handlers' contracts can say that a call was made even when it failed. */
module Storing {
  import opened Text
  import opened Evidence
  import opened CaseStore
  import opened AttachmentRelay

  /** How the store calls for one artifact turned out: the id newArtifact
      returned (None: it threw), whether addAttributes succeeded, what
      addRelationships reported and whether indexing succeeded. A field
      matters only when the calls before it succeeded. */
  datatype StoreOutcome = StoreOutcome(art: Option<nat>, attributesOk: bool, rel: RelOutcome, indexedOk: bool)

  /** The artifact was created and its attributes were stored. */
  predicate Filled(o: StoreOutcome)
  {
    o.art.Some? && o.attributesOk
  }

  /** newArtifact, then addAttributes when newArtifact returned an artifact. */
  function CreationRequests(fileId: nat, t: ArtifactType, o: StoreOutcome): seq<Request>
  {
    [ArtifactRequest(fileId, t, o.art)] + (if o.art.Some? then [AttributesRequest(o.art.value, o.attributesOk)] else [])
  }

  /** The artifact the creation calls leave in the case: none when
      newArtifact threw, bare when addAttributes threw. */
  function CreatedArtifact(fileId: nat, t: ArtifactType, attrs: seq<Attribute>, o: StoreOutcome): seq<Artifact>
  {
    if o.art.Some? then [Artifact(o.art.value, fileId, t, if o.attributesOk then attrs else [])] else []
  }

  /** The store calls of addEmailArtifact after its account attempts: the
      artifact, its attributes and, once they are stored, the message
      relationship. Indexing follows when the relationship is added. */
  function MessageRequests(fileId: nat, o: StoreOutcome): seq<Request>
  {
    CreationRequests(fileId, EmailMsg, o)
      + (if Filled(o) then [RelationshipRequest(o.art.value, MessageRelationship, o.rel)] else [])
  }

  /** The message relationship was added, so the artifact is indexed. */
  predicate Related(o: StoreOutcome)
  {
    Filled(o) && o.rel == RelAdded
  }

  /** The store calls of the processEmails loop, one message after the
      other. */
  function MessagesRequests(fileId: nat, os: seq<StoreOutcome>): seq<Request>
    decreases |os|
  {
    if os == [] then [] else MessagesRequests(fileId, os[..|os| - 1]) + MessageRequests(fileId, os[|os| - 1])
  }

  /** The requests are those of n messages stored one after the other. */
  ghost predicate StoresEach(fileId: nat, rs: seq<Request>, n: nat)
  {
    exists os :: |os| == n && rs == MessagesRequests(fileId, os)
  }

  /** The store calls of addContactArtifact after its account attempts: the
      lookup for an equal contact; when it answers that there is none, the
      artifact and its attributes; once they are stored and there is a
      device account, the contact relationship. */
  function ContactRequests(fileId: nat, answer: Option<bool>, hasDevice: bool, o: StoreOutcome): seq<Request>
  {
    [ExistsRequest(fileId, Contact, answer)]
      + if answer == Some(false) then
          CreationRequests(fileId, Contact, o)
            + (if Filled(o) && hasDevice then [RelationshipRequest(o.art.value, ContactRelationship, o.rel)] else [])
        else []
  }

  /** The contact was created with its attributes; it is then indexed unless
      adding its relationship failed with a core error. */
  predicate ContactIndexedTried(answer: Option<bool>, hasDevice: bool, o: StoreOutcome)
  {
    answer == Some(false) && Filled(o) && (!hasDevice || o.rel != RelCoreError)
  }

  /** The number of newArtifact calls for artifacts of type t. */
  function ArtifactRequestCount(rs: seq<Request>, t: ArtifactType): nat
    decreases |rs|
  {
    if rs == [] then 0
    else ArtifactRequestCount(rs[..|rs| - 1], t) + (if rs[|rs| - 1].ArtifactRequest? && rs[|rs| - 1].artifactType == t then 1 else 0)
  }

  lemma {:induction false} ArtifactRequestCountAppend(a: seq<Request>, b: seq<Request>, t: ArtifactType)
    ensures ArtifactRequestCount(a + b, t) == ArtifactRequestCount(a, t) + ArtifactRequestCount(b, t)
    decreases |b|
  {
    if b == [] {
      assert a + b == a;
    } else {
      assert (a + b)[..|a + b| - 1] == a + b[..|b| - 1];
      ArtifactRequestCountAppend(a, b[..|b| - 1], t);
    }
  }

  /** Storing a message always asks for exactly one e-mail artifact, and
      for no other kind. */
  lemma MessageRequestsOneArtifact(fileId: nat, o: StoreOutcome, t: ArtifactType)
    ensures ArtifactRequestCount(MessageRequests(fileId, o), t) == if t == EmailMsg then 1 else 0
  {
    var tail := if o.art.Some? then [AttributesRequest(o.art.value, o.attributesOk)] else [];
    var rel := if Filled(o) then [RelationshipRequest(o.art.value, MessageRelationship, o.rel)] else [];
    assert MessageRequests(fileId, o) == [ArtifactRequest(fileId, EmailMsg, o.art)] + tail + rel;
    ArtifactRequestCountAppend([ArtifactRequest(fileId, EmailMsg, o.art)] + tail, rel, t);
    ArtifactRequestCountAppend([ArtifactRequest(fileId, EmailMsg, o.art)], tail, t);
    assert ([] + [ArtifactRequest(fileId, EmailMsg, o.art)])[..0] == [];
  }

  /** The relationship of a message is asked for exactly when its artifact
      was created and its attributes were stored; it is never asked for
      twice. */
  lemma MessageRelationshipRequested(fileId: nat, o: StoreOutcome, r: Request)
    requires r.RelationshipRequest?
    ensures r in MessageRequests(fileId, o) <==> Filled(o) && r == RelationshipRequest(o.art.value, MessageRelationship, o.rel)
  {
  }

  /** Extending the loop by one message extends its requests by that
      message's. */
  lemma MessagesRequestsSnoc(fileId: nat, os: seq<StoreOutcome>, o: StoreOutcome)
    ensures MessagesRequests(fileId, os + [o]) == MessagesRequests(fileId, os) + MessageRequests(fileId, o)
  {
    assert (os + [o])[..|os|] == os;
  }

  /** processEmails asks for one e-mail artifact per message, and for no
      other kind. */
  lemma {:induction false} MessagesRequestsCount(fileId: nat, os: seq<StoreOutcome>, t: ArtifactType)
    ensures ArtifactRequestCount(MessagesRequests(fileId, os), t) == if t == EmailMsg then |os| else 0
    decreases |os|
  {
    if os != [] {
      MessagesRequestsCount(fileId, os[..|os| - 1], t);
      ArtifactRequestCountAppend(MessagesRequests(fileId, os[..|os| - 1]), MessageRequests(fileId, os[|os| - 1]), t);
      MessageRequestsOneArtifact(fileId, os[|os| - 1], t);
    }
  }

  /** Requests that store n messages hold exactly n e-mail artifact
      requests. */
  lemma StoresEachCount(fileId: nat, rs: seq<Request>, n: nat)
    requires StoresEach(fileId, rs, n)
    ensures ArtifactRequestCount(rs, EmailMsg) == n
  {
    var os :| |os| == n && rs == MessagesRequests(fileId, os);
    MessagesRequestsCount(fileId, os, EmailMsg);
  }

  /** A contact artifact is asked for exactly once when the lookup answers
      that no equal contact exists, and never otherwise: a failed lookup
      and an existing contact both skip the creation. */
  lemma ContactCreatedIffAbsent(fileId: nat, answer: Option<bool>, hasDevice: bool, o: StoreOutcome)
    ensures ArtifactRequestCount(ContactRequests(fileId, answer, hasDevice, o), Contact)
      == if answer == Some(false) then 1 else 0
  {
    var head := [ExistsRequest(fileId, Contact, answer)];
    assert ArtifactRequestCount(head, Contact) == 0 by {
      assert head[..0] == [];
    }
    if answer == Some(false) {
      var tail := if o.art.Some? then [AttributesRequest(o.art.value, o.attributesOk)] else [];
      var rel := if Filled(o) && hasDevice then [RelationshipRequest(o.art.value, ContactRelationship, o.rel)] else [];
      var make := [ArtifactRequest(fileId, Contact, o.art)];
      assert ContactRequests(fileId, answer, hasDevice, o) == head + (make + tail + rel);
      ArtifactRequestCountAppend(head, make + tail + rel, Contact);
      ArtifactRequestCountAppend(make + tail, rel, Contact);
      ArtifactRequestCountAppend(make, tail, Contact);
      assert make[..0] == [];
    } else {
      assert ContactRequests(fileId, answer, hasDevice, o) == head;
    }
  }

  /** The attachments of one message are handed to handleAttachments exactly
      when its artifact was created and it has attachments. */
  predicate Relays(email: EmailMessage, o: StoreOutcome)
  {
    o.art.Some? && email.hasAttachment
  }

  /** The registration outcomes of one message: one per attachment when its
      attachments are handled, none otherwise. */
  predicate RelayFits(email: EmailMessage, o: StoreOutcome, ok: seq<bool>)
  {
    |ok| == if Relays(email, o) then |email.attachments| else 0
  }

  /** The derived files one pass of the processEmails loop adds to the
      batch. */
  function MessageFiles(email: EmailMessage, o: StoreOutcome, ok: seq<bool>): seq<DerivedFile>
    requires RelayFits(email, o, ok)
  {
    if Relays(email, o) then Registered(email.attachments, o.art.value, ok) else []
  }

  /** The notices one pass posts: the index failure of the message, then the
      failures of its attachments. */
  function MessageNoticesOf(fileName: string, email: EmailMessage, o: StoreOutcome, ok: seq<bool>): seq<Notice>
    requires RelayFits(email, o, ok)
  {
    (if Related(o) && !o.indexedOk then [IndexFailed(o.art.value)] else [])
      + (if Relays(email, o) then FailureNotices(fileName, email.attachments, ok) else [])
  }

  /** The first |os| messages have been handled: each has one store outcome
      and one list of registration outcomes that fits it. */
  predicate OutcomesFit(emails: seq<EmailMessage>, os: seq<StoreOutcome>, oks: seq<seq<bool>>)
  {
    |os| <= |emails| && |oks| == |os|
    && forall i :: 0 <= i < |os| ==> RelayFits(emails[i], os[i], oks[i])
  }

  /** The batch processEmails hands to addFilesToJob after the first |os|
      messages: the derived files of each of them, in message order. */
  function BatchFiles(emails: seq<EmailMessage>, os: seq<StoreOutcome>, oks: seq<seq<bool>>): seq<DerivedFile>
    requires OutcomesFit(emails, os, oks)
    decreases |os|
  {
    if os == [] then []
    else
      var n := |os| - 1;
      BatchFiles(emails, os[..n], oks[..n]) + MessageFiles(emails[n], os[n], oks[n])
  }

  /** The notices of the first |os| messages, in message order. */
  function BatchNotices(fileName: string, emails: seq<EmailMessage>, os: seq<StoreOutcome>, oks: seq<seq<bool>>): seq<Notice>
    requires OutcomesFit(emails, os, oks)
    decreases |os|
  {
    if os == [] then []
    else
      var n := |os| - 1;
      BatchNotices(fileName, emails, os[..n], oks[..n]) + MessageNoticesOf(fileName, emails[n], os[n], oks[n])
  }

  /** The requests store the given messages one after the other, and the
      batches added are the one batch of their relayed attachments. */
  ghost predicate StoresMessages(fileId: nat, emails: seq<EmailMessage>, rs: seq<Request>, batches: seq<seq<DerivedFile>>)
  {
    exists os, oks :: |os| == |emails| && OutcomesFit(emails, os, oks) && rs == MessagesRequests(fileId, os)
      && batches == [BatchFiles(emails, os, oks)]
  }

  /** Storing the messages stores each of them: one e-mail artifact request
      per message. */
  lemma StoresMessagesEach(fileId: nat, emails: seq<EmailMessage>, rs: seq<Request>, batches: seq<seq<DerivedFile>>)
    requires StoresMessages(fileId, emails, rs, batches)
    ensures StoresEach(fileId, rs, |emails|) && |batches| == 1
    ensures ArtifactRequestCount(rs, EmailMsg) == |emails|
  {
    var os, oks :| |os| == |emails| && OutcomesFit(emails, os, oks) && rs == MessagesRequests(fileId, os)
      && batches == [BatchFiles(emails, os, oks)];
    StoresEachCount(fileId, rs, |emails|);
  }

  /** One more message extends the batch and the notices by its own. */
  lemma BatchStep(fileName: string, emails: seq<EmailMessage>, os: seq<StoreOutcome>, oks: seq<seq<bool>>,
                  o: StoreOutcome, ok: seq<bool>)
    requires OutcomesFit(emails, os, oks) && |os| < |emails| && RelayFits(emails[|os|], o, ok)
    ensures OutcomesFit(emails, os + [o], oks + [ok])
    ensures BatchFiles(emails, os + [o], oks + [ok]) == BatchFiles(emails, os, oks) + MessageFiles(emails[|os|], o, ok)
    ensures BatchNotices(fileName, emails, os + [o], oks + [ok])
      == BatchNotices(fileName, emails, os, oks) + MessageNoticesOf(fileName, emails[|os|], o, ok)
  {
    assert (os + [o])[..|os|] == os;
    assert (oks + [ok])[..|os|] == oks;
  }

  /** Messages without attachments relay nothing: the batch is empty. */
  lemma {:induction false} BatchWithoutAttachments(emails: seq<EmailMessage>, os: seq<StoreOutcome>, oks: seq<seq<bool>>)
    requires OutcomesFit(emails, os, oks)
    requires forall i :: 0 <= i < |emails| ==> !emails[i].hasAttachment
    ensures BatchFiles(emails, os, oks) == []
    decreases |os|
  {
    if os != [] {
      var n := |os| - 1;
      BatchWithoutAttachments(emails, os[..n], oks[..n]);
    }
  }

  /** Only index and attachment failures are reported by the loop. */
  lemma {:induction false} BatchNoticesKind(fileName: string, emails: seq<EmailMessage>, os: seq<StoreOutcome>, oks: seq<seq<bool>>)
    requires OutcomesFit(emails, os, oks)
    ensures forall n :: n in BatchNotices(fileName, emails, os, oks) ==> n.IndexFailed? || n.AttachmentFailed?
    decreases |os|
  {
    if os != [] {
      var n := |os| - 1;
      BatchNoticesKind(fileName, emails, os[..n], oks[..n]);
      if Relays(emails[n], os[n]) {
        FailureNoticesKind(fileName, emails[n].attachments, oks[n]);
      }
    }
  }

  /** d is the derived file of the j-th attachment of the i-th message,
      whose artifact was created and whose registration succeeded. */
  predicate RelayedAt(emails: seq<EmailMessage>, os: seq<StoreOutcome>, oks: seq<seq<bool>>, i: int, j: int, d: DerivedFile)
  {
    0 <= i < |os| && i < |emails| && i < |oks| && Relays(emails[i], os[i])
    && 0 <= j < |oks[i]| && j < |emails[i].attachments| && oks[i][j]
    && d == DerivedFileOf(emails[i].attachments[j], os[i].art.value)
  }

  /** A file is in the batch exactly when it is the derived file of a
      successfully registered attachment of a message whose artifact was
      created, under that artifact: every message's relayed attachments are
      in the one batch, and nothing else is. */
  lemma {:induction false} BatchMembers(emails: seq<EmailMessage>, os: seq<StoreOutcome>, oks: seq<seq<bool>>, d: DerivedFile)
    requires OutcomesFit(emails, os, oks)
    ensures d in BatchFiles(emails, os, oks) <==> exists i, j :: RelayedAt(emails, os, oks, i, j, d)
    decreases |os|
  {
    if os != [] {
      var n := |os| - 1;
      var frontOs, frontOks := os[..n], oks[..n];
      BatchMembers(emails, frontOs, frontOks, d);
      forall i, j ensures RelayedAt(emails, frontOs, frontOks, i, j, d) <==> i < n && RelayedAt(emails, os, oks, i, j, d) {
        if 0 <= i < n {
          assert frontOs[i] == os[i] && frontOks[i] == oks[i];
        }
      }
      var last := MessageFiles(emails[n], os[n], oks[n]);
      if Relays(emails[n], os[n]) {
        RegisteredMembers(emails[n].attachments, os[n].art.value, oks[n], d);
        if d in last {
          var j :| 0 <= j < |emails[n].attachments| && oks[n][j] && d == DerivedFileOf(emails[n].attachments[j], os[n].art.value);
          assert RelayedAt(emails, os, oks, n, j, d);
        }
      }
      if exists i, j :: RelayedAt(emails, os, oks, i, j, d) {
        var i, j :| RelayedAt(emails, os, oks, i, j, d);
        if i == n {
          assert d in last;
        } else {
          assert RelayedAt(emails, frontOs, frontOks, i, j, d);
        }
      }
    }
  }
}
