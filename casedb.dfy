/** The case the module writes into: the blackboard (artifacts and their
    attributes, keyword indexing), the communications manager (accounts and
    relationships), the file manager (derived files), the message inbox and
    the scratch directory. Every store call may fail; each method below says
    what the store looks like afterwards in either case. */
module CaseStore {
  import opened Text
  import opened Evidence

  /** The accounts whose instance creation succeeded, in call order. */
  function Resolved(log: seq<Attempt>): (r: seq<Account>)
    ensures |r| <= |log|
  {
    if log == [] then []
    else Resolved(log[..|log| - 1]) + (if log[|log| - 1].ok then [log[|log| - 1].account] else [])
  }

  /** The accounts attempted, in call order. */
  function Attempted(log: seq<Attempt>): (r: seq<Account>)
    ensures |r| == |log|
    ensures forall i :: 0 <= i < |log| ==> r[i] == log[i].account
  {
    seq(|log|, i requires 0 <= i < |log| => log[i].account)
  }

  function Failures(log: seq<Attempt>): nat
  {
    if log == [] then 0 else Failures(log[..|log| - 1]) + (if log[|log| - 1].ok then 0 else 1)
  }

  lemma {:induction false} ResolvedAppend(a: seq<Attempt>, b: seq<Attempt>)
    ensures Resolved(a + b) == Resolved(a) + Resolved(b)
    ensures Failures(a + b) == Failures(a) + Failures(b)
    decreases |b|
  {
    if b == [] {
      assert a + b == a;
    } else {
      var b' := b[..|b| - 1];
      assert (a + b)[..|a + b| - 1] == a + b';
      ResolvedAppend(a, b');
    }
  }

  /** A failed attempt removes only its own account: every other attempt's
      account is kept, in order. */
  lemma {:induction false} ResolvedCount(log: seq<Attempt>)
    ensures |Resolved(log)| == |log| - Failures(log)
  {
    if log != [] {
      ResolvedCount(log[..|log| - 1]);
    }
  }

  /** An account is resolved exactly when some attempt for it succeeded. */
  lemma {:induction false} ResolvedMembers(log: seq<Attempt>, x: Account)
    ensures x in Resolved(log) <==> exists i :: 0 <= i < |log| && log[i].ok && log[i].account == x
  {
    if log != [] {
      var init := log[..|log| - 1];
      ResolvedMembers(init, x);
      if x in Resolved(init) {
        var i :| 0 <= i < |init| && init[i].ok && init[i].account == x;
        assert log[i] == init[i];
      }
      if exists i :: 0 <= i < |log| && log[i].ok && log[i].account == x {
        var i :| 0 <= i < |log| && log[i].ok && log[i].account == x;
        if i < |init| { assert init[i] == log[i]; }
      }
    }
  }

  /** When every attempt succeeds nothing is lost. */
  lemma {:induction false} AllSucceed(log: seq<Attempt>)
    requires forall i :: 0 <= i < |log| ==> log[i].ok
    ensures Resolved(log) == Attempted(log)
  {
    if log != [] {
      AllSucceed(log[..|log| - 1]);
      assert Attempted(log) == Attempted(log[..|log| - 1]) + [log[|log| - 1].account];
    }
  }

  lemma AttemptedAppend(a: seq<Attempt>, b: seq<Attempt>)
    ensures Attempted(a + b) == Attempted(a) + Attempted(b)
  {
    assert forall i :: 0 <= i < |b| ==> (a + b)[|a| + i] == b[i];
  }

  /** The instance a single optional attempt leaves behind: null when the
      attempt was not made or failed. */
  function Instance(attempts: seq<Attempt>): (r: Option<Account>)
    ensures r.Some? <==> |attempts| == 1 && attempts[0].ok
    ensures r.Some? ==> Resolved(attempts) == [r.value]
  {
    if |attempts| == 1 && attempts[0].ok then Some(attempts[0].account) else None
  }

  /** Blackboard.artifactExists as this model takes it: an artifact of the
      same file and type already carries every one of the attributes. */
  predicate ArtifactExists(artifacts: seq<Artifact>, fileId: nat, t: ArtifactType, attrs: seq<Attribute>)
  {
    exists k :: 0 <= k < |artifacts| && artifacts[k].fileId == fileId && artifacts[k].artifactType == t
      && (forall a :: a in attrs ==> a in artifacts[k].attributes)
  }

  /** Once an artifact with these attributes is stored, it is found. */
  lemma StoredArtifactIsFound(artifacts: seq<Artifact>, art: Artifact)
    ensures ArtifactExists(artifacts + [art], art.fileId, art.artifactType, art.attributes)
  {
    assert (artifacts + [art])[|artifacts|] == art;
  }

  /** What addRelationships reports. */
  datatype RelOutcome = RelAdded | RelDataError | RelCoreError

  /** A store call whose failure leaves no other trace in the case, with how
      it turned out: writeToFile, artifactExists (None: it threw),
      newArtifact (None: it threw), addAttributes and addRelationships. */
  datatype Request =
    | WriteRequest(path: string, ok: bool)
    | ExistsRequest(fileId: nat, artifactType: ArtifactType, answer: Option<bool>)
    | ArtifactRequest(fileId: nat, artifactType: ArtifactType, id: Option<nat>)
    | AttributesRequest(artifact: nat, ok: bool)
    | RelationshipRequest(artifact: nat, relType: RelationshipType, outcome: RelOutcome)

  /** The ingest job's context: the batches of files handed back for
      ingest. */
  class JobContext {
    var batches: seq<seq<DerivedFile>>

    constructor ()
      ensures batches == []
    {
      batches := [];
    }

    /** IngestJobContext.addFilesToJob. */
    method AddFilesToJob(files: seq<DerivedFile>)
      modifies this
      ensures batches == old(batches) + [files]
    {
      batches := batches + [files];
    }
  }

  class CaseServices {
    /** The case temp directory. */
    const tempDirectory: string
    var artifacts: seq<Artifact>
    var accountLog: seq<Attempt>
    var relationships: seq<Relationship>
    var derivedFiles: seq<DerivedFile>
    var indexed: seq<nat>
    var notices: seq<Notice>
    var tempFiles: set<string>
    /** Every path File.delete was called on, in order. */
    var deleteAttempts: seq<string>
    /** Every call that may fail without another trace, in order. */
    var requests: seq<Request>

    /** The evidence written to the case, everything but notices and
        scratch files. */
    ghost function Records(): (seq<Artifact>, seq<Attempt>, seq<Relationship>, seq<DerivedFile>, seq<nat>)
      reads this
    {
      (artifacts, accountLog, relationships, derivedFiles, indexed)
    }

    ghost predicate Valid()
      reads this`artifacts
    {
      forall k :: 0 <= k < |artifacts| ==> artifacts[k].id == k
    }

    constructor (tempDirectory: string)
      ensures Valid()
      ensures this.tempDirectory == tempDirectory
      ensures artifacts == [] && accountLog == [] && relationships == []
      ensures derivedFiles == [] && indexed == [] && notices == [] && tempFiles == {}
      ensures deleteAttempts == [] && requests == []
    {
      this.tempDirectory := tempDirectory;
      artifacts, accountLog, relationships := [], [], [];
      derivedFiles, indexed, notices, tempFiles := [], [], [], {};
      deleteAttempts, requests := [], [];
    }

    /** CommunicationsManager.createAccountFileInstance. */
    method CreateAccountFileInstance(account: Account) returns (ok: bool)
      modifies this`accountLog
      ensures accountLog == old(accountLog) + [Attempt(account, ok)]
    {
      ok := *;
      accountLog := accountLog + [Attempt(account, ok)];
    }

    /** AbstractFile.newArtifact: a new artifact with no attributes. */
    method NewArtifact(fileId: nat, t: ArtifactType) returns (id: Option<nat>)
      requires Valid()
      modifies this`artifacts, this`requests
      ensures Valid()
      ensures requests == old(requests) + [ArtifactRequest(fileId, t, id)]
      ensures id.Some? ==> id.value == |old(artifacts)| && artifacts == old(artifacts) + [Artifact(id.value, fileId, t, [])]
      ensures id.None? ==> artifacts == old(artifacts)
    {
      var ok: bool := *;
      if ok {
        id := Some(|artifacts|);
        artifacts := artifacts + [Artifact(|artifacts|, fileId, t, [])];
      } else {
        id := None;
      }
      requests := requests + [ArtifactRequest(fileId, t, id)];
    }

    /** BlackboardArtifact.addAttributes. */
    method AddAttributes(id: nat, attrs: seq<Attribute>) returns (ok: bool)
      requires Valid() && id < |artifacts|
      modifies this`artifacts, this`requests
      ensures Valid()
      ensures requests == old(requests) + [AttributesRequest(id, ok)]
      ensures artifacts == if ok then old(artifacts)[id := old(artifacts)[id].(attributes := old(artifacts)[id].attributes + attrs)]
                           else old(artifacts)
    {
      ok := *;
      if ok {
        artifacts := artifacts[id := artifacts[id].(attributes := artifacts[id].attributes + attrs)];
      }
      requests := requests + [AttributesRequest(id, ok)];
    }

    /** Blackboard.artifactExists; None when it throws. */
    method QueryArtifactExists(fileId: nat, t: ArtifactType, attrs: seq<Attribute>) returns (r: Option<bool>)
      modifies this`requests
      ensures requests == old(requests) + [ExistsRequest(fileId, t, r)]
      ensures r.Some? ==> r.value == ArtifactExists(artifacts, fileId, t, attrs)
    {
      var ok: bool := *;
      r := if ok then Some(ArtifactExists(artifacts, fileId, t, attrs)) else None;
      requests := requests + [ExistsRequest(fileId, t, r)];
    }

    /** CommunicationsManager.addRelationships. */
    method AddRelationships(sender: Option<Account>, targets: seq<Account>, artifact: nat,
                            t: RelationshipType, timestamp: int) returns (outcome: RelOutcome)
      modifies this`relationships, this`requests
      ensures requests == old(requests) + [RelationshipRequest(artifact, t, outcome)]
      ensures relationships == if outcome == RelAdded
        then old(relationships) + [Relationship(sender, targets, artifact, t, timestamp)]
        else old(relationships)
    {
      outcome := *;
      if outcome == RelAdded {
        relationships := relationships + [Relationship(sender, targets, artifact, t, timestamp)];
      }
      requests := requests + [RelationshipRequest(artifact, t, outcome)];
    }

    /** Blackboard.indexArtifact; a failure is reported to the user. */
    method IndexArtifact(id: nat) returns (ok: bool)
      modifies this`indexed, this`notices
      ensures indexed == if ok then old(indexed) + [id] else old(indexed)
      ensures notices == if ok then old(notices) else old(notices) + [IndexFailed(id)]
    {
      ok := *;
      if ok {
        indexed := indexed + [id];
      } else {
        notices := notices + [IndexFailed(id)];
      }
    }

    /** FileManager.addDerivedFile. */
    method AddDerivedFile(file: DerivedFile) returns (ok: bool)
      modifies this`derivedFiles
      ensures derivedFiles == if ok then old(derivedFiles) + [file] else old(derivedFiles)
    {
      ok := *;
      if ok {
        derivedFiles := derivedFiles + [file];
      }
    }

    /** IngestServices.postMessage. */
    method PostMessage(n: Notice)
      modifies this`notices
      ensures notices == old(notices) + [n]
    {
      notices := notices + [n];
    }

    /** ContentUtils.writeToFile. On failure a partial copy may be left. */
    method WriteToFile(path: string) returns (ok: bool)
      modifies this`tempFiles, this`requests
      ensures requests == old(requests) + [WriteRequest(path, ok)]
      ensures ok ==> tempFiles == old(tempFiles) + {path}
      ensures !ok ==> tempFiles == old(tempFiles) || tempFiles == old(tempFiles) + {path}
    {
      ok := *;
      var partial: bool := *;
      if ok || partial {
        tempFiles := tempFiles + {path};
      }
      requests := requests + [WriteRequest(path, ok)];
    }

    /** File.delete. */
    method Delete(path: string) returns (ok: bool)
      modifies this`tempFiles, this`deleteAttempts
      ensures deleteAttempts == old(deleteAttempts) + [path]
      ensures tempFiles == if ok then old(tempFiles) - {path} else old(tempFiles)
    {
      deleteAttempts := deleteAttempts + [path];
      ok := *;
      if ok {
        tempFiles := tempFiles - {path};
      }
    }
  }
}
