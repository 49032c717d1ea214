/** handleAttachments: every attachment of a message is registered as a
    derived file under the message artifact; an attachment whose
    registration fails is reported and skipped, the others are kept in
    order. */
module AttachmentRelay {
  import opened Evidence

  /** The derived file addDerivedFile is asked to create for an attachment.
      The four times are passed in the order cTime, crTime, aTime, mTime. */
  function DerivedFileOf(a: Attachment, parent: nat): DerivedFile
  {
    DerivedFile(a.name, a.localPath, a.size, a.cTime, a.crTime, a.aTime, a.mTime, parent, a.encoding)
  }

  /** Every attachment relayed, as when no registration fails. */
  function AllFiles(atts: seq<Attachment>, parent: nat): (r: seq<DerivedFile>)
    ensures |r| == |atts|
  {
    seq(|atts|, i requires 0 <= i < |atts| => DerivedFileOf(atts[i], parent))
  }

  /** The files returned when the i-th registration succeeds exactly when
      ok[i]. */
  function Registered(atts: seq<Attachment>, parent: nat, ok: seq<bool>): seq<DerivedFile>
    requires |ok| == |atts|
    decreases |atts|
  {
    if atts == [] then []
    else
      var n := |atts| - 1;
      Registered(atts[..n], parent, ok[..n]) + (if ok[n] then [DerivedFileOf(atts[n], parent)] else [])
  }

  /** The notices posted for the failed registrations, in order. */
  function FailureNotices(fileName: string, atts: seq<Attachment>, ok: seq<bool>): seq<Notice>
    requires |ok| == |atts|
    decreases |atts|
  {
    if atts == [] then []
    else
      var n := |atts| - 1;
      FailureNotices(fileName, atts[..n], ok[..n]) + (if ok[n] then [] else [AttachmentFailed(fileName, atts[n].name)])
  }

  /** One more attachment handled: the returned files and the notices each
      grow by that attachment's part. */
  lemma RelayStep(fileName: string, atts: seq<Attachment>, parent: nat, ok: seq<bool>, i: nat, added: bool)
    requires i < |atts| && |ok| == i
    ensures Registered(atts[..i + 1], parent, ok + [added])
      == Registered(atts[..i], parent, ok) + (if added then [DerivedFileOf(atts[i], parent)] else [])
    ensures FailureNotices(fileName, atts[..i + 1], ok + [added])
      == FailureNotices(fileName, atts[..i], ok) + (if added then [] else [AttachmentFailed(fileName, atts[i].name)])
  {
    assert atts[..i + 1][..i] == atts[..i];
    assert (ok + [added])[..i] == ok;
  }

  /** Each attachment is either returned or reported, never both, never
      neither. */
  lemma {:induction false} EveryAttachmentAccounted(fileName: string, atts: seq<Attachment>, parent: nat, ok: seq<bool>)
    requires |ok| == |atts|
    ensures |Registered(atts, parent, ok)| + |FailureNotices(fileName, atts, ok)| == |atts|
  {
    if atts != [] {
      var n := |atts| - 1;
      EveryAttachmentAccounted(fileName, atts[..n], parent, ok[..n]);
    }
  }

  lemma {:induction false} RegisteredAppend(a: seq<Attachment>, okA: seq<bool>, b: seq<Attachment>, okB: seq<bool>, parent: nat)
    requires |okA| == |a| && |okB| == |b|
    ensures Registered(a + b, parent, okA + okB) == Registered(a, parent, okA) + Registered(b, parent, okB)
    decreases |b|
  {
    if b == [] {
      assert a + b == a && okA + okB == okA;
    } else {
      var n := |b| - 1;
      assert (a + b)[..|a + b| - 1] == a + b[..n];
      assert (okA + okB)[..|okA + okB| - 1] == okA + okB[..n];
      RegisteredAppend(a, okA, b[..n], okB[..n], parent);
    }
  }

  /** With no failure every attachment is returned, in order. */
  lemma {:induction false} NoFailureKeepsAll(atts: seq<Attachment>, parent: nat, ok: seq<bool>)
    requires |ok| == |atts|
    requires forall i :: 0 <= i < |ok| ==> ok[i]
    ensures Registered(atts, parent, ok) == AllFiles(atts, parent)
    decreases |atts|
  {
    if atts != [] {
      var n := |atts| - 1;
      NoFailureKeepsAll(atts[..n], parent, ok[..n]);
      assert AllFiles(atts, parent) == AllFiles(atts[..n], parent) + [DerivedFileOf(atts[n], parent)];
    }
  }

  /** Splitting the attachments around position k splits the result. */
  lemma RegisteredAround(atts: seq<Attachment>, parent: nat, ok: seq<bool>, k: nat)
    requires |ok| == |atts| && k < |atts|
    ensures Registered(atts, parent, ok) == Registered(atts[..k], parent, ok[..k])
      + Registered([atts[k]], parent, [ok[k]]) + Registered(atts[k + 1..], parent, ok[k + 1..])
  {
    assert atts == atts[..k] + [atts[k]] + atts[k + 1..];
    assert ok == ok[..k] + [ok[k]] + ok[k + 1..];
    RegisteredAppend(atts[..k], ok[..k], [atts[k]], [ok[k]], parent);
    RegisteredAppend(atts[..k] + [atts[k]], ok[..k] + [ok[k]], atts[k + 1..], ok[k + 1..], parent);
  }

  /** A single failed registration drops that attachment and nothing else:
      the ones before and after it are returned in their order. */
  lemma OneFailureSkipsOnlyIt(atts: seq<Attachment>, parent: nat, ok: seq<bool>, k: nat)
    requires |ok| == |atts| && k < |atts|
    requires !ok[k] && forall i :: 0 <= i < |ok| && i != k ==> ok[i]
    ensures Registered(atts, parent, ok) == AllFiles(atts[..k], parent) + AllFiles(atts[k + 1..], parent)
  {
    RegisteredAround(atts, parent, ok, k);
    assert Registered([atts[k]], parent, [ok[k]]) == [] by {
      assert [atts[k]][..0] == [];
    }
    var okBefore, okAfter := ok[..k], ok[k + 1..];
    forall i | 0 <= i < |okBefore| ensures okBefore[i] { assert okBefore[i] == ok[i]; }
    forall i | 0 <= i < |okAfter| ensures okAfter[i] { assert okAfter[i] == ok[k + 1 + i]; }
    NoFailureKeepsAll(atts[..k], parent, okBefore);
    NoFailureKeepsAll(atts[k + 1..], parent, okAfter);
    var front := Registered(atts[..k], parent, okBefore);
    assert front + [] == front;
  }

  /** A returned file is the derived file of an attachment whose
      registration succeeded, under the given message artifact. */
  lemma {:induction false} RegisteredMembers(atts: seq<Attachment>, parent: nat, ok: seq<bool>, d: DerivedFile)
    requires |ok| == |atts|
    ensures d in Registered(atts, parent, ok) <==>
      exists i :: 0 <= i < |atts| && ok[i] && d == DerivedFileOf(atts[i], parent)
    ensures d in Registered(atts, parent, ok) ==> d.parentArtifact == parent
    decreases |atts|
  {
    if atts != [] {
      var n := |atts| - 1;
      RegisteredMembers(atts[..n], parent, ok[..n], d);
      if exists i :: 0 <= i < n && ok[..n][i] && d == DerivedFileOf(atts[..n][i], parent) {
        var i :| 0 <= i < n && ok[..n][i] && d == DerivedFileOf(atts[..n][i], parent);
        assert ok[i] && atts[i] == atts[..n][i];
      }
      if exists i :: 0 <= i < |atts| && ok[i] && d == DerivedFileOf(atts[i], parent) {
        var i :| 0 <= i < |atts| && ok[i] && d == DerivedFileOf(atts[i], parent);
        if i < n { assert ok[..n][i] && atts[..n][i] == atts[i]; }
      }
    }
  }

  /** Only attachment notices are posted. */
  lemma {:induction false} FailureNoticesKind(fileName: string, atts: seq<Attachment>, ok: seq<bool>)
    requires |ok| == |atts|
    ensures forall n :: n in FailureNotices(fileName, atts, ok) ==> n.AttachmentFailed? && n.fileName == fileName
    decreases |atts|
  {
    if atts != [] {
      var n := |atts| - 1;
      FailureNoticesKind(fileName, atts[..n], ok[..n]);
    }
  }
}
