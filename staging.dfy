/** What each handler decides before it parses: whether there is room for
    the scratch copy, the scratch file's name, and (for mbox) the e-mail
    folder derived from the file's parent path. */
module Staging {
  import opened Text
  import opened Evidence

  /** IngestMonitor.DISK_FREE_SPACE_UNKNOWN. */
  const DiskFreeSpaceUnknown: int := -1

  /** The guard each handler applies before copying: an unknown free space
      lets the copy proceed; otherwise the file must be strictly smaller
      than the free space. */
  predicate HasRoom(freeSpace: int, size: int)
  {
    freeSpace == DiskFreeSpaceUnknown || size < freeSpace
  }

  lemma UnknownSpaceAlwaysCopies(size: int)
    ensures HasRoom(DiskFreeSpaceUnknown, size)
  {
  }

  lemma {:induction false} NoRoomIff(freeSpace: int, size: int)
    ensures !HasRoom(freeSpace, size) <==> freeSpace != DiskFreeSpaceUnknown && size >= freeSpace
  {
  }

  /** getTempPath: the case temp directory plus "EmailParser". */
  function TempPath(caseTempDir: string): string
  {
    caseTempDir + "/" + "EmailParser"
  }

  /** The scratch copy's path: temp path, file name, "-", file id. */
  function TempFileName(caseTempDir: string, f: AbstractFile): (r: string)
    ensures |r| > |TempPath(caseTempDir)| + 1
    ensures r[..|TempPath(caseTempDir)| + 1] == TempPath(caseTempDir) + "/"
  {
    TempPath(caseTempDir) + "/" + f.name + "-" + NatToString(f.id)
  }

  /** If p1 + "-" + d1 == p2 + "-" + d2 and neither d contains "-", the two
      splits are the same. */
  lemma SplitAtLastDash(p1: string, d1: string, p2: string, d2: string)
    requires p1 + "-" + d1 == p2 + "-" + d2
    requires '-' !in d1 && '-' !in d2
    ensures p1 == p2 && d1 == d2
  {
    var s := p1 + "-" + d1;
    if |d1| < |d2| {
      DashPosition(p1, d1, p2, d2);
    } else if |d2| < |d1| {
      DashPosition(p2, d2, p1, d1);
    }
    assert d1 == s[|s| - |d1|..];
    assert p1 == s[..|p1|];
  }

  /** The dash of the shorter split falls inside the longer split's tail. */
  lemma DashPosition(p1: string, d1: string, p2: string, d2: string)
    requires p1 + "-" + d1 == p2 + "-" + d2
    requires |d1| < |d2|
    ensures '-' in d2
  {
    var s := p1 + "-" + d1;
    var k := |p1|;
    assert s[k] == '-';
    assert (p2 + "-" + d2)[k] == d2[k - |p2| - 1];
  }

  lemma DigitsHaveNoDash(n: nat)
    ensures '-' !in NatToString(n)
  {
  }

  /** Two files with different ids never share a scratch copy, whatever
      their names. */
  lemma TempFileNameUnique(dir: string, f: AbstractFile, g: AbstractFile)
    requires TempFileName(dir, f) == TempFileName(dir, g)
    ensures f.id == g.id && f.name == g.name
  {
    DigitsHaveNoDash(f.id);
    DigitsHaveNoDash(g.id);
    assert (TempPath(dir) + "/" + f.name) + "-" + NatToString(f.id)
        == (TempPath(dir) + "/" + g.name) + "-" + NatToString(g.id);
    SplitAtLastDash(TempPath(dir) + "/" + f.name, NatToString(f.id), TempPath(dir) + "/" + g.name, NatToString(g.id));
    NatToStringInjective(f.id, g.id);
    var pre := TempPath(dir) + "/";
    assert f.name == (pre + f.name)[|pre|..];
    assert g.name == (pre + g.name)[|pre|..];
  }

  /** Characters the regex "." does not match (java.util.regex line
      terminators). */
  predicate LineTerminator(c: char)
  {
    c == '\n' || c == '\r' || c == '\U{0085}' || c == '\U{2028}' || c == '\U{2029}'
  }

  /** Whether the regex ".sbd" matches at position i of s. */
  predicate SbdAt(s: string, i: nat)
  {
    i + 4 <= |s| && !LineTerminator(s[i]) && s[i + 1..i + 4] == "sbd"
  }

  /** String.replaceAll(".sbd", ""): scanning left to right, every
      non-overlapping match of any character followed by "sbd" is removed. */
  function RemoveSbd(s: string): (r: string)
    ensures |r| <= |s|
    decreases |s|
  {
    if |s| < 4 then s
    else if SbdAt(s, 0) then RemoveSbd(s[4..])
    else [s[0]] + RemoveSbd(s[1..])
  }

  /** A string with no "sbd" in it passes through unchanged. */
  lemma {:induction false} RemoveSbdKeepsPlainText(s: string)
    requires forall i :: 0 <= i <= |s| ==> !OccursAt(s, "sbd", i)
    ensures RemoveSbd(s) == s
    decreases |s|
  {
    if |s| >= 4 {
      assert !SbdAt(s, 0) by { assert !OccursAt(s, "sbd", 1); }
      forall i | 0 <= i <= |s[1..]| ensures !OccursAt(s[1..], "sbd", i) {
        assert !OccursAt(s, "sbd", i + 1);
        if i + 3 <= |s[1..]| { assert s[1..][i..i + 3] == s[i + 1..i + 4]; }
      }
      RemoveSbdKeepsPlainText(s[1..]);
    }
  }

  /** r is s with some non-overlapping matches of ".sbd" cut out whole and
      every other character kept, in order. */
  predicate CutsMatches(s: string, r: string)
    decreases |s|
  {
    if s == [] then r == []
    else
      var cut := SbdAt(s, 0) && CutsMatches(s[4..], r);
      var kept := r != [] && r[0] == s[0] && CutsMatches(s[1..], r[1..]);
      cut || kept
  }

  /** Cutting nothing is one way of cutting matches. */
  lemma {:induction false} CutsNothing(s: string)
    ensures CutsMatches(s, s)
    decreases |s|
  {
    if s != [] {
      CutsNothing(s[1..]);
    }
  }

  /** Only whole four-character matches are cut; everything else is kept in
      order. So the length drops by a multiple of four. */
  lemma {:induction false} RemoveSbdCutsWholeMatches(s: string)
    ensures CutsMatches(s, RemoveSbd(s))
    ensures (|s| - |RemoveSbd(s)|) % 4 == 0
    decreases |s|
  {
    if |s| < 4 {
      CutsNothing(s);
    } else if SbdAt(s, 0) {
      RemoveSbdCutsWholeMatches(s[4..]);
    } else {
      RemoveSbdCutsWholeMatches(s[1..]);
      var r := RemoveSbd(s);
      assert r == [s[0]] + RemoveSbd(s[1..]);
      assert r[1..] == RemoveSbd(s[1..]);
    }
  }

  /** The part of the parent path that names the e-mail folder: after the
      first "/Mail/" keeping its final slash, otherwise after the first
      "/ImapMail/" likewise, otherwise nothing. */
  function FolderBase(parentPath: string): string
  {
    match IndexOf(parentPath, "/Mail/")
    case Some(i) => parentPath[i + 5..]
    case None =>
      match IndexOf(parentPath, "/ImapMail/")
      case Some(j) => parentPath[j + 9..]
      case None => ""
  }

  /** The folder handed to MboxParser. */
  function EmailFolder(parentPath: string, fileName: string): string
  {
    RemoveSbd(FolderBase(parentPath) + fileName)
  }

  /** When "/Mail/" occurs, the folder base is what follows its first
      occurrence, starting with "/"; "/ImapMail/" is consulted only when
      "/Mail/" does not occur. */
  lemma FolderBaseAfterMarker(parentPath: string)
    ensures IndexOf(parentPath, "/Mail/").Some? ==>
      var i := IndexOf(parentPath, "/Mail/").value;
      parentPath == parentPath[..i] + "/Mail" + FolderBase(parentPath) && FolderBase(parentPath)[0] == '/'
    ensures IndexOf(parentPath, "/Mail/").None? && IndexOf(parentPath, "/ImapMail/").Some? ==>
      var j := IndexOf(parentPath, "/ImapMail/").value;
      parentPath == parentPath[..j] + "/ImapMail" + FolderBase(parentPath) && FolderBase(parentPath)[0] == '/'
    ensures IndexOf(parentPath, "/Mail/").None? && IndexOf(parentPath, "/ImapMail/").None? ==>
      FolderBase(parentPath) == ""
  {
    match IndexOf(parentPath, "/Mail/")
    case Some(i) => SplitAtMarker(parentPath, "/Mail/", i);
    case None =>
      match IndexOf(parentPath, "/ImapMail/")
      case Some(j) => SplitAtMarker(parentPath, "/ImapMail/", j);
      case None =>
  }

  /** A path holding a marker that ends in "/" splits into what precedes the
      marker, the marker without that slash, and the rest from the slash on. */
  lemma SplitAtMarker(s: string, marker: string, i: nat)
    requires OccursAt(s, marker, i) && |marker| > 0 && marker[|marker| - 1] == '/'
    ensures var n := i + |marker| - 1;
      s == s[..i] + marker[..|marker| - 1] + s[n..] && s[n] == '/'
  {
    var n := i + |marker| - 1;
    assert s[i..n + 1] == marker;
    assert s[i..n] == marker[..|marker| - 1];
    assert s[n] == s[i..n + 1][|marker| - 1];
    assert s == s[..i] + s[i..n] + s[n..];
  }

  /** The unescaped "." matches any character but a line terminator, so
      that character is removed together with "sbd"; a line terminator
      before "sbd" is kept, and so is the "sbd". */
  lemma AnyCharacterBeforeSbdIsRemoved(c: char, t: string)
    ensures !LineTerminator(c) ==> RemoveSbd([c] + "sbd" + t) == RemoveSbd(t)
    ensures LineTerminator(c) ==> RemoveSbd([c] + "sbd") == [c] + "sbd"
  {
    var s := [c] + "sbd" + t;
    assert s[1..4] == "sbd";
    assert s[4..] == t;
  }
}
