/** The format decision at the top of `process`: which files are skipped,
    and which of the mbox, PST and vCard handlers runs. */
module Dispatch {
  import opened Text
  import opened Evidence

  datatype Handler = NoHandler | MboxHandler | PstHandler | VcardHandler

  /** The outcome of abstractFile.read(t, 0, 64) into a fresh 64-byte buffer:
      the count it returned and the buffer afterwards, or TskException. */
  datatype Probe = ReadThrew | ReadBytes(count: int, buffer: seq<byte>)

  /** The three signature tests. MboxParser.isValidMimeTypeMbox looks at the
      64-byte buffer; PstParser.isPstFile and VcardParser.isVcardFile look at
      the file itself, so they appear here as their answers. */
  datatype Sniffers = Sniffers(mboxSignature: seq<byte> -> bool, isPst: bool, isVcard: bool)

  /** The number of bytes the module reads for the mbox test; a file must be
      strictly larger to be considered. */
  const ProbeSize: int := 64

  /** Known files, unallocated blocks, slack and non-files are skipped. */
  predicate Eligible(f: AbstractFile)
  {
    f.known != Known && f.fileType != UnallocBlocks && f.fileType != Slack && f.isFile
  }

  predicate LooksLikeMbox(f: AbstractFile, probe: Probe, sniff: Sniffers)
  {
    f.size > ProbeSize && probe.ReadBytes? && probe.count > 0 && sniff.mboxSignature(probe.buffer)
  }

  /** The handler `process` calls. */
  function Route(f: AbstractFile, probe: Probe, sniff: Sniffers): Handler
  {
    if !Eligible(f) then NoHandler
    else if LooksLikeMbox(f, probe, sniff) then MboxHandler
    else if sniff.isPst then PstHandler
    else if sniff.isVcard then VcardHandler
    else NoHandler
  }

  /** Every format whose own test accepts the file, in priority order. */
  function Candidates(f: AbstractFile, probe: Probe, sniff: Sniffers): (r: seq<Handler>)
    ensures NoHandler !in r
    ensures |r| <= 3
  {
    (if LooksLikeMbox(f, probe, sniff) then [MboxHandler] else [])
    + (if sniff.isPst then [PstHandler] else [])
    + (if sniff.isVcard then [VcardHandler] else [])
  }

  /** Dispatch is "first match wins" over the candidates of an eligible file,
      and a file with no candidate, or an ineligible one, gets no handler. */
  lemma RouteIsFirstCandidate(f: AbstractFile, probe: Probe, sniff: Sniffers)
    ensures var c := Candidates(f, probe, sniff);
      Route(f, probe, sniff) == if !Eligible(f) || c == [] then NoHandler else c[0]
  {
  }

  /** A file of 64 bytes or fewer is never taken for mbox, whatever its
      content, and a failed or empty read rules mbox out as well. */
  lemma SmallOrUnreadFileIsNotMbox(f: AbstractFile, probe: Probe, sniff: Sniffers)
    requires f.size <= ProbeSize || probe.ReadThrew? || (probe.ReadBytes? && probe.count <= 0)
    ensures Route(f, probe, sniff) != MboxHandler
  {
  }

  /** The mbox handler runs exactly when the file is eligible, larger than
      64 bytes, the read returned at least one byte and the signature test
      accepts the buffer. */
  lemma MboxChosenIff(f: AbstractFile, probe: Probe, sniff: Sniffers)
    ensures Route(f, probe, sniff) == MboxHandler <==>
      Eligible(f) && f.size > 64 && probe.ReadBytes? && probe.count > 0 && sniff.mboxSignature(probe.buffer)
  {
  }

  /** A file that also passes the PST or vCard test still goes to the mbox
      handler when it passes the mbox test; PST wins over vCard. */
  lemma PriorityOrder(f: AbstractFile, probe: Probe, sniff: Sniffers)
    requires Eligible(f)
    ensures LooksLikeMbox(f, probe, sniff) ==> Route(f, probe, sniff) == MboxHandler
    ensures !LooksLikeMbox(f, probe, sniff) && sniff.isPst ==> Route(f, probe, sniff) == PstHandler
    ensures !LooksLikeMbox(f, probe, sniff) && !sniff.isPst && sniff.isVcard ==> Route(f, probe, sniff) == VcardHandler
  {
  }

  /** Known, unallocated, slack and non-file inputs reach no handler. */
  lemma IneligibleIsSkipped(f: AbstractFile, probe: Probe, sniff: Sniffers)
    requires f.known == Known || f.fileType == UnallocBlocks || f.fileType == Slack || !f.isFile
    ensures Route(f, probe, sniff) == NoHandler
  {
  }
}
