/** The evidence addEmailArtifact builds for one message: the attribute
    list, which accounts it tries to create, and what it links. */
module MessageEvidence {
  import opened Text
  import opened Evidence
  import opened Attributes

  /** The message-id text used when the parser has no id (the bundle key of
      the localised "not available" text). */
  const NotAvailable: string := "ThunderbirdMboxFileIngestModule.notAvail"

  /** The path stored when the message has no local path. */
  const PlaceholderPath: string := "/foo/bar"

  /** The message-id text: the decimal id, or the placeholder for a
      negative id. */
  function MessageIdText(id: int): (r: string)
    ensures r != ""
  {
    if id < 0 then NotAvailable else NatToString(id)
  }

  /** A non-negative id is recovered from its text, and the placeholder is
      never taken for an id. */
  lemma MessageIdRoundTrip(id: int)
    ensures id >= 0 ==> AllDigits(MessageIdText(id)) && ParseDecimal(MessageIdText(id)) == id
    ensures id < 0 <==> !AllDigits(MessageIdText(id))
  {
    if id >= 0 {
      ParseNatToString(id);
    } else {
      assert !IsDigit(NotAvailable[0]);
    }
  }

  function PathText(localPath: string): (r: string)
    ensures r != ""
    ensures localPath != "" ==> r == localPath
  {
    if localPath != "" then localPath else PlaceholderPath
  }

  /** The attributes addEmailArtifact collects, in the order it adds them. */
  function MessageAttributes(m: EmailMessage): seq<Attribute>
  {
    TextAttribute(m.headers, Headers)
    + TextAttribute(m.sender, EmailFrom)
    + TextAttribute(m.recipients, EmailTo)
    + TextAttribute(m.subject, Subject)
    + LongAttribute(m.sentDate, DatetimeRcvd)
    + LongAttribute(m.sentDate, DatetimeSent)
    + TextAttribute(m.textBody, EmailContentPlain)
    + TextAttribute(MessageIdText(m.id), MsgId)
    + TextAttribute(PathText(m.localPath), Path)
    + TextAttribute(m.cc, EmailCc)
    + TextAttribute(m.htmlBody, EmailContentHtml)
    + TextAttribute(m.rtfBody, EmailContentRtf)
  }

  /** What reading attribute t back from the stored message yields. */
  function Expected(m: EmailMessage, t: AttrType): Option<AttrValue>
  {
    match t
    case Headers => TextValue(m.headers)
    case EmailFrom => TextValue(m.sender)
    case EmailTo => TextValue(m.recipients)
    case Subject => TextValue(m.subject)
    case DatetimeRcvd => LongValue(m.sentDate)
    case DatetimeSent => LongValue(m.sentDate)
    case EmailContentPlain => TextValue(m.textBody)
    case MsgId => Some(Text(MessageIdText(m.id)))
    case Path => Some(Text(PathText(m.localPath)))
    case EmailCc => TextValue(m.cc)
    case EmailContentHtml => TextValue(m.htmlBody)
    case EmailContentRtf => TextValue(m.rtfBody)
    case _ => None
  }

  function TextValue(s: string): Option<AttrValue>
  {
    if s == "" then None else Some(Text(s))
  }

  function LongValue(n: int): Option<AttrValue>
  {
    if n > 0 then Some(Long(n)) else None
  }

  lemma FindText(s: string, u: AttrType, t: AttrType)
    ensures Find(TextAttribute(s, u), t) == if u == t then TextValue(s) else None
  {
  }

  /** Round trip: reading any attribute type back from the stored list gives
      the message's field when it is non-empty (positive for the date) and
      nothing otherwise; the id and path are always present, bcc never. */
  lemma {:induction false} MessageAttributesRoundTrip(m: EmailMessage, t: AttrType)
    ensures Find(MessageAttributes(m), t) == Expected(m, t)
  {
    var q1 := TextAttribute(m.headers, Headers);
    FindText(m.headers, Headers, t);
    var q2 := FindTextAfter(q1, m.sender, EmailFrom, t);
    var q3 := FindTextAfter(q2, m.recipients, EmailTo, t);
    var q4 := FindTextAfter(q3, m.subject, Subject, t);
    var q5 := FindLongAfter(q4, m.sentDate, DatetimeRcvd, t);
    var q6 := FindLongAfter(q5, m.sentDate, DatetimeSent, t);
    var q7 := FindTextAfter(q6, m.textBody, EmailContentPlain, t);
    var q8 := FindTextAfter(q7, MessageIdText(m.id), MsgId, t);
    var q9 := FindTextAfter(q8, PathText(m.localPath), Path, t);
    var q10 := FindTextAfter(q9, m.cc, EmailCc, t);
    var q11 := FindTextAfter(q10, m.htmlBody, EmailContentHtml, t);
    var q12 := FindTextAfter(q11, m.rtfBody, EmailContentRtf, t);
    assert q12 == MessageAttributes(m);
  }

  /** Appending a text attribute of type u leaves a lookup of t unchanged
      unless the earlier list has none and u is t. */
  lemma FindTextAfter(a: seq<Attribute>, s: string, u: AttrType, t: AttrType) returns (r: seq<Attribute>)
    ensures r == a + TextAttribute(s, u)
    ensures Find(r, t) == if Find(a, t).Some? || u != t then Find(a, t) else TextValue(s)
  {
    r := a + TextAttribute(s, u);
    FindAppend(a, TextAttribute(s, u), t);
  }

  lemma FindLongAfter(a: seq<Attribute>, n: int, u: AttrType, t: AttrType) returns (r: seq<Attribute>)
    ensures r == a + LongAttribute(n, u)
    ensures Find(r, t) == if Find(a, t).Some? || u != t then Find(a, t) else LongValue(n)
  {
    r := a + LongAttribute(n, u);
    FindAppend(a, LongAttribute(n, u), t);
  }

  /** The received and sent times are the one sent date, and both are
      absent when it is not positive. */
  lemma ReceivedEqualsSent(m: EmailMessage)
    ensures Find(MessageAttributes(m), DatetimeRcvd) == Find(MessageAttributes(m), DatetimeSent)
    ensures Find(MessageAttributes(m), DatetimeSent) == if m.sentDate > 0 then Some(Long(m.sentDate)) else None
  {
    MessageAttributesRoundTrip(m, DatetimeRcvd);
    MessageAttributesRoundTrip(m, DatetimeSent);
  }

  /** Appending what one addArtifactAttribute call adds keeps a list sparse. */
  lemma SparseAfter(a: seq<Attribute>, b: seq<Attribute>) returns (r: seq<Attribute>)
    requires Sparse(a) && |b| <= 1 && (|b| == 1 ==> Storable(b[0].value))
    ensures r == a + b && Sparse(r)
  {
    r := a + b;
    SparseAppend(a, b);
  }

  /** No empty string or non-positive long is ever stored, and bcc never is. */
  lemma {:induction false} MessageAttributesSparse(m: EmailMessage)
    ensures Sparse(MessageAttributes(m))
    ensures forall a :: a in MessageAttributes(m) ==> a.attrType != EmailBcc
  {
    var q1 := TextAttribute(m.headers, Headers);
    var q2 := SparseAfter(q1, TextAttribute(m.sender, EmailFrom));
    var q3 := SparseAfter(q2, TextAttribute(m.recipients, EmailTo));
    var q4 := SparseAfter(q3, TextAttribute(m.subject, Subject));
    var q5 := SparseAfter(q4, LongAttribute(m.sentDate, DatetimeRcvd));
    var q6 := SparseAfter(q5, LongAttribute(m.sentDate, DatetimeSent));
    var q7 := SparseAfter(q6, TextAttribute(m.textBody, EmailContentPlain));
    var q8 := SparseAfter(q7, TextAttribute(MessageIdText(m.id), MsgId));
    var q9 := SparseAfter(q8, TextAttribute(PathText(m.localPath), Path));
    var q10 := SparseAfter(q9, TextAttribute(m.cc, EmailCc));
    var q11 := SparseAfter(q10, TextAttribute(m.htmlBody, EmailContentHtml));
    var q12 := SparseAfter(q11, TextAttribute(m.rtfBody, EmailContentRtf));
    assert q12 == MessageAttributes(m);
    MessageAttributesRoundTrip(m, EmailBcc);
    FindSound(MessageAttributes(m), EmailBcc);
  }

  /** The sender account the module tries: only when the From field yields
      exactly one address. */
  function SenderAccounts(senders: seq<string>): (r: seq<Account>)
    ensures |r| <= 1
    ensures |r| == 1 <==> |senders| == 1
  {
    if |senders| == 1 then [Account(EmailAccount, senders[0])] else []
  }

  /** One e-mail account attempt per address, in list order. */
  function EmailAccounts(addresses: seq<string>): (r: seq<Account>)
    ensures |r| == |addresses|
    ensures forall i :: 0 <= i < |r| ==> r[i] == Account(EmailAccount, addresses[i])
  {
    seq(|addresses|, i requires 0 <= i < |addresses| => Account(EmailAccount, addresses[i]))
  }
}
