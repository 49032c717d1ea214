/** ThunderbirdMboxFileIngestModule: the file ingest module that recognises
    mbox, PST and vCard files, copies each to the case's scratch directory,
    runs the matching parser and turns what it finds into e-mail, contact and
    encryption artifacts, accounts, relationships and derived files. */
module Ingest {
  import opened Text
  import opened Evidence
  import opened Attributes
  import opened Seqs
  import opened Dispatch
  import opened Staging
  import opened Addresses
  import opened MessageEvidence
  import opened ContactEvidence
  import opened AttachmentRelay
  import opened CaseStore
  import opened Builders
  import opened Storing

  /** What PstParser.parse reports. */
  datatype PstStatus = PstOk | PstEncrypted | PstFailed

  /** The PST parser's outcome, the messages it found and its error text. */
  datatype PstResult = PstResult(status: PstStatus, emails: seq<EmailMessage>, errors: string)

  /** The mbox parser's messages and error text. */
  datatype MboxResult = MboxResult(emails: seq<EmailMessage>, errors: string)

  /** The vCard parser's card, or the IOException it threw. */
  datatype VcardResult = VcardIoError | VcardParsed(card: VCard)

  /** The three parsers. The mbox parser is given the e-mail folder name. */
  datatype Parsers = Parsers(mbox: string -> MboxResult, pst: PstResult, vcard: VcardResult)

  /** The text of the name attribute on an encryption artifact (its bundle
      key). */
  const EncryptionFileLevel: string := "ThunderbirdMboxFileIngestModule.encryptionFileLevel"

  /** The one attribute of an encryption artifact: its name. */
  const EncryptionAttributes: seq<Attribute> := [Attribute(Name, Text(EncryptionFileLevel))]

  /** Notices addEmailArtifact and handleAttachments may post. */
  predicate MessageNotices(ns: seq<Notice>)
  {
    forall n :: n in ns ==> n.AttachmentFailed? || n.IndexFailed?
  }

  /** The parser-errors notice, posted only for a non-empty error text. */
  function ErrorsNotice(fileName: string, errors: string): seq<Notice>
  {
    if errors != "" then [ParserErrors(fileName, errors)] else []
  }

  /** The recipient list: the to, cc and bcc address sets each enumerated,
      one after the other. */
  ghost predicate RecipientsOf(m: Matcher, email: EmailMessage, r: seq<string>)
    requires ValidMatcher(m)
  {
    exists a, b, c :: Enumerates(a, AddressSet(m, email.recipients))
      && Enumerates(b, AddressSet(m, email.cc))
      && Enumerates(c, AddressSet(m, email.bcc))
      && r == a + b + c
  }

  /** An address is attempted once for each of the to, cc and bcc fields
      that contains it: repeats across fields are not removed. */
  lemma RecipientAttemptsPerField(m: Matcher, email: EmailMessage, r: seq<string>, x: string)
    requires ValidMatcher(m) && RecipientsOf(m, email, r)
    ensures multiset(r)[x] == (if x in AddressSet(m, email.recipients) then 1 else 0)
      + (if x in AddressSet(m, email.cc) then 1 else 0) + (if x in AddressSet(m, email.bcc) then 1 else 0)
  {
    var a, b, c :| Enumerates(a, AddressSet(m, email.recipients))
      && Enumerates(b, AddressSet(m, email.cc))
      && Enumerates(c, AddressSet(m, email.bcc))
      && r == a + b + c;
    RecipientOccurrences(a, AddressSet(m, email.recipients), b, AddressSet(m, email.cc), c, AddressSet(m, email.bcc), x);
  }

  /** The phone attempts followed by the e-mail attempts are the contact's
      account attempts, and their instances are the ones that resolved. */
  lemma JoinAttempts(v: VCard, phones: seq<Attempt>, emails: seq<Attempt>,
                     phoneInstances: seq<Account>, emailInstances: seq<Account>)
    requires Attempted(phones) == Concat(v.telephones, PhoneEntryAccount)
    requires Attempted(emails) == Concat(v.emails, EmailEntryAccount)
    requires phoneInstances == Resolved(phones) && emailInstances == Resolved(emails)
    ensures Attempted(phones + emails) == ContactAccounts(v)
    ensures phoneInstances + emailInstances == Resolved(phones + emails)
  {
    AttemptedAppend(phones, emails);
    ResolvedAppend(phones, emails);
  }

  /** The device account addContactArtifact tries, when the data source has
      a device id. */
  function DeviceAccounts(file: AbstractFile): seq<Account>
  {
    match file.deviceId
    case None => []
    case Some(d) => [Account(DeviceAccount, d)]
  }

  /** The requests are those of the encrypted-store branch of processPst. */
  ghost predicate FlagsEncryption(fileId: nat, rs: seq<Request>)
  {
    exists o :: rs == CreationRequests(fileId, EncryptionDetected, o)
  }

  /** The requests are those of storing the card's contact, after a lookup
      whose answer, when it gave one, was right about the artifacts before. */
  ghost predicate StoresContact(fileId: nat, rs: seq<Request>, before: seq<Artifact>, v: VCard)
  {
    exists answer, hasDevice, o :: rs == ContactRequests(fileId, answer, hasDevice, o)
      && (answer.Some? ==> answer.value == ArtifactExists(before, fileId, Contact, ContactAttributes(v)))
  }

  class IngestModule {
    /** The compiled address pattern. */
    const matcher: Matcher
    var context: JobContext?
    var fileManager: CaseServices?
    var blackboard: CaseServices?

    constructor (matcher: Matcher)
      requires ValidMatcher(matcher)
      ensures this.matcher == matcher
      ensures context == null && fileManager == null && blackboard == null
    {
      this.matcher := matcher;
      context, fileManager, blackboard := null, null, null;
    }

    /** startUp has run with an open case. */
    ghost predicate Ready()
      reads this
    {
      context != null && fileManager != null && ValidMatcher(matcher)
    }

    /** startUp: remembers the job context and takes the file manager of
        the open case; with no open case the module fails to start. */
    method StartUp(ctx: JobContext, currentCase: CaseServices?) returns (ok: bool)
      requires ValidMatcher(matcher)
      modifies this`context, this`fileManager
      ensures context == ctx
      ensures ok <==> currentCase != null
      ensures ok ==> fileManager == currentCase && Ready()
      ensures !ok ==> fileManager == old(fileManager)
    {
      context := ctx;
      if currentCase == null {
        return false;
      }
      fileManager := currentCase;
      ok := true;
    }

    /** process: takes the blackboard of the open case, skips the files the
        module does not handle, and dispatches to the first format whose
        test accepts the file: mbox (by its first bytes, read only from a
        file larger than the probe), then PST, then vCard. */
    method Process(file: AbstractFile, currentCase: CaseServices?, probe: Probe, sniff: Sniffers,
                   freeSpace: int, parsers: Parsers)
      returns (result: ProcessResult, ghost handler: Handler, ghost copied: bool)
      requires Ready()
      requires currentCase != null ==> currentCase == fileManager && currentCase.Valid()
      modifies this`blackboard, fileManager, context
      ensures currentCase == null ==>
        result == Error && blackboard == old(blackboard) && unchanged(fileManager) && unchanged(context)
      ensures currentCase != null ==> blackboard == currentCase && handler == Route(file, probe, sniff)
      ensures currentCase != null ==> currentCase.Valid()
      ensures result == Error <==> currentCase == null || (handler == PstHandler && copied && parsers.pst.status == PstFailed)
      ensures handler == NoHandler ==> unchanged(fileManager) && unchanged(context) && !copied
      ensures copied ==> currentCase != null && handler != NoHandler && HasRoom(freeSpace, file.size)
      ensures currentCase != null && handler != NoHandler && !HasRoom(freeSpace, file.size) ==>
        (currentCase.notices == old(currentCase.notices) + [OutOfDiskSpace(file.name)]
         && currentCase.tempFiles == old(currentCase.tempFiles))
      ensures currentCase != null && !copied ==>
        (currentCase.Records() == old(currentCase.Records())
         && currentCase.deleteAttempts == old(currentCase.deleteAttempts) && context.batches == old(context.batches))
      ensures copied ==>
        (currentCase.deleteAttempts == old(currentCase.deleteAttempts) + [TempFileName(currentCase.tempDirectory, file)]
         <==> !(handler == PstHandler && parsers.pst.status == PstFailed) && !(handler == VcardHandler && parsers.vcard.VcardIoError?))
      ensures copied && ((handler == PstHandler && parsers.pst.status == PstFailed) || (handler == VcardHandler && parsers.vcard.VcardIoError?)) ==>
        (TempFileName(currentCase.tempDirectory, file) in currentCase.tempFiles
         && currentCase.deleteAttempts == old(currentCase.deleteAttempts))
      ensures |context.batches| == |old(context.batches)|
        + (if copied && (handler == MboxHandler || (handler == PstHandler && parsers.pst.status == PstOk)) then 1 else 0)
      ensures currentCase != null && (handler == NoHandler || !HasRoom(freeSpace, file.size)) ==>
        currentCase.requests == old(currentCase.requests)
      ensures currentCase != null && handler != NoHandler && HasRoom(freeSpace, file.size) ==>
        |currentCase.requests| > |old(currentCase.requests)|
        && currentCase.requests[|old(currentCase.requests)|] == WriteRequest(TempFileName(currentCase.tempDirectory, file), copied)
      ensures copied && handler == MboxHandler ==>
        StoresMessages(file.id, parsers.mbox(EmailFolder(file.parentPath, file.name)).emails,
                       currentCase.requests[|old(currentCase.requests)| + 1..], context.batches[|old(context.batches)|..])
      ensures copied && handler == PstHandler && parsers.pst.status == PstOk ==>
        StoresMessages(file.id, parsers.pst.emails,
                       currentCase.requests[|old(currentCase.requests)| + 1..], context.batches[|old(context.batches)|..])
      ensures copied && handler == PstHandler && parsers.pst.status == PstEncrypted ==>
        FlagsEncryption(file.id, currentCase.requests[|old(currentCase.requests)| + 1..])
      ensures copied && handler == VcardHandler && parsers.vcard.VcardParsed? ==>
        StoresContact(file.id, currentCase.requests[|old(currentCase.requests)| + 1..],
                      old(currentCase.artifacts), parsers.vcard.card)
    {
      handler, copied := NoHandler, false;
      if currentCase == null {
        return Error, handler, copied;
      }
      blackboard := currentCase;
      if file.known == Known {
        return Ok, handler, copied;
      }
      if file.fileType == UnallocBlocks || file.fileType == Slack {
        return Ok, handler, copied;
      }
      if !file.isFile {
        return Ok, handler, copied;
      }
      var isMbox := false;
      if file.size > ProbeSize {
        match probe
        case ReadThrew =>
        case ReadBytes(count, buffer) =>
          if count > 0 {
            isMbox := sniff.mboxSignature(buffer);
          }
      }
      var chosen := NoHandler;
      if isMbox {
        chosen := MboxHandler;
      } else if sniff.isPst {
        chosen := PstHandler;
      } else if sniff.isVcard {
        chosen := VcardHandler;
      }
      handler := chosen;
      if chosen != NoHandler {
        result, copied := RunHandler(chosen, file, currentCase, freeSpace, parsers);
      } else {
        result := Ok;
      }
    }

    /** The handler process chose, run on the file: processMBox,
        processPst or processVcard. */
    method RunHandler(handler: Handler, file: AbstractFile, currentCase: CaseServices, freeSpace: int, parsers: Parsers)
      returns (result: ProcessResult, ghost copied: bool)
      requires Ready() && handler != NoHandler
      requires currentCase == fileManager && currentCase.Valid()
      modifies fileManager, context
      ensures currentCase.Valid()
      ensures result == Error <==> handler == PstHandler && copied && parsers.pst.status == PstFailed
      ensures copied ==> HasRoom(freeSpace, file.size)
      ensures !HasRoom(freeSpace, file.size) ==>
        currentCase.notices == old(currentCase.notices) + [OutOfDiskSpace(file.name)]
        && currentCase.tempFiles == old(currentCase.tempFiles) && currentCase.requests == old(currentCase.requests)
      ensures !copied ==>
        (currentCase.Records() == old(currentCase.Records())
         && currentCase.deleteAttempts == old(currentCase.deleteAttempts) && context.batches == old(context.batches))
      ensures copied ==>
        (currentCase.deleteAttempts == old(currentCase.deleteAttempts) + [TempFileName(currentCase.tempDirectory, file)]
         <==> !(handler == PstHandler && parsers.pst.status == PstFailed) && !(handler == VcardHandler && parsers.vcard.VcardIoError?))
      ensures copied && ((handler == PstHandler && parsers.pst.status == PstFailed) || (handler == VcardHandler && parsers.vcard.VcardIoError?)) ==>
        (TempFileName(currentCase.tempDirectory, file) in currentCase.tempFiles
         && currentCase.deleteAttempts == old(currentCase.deleteAttempts))
      ensures |context.batches| == |old(context.batches)|
        + (if copied && (handler == MboxHandler || (handler == PstHandler && parsers.pst.status == PstOk)) then 1 else 0)
      ensures HasRoom(freeSpace, file.size) ==>
        |currentCase.requests| > |old(currentCase.requests)|
        && currentCase.requests[|old(currentCase.requests)|] == WriteRequest(TempFileName(currentCase.tempDirectory, file), copied)
      ensures copied && handler == MboxHandler ==>
        StoresMessages(file.id, parsers.mbox(EmailFolder(file.parentPath, file.name)).emails,
                       currentCase.requests[|old(currentCase.requests)| + 1..], context.batches[|old(context.batches)|..])
      ensures copied && handler == PstHandler && parsers.pst.status == PstOk ==>
        StoresMessages(file.id, parsers.pst.emails,
                       currentCase.requests[|old(currentCase.requests)| + 1..], context.batches[|old(context.batches)|..])
      ensures copied && handler == PstHandler && parsers.pst.status == PstEncrypted ==>
        FlagsEncryption(file.id, currentCase.requests[|old(currentCase.requests)| + 1..])
      ensures copied && handler == VcardHandler && parsers.vcard.VcardParsed? ==>
        StoresContact(file.id, currentCase.requests[|old(currentCase.requests)| + 1..],
                      old(currentCase.artifacts), parsers.vcard.card)
    {
      if handler == MboxHandler {
        ghost var posted, outcomes, oks;
        result, copied, posted, outcomes, oks := ProcessMBox(file, currentCase, freeSpace, parsers);
        if copied {
          assert currentCase.requests[|old(currentCase.requests)| + 1..] == MessagesRequests(file.id, outcomes);
          assert context.batches[|old(context.batches)|..] == [BatchFiles(parsers.mbox(EmailFolder(file.parentPath, file.name)).emails, outcomes, oks)];
        }
      } else if handler == PstHandler {
        ghost var posted, outcomes, oks, flagged;
        result, copied, posted, outcomes, oks, flagged := ProcessPst(file, currentCase, freeSpace, parsers);
        if copied && parsers.pst.status == PstOk {
          assert currentCase.requests[|old(currentCase.requests)| + 1..] == MessagesRequests(file.id, outcomes);
          assert context.batches[|old(context.batches)|..] == [BatchFiles(parsers.pst.emails, outcomes, oks)];
        } else if copied && parsers.pst.status == PstEncrypted {
          assert currentCase.requests[|old(currentCase.requests)| + 1..] == CreationRequests(file.id, EncryptionDetected, flagged);
        }
      } else {
        ghost var answer, hasDevice, o;
        result, copied, answer, hasDevice, o := ProcessVcard(file, currentCase, freeSpace, parsers);
        if copied && parsers.vcard.VcardParsed? {
          assert currentCase.requests[|old(currentCase.requests)| + 1..] == ContactRequests(file.id, answer, hasDevice, o);
        }
      }
    }

    /** handleAttachments: each attachment is registered as a derived file of
        the message artifact; a failed registration is reported and skipped. */
    method HandleAttachments(atts: seq<Attachment>, file: AbstractFile, parent: nat, openCase: CaseServices)
      returns (files: seq<DerivedFile>, ghost ok: seq<bool>)
      modifies openCase`derivedFiles, openCase`notices
      ensures |ok| == |atts|
      ensures files == Registered(atts, parent, ok)
      ensures openCase.derivedFiles == old(openCase.derivedFiles) + files
      ensures openCase.notices == old(openCase.notices) + FailureNotices(file.name, atts, ok)
    {
      files, ok := [], [];
      ghost var reported: seq<Notice> := [];
      var i := 0;
      while i < |atts|
        invariant 0 <= i <= |atts| && |ok| == i
        invariant files == Registered(atts[..i], parent, ok)
        invariant reported == FailureNotices(file.name, atts[..i], ok)
        invariant openCase.derivedFiles == old(openCase.derivedFiles) + files
        invariant openCase.notices == old(openCase.notices) + reported
      {
        var added := RelayAttachment(atts[i], file.name, parent, openCase);
        RelayStep(file.name, atts, parent, ok, i, added);
        ghost var kept := if added then [DerivedFileOf(atts[i], parent)] else [];
        ghost var note := if added then [] else [AttachmentFailed(file.name, atts[i].name)];
        AppendAssociative(old(openCase.derivedFiles), files, kept);
        AppendAssociative(old(openCase.notices), reported, note);
        if added {
          files := files + [DerivedFileOf(atts[i], parent)];
        }
        reported := reported + note;
        ok := ok + [added];
        i := i + 1;
      }
      assert atts[..i] == atts;
    }

    /** One pass of the handleAttachments loop: the derived file is added,
        or the failure is reported. */
    method RelayAttachment(a: Attachment, fileName: string, parent: nat, openCase: CaseServices)
      returns (added: bool)
      modifies openCase`derivedFiles, openCase`notices
      ensures openCase.derivedFiles == old(openCase.derivedFiles) + (if added then [DerivedFileOf(a, parent)] else [])
      ensures openCase.notices == old(openCase.notices) + (if added then [] else [AttachmentFailed(fileName, a.name)])
    {
      added := openCase.AddDerivedFile(DerivedFileOf(a, parent));
      if !added {
        openCase.PostMessage(AttachmentFailed(fileName, a.name));
      } else {
        assert openCase.notices + [] == openCase.notices;
      }
      assert added ==> openCase.notices == old(openCase.notices) + [];
    }

    /** The attribute list of addEmailArtifact, built by the
        addArtifactAttribute calls in their order. */
    method MessageAttributeList(email: EmailMessage) returns (list: AttributeList)
      ensures fresh(list)
      ensures list.items == MessageAttributes(email)
    {
      list := new AttributeList();
      AddArtifactAttribute(email.headers, Headers, list);
      assert list.items == TextAttribute(email.headers, Headers);
      AddArtifactAttribute(email.sender, EmailFrom, list);
      AddArtifactAttribute(email.recipients, EmailTo, list);
      AddArtifactAttribute(email.subject, Subject, list);
      AddArtifactLongAttribute(email.sentDate, DatetimeRcvd, list);
      AddArtifactLongAttribute(email.sentDate, DatetimeSent, list);
      AddArtifactAttribute(email.textBody, EmailContentPlain, list);
      AddArtifactAttribute(MessageIdText(email.id), MsgId, list);
      AddArtifactAttribute(PathText(email.localPath), Path, list);
      AddArtifactAttribute(email.cc, EmailCc, list);
      AddArtifactAttribute(email.htmlBody, EmailContentHtml, list);
      AddArtifactAttribute(email.rtfBody, EmailContentRtf, list);
    }

    /** The sender step of addEmailArtifact: an account is tried only when
        the From field yields exactly one address. */
    method TrySender(senders: seq<string>, openCase: CaseServices)
      returns (instance: Option<Account>, ghost attempts: seq<Attempt>)
      modifies openCase`accountLog
      ensures openCase.accountLog == old(openCase.accountLog) + attempts
      ensures Attempted(attempts) == SenderAccounts(senders)
      ensures instance == Instance(attempts)
    {
      instance, attempts := None, [];
      if |senders| == 1 {
        var account := Account(EmailAccount, senders[0]);
        var ok := openCase.CreateAccountFileInstance(account);
        attempts := [Attempt(account, ok)];
        if ok {
          instance := Some(account);
        }
      }
    }

    /** The recipient list of addEmailArtifact: the to, cc and bcc addresses,
        each set listed in its own order. */
    method CollectRecipients(email: EmailMessage) returns (recipients: seq<string>)
      requires ValidMatcher(matcher)
      ensures RecipientsOf(matcher, email, recipients)
    {
      var toSet := FindEmailAddresses(email.recipients, matcher);
      var ccSet := FindEmailAddresses(email.cc, matcher);
      var bccSet := FindEmailAddresses(email.bcc, matcher);
      var toList := ToList(toSet);
      var ccList := ToList(ccSet);
      var bccList := ToList(bccSet);
      recipients := toList + ccList + bccList;
    }

    /** The storing step of addEmailArtifact: the artifact is kept even when
        its attributes could not be added, but the relationship is then
        skipped, and the artifact is indexed only once its relationship is
        added. */
    method StoreMessage(email: EmailMessage, file: AbstractFile, sender: Option<Account>,
                        targets: seq<Account>, openCase: CaseServices)
      returns (art: Option<nat>, ghost o: StoreOutcome)
      requires openCase.Valid()
      modifies openCase`artifacts, openCase`relationships, openCase`indexed, openCase`notices, openCase`requests
      ensures openCase.Valid()
      ensures art == o.art && (art.Some? ==> art.value == |old(openCase.artifacts)|)
      ensures openCase.requests == old(openCase.requests) + MessageRequests(file.id, o)
      ensures openCase.artifacts == old(openCase.artifacts) + CreatedArtifact(file.id, EmailMsg, MessageAttributes(email), o)
      ensures openCase.relationships == old(openCase.relationships)
        + (if Related(o) then [Relationship(sender, targets, o.art.value, MessageRelationship, email.sentDate)] else [])
      ensures openCase.indexed == old(openCase.indexed) + (if Related(o) && o.indexedOk then [o.art.value] else [])
      ensures openCase.notices == old(openCase.notices) + (if Related(o) && !o.indexedOk then [IndexFailed(o.art.value)] else [])
    {
      var list := MessageAttributeList(email);
      art := openCase.NewArtifact(file.id, EmailMsg);
      o := StoreOutcome(art, false, RelDataError, false);
      if art.Some? {
        ghost var before := openCase.artifacts;
        var stored := openCase.AddAttributes(art.value, list.items);
        o := o.(attributesOk := stored);
        if stored {
          assert [] + list.items == list.items;
          assert openCase.artifacts == before[..art.value] + [Artifact(art.value, file.id, EmailMsg, list.items)];
          var outcome := openCase.AddRelationships(sender, targets, art.value, MessageRelationship, email.sentDate);
          o := o.(rel := outcome);
          if outcome == RelAdded {
            var indexedOk := openCase.IndexArtifact(art.value);
            o := o.(indexedOk := indexedOk);
          }
        }
      }
    }

    /** addEmailArtifact: the sender account, one account per recipient, the
        message artifact, the relationship from the sender to the recipients
        whose accounts resolved, and the indexing. */
    method AddEmailArtifact(email: EmailMessage, file: AbstractFile, openCase: CaseServices)
      returns (art: Option<nat>, ghost senders: seq<string>, ghost recipients: seq<string>,
               ghost senderAttempts: seq<Attempt>, ghost recipientAttempts: seq<Attempt>, ghost o: StoreOutcome)
      requires ValidMatcher(matcher) && openCase.Valid()
      modifies openCase`accountLog, openCase`artifacts, openCase`relationships, openCase`indexed, openCase`notices,
               openCase`requests
      ensures openCase.Valid()
      ensures Enumerates(senders, AddressSet(matcher, email.sender))
      ensures RecipientsOf(matcher, email, recipients)
      ensures openCase.accountLog == old(openCase.accountLog) + senderAttempts + recipientAttempts
      ensures Attempted(senderAttempts) == SenderAccounts(senders)
      ensures Attempted(recipientAttempts) == EmailAccounts(recipients)
      ensures art == o.art && (art.Some? ==> art.value == |old(openCase.artifacts)|)
      ensures openCase.requests == old(openCase.requests) + MessageRequests(file.id, o)
      ensures openCase.artifacts == old(openCase.artifacts) + CreatedArtifact(file.id, EmailMsg, MessageAttributes(email), o)
      ensures openCase.relationships == old(openCase.relationships)
        + (if Related(o)
           then [Relationship(Instance(senderAttempts), Resolved(recipientAttempts), o.art.value, MessageRelationship, email.sentDate)]
           else [])
      ensures openCase.indexed == old(openCase.indexed) + (if Related(o) && o.indexedOk then [o.art.value] else [])
      ensures openCase.notices == old(openCase.notices) + (if Related(o) && !o.indexedOk then [IndexFailed(o.art.value)] else [])
    {
      var fromSet := FindEmailAddresses(email.sender, matcher);
      var senderList := ToList(fromSet);
      senders := senderList;
      var senderInstance;
      senderInstance, senderAttempts := TrySender(senderList, openCase);
      var recipientList := CollectRecipients(email);
      recipients := recipientList;
      var instances;
      instances, recipientAttempts := CreateEmailAccounts(recipientList, openCase);
      art, o := StoreMessage(email, file, senderInstance, instances, openCase);
    }

    /** The collecting half of addContactArtifact: the name, phone, e-mail,
        URL and organization attributes, and one account attempt per
        non-empty phone number and e-mail address. */
    method CollectContact(v: VCard, openCase: CaseServices)
      returns (list: AttributeList, instances: seq<Account>, ghost attempts: seq<Attempt>)
      modifies openCase`accountLog
      ensures fresh(list)
      ensures list.items == ContactAttributes(v)
      ensures openCase.accountLog == old(openCase.accountLog) + attempts
      ensures Attempted(attempts) == ContactAccounts(v)
      ensures instances == Resolved(attempts)
    {
      list := new AttributeList();
      AddArtifactAttribute(v.formattedName, NamePerson, list);
      assert list.items == TextAttribute(v.formattedName, NamePerson);
      var phoneInstances, phoneAttempts := AddTelephones(v.telephones, list, openCase);
      var emailInstances, emailAttempts := AddEmails(v.emails, list, openCase);
      AddUrls(v.urls, list);
      AddOrganizations(v.organizations, list);
      attempts := phoneAttempts + emailAttempts;
      instances := phoneInstances + emailInstances;
      JoinAttempts(v, phoneAttempts, emailAttempts, phoneInstances, emailInstances);
      AppendAssociative(old(openCase.accountLog), phoneAttempts, emailAttempts);
    }

    /** The device account of addContactArtifact, tried when the data source
        has a device id. */
    method TryDevice(file: AbstractFile, openCase: CaseServices)
      returns (instance: Option<Account>, ghost attempts: seq<Attempt>)
      modifies openCase`accountLog
      ensures openCase.accountLog == old(openCase.accountLog) + attempts
      ensures Attempted(attempts) == DeviceAccounts(file)
      ensures instance == Instance(attempts)
    {
      instance, attempts := None, [];
      if file.deviceId.Some? {
        var account := Account(DeviceAccount, file.deviceId.value);
        var ok := openCase.CreateAccountFileInstance(account);
        attempts := [Attempt(account, ok)];
        if ok {
          instance := Some(account);
        }
      }
    }

    /** The storing half of addContactArtifact. Nothing is written when an
        equal contact already exists or the lookup fails. The artifact is
        returned even when its attributes could not be added; the
        relationship and the indexing are then skipped. The relationship
        needs the device account, and a core failure while adding it skips
        the indexing, a data failure does not. */
    method StoreContact(attrs: seq<Attribute>, file: AbstractFile, device: Option<Account>,
                        targets: seq<Account>, openCase: CaseServices)
      returns (art: Option<nat>, ghost answer: Option<bool>, ghost o: StoreOutcome)
      requires openCase.Valid()
      modifies openCase`artifacts, openCase`relationships, openCase`indexed, openCase`notices, openCase`requests
      ensures openCase.Valid()
      ensures answer.Some? ==> answer.value == ArtifactExists(old(openCase.artifacts), file.id, Contact, attrs)
      ensures ArtifactExists(old(openCase.artifacts), file.id, Contact, attrs) ==>
        art.None? && openCase.artifacts == old(openCase.artifacts)
      ensures openCase.requests == old(openCase.requests) + ContactRequests(file.id, answer, device.Some?, o)
      ensures art == (if answer == Some(false) then o.art else None)
      ensures art.Some? ==> art.value == |old(openCase.artifacts)|
      ensures openCase.artifacts == old(openCase.artifacts)
        + (if answer == Some(false) then CreatedArtifact(file.id, Contact, attrs, o) else [])
      ensures openCase.relationships == old(openCase.relationships)
        + (if answer == Some(false) && Filled(o) && device.Some? && o.rel == RelAdded
           then [Relationship(device, targets, o.art.value, ContactRelationship, file.crtime)] else [])
      ensures openCase.indexed == old(openCase.indexed)
        + (if ContactIndexedTried(answer, device.Some?, o) && o.indexedOk then [o.art.value] else [])
      ensures openCase.notices == old(openCase.notices)
        + (if ContactIndexedTried(answer, device.Some?, o) && !o.indexedOk then [IndexFailed(o.art.value)] else [])
    {
      art := None;
      o := StoreOutcome(None, false, RelAdded, false);
      var found := openCase.QueryArtifactExists(file.id, Contact, attrs);
      answer := found;
      if found == Some(false) {
        art := openCase.NewArtifact(file.id, Contact);
        o := o.(art := art);
        if art.Some? {
          ghost var filled := FillContact(attrs, file, device, targets, art.value, openCase);
          o := filled;
          assert CreationRequests(file.id, Contact, o) == [ArtifactRequest(file.id, Contact, art)] + [AttributesRequest(art.value, o.attributesOk)];
        }
      }
    }

    /** The part of the storing half of addContactArtifact that follows the
        creation of the artifact: its attributes, then, once they are
        stored, the relationship from the device account when there is one,
        and the indexing unless the relationship failed with a core error. */
    method FillContact(attrs: seq<Attribute>, file: AbstractFile, device: Option<Account>,
                       targets: seq<Account>, id: nat, openCase: CaseServices) returns (ghost o: StoreOutcome)
      requires openCase.Valid() && |openCase.artifacts| == id + 1 && openCase.artifacts[id] == Artifact(id, file.id, Contact, [])
      modifies openCase`artifacts, openCase`relationships, openCase`indexed, openCase`notices, openCase`requests
      ensures openCase.Valid() && o.art == Some(id)
      ensures openCase.requests == old(openCase.requests) + [AttributesRequest(id, o.attributesOk)]
        + (if o.attributesOk && device.Some? then [RelationshipRequest(id, ContactRelationship, o.rel)] else [])
      ensures openCase.artifacts == old(openCase.artifacts)[..id] + [Artifact(id, file.id, Contact, if o.attributesOk then attrs else [])]
      ensures openCase.relationships == old(openCase.relationships)
        + (if o.attributesOk && device.Some? && o.rel == RelAdded
           then [Relationship(device, targets, id, ContactRelationship, file.crtime)] else [])
      ensures openCase.indexed == old(openCase.indexed)
        + (if ContactIndexedTried(Some(false), device.Some?, o) && o.indexedOk then [id] else [])
      ensures openCase.notices == old(openCase.notices)
        + (if ContactIndexedTried(Some(false), device.Some?, o) && !o.indexedOk then [IndexFailed(id)] else [])
    {
      var stored := openCase.AddAttributes(id, attrs);
      o := StoreOutcome(Some(id), stored, RelAdded, false);
      if stored {
        assert [] + attrs == attrs;
        var outcome := RelAdded;
        if device.Some? {
          outcome := openCase.AddRelationships(device, targets, id, ContactRelationship, file.crtime);
        }
        o := o.(rel := outcome);
        if outcome != RelCoreError {
          var indexedOk := openCase.IndexArtifact(id);
          o := o.(indexedOk := indexedOk);
        }
      }
    }

    /** addContactArtifact: the contact's attributes and accounts, the device
        account, and, unless an equal contact is already stored, the contact
        artifact, its relationship from the device and its indexing. */
    method AddContactArtifact(v: VCard, file: AbstractFile, openCase: CaseServices)
      returns (art: Option<nat>, ghost attempts: seq<Attempt>, ghost deviceAttempts: seq<Attempt>,
               ghost answer: Option<bool>, ghost o: StoreOutcome)
      requires openCase.Valid()
      modifies openCase`accountLog, openCase`artifacts, openCase`relationships, openCase`indexed, openCase`notices,
               openCase`requests
      ensures openCase.Valid()
      ensures openCase.accountLog == old(openCase.accountLog) + attempts + deviceAttempts
      ensures Attempted(attempts) == ContactAccounts(v)
      ensures Attempted(deviceAttempts) == DeviceAccounts(file)
      ensures answer.Some? ==> answer.value == ArtifactExists(old(openCase.artifacts), file.id, Contact, ContactAttributes(v))
      ensures ArtifactExists(old(openCase.artifacts), file.id, Contact, ContactAttributes(v)) ==>
        art.None? && openCase.artifacts == old(openCase.artifacts)
      ensures openCase.requests == old(openCase.requests)
        + ContactRequests(file.id, answer, Instance(deviceAttempts).Some?, o)
      ensures art == (if answer == Some(false) then o.art else None)
      ensures art.Some? ==> art.value == |old(openCase.artifacts)|
      ensures openCase.artifacts == old(openCase.artifacts)
        + (if answer == Some(false) then CreatedArtifact(file.id, Contact, ContactAttributes(v), o) else [])
      ensures openCase.relationships == old(openCase.relationships)
        + (if answer == Some(false) && Filled(o) && Instance(deviceAttempts).Some? && o.rel == RelAdded
           then [Relationship(Instance(deviceAttempts), Resolved(attempts), o.art.value, ContactRelationship, file.crtime)]
           else [])
      ensures openCase.indexed == old(openCase.indexed)
        + (if ContactIndexedTried(answer, Instance(deviceAttempts).Some?, o) && o.indexedOk then [o.art.value] else [])
      ensures openCase.notices == old(openCase.notices)
        + (if ContactIndexedTried(answer, Instance(deviceAttempts).Some?, o) && !o.indexedOk
           then [IndexFailed(o.art.value)] else [])
    {
      var list, instances;
      list, instances, attempts := CollectContact(v, openCase);
      var device;
      device, deviceAttempts := TryDevice(file, openCase);
      art, answer, o := StoreContact(list.items, file, device, instances, openCase);
    }

    /** One pass of the processEmails loop: the message artifact, then its
        attachments when it was created and the message has any. */
    method ProcessMessage(email: EmailMessage, file: AbstractFile, openCase: CaseServices)
      returns (files: seq<DerivedFile>, ghost o: StoreOutcome, ghost ok: seq<bool>, ghost posted: seq<Notice>)
      requires ValidMatcher(matcher) && openCase.Valid()
      modifies openCase`accountLog, openCase`artifacts, openCase`relationships, openCase`indexed,
               openCase`notices, openCase`derivedFiles, openCase`requests
      ensures openCase.Valid()
      ensures o.art.Some? ==> o.art.value == |old(openCase.artifacts)|
      ensures openCase.requests == old(openCase.requests) + MessageRequests(file.id, o)
      ensures openCase.artifacts == old(openCase.artifacts) + CreatedArtifact(file.id, EmailMsg, MessageAttributes(email), o)
      ensures RelayFits(email, o, ok) && files == MessageFiles(email, o, ok)
      ensures openCase.derivedFiles == old(openCase.derivedFiles) + files
      ensures forall d :: d in files ==> |old(openCase.artifacts)| <= d.parentArtifact < |openCase.artifacts|
      ensures posted == MessageNoticesOf(file.name, email, o, ok)
      ensures openCase.notices == old(openCase.notices) + posted && MessageNotices(posted)
    {
      var art, _, _, _, _, stored := AddEmailArtifact(email, file, openCase);
      o := stored;
      ghost var indexNotes := if Related(o) && !o.indexedOk then [IndexFailed(o.art.value)] else [];
      ghost var relayNotes;
      files, ok, relayNotes := RelayMessageAttachments(email, file, art, openCase);
      posted := indexNotes + relayNotes;
      AppendAssociative(old(openCase.notices), indexNotes, relayNotes);
    }

    /** The attachment step of the processEmails loop: handleAttachments runs
        only for a created artifact of a message that has attachments. */
    method RelayMessageAttachments(email: EmailMessage, file: AbstractFile, art: Option<nat>, openCase: CaseServices)
      returns (files: seq<DerivedFile>, ghost ok: seq<bool>, ghost posted: seq<Notice>)
      modifies openCase`derivedFiles, openCase`notices
      ensures openCase.derivedFiles == old(openCase.derivedFiles) + files
      ensures art.Some? && email.hasAttachment ==>
        |ok| == |email.attachments| && files == Registered(email.attachments, art.value, ok)
        && posted == FailureNotices(file.name, email.attachments, ok)
      ensures !(art.Some? && email.hasAttachment) ==> files == [] && posted == [] && ok == []
      ensures forall d :: d in files ==> art.Some? && d.parentArtifact == art.value
      ensures openCase.notices == old(openCase.notices) + posted
      ensures forall n :: n in posted ==> n.AttachmentFailed?
    {
      files, ok, posted := [], [], [];
      if art.Some? && email.hasAttachment {
        files, ok := HandleAttachments(email.attachments, file, art.value, openCase);
        posted := FailureNotices(file.name, email.attachments, ok);
        forall d | d in files
          ensures d.parentArtifact == art.value
        {
          RegisteredMembers(email.attachments, art.value, ok, d);
        }
        FailureNoticesKind(file.name, email.attachments, ok);
      } else {
        assert openCase.notices == old(openCase.notices) + [];
      }
    }

    /** processEmails: every message is stored in order; the attachments
        registered for all of them are added to the ingest job as one batch,
        which is submitted even when it is empty. */
    method ProcessEmails(emails: seq<EmailMessage>, file: AbstractFile, openCase: CaseServices)
      returns (ghost relayed: seq<DerivedFile>, ghost created: seq<Artifact>, ghost posted: seq<Notice>,
               ghost outcomes: seq<StoreOutcome>, ghost oks: seq<seq<bool>>)
      requires ValidMatcher(matcher) && context != null && openCase.Valid()
      modifies openCase`accountLog, openCase`artifacts, openCase`relationships, openCase`indexed,
               openCase`notices, openCase`derivedFiles, openCase`requests, context
      ensures openCase.Valid()
      ensures |outcomes| == |emails| && openCase.requests == old(openCase.requests) + MessagesRequests(file.id, outcomes)
      ensures openCase.artifacts == old(openCase.artifacts) + created && |created| <= |emails|
      ensures forall a :: a in created ==> a.artifactType == EmailMsg && a.fileId == file.id
      ensures forall k :: |old(openCase.artifacts)| <= k < |openCase.artifacts| ==>
        openCase.artifacts[k].artifactType == EmailMsg && openCase.artifacts[k].fileId == file.id
      ensures openCase.derivedFiles == old(openCase.derivedFiles) + relayed
      ensures context.batches == old(context.batches) + [relayed]
      ensures (forall i :: 0 <= i < |emails| ==> !emails[i].hasAttachment) ==> relayed == []
      ensures forall d :: d in relayed ==> |old(openCase.artifacts)| <= d.parentArtifact < |openCase.artifacts|
      ensures openCase.notices == old(openCase.notices) + posted && MessageNotices(posted)
      ensures OutcomesFit(emails, outcomes, oks) && relayed == BatchFiles(emails, outcomes, oks)
        && posted == BatchNotices(file.name, emails, outcomes, oks)
    {
      var derived: seq<DerivedFile> := [];
      created, posted, outcomes, oks := [], [], [], [];
      var i := 0;
      while i < |emails|
        invariant 0 <= i <= |emails| && openCase.Valid()
        invariant context.batches == old(context.batches)
        invariant |outcomes| == i && openCase.requests == old(openCase.requests) + MessagesRequests(file.id, outcomes)
        invariant openCase.artifacts == old(openCase.artifacts) + created && |created| <= i
        invariant forall a :: a in created ==> a.artifactType == EmailMsg && a.fileId == file.id
        invariant openCase.derivedFiles == old(openCase.derivedFiles) + derived
        invariant forall d :: d in derived ==> |old(openCase.artifacts)| <= d.parentArtifact < |openCase.artifacts|
        invariant openCase.notices == old(openCase.notices) + posted
        invariant OutcomesFit(emails, outcomes, oks) && derived == BatchFiles(emails, outcomes, oks)
          && posted == BatchNotices(file.name, emails, outcomes, oks)
      {
        var files, o, ok, notes := ProcessMessage(emails[i], file, openCase);
        BatchStep(file.name, emails, outcomes, oks, o, ok);
        ghost var step := CreatedArtifact(file.id, EmailMsg, MessageAttributes(emails[i]), o);
        MessagesRequestsSnoc(file.id, outcomes, o);
        AppendAssociative(old(openCase.requests), MessagesRequests(file.id, outcomes), MessageRequests(file.id, o));
        AppendAssociative(old(openCase.artifacts), created, step);
        AppendAssociative(old(openCase.derivedFiles), derived, files);
        AppendAssociative(old(openCase.notices), posted, notes);
        derived := derived + files;
        created := created + step;
        posted := posted + notes;
        outcomes := outcomes + [o];
        oks := oks + [ok];
        i := i + 1;
      }
      BatchNoticesKind(file.name, emails, outcomes, oks);
      if forall k :: 0 <= k < |emails| ==> !emails[k].hasAttachment {
        BatchWithoutAttachments(emails, outcomes, oks);
      }
      relayed := derived;
      context.AddFilesToJob(derived);
      AppendedTail(old(openCase.artifacts), created);
    }

    /** The copy step every handler starts with: the scratch file name, the
        free-space guard, which reports the shortage and gives up, and the
        write, whose failure also gives up. */
    method CopyToScratch(file: AbstractFile, openCase: CaseServices, freeSpace: int)
      returns (copied: bool, path: string)
      modifies openCase`notices, openCase`tempFiles, openCase`requests
      ensures path == TempFileName(openCase.tempDirectory, file)
      ensures copied ==> HasRoom(freeSpace, file.size)
      ensures !HasRoom(freeSpace, file.size) ==>
        openCase.notices == old(openCase.notices) + [OutOfDiskSpace(file.name)] && openCase.tempFiles == old(openCase.tempFiles)
        && openCase.requests == old(openCase.requests)
      ensures HasRoom(freeSpace, file.size) ==>
        openCase.notices == old(openCase.notices) && openCase.requests == old(openCase.requests) + [WriteRequest(path, copied)]
      ensures copied ==> openCase.tempFiles == old(openCase.tempFiles) + {path}
      ensures !copied ==> openCase.tempFiles == old(openCase.tempFiles) || openCase.tempFiles == old(openCase.tempFiles) + {path}
    {
      path := TempFileName(openCase.tempDirectory, file);
      if !HasRoom(freeSpace, file.size) {
        openCase.PostMessage(OutOfDiskSpace(file.name));
        return false, path;
      }
      copied := openCase.WriteToFile(path);
    }

    /** processMBox: the e-mail folder is derived from the parent path, the
        file is copied, parsed and its messages stored, the copy is deleted
        and the parser's errors, if any, are reported. */
    method ProcessMBox(file: AbstractFile, openCase: CaseServices, freeSpace: int, parsers: Parsers)
      returns (result: ProcessResult, ghost copied: bool, ghost posted: seq<Notice>, ghost outcomes: seq<StoreOutcome>,
               ghost oks: seq<seq<bool>>)
      requires ValidMatcher(matcher) && context != null && openCase.Valid()
      modifies openCase`accountLog, openCase`artifacts, openCase`relationships, openCase`indexed,
               openCase`notices, openCase`derivedFiles, openCase`tempFiles, openCase`deleteAttempts,
               openCase`requests, context
      ensures result == Ok && openCase.Valid()
      ensures copied ==> HasRoom(freeSpace, file.size)
      ensures !HasRoom(freeSpace, file.size) ==>
        openCase.notices == old(openCase.notices) + [OutOfDiskSpace(file.name)] && openCase.tempFiles == old(openCase.tempFiles)
        && openCase.requests == old(openCase.requests)
      ensures HasRoom(freeSpace, file.size) && !copied ==>
        openCase.requests == old(openCase.requests) + [WriteRequest(TempFileName(openCase.tempDirectory, file), false)]
      ensures !copied ==> (openCase.Records() == old(openCase.Records())
        && openCase.deleteAttempts == old(openCase.deleteAttempts) && context.batches == old(context.batches))
      ensures copied ==> openCase.deleteAttempts == old(openCase.deleteAttempts) + [TempFileName(openCase.tempDirectory, file)]
      ensures copied ==> (OutcomesFit(parsers.mbox(EmailFolder(file.parentPath, file.name)).emails, outcomes, oks)
        && context.batches == old(context.batches) + [BatchFiles(parsers.mbox(EmailFolder(file.parentPath, file.name)).emails, outcomes, oks)]
        && openCase.derivedFiles == old(openCase.derivedFiles) + BatchFiles(parsers.mbox(EmailFolder(file.parentPath, file.name)).emails, outcomes, oks)
        && posted == BatchNotices(file.name, parsers.mbox(EmailFolder(file.parentPath, file.name)).emails, outcomes, oks))
      ensures copied ==> (|outcomes| == |parsers.mbox(EmailFolder(file.parentPath, file.name)).emails|
        && openCase.requests == old(openCase.requests)
           + [WriteRequest(TempFileName(openCase.tempDirectory, file), true)] + MessagesRequests(file.id, outcomes))
      ensures copied ==> (old(openCase.artifacts) <= openCase.artifacts
        && |openCase.artifacts| <= |old(openCase.artifacts)| + |parsers.mbox(EmailFolder(file.parentPath, file.name)).emails|
        && (forall k :: |old(openCase.artifacts)| <= k < |openCase.artifacts| ==>
              openCase.artifacts[k].artifactType == EmailMsg && openCase.artifacts[k].fileId == file.id))
      ensures copied ==> (MessageNotices(posted) && openCase.notices == old(openCase.notices) + posted
        + ErrorsNotice(file.name, parsers.mbox(EmailFolder(file.parentPath, file.name)).errors))
    {
      var folder := EmailFolder(file.parentPath, file.name);
      var written, path := CopyToScratch(file, openCase, freeSpace);
      copied := written;
      posted, outcomes, oks := [], [], [];
      if !written {
        result := Ok;
        return;
      }
      var parsed := parsers.mbox(folder);
      var _, _, notes, stored, relays := ProcessEmails(parsed.emails, file, openCase);
      posted, outcomes, oks := notes, stored, relays;
      var deleted := openCase.Delete(path);
      if parsed.errors != "" {
        openCase.PostMessage(ParserErrors(file.name, parsed.errors));
      }
      result := Ok;
    }

    /** The encrypted-store branch of processPst: an encryption artifact
        named by the encryption-level text, indexed once the name is stored. */
    method FlagEncrypted(file: AbstractFile, openCase: CaseServices) returns (ghost o: StoreOutcome, ghost posted: seq<Notice>)
      requires openCase.Valid()
      modifies openCase`artifacts, openCase`indexed, openCase`notices, openCase`requests
      ensures openCase.Valid()
      ensures o.art.Some? ==> o.art.value == |old(openCase.artifacts)|
      ensures openCase.requests == old(openCase.requests) + CreationRequests(file.id, EncryptionDetected, o)
      ensures openCase.artifacts == old(openCase.artifacts) + CreatedArtifact(file.id, EncryptionDetected, EncryptionAttributes, o)
      ensures openCase.indexed == old(openCase.indexed) + (if Filled(o) && o.indexedOk then [o.art.value] else [])
      ensures posted == (if Filled(o) && !o.indexedOk then [IndexFailed(o.art.value)] else [])
      ensures openCase.notices == old(openCase.notices) + posted
      ensures forall n :: n in posted ==> n.IndexFailed?
    {
      posted := [];
      var art := openCase.NewArtifact(file.id, EncryptionDetected);
      o := StoreOutcome(art, false, RelDataError, false);
      if art.Some? {
        ghost var before := openCase.artifacts;
        var stored := openCase.AddAttributes(art.value, EncryptionAttributes);
        o := o.(attributesOk := stored);
        if stored {
          assert [] + EncryptionAttributes == EncryptionAttributes;
          assert openCase.artifacts == before[..art.value]
            + [Artifact(art.value, file.id, EncryptionDetected, EncryptionAttributes)];
          var indexedOk := openCase.IndexArtifact(art.value);
          o := o.(indexedOk := indexedOk);
          if !indexedOk {
            posted := [IndexFailed(art.value)];
          }
        }
      }
    }

    /** processPst: the file is copied and parsed; a readable store has its
        messages stored, an encrypted one gets an encryption artifact, and a
        store that cannot be parsed is reported and fails the file, leaving
        its copy behind. Otherwise the copy is deleted and the parser's
        errors, if any, are reported. */
    method ProcessPst(file: AbstractFile, openCase: CaseServices, freeSpace: int, parsers: Parsers)
      returns (result: ProcessResult, ghost copied: bool, ghost posted: seq<Notice>,
               ghost outcomes: seq<StoreOutcome>, ghost oks: seq<seq<bool>>, ghost flagged: StoreOutcome)
      requires ValidMatcher(matcher) && context != null && openCase.Valid()
      modifies openCase`accountLog, openCase`artifacts, openCase`relationships, openCase`indexed,
               openCase`notices, openCase`derivedFiles, openCase`tempFiles, openCase`deleteAttempts,
               openCase`requests, context
      ensures openCase.Valid()
      ensures result == Error <==> copied && parsers.pst.status == PstFailed
      ensures copied ==> HasRoom(freeSpace, file.size)
      ensures !HasRoom(freeSpace, file.size) ==>
        openCase.notices == old(openCase.notices) + [OutOfDiskSpace(file.name)] && openCase.tempFiles == old(openCase.tempFiles)
        && openCase.requests == old(openCase.requests)
      ensures HasRoom(freeSpace, file.size) && !copied ==>
        openCase.requests == old(openCase.requests) + [WriteRequest(TempFileName(openCase.tempDirectory, file), false)]
      ensures !copied || parsers.pst.status == PstFailed ==> (openCase.Records() == old(openCase.Records())
        && openCase.deleteAttempts == old(openCase.deleteAttempts) && context.batches == old(context.batches))
      ensures copied && parsers.pst.status == PstFailed ==>
        openCase.notices == old(openCase.notices) + [PstParseFailed(file.name)]
        && TempFileName(openCase.tempDirectory, file) in openCase.tempFiles
        && openCase.requests == old(openCase.requests) + [WriteRequest(TempFileName(openCase.tempDirectory, file), true)]
      ensures copied && parsers.pst.status != PstFailed ==>
        openCase.deleteAttempts == old(openCase.deleteAttempts) + [TempFileName(openCase.tempDirectory, file)]
        && openCase.notices == old(openCase.notices) + posted + ErrorsNotice(file.name, parsers.pst.errors)
        && MessageNotices(posted)
      ensures copied && parsers.pst.status == PstOk ==>
        OutcomesFit(parsers.pst.emails, outcomes, oks)
        && context.batches == old(context.batches) + [BatchFiles(parsers.pst.emails, outcomes, oks)]
        && openCase.derivedFiles == old(openCase.derivedFiles) + BatchFiles(parsers.pst.emails, outcomes, oks)
        && posted == BatchNotices(file.name, parsers.pst.emails, outcomes, oks)
        && |outcomes| == |parsers.pst.emails|
        && openCase.requests == old(openCase.requests)
           + [WriteRequest(TempFileName(openCase.tempDirectory, file), true)] + MessagesRequests(file.id, outcomes)
        && old(openCase.artifacts) <= openCase.artifacts
        && |openCase.artifacts| <= |old(openCase.artifacts)| + |parsers.pst.emails|
        && (forall k :: |old(openCase.artifacts)| <= k < |openCase.artifacts| ==>
              openCase.artifacts[k].artifactType == EmailMsg && openCase.artifacts[k].fileId == file.id)
      ensures copied && parsers.pst.status == PstEncrypted ==>
        context.batches == old(context.batches)
        && openCase.accountLog == old(openCase.accountLog) && openCase.relationships == old(openCase.relationships)
        && openCase.derivedFiles == old(openCase.derivedFiles)
        && openCase.requests == old(openCase.requests)
           + [WriteRequest(TempFileName(openCase.tempDirectory, file), true)] + CreationRequests(file.id, EncryptionDetected, flagged)
        && openCase.artifacts == old(openCase.artifacts) + CreatedArtifact(file.id, EncryptionDetected, EncryptionAttributes, flagged)
        && openCase.indexed == old(openCase.indexed) + (if Filled(flagged) && flagged.indexedOk then [flagged.art.value] else [])
        && posted == (if Filled(flagged) && !flagged.indexedOk then [IndexFailed(flagged.art.value)] else [])
    {
      var written, path := CopyToScratch(file, openCase, freeSpace);
      copied := written;
      posted, outcomes, oks, flagged := [], [], [], StoreOutcome(None, false, RelDataError, false);
      if !written {
        result := Ok;
        return;
      }
      var parsed := parsers.pst;
      if parsed.status == PstOk {
        var _, _, notes, stored, relays := ProcessEmails(parsed.emails, file, openCase);
        posted, outcomes, oks := notes, stored, relays;
      } else if parsed.status == PstEncrypted {
        flagged, posted := FlagEncrypted(file, openCase);
        AppendAssociative(old(openCase.requests), [WriteRequest(path, true)], CreationRequests(file.id, EncryptionDetected, flagged));
      } else {
        openCase.PostMessage(PstParseFailed(file.name));
        result := Error;
        return;
      }
      var deleted := openCase.Delete(path);
      if parsed.errors != "" {
        openCase.PostMessage(ParserErrors(file.name, parsed.errors));
      }
      result := Ok;
    }

    /** processVcard: the file is copied and parsed and the contact stored;
        a card that cannot be read is given up on, leaving its copy behind.
        Otherwise the copy is deleted. No ingest batch is ever added. */
    method ProcessVcard(file: AbstractFile, openCase: CaseServices, freeSpace: int, parsers: Parsers)
      returns (result: ProcessResult, ghost copied: bool, ghost answer: Option<bool>, ghost hasDevice: bool,
               ghost o: StoreOutcome)
      requires openCase.Valid()
      modifies openCase`accountLog, openCase`artifacts, openCase`relationships, openCase`indexed,
               openCase`notices, openCase`tempFiles, openCase`deleteAttempts, openCase`requests
      ensures result == Ok && openCase.Valid()
      ensures copied ==> HasRoom(freeSpace, file.size)
      ensures !HasRoom(freeSpace, file.size) ==>
        openCase.notices == old(openCase.notices) + [OutOfDiskSpace(file.name)] && openCase.tempFiles == old(openCase.tempFiles)
        && openCase.requests == old(openCase.requests)
      ensures HasRoom(freeSpace, file.size) && !copied ==>
        openCase.requests == old(openCase.requests) + [WriteRequest(TempFileName(openCase.tempDirectory, file), false)]
      ensures !copied || parsers.vcard.VcardIoError? ==> (openCase.Records() == old(openCase.Records())
        && openCase.deleteAttempts == old(openCase.deleteAttempts))
      ensures copied && parsers.vcard.VcardIoError? ==>
        openCase.notices == old(openCase.notices) && TempFileName(openCase.tempDirectory, file) in openCase.tempFiles
        && openCase.requests == old(openCase.requests) + [WriteRequest(TempFileName(openCase.tempDirectory, file), true)]
      ensures copied && parsers.vcard.VcardParsed? ==>
        openCase.deleteAttempts == old(openCase.deleteAttempts) + [TempFileName(openCase.tempDirectory, file)]
        && (answer.Some? ==> answer.value == ArtifactExists(old(openCase.artifacts), file.id, Contact, ContactAttributes(parsers.vcard.card)))
        && openCase.requests == old(openCase.requests)
           + [WriteRequest(TempFileName(openCase.tempDirectory, file), true)] + ContactRequests(file.id, answer, hasDevice, o)
        && openCase.artifacts == old(openCase.artifacts)
           + (if answer == Some(false) then CreatedArtifact(file.id, Contact, ContactAttributes(parsers.vcard.card), o) else [])
    {
      answer, hasDevice, o := None, false, StoreOutcome(None, false, RelAdded, false);
      var written, path := CopyToScratch(file, openCase, freeSpace);
      copied := written;
      if !written {
        result := Ok;
        return;
      }
      match parsers.vcard
      case VcardIoError =>
        result := Ok;
        return;
      case VcardParsed(card) =>
        ghost var deviceAttempts;
        var _, _, tried, found, stored := AddContactArtifact(card, file, openCase);
        deviceAttempts, answer, o := tried, found, stored;
        hasDevice := Instance(deviceAttempts).Some?;
        AppendAssociative(old(openCase.requests), [WriteRequest(path, true)], ContactRequests(file.id, answer, hasDevice, o));
      var deleted := openCase.Delete(path);
      result := Ok;
    }
  }
}
