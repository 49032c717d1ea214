# Thunderbird / PST / vCard ingest module, modelled in Dafny

This project models the file ingest module `ThunderbirdMboxFileIngestModule`
of the Autopsy e-mail parser. For each file of an ingest job the module does
the following:

- It decides whether the file is an mbox mailbox, a PST/OST store or a vCard.
  It skips known files, unallocated blocks, slack space and non-files first.
  The mbox test reads the first 64 bytes, and only of a file larger than
  that; PST wins over vCard.
- It checks the free disk space and copies the file to the case's scratch
  directory (`<temp>/EmailParser/<name>-<id>`). For an mbox file it also
  derives the e-mail folder from the parent path.
- It runs the parser and turns what the parser finds into evidence:
  - an e-mail message artifact per message, with sparse attributes;
  - e-mail accounts for the single sender and for every recipient, and a
    message relationship between them;
  - derived files for the attachments, handed back to the ingest job as one
    batch per file;
  - an encryption artifact for an encrypted PST;
  - a contact artifact, with phone, e-mail and device accounts and a contact
    relationship, unless an equal contact is already stored.
- It deletes the scratch copy and reports the parser's errors.

Every store call may fail. A failed account creation drops only that
account. A failed attachment registration is reported and drops only that
attachment. A failed indexing is reported and keeps the artifact.

## Layout

| file | module | what it holds |
|---|---|---|
| `text.dfy` | `Text` | `String.valueOf` for ids, `indexOf`, ASCII `toLowerCase` |
| `evidence.dfy` | `Evidence` | the file, message, vCard, attribute, account, artifact and notice values |
| `seqs.dfy` | `Seqs` | concatenation of per-element lists, as a loop of `addAll` builds it |
| `attributes.dfy` | `Attributes` | the two `addArtifactAttribute` overloads and the sparse-attribute policy |
| `casedb.dfy` | `CaseStore` | the case as a class of may-fail store methods; the job context |
| `dispatch.dfy` | `Dispatch` | the format decision of `process` |
| `staging.dfy` | `Staging` | the free-space guard, the scratch file name, the e-mail folder |
| `addresses.dfy` | `Addresses` | `findEmailAddresess` over a regex matcher oracle; set enumeration |
| `messages.dfy` | `MessageEvidence` | the attributes and accounts of one message |
| `contacts.dfy` | `ContactEvidence` | the vCard type tables, the contact's attributes and accounts |
| `storing.dfy` | `Storing` | the store calls made for one message, one contact or the encryption flag, and what they leave in the case |
| `relay.dfy` | `AttachmentRelay` | what `handleAttachments` returns and reports |
| `builders.dfy` | `Builders` | the account and attribute loops of the two artifact builders |
| `ingest.dfy` | `Ingest` | the module class: `startUp`, `process`, the three handlers, `processEmails`, `handleAttachments`, `addEmailArtifact`, `addContactArtifact` |

The case (blackboard, communications manager, file manager, message inbox,
scratch directory) is one `CaseServices` object. Its fields are the evidence
written so far, the log of account attempts, the notices, the scratch files
and the paths deleted. Each store method either succeeds or fails, so each
contract speaks about both outcomes. The case also logs every request whose
failure leaves no other trace: the scratch write, the artifact lookup, the
artifact creation, the attribute and the relationship calls, each with its
outcome. The handlers' contracts use this log to say which calls were made,
in which order, even when they failed. The parsers, the file-format tests, the
disk-space query and the regular-expression engine are parameters of the
operations.

## Model

| member | source | states |
|---|---|---|
| Ingest.IngestModule.constructor | thunderbirdparser/src/org/sleuthkit/autopsy/thunderbirdparser/ThunderbirdMboxFileIngestModule.java:101-107 | a new module holds no job context, file manager or blackboard |
| Ingest.IngestModule.StartUp | thunderbirdparser/src/org/sleuthkit/autopsy/thunderbirdparser/ThunderbirdMboxFileIngestModule.java:111-119 | the job context is always stored; start-up succeeds exactly when a case is open, and then the file manager is that case's |
| Ingest.IngestModule.Process | thunderbirdparser/src/org/sleuthkit/autopsy/thunderbirdparser/ThunderbirdMboxFileIngestModule.java:122-173 | with no open case the result is ERROR and nothing changes. Otherwise the blackboard is the case's and the handler run is `Route`. The result is ERROR exactly for a copied PST that fails to parse. A skipped file changes nothing and makes no store call. With room, the chosen handler's first store call is the write of the scratch copy, whatever its outcome; without room nothing is written and the out-of-space notice is posted. After a successful copy, the requests that follow store each parsed message of an mbox or readable PST, and the job's one new batch is those messages' relayed attachments (`StoresMessages`), flag an encrypted PST (`FlagsEncryption`), or store the parsed card's contact after a lookup (`StoresContact`). The copy is deleted exactly when the handler does not give up on a PST parse error or a vCard read error, and is left behind in those two cases. The job receives exactly one batch for a copied mbox or readable PST and none otherwise |
| Ingest.IngestModule.RunHandler | thunderbirdparser/src/org/sleuthkit/autopsy/thunderbirdparser/ThunderbirdMboxFileIngestModule.java:160-170 | the chosen handler runs: the result, the copy, its deletion, the batches and the store requests are as `Process` states them for a file that reaches a handler |
| Ingest.IngestModule.CopyToScratch | thunderbirdparser/src/org/sleuthkit/autopsy/thunderbirdparser/ThunderbirdMboxFileIngestModule.java:184-210 | the scratch path is `TempFileName`. Without room the out-of-space notice is posted and no write is requested. With room no notice is posted and exactly one write of that path is requested, its outcome being the result. A successful copy adds exactly that path; a failed one may leave a partial file |
| Ingest.IngestModule.ProcessMBox | thunderbirdparser/src/org/sleuthkit/autopsy/thunderbirdparser/ThunderbirdMboxFileIngestModule.java:274-337 | always OK. Without room no write is requested; with room the write is requested. Without a copy, no evidence, deletion or batch. With a copy, the parser is given `EmailFolder`. The requests after the write are `MessagesRequests` over one store outcome per parsed message. The one batch added and the derived files are `BatchFiles` of the parsed messages. The new artifacts are e-mail messages of this file, at most one per parsed message. The copy is deleted. The notices are `BatchNotices` of the messages, followed by the parser-errors notice when the error text is non-empty |
| Ingest.IngestModule.FlagEncrypted | thunderbirdparser/src/org/sleuthkit/autopsy/thunderbirdparser/ThunderbirdMboxFileIngestModule.java:224-241 | the encryption artifact is always requested, and its name attribute is requested once the artifact exists. The case gains exactly `CreatedArtifact`: nothing, the bare artifact, or the artifact with the encryption-level name. It is indexed exactly when the name was stored and indexing succeeded. The only notice is the index failure, and only in that case |
| Ingest.IngestModule.ProcessPst | thunderbirdparser/src/org/sleuthkit/autopsy/thunderbirdparser/ThunderbirdMboxFileIngestModule.java:183-265 | ERROR exactly when the copy was made and the store failed to parse: then only the parse-failure notice is posted, no evidence is written, the write is the only request and the copy stays. With room the write is always requested. For a readable store, the requests after the write are `MessagesRequests` over one outcome per message. The one batch added and the derived files are `BatchFiles` of its messages, and the notices are their `BatchNotices`. It adds only e-mail artifacts, at most one per message. An encrypted store's requests after the write are the encryption artifact's; it adds exactly that artifact as `FlagEncrypted` states and no batch, account, relationship or derived file. In both of those cases the copy is deleted and the parser's errors are reported when non-empty |
| Ingest.IngestModule.ProcessVcard | thunderbirdparser/src/org/sleuthkit/autopsy/thunderbirdparser/ThunderbirdMboxFileIngestModule.java:352-400 | always OK and never adds a batch. With room the write is always requested. A read error writes nothing, posts nothing and leaves the copy. For a parsed card the requests after the write are `ContactRequests`: the lookup, whose answer when it gives one is `ArtifactExists` on the artifacts before; then, exactly when it answers that no equal contact exists, the contact artifact. The case gains that artifact as `CreatedArtifact` says, with the card's attributes, and nothing otherwise. The copy is then deleted |
| Ingest.IngestModule.ProcessEmails | thunderbirdparser/src/org/sleuthkit/autopsy/thunderbirdparser/ThunderbirdMboxFileIngestModule.java:453-473 | one store outcome and one list of registration outcomes per message (`OutcomesFit`). The requests are `MessagesRequests` over the store outcomes, so every message gets its artifact request, in order. The one batch added to the job, after the loop and even when empty, is `BatchFiles`: the `Registered` attachments of every message whose artifact was created and that has attachments, in message order. These are exactly the derived files added. The notices are `BatchNotices`: each message's index failure, then its attachment failures. At most one artifact per message, every new artifact an e-mail message of this file |
| Ingest.IngestModule.ProcessMessage | thunderbirdparser/src/org/sleuthkit/autopsy/thunderbirdparser/ThunderbirdMboxFileIngestModule.java:459-463 | the requests are `MessageRequests` for the message's store outcome, and the case gains exactly its `CreatedArtifact` with `MessageAttributes`. The files are `MessageFiles`: `Registered(attachments, artifact, ok)` when the artifact was created and the message has attachments, none otherwise. The notices are `MessageNoticesOf`: the index failure, when indexing was tried and failed, followed by the failure notices of the attachments |
| Ingest.IngestModule.RelayMessageAttachments | thunderbirdparser/src/org/sleuthkit/autopsy/thunderbirdparser/ThunderbirdMboxFileIngestModule.java:461-463 | attachments are handled only for a created artifact of a message that has attachments, and then the files are `Registered` under that artifact and the notices are their failure notices; otherwise nothing is added |
| Ingest.IngestModule.HandleAttachments | thunderbirdparser/src/org/sleuthkit/autopsy/thunderbirdparser/ThunderbirdMboxFileIngestModule.java:485-512 | the returned files are `Registered(atts, parent, ok)` for the registration outcomes `ok`, and they are exactly the derived files added; the notices added are the failure notices of the failed registrations, in order |
| Ingest.IngestModule.RelayAttachment | thunderbirdparser/src/org/sleuthkit/autopsy/thunderbirdparser/ThunderbirdMboxFileIngestModule.java:497-509 | one attachment is either registered as its derived file or reported as failed, never both |
| Ingest.IngestModule.AddEmailArtifact | thunderbirdparser/src/org/sleuthkit/autopsy/thunderbirdparser/ThunderbirdMboxFileIngestModule.java:543-639 | the sender addresses enumerate the From address set, and a sender account is attempted only for exactly one address. One account is attempted per recipient of the to, cc and bcc lists. The artifact is always requested (`MessageRequests`), its attributes once it exists, the relationship once they are stored. The case gains exactly `CreatedArtifact` with `MessageAttributes`. The relationship from the resolved sender to the resolved recipients, at the sent date, is added exactly when it was requested and succeeded. The artifact is indexed, or the index failure reported, exactly when the relationship was added |
| Ingest.IngestModule.TrySender | thunderbirdparser/src/org/sleuthkit/autopsy/thunderbirdparser/ThunderbirdMboxFileIngestModule.java:559-578 | the sender account is attempted exactly when one address was found; the instance is null unless that attempt succeeded |
| Ingest.IngestModule.CollectRecipients | thunderbirdparser/src/org/sleuthkit/autopsy/thunderbirdparser/ThunderbirdMboxFileIngestModule.java:580-583 | the recipients are an enumeration of the to set, then of the cc set, then of the bcc set |
| Ingest.RecipientAttemptsPerField | thunderbirdparser/src/org/sleuthkit/autopsy/thunderbirdparser/ThunderbirdMboxFileIngestModule.java:580-596 | an address occurs in the recipient list once for each of to, cc and bcc whose set contains it: repeats across the fields are not removed |
| Ingest.IngestModule.MessageAttributeList | thunderbirdparser/src/org/sleuthkit/autopsy/thunderbirdparser/ThunderbirdMboxFileIngestModule.java:598-616 | the twelve `addArtifactAttribute` calls build exactly `MessageAttributes(email)` in a fresh list |
| Ingest.IngestModule.StoreMessage | thunderbirdparser/src/org/sleuthkit/autopsy/thunderbirdparser/ThunderbirdMboxFileIngestModule.java:619-636 | the artifact is always requested, its attributes once it exists, the relationship once they are stored (`MessageRequests`). A created artifact is kept even when its attributes could not be added. The relationship is added exactly when requested and successful. The artifact is indexed, or the index failure reported, exactly when the relationship was added |
| Ingest.IngestModule.AddContactArtifact | thunderbirdparser/src/org/sleuthkit/autopsy/thunderbirdparser/ThunderbirdMboxFileIngestModule.java:652-867 | the phone and e-mail accounts are attempted as `ContactAccounts`, then the device account when the data source has a device id. The lookup for an equal contact is always made, and its answer, when it gives one, is `ArtifactExists`. An equal contact means nothing is written and the result is null. Exactly when the lookup answers that there is none, the contact artifact is requested (`ContactRequests`), and the case gains it as `CreatedArtifact` says, with `ContactAttributes`. Its relationship from the resolved device account to the resolved accounts, at the file's crtime, is requested once the attributes are stored and the device account resolved. Indexing is tried once the attributes are stored, unless the relationship failed with a core error |
| Ingest.IngestModule.CollectContact | thunderbirdparser/src/org/sleuthkit/autopsy/thunderbirdparser/ThunderbirdMboxFileIngestModule.java:656-801 | the attribute list is exactly `ContactAttributes(v)`, the attempts are exactly `ContactAccounts(v)` in order, and the instances are the resolved ones |
| Ingest.IngestModule.TryDevice | thunderbirdparser/src/org/sleuthkit/autopsy/thunderbirdparser/ThunderbirdMboxFileIngestModule.java:803-822 | the device account is attempted exactly when the device id is known; the instance is null unless it resolved |
| Ingest.IngestModule.StoreContact | thunderbirdparser/src/org/sleuthkit/autopsy/thunderbirdparser/ThunderbirdMboxFileIngestModule.java:824-866 | the lookup is always made, and its answer, when it gives one, is `ArtifactExists` on the artifacts before. An existing equal contact, or a failed lookup, writes nothing. Exactly when the answer is that none exists, the artifact is requested; a created artifact gets the attributes or, if storing them failed, none. The relationship is requested when there is a device account and is added exactly when that succeeds. Indexing is tried once the attributes are stored, unless the relationship failed with a core error |
| Ingest.IngestModule.FillContact | thunderbirdparser/src/org/sleuthkit/autopsy/thunderbirdparser/ThunderbirdMboxFileIngestModule.java:830-851 | after the contact artifact is created: its attributes are requested; once stored, the relationship is requested when there is a device account; the artifact ends with the attributes or none; indexing is tried unless the relationship failed with a core error |
| Ingest.JoinAttempts | thunderbirdparser/src/org/sleuthkit/autopsy/thunderbirdparser/ThunderbirdMboxFileIngestModule.java:657-790 | the phone attempts followed by the e-mail attempts are the contact's account attempts, and the instance list keeps exactly the resolved ones |
| Storing.MessagesRequestsCount | thunderbirdparser/src/org/sleuthkit/autopsy/thunderbirdparser/ThunderbirdMboxFileIngestModule.java:458-464 | the store calls of the message loop request exactly one e-mail artifact per message and no artifact of another type |
| Storing.StoresEachCount | thunderbirdparser/src/org/sleuthkit/autopsy/thunderbirdparser/ThunderbirdMboxFileIngestModule.java:458-464 | requests that store n messages hold exactly n e-mail artifact requests |
| Storing.MessageRequestsOneArtifact | thunderbirdparser/src/org/sleuthkit/autopsy/thunderbirdparser/ThunderbirdMboxFileIngestModule.java:621-622 | storing one message requests exactly one e-mail artifact and no other kind |
| Storing.MessageRelationshipRequested | thunderbirdparser/src/org/sleuthkit/autopsy/thunderbirdparser/ThunderbirdMboxFileIngestModule.java:621-625 | a message's relationship is requested exactly when its artifact was created and its attributes stored, and only that one relationship |
| Storing.ContactCreatedIffAbsent | thunderbirdparser/src/org/sleuthkit/autopsy/thunderbirdparser/ThunderbirdMboxFileIngestModule.java:828-829 | exactly one contact artifact is requested when the lookup answers that no equal contact exists, and none when it finds one or fails |
| Storing.ArtifactRequestCountAppend | thunderbirdparser/src/org/sleuthkit/autopsy/thunderbirdparser/ThunderbirdMboxFileIngestModule.java:458-464 | counting artifact requests distributes over concatenation |
| Storing.BatchMembers | thunderbirdparser/src/org/sleuthkit/autopsy/thunderbirdparser/ThunderbirdMboxFileIngestModule.java:458-471 | a file is in the batch handed to the job exactly when it is the derived file of a successfully registered attachment of a message whose artifact was created, under that artifact |
| Storing.BatchWithoutAttachments | thunderbirdparser/src/org/sleuthkit/autopsy/thunderbirdparser/ThunderbirdMboxFileIngestModule.java:461-471 | when no message has attachments the batch is empty, and it is still handed to the job |
| Storing.BatchNoticesKind | thunderbirdparser/src/org/sleuthkit/autopsy/thunderbirdparser/ThunderbirdMboxFileIngestModule.java:458-464 | the message loop reports only index failures and attachment failures |
| Storing.StoresMessagesEach | thunderbirdparser/src/org/sleuthkit/autopsy/thunderbirdparser/ThunderbirdMboxFileIngestModule.java:458-471 | storing the parsed messages makes one e-mail artifact request per message and adds exactly one batch |
| Dispatch.RouteIsFirstCandidate | thunderbirdparser/src/org/sleuthkit/autopsy/thunderbirdparser/ThunderbirdMboxFileIngestModule.java:131-172 | the chosen handler is the first format, in the order mbox, PST, vCard, whose own test accepts an eligible file; none for an ineligible file or when no test accepts |
| Dispatch.Candidates | thunderbirdparser/src/org/sleuthkit/autopsy/thunderbirdparser/ThunderbirdMboxFileIngestModule.java:160-170 | the accepting formats are at most three, none of them "no handler" |
| Dispatch.MboxChosenIff | thunderbirdparser/src/org/sleuthkit/autopsy/thunderbirdparser/ThunderbirdMboxFileIngestModule.java:146-161 | mbox is chosen exactly when the file is eligible, larger than 64 bytes, the read returned at least one byte and the signature test accepts the buffer |
| Dispatch.SmallOrUnreadFileIsNotMbox | thunderbirdparser/src/org/sleuthkit/autopsy/thunderbirdparser/ThunderbirdMboxFileIngestModule.java:146-158 | a file of at most 64 bytes, a read that throws or a read of no bytes never selects mbox |
| Dispatch.PriorityOrder | thunderbirdparser/src/org/sleuthkit/autopsy/thunderbirdparser/ThunderbirdMboxFileIngestModule.java:160-170 | mbox beats PST and vCard, PST beats vCard |
| Dispatch.IneligibleIsSkipped | thunderbirdparser/src/org/sleuthkit/autopsy/thunderbirdparser/ThunderbirdMboxFileIngestModule.java:131-144 | known files, unallocated blocks, slack and non-files reach no handler |
| Staging.NoRoomIff | thunderbirdparser/src/org/sleuthkit/autopsy/thunderbirdparser/ThunderbirdMboxFileIngestModule.java:194-203 | there is no room exactly when the free space is known and the file size is at least the free space |
| Staging.UnknownSpaceAlwaysCopies | thunderbirdparser/src/org/sleuthkit/autopsy/thunderbirdparser/ThunderbirdMboxFileIngestModule.java:298-307 | an unknown free space never blocks the copy, whatever the size |
| Staging.TempFileName | thunderbirdparser/src/org/sleuthkit/autopsy/thunderbirdparser/ThunderbirdMboxFileIngestModule.java:186-187 | the scratch path starts with the `EmailParser` temp path and a separator, and is strictly longer, so it lies strictly below that directory |
| Staging.TempFileNameUnique | thunderbirdparser/src/org/sleuthkit/autopsy/thunderbirdparser/ThunderbirdMboxFileIngestModule.java:355-356 | two files share a scratch path only if they have the same id and name |
| Staging.FolderBaseAfterMarker | thunderbirdparser/src/org/sleuthkit/autopsy/thunderbirdparser/ThunderbirdMboxFileIngestModule.java:278-284 | the folder base is what follows the first "/Mail" and starts with its slash; "/ImapMail/" is consulted only when "/Mail/" is absent; otherwise it is empty |
| Staging.RemoveSbd | thunderbirdparser/src/org/sleuthkit/autopsy/thunderbirdparser/ThunderbirdMboxFileIngestModule.java:286 | removing the ".sbd" matches never lengthens the folder |
| Staging.RemoveSbdKeepsPlainText | thunderbirdparser/src/org/sleuthkit/autopsy/thunderbirdparser/ThunderbirdMboxFileIngestModule.java:285-286 | a folder name with no "sbd" in it is left unchanged |
| Staging.RemoveSbdCutsWholeMatches | thunderbirdparser/src/org/sleuthkit/autopsy/thunderbirdparser/ThunderbirdMboxFileIngestModule.java:286 | the result is the input with some non-overlapping ".sbd" matches cut out whole and every other character kept in order (`CutsMatches`), so the length drops by a multiple of four |
| Staging.AnyCharacterBeforeSbdIsRemoved | thunderbirdparser/src/org/sleuthkit/autopsy/thunderbirdparser/ThunderbirdMboxFileIngestModule.java:286 | any character but a line terminator before "sbd" is removed together with it, not only a dot; a line terminator before "sbd" is kept, and so is the "sbd" |
| Addresses.FindEmailAddresses | thunderbirdparser/src/org/sleuthkit/autopsy/thunderbirdparser/ThunderbirdMboxFileIngestModule.java:521-530 | the result is the set of all matched texts; no match gives the empty set; there are no more addresses than matches |
| Addresses.AddressSetShaped | thunderbirdparser/src/org/sleuthkit/autopsy/thunderbirdparser/ThunderbirdMboxFileIngestModule.java:522-527 | every extracted address is a substring of the field of the form local@domain.tld with a 2 to 4 letter top-level label, and at least six characters long; this follows from the matcher's contract and says nothing about the regular expression itself |
| Addresses.CaseVariantsAreDistinct | thunderbirdparser/src/org/sleuthkit/autopsy/thunderbirdparser/ThunderbirdMboxFileIngestModule.java:525-527 | any two different extracted texts, in particular two that differ only in letter case, are two elements of the set |
| Addresses.ToList | thunderbirdparser/src/org/sleuthkit/autopsy/thunderbirdparser/ThunderbirdMboxFileIngestModule.java:561 | `addAll` of a set lists each element exactly once, in an unspecified order |
| Addresses.RecipientOccurrences | thunderbirdparser/src/org/sleuthkit/autopsy/thunderbirdparser/ThunderbirdMboxFileIngestModule.java:580-583 | in three enumerated sets laid end to end an element occurs once per set containing it |
| Attributes.TextAttribute | thunderbirdparser/src/org/sleuthkit/autopsy/thunderbirdparser/ThunderbirdMboxFileIngestModule.java:869-873 | an empty string adds nothing; any other string adds exactly one attribute of the given type holding it |
| Attributes.LongAttribute | thunderbirdparser/src/org/sleuthkit/autopsy/thunderbirdparser/ThunderbirdMboxFileIngestModule.java:874-878 | a value of 0 or less adds nothing; a positive one adds exactly one attribute of the given type holding it |
| Attributes.AddArtifactAttribute | thunderbirdparser/src/org/sleuthkit/autopsy/thunderbirdparser/ThunderbirdMboxFileIngestModule.java:869-873 | the caller's list grows in place by exactly `TextAttribute(value, t)` |
| Attributes.AddArtifactLongAttribute | thunderbirdparser/src/org/sleuthkit/autopsy/thunderbirdparser/ThunderbirdMboxFileIngestModule.java:874-878 | the caller's list grows in place by exactly `LongAttribute(value, t)` |
| Attributes.FindSound | thunderbirdparser/src/org/sleuthkit/autopsy/thunderbirdparser/ThunderbirdMboxFileIngestModule.java:869-878 | a value read back under a type was stored under it, and nothing read back means nothing of that type was stored |
| MessageEvidence.MessageIdText | thunderbirdparser/src/org/sleuthkit/autopsy/thunderbirdparser/ThunderbirdMboxFileIngestModule.java:608 | the message-id text is never empty |
| MessageEvidence.MessageIdRoundTrip | thunderbirdparser/src/org/sleuthkit/autopsy/thunderbirdparser/ThunderbirdMboxFileIngestModule.java:608-609 | a non-negative id is its decimal text and reads back as the same id; a negative id gives the non-numeric placeholder |
| MessageEvidence.PathText | thunderbirdparser/src/org/sleuthkit/autopsy/thunderbirdparser/ThunderbirdMboxFileIngestModule.java:611-612 | the path text is never empty, and it is the local path whenever that is non-empty |
| MessageEvidence.MessageAttributesRoundTrip | thunderbirdparser/src/org/sleuthkit/autopsy/thunderbirdparser/ThunderbirdMboxFileIngestModule.java:598-616 | reading any type back from the message's attributes gives that field when non-empty (positive for the dates), nothing otherwise; id and path are always present; bcc and every contact type are absent |
| MessageEvidence.ReceivedEqualsSent | thunderbirdparser/src/org/sleuthkit/autopsy/thunderbirdparser/ThunderbirdMboxFileIngestModule.java:603-604 | received and sent time both hold the one sent date, and both are absent when it is not positive |
| MessageEvidence.MessageAttributesSparse | thunderbirdparser/src/org/sleuthkit/autopsy/thunderbirdparser/ThunderbirdMboxFileIngestModule.java:598-616 | no empty string or non-positive long is stored, and no bcc attribute is |
| MessageEvidence.SenderAccounts | thunderbirdparser/src/org/sleuthkit/autopsy/thunderbirdparser/ThunderbirdMboxFileIngestModule.java:567-578 | one sender account exactly when there is exactly one sender address, otherwise none |
| MessageEvidence.EmailAccounts | thunderbirdparser/src/org/sleuthkit/autopsy/thunderbirdparser/ThunderbirdMboxFileIngestModule.java:585-596 | one e-mail account per recipient address, same position, same address |
| Builders.CreateEmailAccounts | thunderbirdparser/src/org/sleuthkit/autopsy/thunderbirdparser/ThunderbirdMboxFileIngestModule.java:585-596 | one attempt per recipient in list order, logged in the case; the instances are exactly the resolved ones, so a failure drops only its own address |
| CaseStore.ResolvedMembers | thunderbirdparser/src/org/sleuthkit/autopsy/thunderbirdparser/ThunderbirdMboxFileIngestModule.java:586-595 | an account is among the instances exactly when some attempt for it succeeded |
| CaseStore.ResolvedCount | thunderbirdparser/src/org/sleuthkit/autopsy/thunderbirdparser/ThunderbirdMboxFileIngestModule.java:586-595 | the instances number the attempts minus the failures |
| CaseStore.AllSucceed | thunderbirdparser/src/org/sleuthkit/autopsy/thunderbirdparser/ThunderbirdMboxFileIngestModule.java:586-595 | when every attempt succeeds the instances are all the attempted accounts, in order |
| CaseStore.Instance | thunderbirdparser/src/org/sleuthkit/autopsy/thunderbirdparser/ThunderbirdMboxFileIngestModule.java:563-575 | an optional single attempt leaves an instance exactly when it was made and succeeded, and that instance is the resolved account |
| CaseStore.StoredArtifactIsFound | thunderbirdparser/src/org/sleuthkit/autopsy/thunderbirdparser/ThunderbirdMboxFileIngestModule.java:828-830 | once a contact is stored with its attributes, the same contact is found to exist |
| CaseStore.CaseServices.CreateAccountFileInstance | thunderbirdparser/src/org/sleuthkit/autopsy/thunderbirdparser/ThunderbirdMboxFileIngestModule.java:570 | every attempt, successful or not, is logged with its outcome |
| CaseStore.CaseServices.NewArtifact | thunderbirdparser/src/org/sleuthkit/autopsy/thunderbirdparser/ThunderbirdMboxFileIngestModule.java:621 | a created artifact takes the next id and starts with no attributes; a failure adds nothing; the request is logged with the id or the failure |
| CaseStore.CaseServices.AddAttributes | thunderbirdparser/src/org/sleuthkit/autopsy/thunderbirdparser/ThunderbirdMboxFileIngestModule.java:622 | on success the artifact's attributes grow by the list; on failure nothing changes; the request is logged with its outcome |
| CaseStore.CaseServices.QueryArtifactExists | thunderbirdparser/src/org/sleuthkit/autopsy/thunderbirdparser/ThunderbirdMboxFileIngestModule.java:828 | an answer, when there is one, is `ArtifactExists` on the stored artifacts; the lookup is logged with its answer or the failure |
| CaseStore.CaseServices.AddRelationships | thunderbirdparser/src/org/sleuthkit/autopsy/thunderbirdparser/ThunderbirdMboxFileIngestModule.java:625 | exactly the one relationship is added on success, nothing on either failure; the request is logged with its outcome |
| CaseStore.CaseServices.IndexArtifact | thunderbirdparser/src/org/sleuthkit/autopsy/thunderbirdparser/ThunderbirdMboxFileIngestModule.java:627-633 | the artifact is indexed, or the index failure is reported, never both |
| CaseStore.CaseServices.AddDerivedFile | thunderbirdparser/src/org/sleuthkit/autopsy/thunderbirdparser/ThunderbirdMboxFileIngestModule.java:498-501 | on success exactly that derived file is added |
| CaseStore.CaseServices.PostMessage | thunderbirdparser/src/org/sleuthkit/autopsy/thunderbirdparser/ThunderbirdMboxFileIngestModule.java:880-883 | the notice is appended to the inbox |
| CaseStore.CaseServices.WriteToFile | thunderbirdparser/src/org/sleuthkit/autopsy/thunderbirdparser/ThunderbirdMboxFileIngestModule.java:205-210 | a successful copy adds the scratch file; a failed one may leave a partial file; the write is logged with its outcome |
| CaseStore.CaseServices.Delete | thunderbirdparser/src/org/sleuthkit/autopsy/thunderbirdparser/ThunderbirdMboxFileIngestModule.java:253-255 | the deletion is always attempted and recorded; the file is gone only when it succeeds |
| CaseStore.JobContext.AddFilesToJob | thunderbirdparser/src/org/sleuthkit/autopsy/thunderbirdparser/ThunderbirdMboxFileIngestModule.java:471 | the batch is appended to the job's batches |
| ContactEvidence.PhoneTypeTable | thunderbirdparser/src/org/sleuthkit/autopsy/thunderbirdparser/ThunderbirdMboxFileIngestModule.java:675-725 | the phone switch always gives a phone type; a specific type exactly for its own keyword in any letter case; the generic type exactly when no keyword matches |
| ContactEvidence.EmailTypeTable | thunderbirdparser/src/org/sleuthkit/autopsy/thunderbirdparser/ThunderbirdMboxFileIngestModule.java:758-773 | the same for the e-mail switch |
| ContactEvidence.PhoneKeywordsSelectTheirType | thunderbirdparser/src/org/sleuthkit/autopsy/thunderbirdparser/ThunderbirdMboxFileIngestModule.java:676-717 | each keyword of the phone table selects its own type (the table read backwards is its inverse) |
| ContactEvidence.EmailKeywordsSelectTheirType | thunderbirdparser/src/org/sleuthkit/autopsy/thunderbirdparser/ThunderbirdMboxFileIngestModule.java:759-767 | each keyword of the e-mail table selects its own type |
| ContactEvidence.TablesIgnoreCase | thunderbirdparser/src/org/sleuthkit/autopsy/thunderbirdparser/ThunderbirdMboxFileIngestModule.java:675 | lower-casing a type name first does not change either switch's choice |
| ContactEvidence.ExplicitGenericKeywords | thunderbirdparser/src/org/sleuthkit/autopsy/thunderbirdparser/ThunderbirdMboxFileIngestModule.java:718-723 | "pref", "voice" and "main-number" give the generic phone type; "internet" and "pref" the generic e-mail type |
| ContactEvidence.TypedAttributes | thunderbirdparser/src/org/sleuthkit/autopsy/thunderbirdparser/ThunderbirdMboxFileIngestModule.java:672-728 | a typed entry gives one attribute per listed type, in list order, each holding the value under that type's mapping |
| ContactEvidence.PhoneAttributesShape | thunderbirdparser/src/org/sleuthkit/autopsy/thunderbirdparser/ThunderbirdMboxFileIngestModule.java:661-729 | a null or empty number gives no attribute, and only it; an untyped number gives one generic attribute; a typed one gives one per type; every attribute is of a phone type and holds the number |
| ContactEvidence.EmailEntryAttributesShape | thunderbirdparser/src/org/sleuthkit/autopsy/thunderbirdparser/ThunderbirdMboxFileIngestModule.java:744-777 | the same for e-mail entries |
| ContactEvidence.AccountIffAttributes | thunderbirdparser/src/org/sleuthkit/autopsy/thunderbirdparser/ThunderbirdMboxFileIngestModule.java:661-790 | a phone or e-mail entry gets an account attempt exactly when it gets attributes |
| ContactEvidence.PhoneAccountsTried | thunderbirdparser/src/org/sleuthkit/autopsy/thunderbirdparser/ThunderbirdMboxFileIngestModule.java:731-742 | a phone account is attempted for x exactly when some entry has the non-empty text x; at most one attempt per entry, exactly one when all are non-empty |
| ContactEvidence.EmailAccountsTried | thunderbirdparser/src/org/sleuthkit/autopsy/thunderbirdparser/ThunderbirdMboxFileIngestModule.java:779-790 | the same for e-mail entries |
| ContactEvidence.UrlsStored | thunderbirdparser/src/org/sleuthkit/autopsy/thunderbirdparser/ThunderbirdMboxFileIngestModule.java:792-794 | a URL is stored exactly when it is listed and non-empty |
| ContactEvidence.OrganizationsStored | thunderbirdparser/src/org/sleuthkit/autopsy/thunderbirdparser/ThunderbirdMboxFileIngestModule.java:796-801 | an organization value is stored exactly when it is the non-empty first value of some organization |
| ContactEvidence.ContactAttributesSparse | thunderbirdparser/src/org/sleuthkit/autopsy/thunderbirdparser/ThunderbirdMboxFileIngestModule.java:659-801 | the contact never stores an empty string |
| Builders.AddTypedAttributes | thunderbirdparser/src/org/sleuthkit/autopsy/thunderbirdparser/ThunderbirdMboxFileIngestModule.java:672-728 | the inner type loop appends exactly `TypedAttributes` |
| Builders.AddTelephone | thunderbirdparser/src/org/sleuthkit/autopsy/thunderbirdparser/ThunderbirdMboxFileIngestModule.java:662-741 | one pass appends exactly the entry's attributes and attempts exactly its phone account |
| Builders.AddTelephones | thunderbirdparser/src/org/sleuthkit/autopsy/thunderbirdparser/ThunderbirdMboxFileIngestModule.java:661-742 | the phone loop appends the concatenated attributes of all entries and attempts their accounts in order; the instances are the resolved ones |
| Builders.AddEmail | thunderbirdparser/src/org/sleuthkit/autopsy/thunderbirdparser/ThunderbirdMboxFileIngestModule.java:745-789 | one pass appends exactly the entry's attributes and attempts exactly its e-mail account |
| Builders.AddEmails | thunderbirdparser/src/org/sleuthkit/autopsy/thunderbirdparser/ThunderbirdMboxFileIngestModule.java:744-790 | the e-mail loop, as the phone loop |
| Builders.AddUrls | thunderbirdparser/src/org/sleuthkit/autopsy/thunderbirdparser/ThunderbirdMboxFileIngestModule.java:792-794 | the URL loop appends exactly the URLs' attributes |
| Builders.AddOrganizations | thunderbirdparser/src/org/sleuthkit/autopsy/thunderbirdparser/ThunderbirdMboxFileIngestModule.java:796-801 | the organization loop appends exactly one attribute per organization with values, from its first value |
| AttachmentRelay.EveryAttachmentAccounted | thunderbirdparser/src/org/sleuthkit/autopsy/thunderbirdparser/ThunderbirdMboxFileIngestModule.java:487-510 | each attachment is either returned or reported |
| AttachmentRelay.NoFailureKeepsAll | thunderbirdparser/src/org/sleuthkit/autopsy/thunderbirdparser/ThunderbirdMboxFileIngestModule.java:497-501 | with no failure every attachment's derived file is returned, in order |
| AttachmentRelay.OneFailureSkipsOnlyIt | thunderbirdparser/src/org/sleuthkit/autopsy/thunderbirdparser/ThunderbirdMboxFileIngestModule.java:497-509 | a single failed registration drops that attachment only; the ones before and after it are returned in order |
| AttachmentRelay.RegisteredMembers | thunderbirdparser/src/org/sleuthkit/autopsy/thunderbirdparser/ThunderbirdMboxFileIngestModule.java:498-501 | a returned file is exactly the derived file of an attachment whose registration succeeded, under the message artifact |
| AttachmentRelay.FailureNoticesKind | thunderbirdparser/src/org/sleuthkit/autopsy/thunderbirdparser/ThunderbirdMboxFileIngestModule.java:502-507 | only attachment-failure notices for the mailbox file are posted |
| Text.IndexOf | thunderbirdparser/src/org/sleuthkit/autopsy/thunderbirdparser/ThunderbirdMboxFileIngestModule.java:280-283 | the position found is the first occurrence, and nothing means no occurrence |
| Text.ParseNatToString | thunderbirdparser/src/org/sleuthkit/autopsy/thunderbirdparser/ThunderbirdMboxFileIngestModule.java:187 | the decimal text of an id reads back as the id |
| Text.NatToStringInjective | thunderbirdparser/src/org/sleuthkit/autopsy/thunderbirdparser/ThunderbirdMboxFileIngestModule.java:187 | distinct ids have distinct decimal texts |

## Left out

- The mbox, PST and vCard parsers, `isValidMimeTypeMbox`, `isPstFile`
  and `isVcardFile` are external: they are parameters (`Parsers`,
  `Sniffers`) whose results the model takes as given.
- The regular expression is a `Matcher` oracle. It is assumed to report
  non-overlapping, in-order spans of address-shaped text. The `\b` word
  boundaries and backtracking of `java.util.regex` are not modelled.
- `ContentUtils.writeToFile` is a may-fail step that may leave a partial
  file. The byte copy and the cancellation callback are not modelled.
- Logging, `fireModuleDataEvent`/`fireModuleContentEvent`, NbBundle
  message texts and `MessageNotifyUtil` pop-ups are not modelled. Bundle
  keys stand in for localised texts. An index failure becomes an
  `IndexFailed` notice, and posted error messages become typed notices.
- Directory creation in `getTempPath` is not modelled, and
  `getModuleOutputPath`/`getRelModuleOutputPath` are unused by the core.
- The open case is passed once to `process` and is the case `startUp`
  saw. The model does not cover a case that closes while a file is
  processed: the inner `NoCurrentCaseException` paths cannot occur.
- `IngestMonitor.DISK_FREE_SPACE_UNKNOWN` is taken to be -1, because
  `IngestMonitor` is not part of this model.
- `toLowerCase` is modelled for ASCII letters only. Java's case mapping
  is full Unicode and depends on the default locale: the Kelvin sign in
  "WOR\u212A" lower-cases to "work", and a Turkish locale turns "ISDN"
  into "ısdn". Neither non-ASCII nor locale-dependent case mapping is
  modelled, so `TablesIgnoreCase` holds for ASCII type names only.
- A vCard formatted name, URL or organization value that is null would
  make the source throw. The model takes these values as strings, so that
  exception path is not modelled.
- Failing to look up the data source is modelled as an unknown device id.
  No device account is then attempted.
- `Blackboard.artifactExists` is modelled as "an artifact of the same file
  and type holds every one of the attributes". The store's real matching
  rule is not part of this model.
- The store methods fail nondeterministically. A TskCoreException and a
  TskDataException are told apart only where the module handles them
  differently: `AddRelationships` for a contact.
- In six places the code behaves in a way a reader may not expect, and the
  model follows the code:
  - The mbox size test is strict (`> 64`).
  - "No room" includes a file exactly as large as the free space.
  - Recipients are not de-duplicated across to, cc and bcc.
  - Address de-duplication compares exact text, so case variants stay
    distinct.
  - Indexing of a message is skipped when its relationship cannot be
    added.
  - The scratch copy is not deleted on a PST parse error, on a vCard read
    error, or after a failed write.
- Ingest.IngestModule.ProcessEmails: states the requests, the batch and
  the notices per message, but of each message's artifact only its kind
  and file, not its attributes, accounts or relationship.
  `AddEmailArtifact` states those per message.
- Ingest.IngestModule.ProcessMBox: states the requests, the batch and the
  notices as `ProcessEmails` does, and of each new artifact only its kind
  and file.
- Ingest.IngestModule.ProcessPst: the same for a readable store.
- Ingest.IngestModule.ProcessVcard: states the lookup, the contact artifact
  and its requests, but not the accounts and relationship.
  `AddContactArtifact` states those.
- Ingest.IngestModule.Process: states the routing, the result, the scratch
  write and the store requests that follow it, the deletion and the job
  batches. The evidence each handler writes is stated by that handler.
- Addresses.FindEmailAddresses: relies on the `Matcher` oracle's guarantee
  (`ValidMatcher`) instead of the regular expression itself.
