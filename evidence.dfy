/** The values the ingest module reads from a file and its parsers, and the
    evidence values it writes to the case: attributes, accounts, artifacts,
    relationships and derived files. */
module Evidence {
  import opened Text

  type byte = bv8

  /** TskData.FileKnown. */
  datatype FileKnown = Unknown | Known | Bad

  /** The kinds of TskData.TSK_DB_FILES_TYPE_ENUM the module distinguishes. */
  datatype FileType = FsFile | UnallocBlocks | Slack | DerivedFileType | OtherFileType

  /** The parts of an AbstractFile the module reads. `deviceId` is the device
      id of the file's data source, None when the case database cannot
      produce it. */
  datatype AbstractFile = AbstractFile(
    id: nat,
    name: string,
    parentPath: string,
    size: int,
    known: FileKnown,
    fileType: FileType,
    isFile: bool,
    crtime: int,
    deviceId: Option<string>)

  datatype ProcessResult = Ok | Error

  /** The blackboard attribute types the module writes. */
  datatype AttrType =
    | Headers | EmailFrom | EmailTo | EmailCc | EmailBcc | Subject
    | DatetimeRcvd | DatetimeSent
    | EmailContentPlain | EmailContentHtml | EmailContentRtf
    | MsgId | Path
    | NamePerson | Name
    | PhoneNumber | PhoneNumberHome | PhoneNumberOffice | PhoneNumberText
    | PhoneNumberFax | PhoneNumberMobile | PhoneNumberVideo | PhoneNumberPager
    | PhoneNumberTextphone | PhoneNumberVoiceMessaging | PhoneNumberBbs
    | PhoneNumberModem | PhoneNumberCar | PhoneNumberIsdn | PhoneNumberPcs
    | Email | EmailHome | EmailOffice | EmailX400
    | Url | Organization

  datatype AttrValue = Text(text: string) | Long(n: int)

  datatype Attribute = Attribute(attrType: AttrType, value: AttrValue)

  datatype AccountType = EmailAccount | PhoneAccount | DeviceAccount

  datatype Account = Account(accountType: AccountType, id: string)

  /** One call of createAccountFileInstance and whether it returned an
      instance (false: it threw TskCoreException). */
  datatype Attempt = Attempt(account: Account, ok: bool)

  datatype ArtifactType = EmailMsg | Contact | EncryptionDetected

  datatype Artifact = Artifact(id: nat, fileId: nat, artifactType: ArtifactType, attributes: seq<Attribute>)

  datatype RelationshipType = MessageRelationship | ContactRelationship

  datatype Relationship = Relationship(
    sender: Option<Account>,
    targets: seq<Account>,
    artifact: nat,
    relType: RelationshipType,
    timestamp: int)

  /** TskData.EncodingType. */
  datatype Encoding = NoEncoding | Xor1

  /** EmailMessage.Attachment as produced by the parsers. */
  datatype Attachment = Attachment(
    name: string,
    localPath: string,
    size: int,
    crTime: int,
    mTime: int,
    aTime: int,
    cTime: int,
    encoding: Encoding)

  /** A derived file registered through FileManager.addDerivedFile. */
  datatype DerivedFile = DerivedFile(
    name: string,
    localPath: string,
    size: int,
    cTime: int,
    crTime: int,
    aTime: int,
    mTime: int,
    parentArtifact: nat,
    encoding: Encoding)

  /** EmailMessage as produced by the mbox and PST parsers; `id` is -1 when
      the parser has none. */
  datatype EmailMessage = EmailMessage(
    id: int,
    sender: string,
    recipients: string,
    cc: string,
    bcc: string,
    subject: string,
    headers: string,
    sentDate: int,
    textBody: string,
    htmlBody: string,
    rtfBody: string,
    localPath: string,
    hasAttachment: bool,
    attachments: seq<Attachment>)

  /** The parts of an ezvcard VCard the module reads. A telephone or e-mail
      entry whose text is null is None. */
  datatype Telephone = Telephone(text: Option<string>, types: seq<string>)

  datatype VcardEmail = VcardEmail(value: Option<string>, types: seq<string>)

  datatype VCard = VCard(
    formattedName: string,
    telephones: seq<Telephone>,
    emails: seq<VcardEmail>,
    urls: seq<string>,
    organizations: seq<seq<string>>)

  /** Messages the module posts to the user. */
  datatype Notice =
    | OutOfDiskSpace(fileName: string)
    | PstParseFailed(fileName: string)
    | ParserErrors(fileName: string, errors: string)
    | AttachmentFailed(fileName: string, attachmentName: string)
    | IndexFailed(artifact: nat)
}
