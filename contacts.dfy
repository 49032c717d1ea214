/** The evidence addContactArtifact builds from a vCard: the phone and
    e-mail type tables, the attribute list in the order the module adds it,
    and the accounts it tries to create. */
module ContactEvidence {
  import opened Text
  import opened Evidence
  import opened Attributes
  import opened Seqs

  /** The phone switch on the lower-cased TelephoneType value; "pref",
      "voice", "main-number" and every unknown value give the generic type. */
  function PhoneAttrType(typeName: string): AttrType
  {
    match ToLower(typeName)
    case "home" => PhoneNumberHome
    case "work" => PhoneNumberOffice
    case "text" => PhoneNumberText
    case "fax" => PhoneNumberFax
    case "cell" => PhoneNumberMobile
    case "video" => PhoneNumberVideo
    case "pager" => PhoneNumberPager
    case "textphone" => PhoneNumberTextphone
    case "msg" => PhoneNumberVoiceMessaging
    case "bbs" => PhoneNumberBbs
    case "modem" => PhoneNumberModem
    case "car" => PhoneNumberCar
    case "isdn" => PhoneNumberIsdn
    case "pcs" => PhoneNumberPcs
    case _ => PhoneNumber
  }

  /** The e-mail switch on the lower-cased EmailType value; "internet" and
      every unknown value give the generic type. */
  function EmailAttrType(typeName: string): AttrType
  {
    match ToLower(typeName)
    case "home" => EmailHome
    case "work" => EmailOffice
    case "x400" => EmailX400
    case _ => Email
  }

  /** The vCard keyword of each specific phone attribute type: the table read
      backwards, as an independent statement of it. */
  function PhoneKeyword(t: AttrType): Option<string>
  {
    match t
    case PhoneNumberHome => Some("home")
    case PhoneNumberOffice => Some("work")
    case PhoneNumberText => Some("text")
    case PhoneNumberFax => Some("fax")
    case PhoneNumberMobile => Some("cell")
    case PhoneNumberVideo => Some("video")
    case PhoneNumberPager => Some("pager")
    case PhoneNumberTextphone => Some("textphone")
    case PhoneNumberVoiceMessaging => Some("msg")
    case PhoneNumberBbs => Some("bbs")
    case PhoneNumberModem => Some("modem")
    case PhoneNumberCar => Some("car")
    case PhoneNumberIsdn => Some("isdn")
    case PhoneNumberPcs => Some("pcs")
    case _ => None
  }

  function EmailKeyword(t: AttrType): Option<string>
  {
    match t
    case EmailHome => Some("home")
    case EmailOffice => Some("work")
    case EmailX400 => Some("x400")
    case _ => None
  }

  predicate IsPhoneType(t: AttrType)
  {
    t == PhoneNumber || PhoneKeyword(t).Some?
  }

  predicate IsEmailType(t: AttrType)
  {
    t == Email || EmailKeyword(t).Some?
  }

  /** A specific phone type is chosen exactly for its own keyword, in any
      letter case; everything else falls back to the generic type. */
  lemma PhoneTypeTable(typeName: string)
    ensures IsPhoneType(PhoneAttrType(typeName))
    ensures PhoneAttrType(typeName) != PhoneNumber ==>
      PhoneKeyword(PhoneAttrType(typeName)) == Some(ToLower(typeName))
    ensures PhoneAttrType(typeName) == PhoneNumber ==>
      forall t :: PhoneKeyword(t) != Some(ToLower(typeName))
  {
  }

  lemma EmailTypeTable(typeName: string)
    ensures IsEmailType(EmailAttrType(typeName))
    ensures EmailAttrType(typeName) != Email ==>
      EmailKeyword(EmailAttrType(typeName)) == Some(ToLower(typeName))
    ensures EmailAttrType(typeName) == Email ==>
      forall t :: EmailKeyword(t) != Some(ToLower(typeName))
  {
  }

  /** Lower-casing twice is lower-casing once. */
  lemma ToLowerIdempotent(s: string)
    ensures ToLower(ToLower(s)) == ToLower(s)
  {
    assert forall i :: 0 <= i < |s| ==> LowerChar(LowerChar(s[i])) == LowerChar(s[i]);
  }

  /** The tables ignore letter case. */
  lemma TablesIgnoreCase(typeName: string)
    ensures PhoneAttrType(ToLower(typeName)) == PhoneAttrType(typeName)
    ensures EmailAttrType(ToLower(typeName)) == EmailAttrType(typeName)
  {
    ToLowerIdempotent(typeName);
  }

  /** A string without upper-case ASCII letters is its own lower case. */
  lemma ToLowerOfLowerCase(s: string)
    requires forall i :: 0 <= i < |s| ==> !('A' <= s[i] <= 'Z')
    ensures ToLower(s) == s
  {
  }

  /** Every keyword of the phone table selects its own type. */
  lemma PhoneKeywordsSelectTheirType(t: AttrType)
    ensures PhoneKeyword(t).Some? ==> PhoneAttrType(PhoneKeyword(t).value) == t
  {
    if PhoneKeyword(t).Some? {
      var k := PhoneKeyword(t).value;
      ToLowerOfLowerCase(k);
      assert PhoneAttrType(k) == t by {
        match t
        case PhoneNumberHome => assert k == "home";
        case PhoneNumberOffice => assert k == "work";
        case PhoneNumberText => assert k == "text";
        case PhoneNumberFax => assert k == "fax";
        case PhoneNumberMobile => assert k == "cell";
        case PhoneNumberVideo => assert k == "video";
        case PhoneNumberPager => assert k == "pager";
        case PhoneNumberTextphone => assert k == "textphone";
        case PhoneNumberVoiceMessaging => assert k == "msg";
        case PhoneNumberBbs => assert k == "bbs";
        case PhoneNumberModem => assert k == "modem";
        case PhoneNumberCar => assert k == "car";
        case PhoneNumberIsdn => assert k == "isdn";
        case PhoneNumberPcs => assert k == "pcs";
      }
    }
  }

  /** Every keyword of the e-mail table selects its own type. */
  lemma EmailKeywordsSelectTheirType(t: AttrType)
    ensures EmailKeyword(t).Some? ==> EmailAttrType(EmailKeyword(t).value) == t
  {
    if EmailKeyword(t).Some? {
      ToLowerOfLowerCase(EmailKeyword(t).value);
    }
  }

  /** The keywords the switches name explicitly for the generic types fall
      back like any unknown keyword. */
  lemma ExplicitGenericKeywords()
    ensures PhoneAttrType("pref") == PhoneNumber
    ensures PhoneAttrType("voice") == PhoneNumber
    ensures PhoneAttrType("main-number") == PhoneNumber
    ensures EmailAttrType("internet") == Email
    ensures EmailAttrType("pref") == Email
  {
    ToLowerOfLowerCase("pref");
    ToLowerOfLowerCase("voice");
    ToLowerOfLowerCase("main-number");
    ToLowerOfLowerCase("internet");
  }

  /** The attributes for one value with a non-empty type list: one per listed
      type, in list order, each carrying the value. */
  function TypedAttributes(value: string, types: seq<string>, classify: string -> AttrType): (r: seq<Attribute>)
    ensures |r| == |types|
    ensures forall i :: 0 <= i < |types| ==> r[i] == Attribute(classify(types[i]), Text(value))
    decreases |types|
  {
    if types == [] then []
    else TypedAttributes(value, types[..|types| - 1], classify) + [Attribute(classify(types[|types| - 1]), Text(value))]
  }

  /** The attributes for one telephone entry. */
  function PhoneAttributes(t: Telephone): seq<Attribute>
  {
    match t.text
    case None => []
    case Some(x) =>
      if x == "" then []
      else if t.types == [] then TextAttribute(x, PhoneNumber)
      else TypedAttributes(x, t.types, PhoneAttrType)
  }

  /** The attributes for one e-mail entry. */
  function EmailEntryAttributes(e: VcardEmail): seq<Attribute>
  {
    match e.value
    case None => []
    case Some(x) =>
      if x == "" then []
      else if e.types == [] then TextAttribute(x, Email)
      else TypedAttributes(x, e.types, EmailAttrType)
  }

  function UrlAttribute(url: string): seq<Attribute>
  {
    TextAttribute(url, Url)
  }

  /** Only the first value of an organization is stored. */
  function OrgAttribute(values: seq<string>): seq<Attribute>
  {
    if values != [] then TextAttribute(values[0], Organization) else []
  }

  function PhoneEntryAccount(t: Telephone): seq<Account>
  {
    match t.text
    case None => []
    case Some(x) => if x == "" then [] else [Account(PhoneAccount, x)]
  }

  function EmailEntryAccount(e: VcardEmail): seq<Account>
  {
    match e.value
    case None => []
    case Some(x) => if x == "" then [] else [Account(EmailAccount, x)]
  }

  /** The attribute list addContactArtifact collects, in order: name, phones,
      e-mails, URLs, organizations. */
  function ContactAttributes(v: VCard): seq<Attribute>
  {
    TextAttribute(v.formattedName, NamePerson)
    + Concat(v.telephones, PhoneAttributes)
    + Concat(v.emails, EmailEntryAttributes)
    + Concat(v.urls, UrlAttribute)
    + Concat(v.organizations, OrgAttribute)
  }

  /** The phone and e-mail accounts addContactArtifact tries, in order. */
  function ContactAccounts(v: VCard): seq<Account>
  {
    Concat(v.telephones, PhoneEntryAccount) + Concat(v.emails, EmailEntryAccount)
  }

  /** Each telephone entry's attributes: nothing for a null or empty number,
      one generic attribute for an untyped one, one per type otherwise, all
      of phone types and carrying the number. */
  lemma PhoneAttributesShape(t: Telephone)
    ensures (t.text.None? || t.text == Some("")) <==> PhoneAttributes(t) == []
    ensures t.text.Some? && t.text.value != "" && t.types == [] ==>
      PhoneAttributes(t) == [Attribute(PhoneNumber, Text(t.text.value))]
    ensures t.text.Some? && t.text.value != "" && t.types != [] ==>
      |PhoneAttributes(t)| == |t.types|
    ensures forall a :: a in PhoneAttributes(t) ==>
      IsPhoneType(a.attrType) && t.text.Some? && a.value == Text(t.text.value) && t.text.value != ""
  {
    if t.text.Some? && t.text.value != "" && t.types != [] {
      var r := PhoneAttributes(t);
      forall a | a in r ensures IsPhoneType(a.attrType) {
        var i :| 0 <= i < |r| && r[i] == a;
        PhoneTypeTable(t.types[i]);
      }
    }
  }

  lemma EmailEntryAttributesShape(e: VcardEmail)
    ensures (e.value.None? || e.value == Some("")) <==> EmailEntryAttributes(e) == []
    ensures e.value.Some? && e.value.value != "" && e.types == [] ==>
      EmailEntryAttributes(e) == [Attribute(Email, Text(e.value.value))]
    ensures e.value.Some? && e.value.value != "" && e.types != [] ==>
      |EmailEntryAttributes(e)| == |e.types|
    ensures forall a :: a in EmailEntryAttributes(e) ==>
      IsEmailType(a.attrType) && e.value.Some? && a.value == Text(e.value.value) && e.value.value != ""
  {
    if e.value.Some? && e.value.value != "" && e.types != [] {
      var r := EmailEntryAttributes(e);
      forall a | a in r ensures IsEmailType(a.attrType) {
        var i :| 0 <= i < |r| && r[i] == a;
        EmailTypeTable(e.types[i]);
      }
    }
  }

  lemma {:induction false} SparseByMembers(attrs: seq<Attribute>)
    requires forall a :: a in attrs ==> Storable(a.value)
    ensures Sparse(attrs)
  {
    forall i | 0 <= i < |attrs| ensures Storable(attrs[i].value) {
      assert attrs[i] in attrs;
    }
  }

  /** The contact never stores an empty string. */
  lemma {:induction false} ContactAttributesSparse(v: VCard)
    ensures Sparse(ContactAttributes(v))
  {
    var p := Concat(v.telephones, PhoneAttributes);
    var e := Concat(v.emails, EmailEntryAttributes);
    var u := Concat(v.urls, UrlAttribute);
    var o := Concat(v.organizations, OrgAttribute);
    forall a | a in p ensures Storable(a.value) {
      ConcatMembers(v.telephones, PhoneAttributes, a);
      var i :| 0 <= i < |v.telephones| && a in PhoneAttributes(v.telephones[i]);
      PhoneAttributesShape(v.telephones[i]);
    }
    forall a | a in e ensures Storable(a.value) {
      ConcatMembers(v.emails, EmailEntryAttributes, a);
      var i :| 0 <= i < |v.emails| && a in EmailEntryAttributes(v.emails[i]);
      EmailEntryAttributesShape(v.emails[i]);
    }
    forall a | a in u ensures Storable(a.value) {
      ConcatMembers(v.urls, UrlAttribute, a);
    }
    forall a | a in o ensures Storable(a.value) {
      ConcatMembers(v.organizations, OrgAttribute, a);
    }
    SparseByMembers(p);
    SparseByMembers(e);
    SparseByMembers(u);
    SparseByMembers(o);
    SparseAppend(TextAttribute(v.formattedName, NamePerson), p);
    SparseAppend(TextAttribute(v.formattedName, NamePerson) + p, e);
    SparseAppend(TextAttribute(v.formattedName, NamePerson) + p + e, u);
    SparseAppend(TextAttribute(v.formattedName, NamePerson) + p + e + u, o);
  }

  /** An organization value is stored exactly when it is the non-empty first
      value of some organization; later values never are. */
  lemma OrganizationsStored(orgs: seq<seq<string>>, x: string)
    ensures Attribute(Organization, Text(x)) in Concat(orgs, OrgAttribute) <==>
      x != "" && exists i :: 0 <= i < |orgs| && orgs[i] != [] && orgs[i][0] == x
  {
    ConcatMembers(orgs, OrgAttribute, Attribute(Organization, Text(x)));
  }

  /** A URL is stored exactly when it is non-empty and listed. */
  lemma UrlsStored(urls: seq<string>, x: string)
    ensures Attribute(Url, Text(x)) in Concat(urls, UrlAttribute) <==> x != "" && x in urls
  {
    ConcatMembers(urls, UrlAttribute, Attribute(Url, Text(x)));
    if x in urls {
      var i :| 0 <= i < |urls| && urls[i] == x;
    }
  }

  /** A phone account is tried for x exactly when some telephone entry has
      the non-empty text x, and there is at most one attempt per entry. */
  lemma PhoneAccountsTried(ts: seq<Telephone>, x: string)
    ensures Account(PhoneAccount, x) in Concat(ts, PhoneEntryAccount) <==>
      x != "" && exists i :: 0 <= i < |ts| && ts[i].text == Some(x)
    ensures |Concat(ts, PhoneEntryAccount)| <= |ts|
    ensures (forall i :: 0 <= i < |ts| ==> ts[i].text.Some? && ts[i].text.value != "") ==>
      |Concat(ts, PhoneEntryAccount)| == |ts|
  {
    ConcatMembers(ts, PhoneEntryAccount, Account(PhoneAccount, x));
    ConcatLength(ts, PhoneEntryAccount);
  }

  lemma EmailAccountsTried(es: seq<VcardEmail>, x: string)
    ensures Account(EmailAccount, x) in Concat(es, EmailEntryAccount) <==>
      x != "" && exists i :: 0 <= i < |es| && es[i].value == Some(x)
    ensures |Concat(es, EmailEntryAccount)| <= |es|
    ensures (forall i :: 0 <= i < |es| ==> es[i].value.Some? && es[i].value.value != "") ==>
      |Concat(es, EmailEntryAccount)| == |es|
  {
    ConcatMembers(es, EmailEntryAccount, Account(EmailAccount, x));
    ConcatLength(es, EmailEntryAccount);
  }

  /** A telephone entry gets an account attempt exactly when it gets
      attributes: both are skipped together for a null or empty number. */
  lemma AccountIffAttributes(t: Telephone, e: VcardEmail)
    ensures PhoneEntryAccount(t) == [] <==> PhoneAttributes(t) == []
    ensures EmailEntryAccount(e) == [] <==> EmailEntryAttributes(e) == []
  {
    PhoneAttributesShape(t);
    EmailEntryAttributesShape(e);
  }
}
