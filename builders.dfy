/** The loops addEmailArtifact and addContactArtifact run to grow their
    attribute and account-instance lists, each proved to build the list its
    specification function describes. */
module Builders {
  import opened Evidence
  import opened Attributes
  import opened Seqs
  import opened CaseStore
  import opened MessageEvidence
  import opened ContactEvidence

  /** The recipient loop of addEmailArtifact: one e-mail account attempt per
      address, in list order; the instance list keeps the successful ones,
      so a failure drops only its own address. */
  method CreateEmailAccounts(addresses: seq<string>, openCase: CaseServices)
    returns (instances: seq<Account>, ghost attempts: seq<Attempt>)
    modifies openCase`accountLog
    ensures openCase.accountLog == old(openCase.accountLog) + attempts
    ensures Attempted(attempts) == EmailAccounts(addresses)
    ensures instances == Resolved(attempts)
  {
    instances, attempts := [], [];
    var i := 0;
    while i < |addresses|
      invariant 0 <= i <= |addresses|
      invariant openCase.accountLog == old(openCase.accountLog) + attempts
      invariant Attempted(attempts) == EmailAccounts(addresses[..i])
      invariant instances == Resolved(attempts)
    {
      var account := Account(EmailAccount, addresses[i]);
      var ok := openCase.CreateAccountFileInstance(account);
      AppendAssociative(old(openCase.accountLog), attempts, [Attempt(account, ok)]);
      AttemptedAppend(attempts, [Attempt(account, ok)]);
      ResolvedAppend(attempts, [Attempt(account, ok)]);
      attempts := attempts + [Attempt(account, ok)];
      if ok {
        instances := instances + [account];
      }
      assert EmailAccounts(addresses[..i + 1]) == EmailAccounts(addresses[..i]) + [account];
      i := i + 1;
    }
    assert addresses[..i] == addresses;
  }

  /** The inner loop over an entry's type list: one attribute per type. */
  method AddTypedAttributes(value: string, types: seq<string>, classify: string -> AttrType, list: AttributeList)
    requires value != ""
    modifies list
    ensures list.items == old(list.items) + TypedAttributes(value, types, classify)
  {
    var j := 0;
    while j < |types|
      invariant 0 <= j <= |types|
      invariant list.items == old(list.items) + TypedAttributes(value, types[..j], classify)
    {
      AddArtifactAttribute(value, classify(types[j]), list);
      AppendAssociative(old(list.items), TypedAttributes(value, types[..j], classify), TextAttribute(value, classify(types[j])));
      assert types[..j + 1][..j] == types[..j];
      j := j + 1;
    }
    assert types[..j] == types;
  }

  /** One pass of the telephone loop: a null or empty number is skipped,
      otherwise its attributes are added and one phone account is tried. */
  method AddTelephone(t: Telephone, list: AttributeList, openCase: CaseServices)
    returns (instance: seq<Account>, ghost attempts: seq<Attempt>)
    modifies list, openCase`accountLog
    ensures list.items == old(list.items) + PhoneAttributes(t)
    ensures openCase.accountLog == old(openCase.accountLog) + attempts
    ensures Attempted(attempts) == PhoneEntryAccount(t)
    ensures instance == Resolved(attempts)
  {
    instance, attempts := [], [];
    if t.text.Some? && t.text.value != "" {
      var text := t.text.value;
      if t.types == [] {
        AddArtifactAttribute(text, PhoneNumber, list);
      } else {
        AddTypedAttributes(text, t.types, PhoneAttrType, list);
      }
      var account := Account(PhoneAccount, text);
      var ok := openCase.CreateAccountFileInstance(account);
      attempts := [Attempt(account, ok)];
      assert attempts[..0] == [];
      if ok {
        instance := [account];
      }
    }
  }

  /** One more entry processed: the attribute list, the attempts and the
      instances each grow by that entry's part. */
  lemma EntryStep<T>(xs: seq<T>, i: nat, attrs: T -> seq<Attribute>, accounts: T -> seq<Account>,
                     items0: seq<Attribute>, itemsBefore: seq<Attribute>, itemsAfter: seq<Attribute>,
                     attempts: seq<Attempt>, step: seq<Attempt>, instances: seq<Account>, instance: seq<Account>)
    requires i < |xs|
    requires itemsBefore == items0 + Concat(xs[..i], attrs) && itemsAfter == itemsBefore + attrs(xs[i])
    requires Attempted(attempts) == Concat(xs[..i], accounts) && Attempted(step) == accounts(xs[i])
    requires instances == Resolved(attempts) && instance == Resolved(step)
    ensures itemsAfter == items0 + Concat(xs[..i + 1], attrs)
    ensures Attempted(attempts + step) == Concat(xs[..i + 1], accounts)
    ensures instances + instance == Resolved(attempts + step)
  {
    ConcatSnoc(xs, i, attrs);
    ConcatSnoc(xs, i, accounts);
    AttemptedAppend(attempts, step);
    ResolvedAppend(attempts, step);
  }

  /** The telephone loop of addContactArtifact. */
  method AddTelephones(ts: seq<Telephone>, list: AttributeList, openCase: CaseServices)
    returns (instances: seq<Account>, ghost attempts: seq<Attempt>)
    modifies list, openCase`accountLog
    ensures list.items == old(list.items) + Concat(ts, PhoneAttributes)
    ensures openCase.accountLog == old(openCase.accountLog) + attempts
    ensures Attempted(attempts) == Concat(ts, PhoneEntryAccount)
    ensures instances == Resolved(attempts)
  {
    instances, attempts := [], [];
    var i := 0;
    while i < |ts|
      invariant 0 <= i <= |ts|
      invariant list.items == old(list.items) + Concat(ts[..i], PhoneAttributes)
      invariant openCase.accountLog == old(openCase.accountLog) + attempts
      invariant Attempted(attempts) == Concat(ts[..i], PhoneEntryAccount)
      invariant instances == Resolved(attempts)
    {
      ghost var itemsBefore := list.items;
      var instance, step := AddTelephone(ts[i], list, openCase);
      AppendAssociative(old(openCase.accountLog), attempts, step);
      EntryStep(ts, i, PhoneAttributes, PhoneEntryAccount, old(list.items), itemsBefore, list.items,
                attempts, step, instances, instance);
      attempts := attempts + step;
      instances := instances + instance;
      i := i + 1;
    }
    assert ts[..i] == ts;
  }

  /** One pass of the e-mail loop of addContactArtifact. */
  method AddEmail(e: VcardEmail, list: AttributeList, openCase: CaseServices)
    returns (instance: seq<Account>, ghost attempts: seq<Attempt>)
    modifies list, openCase`accountLog
    ensures list.items == old(list.items) + EmailEntryAttributes(e)
    ensures openCase.accountLog == old(openCase.accountLog) + attempts
    ensures Attempted(attempts) == EmailEntryAccount(e)
    ensures instance == Resolved(attempts)
  {
    instance, attempts := [], [];
    if e.value.Some? && e.value.value != "" {
      var value := e.value.value;
      if e.types == [] {
        AddArtifactAttribute(value, Email, list);
      } else {
        AddTypedAttributes(value, e.types, EmailAttrType, list);
      }
      var account := Account(EmailAccount, value);
      var ok := openCase.CreateAccountFileInstance(account);
      attempts := [Attempt(account, ok)];
      assert attempts[..0] == [];
      if ok {
        instance := [account];
      }
    }
  }

  /** The e-mail loop of addContactArtifact. */
  method AddEmails(es: seq<VcardEmail>, list: AttributeList, openCase: CaseServices)
    returns (instances: seq<Account>, ghost attempts: seq<Attempt>)
    modifies list, openCase`accountLog
    ensures list.items == old(list.items) + Concat(es, EmailEntryAttributes)
    ensures openCase.accountLog == old(openCase.accountLog) + attempts
    ensures Attempted(attempts) == Concat(es, EmailEntryAccount)
    ensures instances == Resolved(attempts)
  {
    instances, attempts := [], [];
    var i := 0;
    while i < |es|
      invariant 0 <= i <= |es|
      invariant list.items == old(list.items) + Concat(es[..i], EmailEntryAttributes)
      invariant openCase.accountLog == old(openCase.accountLog) + attempts
      invariant Attempted(attempts) == Concat(es[..i], EmailEntryAccount)
      invariant instances == Resolved(attempts)
    {
      ghost var itemsBefore := list.items;
      var instance, step := AddEmail(es[i], list, openCase);
      AppendAssociative(old(openCase.accountLog), attempts, step);
      EntryStep(es, i, EmailEntryAttributes, EmailEntryAccount, old(list.items), itemsBefore, list.items,
                attempts, step, instances, instance);
      attempts := attempts + step;
      instances := instances + instance;
      i := i + 1;
    }
    assert es[..i] == es;
  }

  /** The URL loop of addContactArtifact. */
  method AddUrls(urls: seq<string>, list: AttributeList)
    modifies list
    ensures list.items == old(list.items) + Concat(urls, UrlAttribute)
  {
    var i := 0;
    while i < |urls|
      invariant 0 <= i <= |urls|
      invariant list.items == old(list.items) + Concat(urls[..i], UrlAttribute)
    {
      AddArtifactAttribute(urls[i], Url, list);
      AppendAssociative(old(list.items), Concat(urls[..i], UrlAttribute), UrlAttribute(urls[i]));
      assert urls[..i + 1][..i] == urls[..i];
      i := i + 1;
    }
    assert urls[..i] == urls;
  }

  /** The organization loop of addContactArtifact. */
  method AddOrganizations(orgs: seq<seq<string>>, list: AttributeList)
    modifies list
    ensures list.items == old(list.items) + Concat(orgs, OrgAttribute)
  {
    var i := 0;
    while i < |orgs|
      invariant 0 <= i <= |orgs|
      invariant list.items == old(list.items) + Concat(orgs[..i], OrgAttribute)
    {
      if orgs[i] != [] {
        AddArtifactAttribute(orgs[i][0], Organization, list);
      }
      AppendAssociative(old(list.items), Concat(orgs[..i], OrgAttribute), OrgAttribute(orgs[i]));
      assert orgs[..i + 1][..i] == orgs[..i];
      i := i + 1;
    }
    assert orgs[..i] == orgs;
  }
}
