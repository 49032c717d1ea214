/** findEmailAddresess: the set of texts the address pattern matches in a
    header field, and the enumeration order that ArrayList.addAll imposes on
    that set. The regular-expression engine is a parameter: a Matcher gives
    the successive spans Matcher.find reports. */
module Addresses {

  datatype Span = Span(start: nat, end: nat)

  type Matcher = string -> seq<Span>

  predicate LocalChar(c: char)
  {
    ('A' <= c <= 'Z') || ('a' <= c <= 'z') || ('0' <= c <= '9')
    || c == '.' || c == '_' || c == '%' || c == '+' || c == '-'
  }

  predicate DomainChar(c: char)
  {
    ('A' <= c <= 'Z') || ('a' <= c <= 'z') || ('0' <= c <= '9') || c == '.' || c == '-'
  }

  predicate Letter(c: char)
  {
    ('A' <= c <= 'Z') || ('a' <= c <= 'z')
  }

  /** A text of the form [A-Z0-9._%+-]+ @ [A-Z0-9.-]+ \. [A-Z]{2,4}, letters
      in either case. */
  ghost predicate AddressShaped(s: string)
  {
    exists k :: 0 < k < |s| && s[k] == '@'
      && (forall i :: 0 <= i < k ==> LocalChar(s[i]))
      && DomainShaped(s[k + 1..])
  }

  ghost predicate DomainShaped(d: string)
  {
    exists j :: 0 < j < |d| && d[j] == '.'
      && (forall i :: 0 <= i < j ==> DomainChar(d[i]))
      && 2 <= |d| - (j + 1) <= 4
      && (forall i :: j < i < |d| ==> Letter(d[i]))
  }

  /** What Matcher.find guarantees: spans in order, not overlapping, each
      one covering an address-shaped text of the input. */
  ghost predicate ValidMatches(input: string, spans: seq<Span>)
  {
    && InBounds(input, spans)
    && (forall i :: 0 <= i < |spans| ==> AddressShaped(input[spans[i].start..spans[i].end]))
    && (forall i :: 0 <= i < |spans| - 1 ==> spans[i].end <= spans[i + 1].start)
  }

  predicate InBounds(input: string, spans: seq<Span>)
  {
    forall i :: 0 <= i < |spans| ==> spans[i].start < spans[i].end <= |input|
  }

  ghost predicate ValidMatcher(m: Matcher)
  {
    forall s :: ValidMatches(s, m(s))
  }

  /** The texts the spans cover, in match order. */
  function Groups(input: string, spans: seq<Span>): (r: seq<string>)
    requires InBounds(input, spans)
    ensures |r| == |spans|
    ensures forall i :: 0 <= i < |spans| ==> r[i] == input[spans[i].start..spans[i].end]
  {
    seq(|spans|, i requires 0 <= i < |spans| => input[spans[i].start..spans[i].end])
  }

  /** The set findEmailAddresess returns for a field. */
  ghost function AddressSet(m: Matcher, input: string): set<string>
    requires ValidMatcher(m)
  {
    assert ValidMatches(input, m(input));
    set g | g in Groups(input, m(input))
  }

  predicate IsSubstring(a: string, s: string)
  {
    exists i, j :: 0 <= i <= j <= |s| && s[i..j] == a
  }

  /** The set of the first n texts. */
  function FirstGroups(groups: seq<string>, n: nat): (r: set<string>)
    requires n <= |groups|
    ensures |r| <= n
  {
    if n == 0 then {} else FirstGroups(groups, n - 1) + {groups[n - 1]}
  }

  lemma {:induction false} FirstGroupsMembers(groups: seq<string>, n: nat)
    requires n <= |groups|
    ensures FirstGroups(groups, n) == set j | 0 <= j < n :: groups[j]
  {
    if n > 0 {
      FirstGroupsMembers(groups, n - 1);
    }
  }

  /** findEmailAddresess: adds every match to a HashSet. */
  method FindEmailAddresses(input: string, m: Matcher) returns (r: set<string>)
    requires ValidMatcher(m)
    ensures r == AddressSet(m, input)
    ensures m(input) == [] ==> r == {}
    ensures |r| <= |m(input)|
  {
    var spans := m(input);
    assert InBounds(input, spans) by { assert ValidMatches(input, spans); }
    ghost var groups := Groups(input, spans);
    r := {};
    var i := 0;
    while i < |spans|
      invariant 0 <= i <= |spans|
      invariant r == FirstGroups(groups, i)
    {
      r := r + {input[spans[i].start..spans[i].end]};
      i := i + 1;
    }
    FirstGroupsMembers(groups, i);
    assert (set j | 0 <= j < i :: groups[j]) == set g | g in groups;
  }

  /** Every extracted address is an address-shaped piece of the field, at
      least six characters long. This reads the matcher's contract back
      through the extraction loop; the regular expression itself is not
      modelled, so nothing here is proved about it. */
  lemma AddressSetShaped(m: Matcher, input: string, a: string)
    requires ValidMatcher(m)
    requires a in AddressSet(m, input)
    ensures AddressShaped(a) && IsSubstring(a, input) && |a| >= 6
  {
    var spans := m(input);
    assert ValidMatches(input, spans);
    var groups := Groups(input, spans);
    var k :| 0 <= k < |groups| && groups[k] == a;
    assert AddressShaped(input[spans[k].start..spans[k].end]);
    assert input[spans[k].start..spans[k].end] == a;
    ShapedLength(a);
  }

  lemma ShapedLength(s: string)
    requires AddressShaped(s)
    ensures |s| >= 6
  {
    var k :| 0 < k < |s| && s[k] == '@'
      && (forall i :: 0 <= i < k ==> LocalChar(s[i]))
      && DomainShaped(s[k + 1..]);
    var d := s[k + 1..];
    var j :| 0 < j < |d| && d[j] == '.' && 2 <= |d| - (j + 1) <= 4;
  }

  predicate Distinct(r: seq<string>)
  {
    forall i, j :: 0 <= i < j < |r| ==> r[i] != r[j]
  }

  /** r lists the elements of s once each, in some order. */
  ghost predicate Enumerates(r: seq<string>, s: set<string>)
  {
    Distinct(r) && |r| == |s| && (forall x :: x in r <==> x in s)
  }

  /** ArrayList.addAll(set): the set's elements in its iteration order,
      which HashSet leaves unspecified. */
  method ToList(s: set<string>) returns (r: seq<string>)
    ensures Enumerates(r, s)
  {
    r := [];
    var rest := s;
    while rest != {}
      invariant Distinct(r)
      invariant forall x :: x in s <==> x in rest || x in r
      invariant forall x :: x in r ==> x !in rest
      invariant |r| + |rest| == |s|
      decreases |rest|
    {
      var x :| x in rest;
      r := r + [x];
      rest := rest - {x};
    }
  }

  /** In a list without repetitions each element occurs once. */
  lemma {:induction false} DistinctOccursOnce(r: seq<string>, x: string)
    requires Distinct(r)
    ensures multiset(r)[x] == if x in r then 1 else 0
  {
    if r != [] {
      var t := r[1..];
      assert r == [r[0]] + t;
      assert Distinct(t);
      DistinctOccursOnce(t, x);
      assert multiset(r) == multiset{r[0]} + multiset(t);
      if x == r[0] {
        assert x !in t;
      }
    }
  }

  /** The recipient list is to, cc and bcc enumerated one after the other,
      without removing repeats across the three: an address occurs once for
      every field that contains it. */
  lemma RecipientOccurrences(a: seq<string>, A: set<string>, b: seq<string>, B: set<string>,
                             c: seq<string>, C: set<string>, x: string)
    requires Enumerates(a, A) && Enumerates(b, B) && Enumerates(c, C)
    ensures multiset(a + b + c)[x] ==
      (if x in A then 1 else 0) + (if x in B then 1 else 0) + (if x in C then 1 else 0)
  {
    DistinctOccursOnce(a, x);
    DistinctOccursOnce(b, x);
    DistinctOccursOnce(c, x);
    assert multiset(a + b + c) == multiset(a) + multiset(b) + multiset(c);
  }

  /** Any two different extracted texts are two entries of the set. Since
      the set compares exact text and the pattern is case-insensitive, this
      covers addresses that differ only in letter case, which are not
      merged. */
  lemma CaseVariantsAreDistinct(m: Matcher, input: string, x: string, y: string)
    requires ValidMatcher(m)
    requires x in Groups(input, m(input)) && y in Groups(input, m(input)) && x != y
    ensures {x, y} <= AddressSet(m, input) && |AddressSet(m, input)| >= 2
  {
    var S := AddressSet(m, input);
    assert {x, y} <= S;
    assert |{x, y}| == 2;
    SubsetSize({x, y}, S);
  }

  lemma SubsetSize(a: set<string>, b: set<string>)
    requires a <= b
    ensures |a| <= |b|
  {
    assert b == a + (b - a);
  }
}
