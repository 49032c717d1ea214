/** The sparse attribute policy of the two addArtifactAttribute overloads:
    empty strings and non-positive longs are never stored. */
module Attributes {
  import opened Text
  import opened Evidence

  /** Whether a value is one the module would store. */
  predicate Storable(v: AttrValue)
  {
    match v
    case Text(s) => s != ""
    case Long(n) => n > 0
  }

  predicate Sparse(attrs: seq<Attribute>)
  {
    forall i :: 0 <= i < |attrs| ==> Storable(attrs[i].value)
  }

  /** What addArtifactAttribute(String, ...) appends. */
  function TextAttribute(value: string, t: AttrType): (r: seq<Attribute>)
    ensures |r| == (if value == "" then 0 else 1)
    ensures |r| == 1 ==> r[0] == Attribute(t, Text(value)) && Storable(r[0].value)
  {
    if value == "" then [] else [Attribute(t, Text(value))]
  }

  /** What addArtifactAttribute(long, ...) appends. */
  function LongAttribute(value: int, t: AttrType): (r: seq<Attribute>)
    ensures |r| == (if value > 0 then 1 else 0)
    ensures |r| == 1 ==> r[0] == Attribute(t, Long(value)) && Storable(r[0].value)
  {
    if value > 0 then [Attribute(t, Long(value))] else []
  }

  /** The first value stored under type t, if any. */
  function Find(attrs: seq<Attribute>, t: AttrType): Option<AttrValue>
  {
    if attrs == [] then None
    else if attrs[0].attrType == t then Some(attrs[0].value)
    else Find(attrs[1..], t)
  }

  /** A value found under t is stored under t, and nothing found means no
      attribute of type t is stored. */
  lemma {:induction false} FindSound(attrs: seq<Attribute>, t: AttrType)
    ensures Find(attrs, t).Some? ==> Attribute(t, Find(attrs, t).value) in attrs
    ensures Find(attrs, t).None? <==> forall a :: a in attrs ==> a.attrType != t
  {
    if attrs != [] && attrs[0].attrType != t {
      FindSound(attrs[1..], t);
      assert forall a :: a in attrs <==> a == attrs[0] || a in attrs[1..];
    }
  }

  lemma {:induction false} FindAppend(a: seq<Attribute>, b: seq<Attribute>, t: AttrType)
    ensures Find(a + b, t) == if Find(a, t).Some? then Find(a, t) else Find(b, t)
  {
    if a == [] {
      assert a + b == b;
    } else {
      assert (a + b)[1..] == a[1..] + b;
      FindAppend(a[1..], b, t);
    }
  }

  lemma {:induction false} SparseAppend(a: seq<Attribute>, b: seq<Attribute>)
    requires Sparse(a) && Sparse(b)
    ensures Sparse(a + b)
  {
    forall i | 0 <= i < |a + b| ensures Storable((a + b)[i].value) {
      if i >= |a| { assert (a + b)[i] == b[i - |a|]; }
    }
  }

  /** The caller's attribute collection, which addArtifactAttribute grows in
      place. */
  class AttributeList {
    var items: seq<Attribute>

    constructor ()
      ensures items == []
    {
      items := [];
    }
  }

  /** addArtifactAttribute(String, ATTRIBUTE_TYPE, Collection). */
  method AddArtifactAttribute(value: string, t: AttrType, list: AttributeList)
    modifies list
    ensures list.items == old(list.items) + TextAttribute(value, t)
  {
    if value != "" {
      list.items := list.items + [Attribute(t, Text(value))];
    }
  }

  /** addArtifactAttribute(long, ATTRIBUTE_TYPE, Collection). */
  method AddArtifactLongAttribute(value: int, t: AttrType, list: AttributeList)
    modifies list
    ensures list.items == old(list.items) + LongAttribute(value, t)
  {
    if value > 0 {
      list.items := list.items + [Attribute(t, Long(value))];
    }
  }
}
