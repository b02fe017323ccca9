/** The document lists a Bamboo spec loads: an `!include` tag stands for the
    documents of another file, so a loaded stream is a list whose items are
    documents or nested document lists, and flattening lists the documents
    depth first, left to right. */
module BambooDocs {
  import Yaml

  /** One item of a loaded stream: a document, or a DocumentList of items. */
  datatype Doc = Leaf(value: Yaml.Value) | Nested(items: seq<Doc>)

  /** DocumentList.flatten: nested lists give way to their own flattening,
      documents are kept; what comes back holds no nested list. */
  function Flatten(items: seq<Doc>): (r: seq<Doc>)
    ensures forall d :: d in r ==> d.Leaf?
    decreases items
  {
    if items == [] then []
    else
      var rest := Flatten(items[1..]);
      match items[0]
      case Leaf(_) => [items[0]] + rest
      case Nested(inner) =>
        assert items[0] in items;
        Flatten(inner) + rest
  }

  /** The number of documents an item holds, counted through the nesting. */
  function LeafCount(d: Doc): (n: nat)
    ensures d.Leaf? ==> n == 1
    decreases d, 1
  {
    match d
    case Leaf(_) => 1
    case Nested(items) => LeafCountAll(items)
  }

  /** The number of documents a list of items holds. */
  function LeafCountAll(items: seq<Doc>): (n: nat)
    ensures items == [] ==> n == 0
    decreases items, 0
  {
    if items == [] then 0
    else
      assert items[0] in items;
      LeafCount(items[0]) + LeafCountAll(items[1..])
  }

  /** Flattening keeps order: the documents of a list's first part come
      before those of the rest. */
  lemma {:induction false} FlattenAppend(a: seq<Doc>, b: seq<Doc>)
    ensures Flatten(a + b) == Flatten(a) + Flatten(b)
    decreases |a|
  {
    if a != [] {
      assert (a + b)[0] == a[0] && (a + b)[1..] == a[1..] + b;
      FlattenAppend(a[1..], b);
    } else {
      assert a + b == b;
    }
  }

  /** Every document is kept, none is added: the result is as long as the
      list holds documents. */
  lemma {:induction false} FlattenLength(items: seq<Doc>)
    ensures |Flatten(items)| == LeafCountAll(items)
    decreases items
  {
    if items != [] {
      FlattenLength(items[1..]);
      assert items[0] in items;
      if items[0].Nested? {
        FlattenLength(items[0].items);
      }
    }
  }

  /** A list without nested lists flattens to itself. */
  lemma {:induction false} FlattenFlat(items: seq<Doc>)
    requires forall d :: d in items ==> d.Leaf?
    ensures Flatten(items) == items
  {
    if items != [] {
      assert items[0] in items;
      assert forall d :: d in items[1..] ==> d in items;
      FlattenFlat(items[1..]);
    }
  }

  /** Flattening twice is flattening once. */
  lemma FlattenIdempotent(items: seq<Doc>)
    ensures Flatten(Flatten(items)) == Flatten(items)
  {
    FlattenFlat(Flatten(items));
  }

  /** A nested list alone flattens to its own flattening. */
  lemma FlattenNested(inner: seq<Doc>)
    ensures Flatten([Nested(inner)]) == Flatten(inner)
  {
    assert [Nested(inner)][1..] == [];
  }

  /** Splicing a nested list's items into place in the surrounding list
      leaves the flattening unchanged. */
  lemma RegroupParts(a: seq<Doc>, inner: seq<Doc>, c: seq<Doc>)
    ensures Flatten(a + [Nested(inner)] + c) == Flatten(a + inner + c)
  {
    FlattenNested(inner);
    FlattenAppend(a + [Nested(inner)], c);
    FlattenAppend(a, [Nested(inner)]);
    FlattenAppend(a, inner);
    FlattenAppend(a + inner, c);
  }
}
