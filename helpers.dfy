/** make_path_slug: a text made safe for use as a folder's base name. */
module Helpers {

  /** The characters `[a-zA-Z0-9\-\.]` that a slug keeps. */
  predicate SlugChar(c: char) {
    ('a' <= c <= 'z') || ('A' <= c <= 'Z') || ('0' <= c <= '9') || c == '-' || c == '.'
  }

  /** make_path_slug: every character outside the kept set becomes `_`,
      one for one, and the others stay where they are. */
  function PathSlug(text: string): (r: string)
    ensures |r| == |text|
    ensures forall i :: 0 <= i < |text| ==> (SlugChar(text[i]) ==> r[i] == text[i])
    ensures forall i :: 0 <= i < |text| ==> (!SlugChar(text[i]) ==> r[i] == '_')
  {
    if text == [] then []
    else [if SlugChar(text[0]) then text[0] else '_'] + PathSlug(text[1..])
  }

  /** A slug holds only kept characters and `_`. */
  lemma SlugAlphabet(text: string)
    ensures forall i :: 0 <= i < |PathSlug(text)| ==> SlugChar(PathSlug(text)[i]) || PathSlug(text)[i] == '_'
  {
  }

  /** Making a slug of a slug changes nothing. */
  lemma SlugIdempotent(text: string)
    ensures PathSlug(PathSlug(text)) == PathSlug(text)
  {
    var s := PathSlug(text);
    assert forall i :: 0 <= i < |s| ==> PathSlug(s)[i] == s[i];
  }

  /** Slugs are made piece by piece. */
  lemma {:induction false} SlugAppend(a: string, b: string)
    ensures PathSlug(a + b) == PathSlug(a) + PathSlug(b)
  {
    if a != [] {
      assert (a + b)[1..] == a[1..] + b;
      SlugAppend(a[1..], b);
    } else {
      assert a + b == b;
    }
  }

  /** `Foo/Bar 123` becomes `Foo_Bar_123`. */
  lemma SlugExample()
    ensures PathSlug("Foo/Bar 123") == "Foo_Bar_123"
  {
    assert "Foo/Bar 123" == "Foo/" + ("Bar " + "123");
    SlugAppend("Foo/", "Bar " + "123");
    SlugAppend("Bar ", "123");
    SlugPieces();
    assert "Foo_" + ("Bar_" + "123") == "Foo_Bar_123";
  }

  /** The three pieces of the example, each on its own. */
  lemma SlugPieces()
    ensures PathSlug("Foo/") == "Foo_" && PathSlug("Bar ") == "Bar_" && PathSlug("123") == "123"
  {
    assert PathSlug("Foo/") == "Foo_";
    assert PathSlug("Bar ") == "Bar_";
  }
}
