/** The configuration document as RelayBot reads it through ElementTree: an
    element is its tag, its attribute map and its child elements. */
module Xml {

  datatype Element = Element(tag: string, attrib: map<string, string>, children: seq<Element>)

  /** `elements` with the given tag, in document order: what `findall(tag)` or
      `findall('./' + tag)` returns when applied to their parent. */
  function Tagged(elements: seq<Element>, tag: string): (r: seq<Element>)
    ensures |r| <= |elements|
    ensures forall x :: x in r <==> x in elements && x.tag == tag
    decreases |elements|
  {
    if elements == [] then []
    else (if elements[0].tag == tag then [elements[0]] else []) + Tagged(elements[1..], tag)
  }

  /** `parent.findall(tag)`: the children of `parent` with that tag. */
  function FindAll(parent: Element, tag: string): seq<Element>
  {
    Tagged(parent.children, tag)
  }

  /** Tagging distributes over concatenation, so a document's elements can be
      taken one at a time. */
  lemma {:induction false} TaggedConcat(a: seq<Element>, b: seq<Element>, tag: string)
    ensures Tagged(a + b, tag) == Tagged(a, tag) + Tagged(b, tag)
    decreases |a|
  {
    if a != [] {
      assert (a + b)[1..] == a[1..] + b;
      TaggedConcat(a[1..], b, tag);
    } else {
      assert a + b == b;
    }
  }
}
