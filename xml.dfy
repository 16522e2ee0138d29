/**
 * The XML element tree both engines build and walk: ElementTree's Element
 * (tag, attribute dict, ordered children, optional text), its direct-child
 * lookups `find` and `findall`, and the mutable element an encoder fills in.
 */
module Xml {
  import opened Wrappers
  import Dict

  datatype Element = Element(tag: string, attrib: Dict.Dict<string>, children: seq<Element>, text: Option<string>)

  /** `Element(tag)`: no attributes, no children, no text. */
  function Empty(tag: string): Element {
    Element(tag, [], [], None)
  }

  /** Index of the first element of cs whose tag is `tag`. */
  function FirstTagged(cs: seq<Element>, tag: string): (r: Option<nat>)
    ensures r.Some? ==> r.value < |cs| && cs[r.value].tag == tag
    ensures r.Some? ==> forall j :: 0 <= j < r.value ==> cs[j].tag != tag
    ensures r.None? ==> forall j :: 0 <= j < |cs| ==> cs[j].tag != tag
  {
    if cs == [] then None
    else if cs[0].tag == tag then Some(0)
    else
      match FirstTagged(cs[1..], tag)
      case None => None
      case Some(i) => Some(i + 1)
  }

  /** `e.find(tag)` for a plain tag: the first direct child carrying it. */
  function Find(e: Element, tag: string): (r: Option<Element>)
    ensures r.Some? ==> r.value in e.children && r.value.tag == tag
    ensures r.None? <==> forall c :: c in e.children ==> c.tag != tag
  {
    match FirstTagged(e.children, tag)
    case None => None
    case Some(i) => Some(e.children[i])
  }

  /** The elements of cs whose tag is `tag`, in their order in cs. */
  function Tagged(cs: seq<Element>, tag: string): (r: seq<Element>)
    ensures |r| <= |cs|
    ensures forall x :: x in r ==> x in cs && x.tag == tag
    ensures forall x :: x in cs && x.tag == tag ==> x in r
  {
    if cs == [] then []
    else (if cs[0].tag == tag then [cs[0]] else []) + Tagged(cs[1..], tag)
  }

  /** `e.findall(tag)` for a plain tag: every direct child carrying it, in document order. */
  function FindAll(e: Element, tag: string): (r: seq<Element>)
    ensures forall x :: x in r ==> x in e.children && x.tag == tag
    ensures forall x :: x in e.children && x.tag == tag ==> x in r
  {
    Tagged(e.children, tag)
  }

  /** Selecting by tag distributes over concatenation: document order is kept. */
  lemma {:induction false} TaggedAppend(a: seq<Element>, b: seq<Element>, tag: string)
    ensures Tagged(a + b, tag) == Tagged(a, tag) + Tagged(b, tag)
  {
    if a == [] {
      assert a + b == b;
    } else {
      assert (a + b)[0] == a[0];
      assert (a + b)[1..] == a[1..] + b;
      TaggedAppend(a[1..], b, tag);
    }
  }

  /** The first child with a tag is the first element of findall's result. */
  lemma {:induction false} FindIsFirstOfFindAll(e: Element, tag: string)
    ensures Find(e, tag).Some? <==> FindAll(e, tag) != []
    ensures Find(e, tag).Some? ==> Find(e, tag).value == FindAll(e, tag)[0]
  {
    FirstOfTagged(e.children, tag);
  }

  lemma {:induction false} FirstOfTagged(cs: seq<Element>, tag: string)
    ensures FirstTagged(cs, tag).Some? <==> Tagged(cs, tag) != []
    ensures FirstTagged(cs, tag).Some? ==> cs[FirstTagged(cs, tag).value] == Tagged(cs, tag)[0]
  {
    if cs != [] && cs[0].tag != tag {
      FirstOfTagged(cs[1..], tag);
    }
  }

  /** The tags of a sequence of elements, in order. */
  function TagsOf(cs: seq<Element>): (r: seq<string>)
    ensures |r| == |cs|
    ensures forall k :: 0 <= k < |cs| ==> r[k] == cs[k].tag
  {
    if cs == [] then [] else [cs[0].tag] + TagsOf(cs[1..])
  }

  lemma TagsOfAppend(a: seq<Element>, b: seq<Element>)
    ensures TagsOf(a + b) == TagsOf(a) + TagsOf(b)
  {
  }

  /**
   * The mutable element an encoder fills in place: `SubElement` appends a
   * child, `set` writes an attribute, assigning `text` sets the content.
   */
  class ElementBuilder {
    var tag: string
    var attrib: Dict.Dict<string>
    var children: seq<Element>
    var text: Option<string>

    /** `Element(tag)`. */
    constructor (tag: string)
      ensures Snapshot() == Empty(tag)
    {
      this.tag := tag;
      attrib := [];
      children := [];
      text := None;
    }

    /** The element as it stands now. */
    function Snapshot(): Element
      reads this
    {
      Element(tag, attrib, children, text)
    }

    /** `element.set(key, value)`. */
    method Set(key: string, value: string)
      modifies this
      ensures Snapshot() == old(Snapshot()).(attrib := Dict.Put(old(attrib), key, value))
    {
      attrib := Dict.Put(attrib, key, value);
    }

    /** Appends a finished child, as `SubElement(element, ...)` does. */
    method Append(child: Element)
      modifies this
      ensures Snapshot() == old(Snapshot()).(children := old(children) + [child])
    {
      children := children + [child];
    }

    /** `element.text = value`. */
    method SetText(value: string)
      modifies this
      ensures Snapshot() == old(Snapshot()).(text := Some(value))
    {
      text := Some(value);
    }
  }

  /** The preamble `include_xml_version` puts in front of the rendered root. */
  const XmlDeclaration: string := "<?xml version=\"1.0\" ?>"

  /** The rendered document, with the XML declaration prepended when asked. */
  function WithDeclaration(rendered: string, wanted: bool): (r: string)
    ensures wanted ==> |r| == |XmlDeclaration| + |rendered|
    ensures wanted ==> r[..|XmlDeclaration|] == XmlDeclaration && r[|XmlDeclaration|..] == rendered
    ensures !wanted ==> r == rendered
  {
    if wanted then XmlDeclaration + rendered else rendered
  }
}
