/**
 * The part of an XML document object model the serialiser uses: an element
 * with a tag name, string attributes and text-only child elements, which is
 * built by setting attributes and appending children one at a time.
 */
module Dom {
  import opened Wrappers

  /** A child element whose only content is a text node. */
  datatype TextElement = TextElement(tagName: string, text: string)

  /** A snapshot of an element: its tag, attributes and children in document order. */
  datatype ElementValue = ElementValue(tagName: string, attributes: map<string, string>, children: seq<TextElement>)

  /** A mutable element, as a document creates it and its builder fills it in. */
  class Element {
    const tagName: string
    var attributes: map<string, string>
    var children: seq<TextElement>

    constructor (tagName: string)
      ensures this.tagName == tagName && attributes == map[] && children == []
    {
      this.tagName := tagName;
      attributes := map[];
      children := [];
    }

    function Value(): ElementValue
      reads this
    {
      ElementValue(tagName, attributes, children)
    }

    /** Sets (or replaces) one attribute; the children stay as they were. */
    method SetAttribute(name: string, value: string)
      modifies this
      ensures attributes == old(attributes)[name := value]
      ensures children == old(children)
    {
      attributes := attributes[name := value];
    }

    /** Adds a child after all existing ones; the attributes stay as they were. */
    method AppendChild(child: TextElement)
      modifies this
      ensures children == old(children) + [child]
      ensures attributes == old(attributes)
    {
      children := children + [child];
    }
  }

  /** The tag names of a list of children, in order. */
  function Tags(cs: seq<TextElement>): (r: seq<string>)
    ensures |r| == |cs|
    ensures forall k :: 0 <= k < |cs| ==> r[k] == cs[k].tagName
  {
    if cs == [] then [] else [cs[0].tagName] + Tags(cs[1..])
  }

  /** The text of the first child with the given tag name, if any. */
  function Lookup(cs: seq<TextElement>, tag: string): (r: Option<string>)
    ensures r.Some? <==> tag in Tags(cs)
    ensures r.Some? ==> exists k :: 0 <= k < |cs| && cs[k] == TextElement(tag, r.value)
  {
    if cs == [] then None
    else if cs[0].tagName == tag then Some(cs[0].text)
    else Lookup(cs[1..], tag)
  }

  /** Looking up in a concatenation searches the first part, then the second. */
  lemma {:induction false} LookupAppend(a: seq<TextElement>, b: seq<TextElement>, tag: string)
    ensures Lookup(a + b, tag) == if Lookup(a, tag).Some? then Lookup(a, tag) else Lookup(b, tag)
  {
    if a != [] {
      assert (a + b)[0] == a[0];
      assert (a + b)[1..] == a[1..] + b;
      LookupAppend(a[1..], b, tag);
    } else {
      assert a + b == b;
    }
  }

  lemma {:induction false} TagsAppend(a: seq<TextElement>, b: seq<TextElement>)
    ensures Tags(a + b) == Tags(a) + Tags(b)
  {
  }
}
