/**
 * The csv-datastore element a finished wizard produces: its fixed layout, the
 * rule that null settings are left out, and a reader that recovers the
 * settings from the element.
 */
module DatastoreXml {
  import opened Wrappers
  import opened Dom
  import opened TextValue
  import CharToken

  /** The parser settings chosen on the configuration page; any of them may be null. */
  datatype CsvConfiguration = CsvConfiguration(
    quoteChar: Option<char>,
    separatorChar: Option<char>,
    escapeChar: Option<char>,
    encoding: Option<string>,
    failOnInconsistentRowLength: Option<bool>,
    columnNameLineNumber: Option<int>)

  /** Everything the serialiser reads from a wizard session. */
  datatype DatastoreDefinition = DatastoreDefinition(
    name: string,
    description: Option<string>,
    filepath: Option<string>,
    configuration: CsvConfiguration)

  const DATASTORE_TAG: string := "csv-datastore"

  /** The child elements, in the order they are appended. */
  const CHILD_TAGS: seq<string> := [
    "filename", "quote-char", "separator-char", "escape-char",
    "encoding", "fail-on-inconsistencies", "header-line-number"]

  function StringField(o: Option<string>): Option<Value> {
    match o
    case None => None
    case Some(s) => Some(StringValue(s))
  }

  function CharField(o: Option<char>): Option<Value> {
    match o
    case None => None
    case Some(c) => Some(CharValue(c))
  }

  function BoolField(o: Option<bool>): Option<Value> {
    match o
    case None => None
    case Some(b) => Some(BoolValue(b))
  }

  function IntField(o: Option<int>): Option<Value> {
    match o
    case None => None
    case Some(i) => Some(IntValue(i))
  }

  /** The text a possibly-null value is written as; null is written as nothing. */
  function Text(v: Option<Value>): Option<string> {
    match v
    case None => None
    case Some(x) => Some(TextContent(x))
  }

  /** The children appendElement adds for one value: none for null, else one. */
  function Field(tag: string, v: Option<Value>): seq<TextElement> {
    match v
    case None => []
    case Some(x) => [TextElement(tag, TextContent(x))]
  }

  /**
   * appendElement: a null value leaves the parent alone; any other value adds
   * exactly one child, at the end, named elementName, holding the value's text.
   */
  method AppendElement(parent: Element, elementName: string, value: Option<Value>)
    modifies parent
    ensures parent.attributes == old(parent.attributes)
    ensures value.None? ==> parent.children == old(parent.children)
    ensures value.Some? ==>
      parent.children == old(parent.children) + [TextElement(elementName, TextContent(value.value))]
    ensures parent.children == old(parent.children) + Field(elementName, value)
  {
    if value.None? {
      return;
    }
    var text := TextContent(value.value);
    parent.AppendChild(TextElement(elementName, text));
  }

  /**
   * A sequence of appendElement calls on one parent, oldest first: each adds
   * the Field of its tag and value after the children of the earlier calls.
   */
  datatype Layout = NoCalls | Then(earlier: Layout, tag: string, value: Option<Value>)

  /** The children a sequence of appendElement calls leaves on an empty parent. */
  function ChildrenOf(l: Layout): seq<TextElement> {
    match l
    case NoCalls => []
    case Then(earlier, tag, value) => ChildrenOf(earlier) + Field(tag, value)
  }

  /** The tag names the calls pass, in call order, whether or not the value is null. */
  function CallTags(l: Layout): seq<string> {
    match l
    case NoCalls => []
    case Then(earlier, tag, _) => CallTags(earlier) + [tag]
  }

  /** The values the calls pass, in call order. */
  function CallValues(l: Layout): (r: seq<Option<Value>>)
    ensures |r| == |CallTags(l)|
  {
    match l
    case NoCalls => []
    case Then(earlier, _, value) => CallValues(earlier) + [value]
  }

  /** The value passed with a tag (the latest one, should a tag be passed twice). */
  function ValueFor(l: Layout, t: string): Option<Value> {
    match l
    case NoCalls => None
    case Then(earlier, tag, value) => if tag == t then value else ValueFor(earlier, t)
  }

  /** The seven appendElement calls of createDatastoreElement, in source order. */
  function CreateLayout(filepath: Option<string>, c: CsvConfiguration): Layout {
    var l1 := Then(NoCalls, "filename", StringField(filepath));
    var l2 := Then(l1, "quote-char", CharField(c.quoteChar));
    var l3 := Then(l2, "separator-char", CharField(c.separatorChar));
    var l4 := Then(l3, "escape-char", CharField(c.escapeChar));
    var l5 := Then(l4, "encoding", StringField(c.encoding));
    var l6 := Then(l5, "fail-on-inconsistencies", BoolField(c.failOnInconsistentRowLength));
    Then(l6, "header-line-number", IntField(c.columnNameLineNumber))
  }

  /** The children of the element. */
  function Children(filepath: Option<string>, c: CsvConfiguration): seq<TextElement> {
    ChildrenOf(CreateLayout(filepath, c))
  }

  /** The children, written out as the seven appendElement calls produce them. */
  lemma ChildrenInAppendOrder(filepath: Option<string>, c: CsvConfiguration)
    ensures Children(filepath, c) ==
      []
      + Field("filename", StringField(filepath))
      + Field("quote-char", CharField(c.quoteChar))
      + Field("separator-char", CharField(c.separatorChar))
      + Field("escape-char", CharField(c.escapeChar))
      + Field("encoding", StringField(c.encoding))
      + Field("fail-on-inconsistencies", BoolField(c.failOnInconsistentRowLength))
      + Field("header-line-number", IntField(c.columnNameLineNumber))
  {
    var l := CreateLayout(filepath, c);
    var l6 := l.earlier;
    var l5 := l6.earlier;
    var l4 := l5.earlier;
    var l3 := l4.earlier;
    var l2 := l3.earlier;
    var l1 := l2.earlier;
    assert ChildrenOf(l1) == [] + Field("filename", StringField(filepath));
    assert ChildrenOf(l2) == ChildrenOf(l1) + Field(l2.tag, l2.value);
    assert ChildrenOf(l3) == ChildrenOf(l2) + Field(l3.tag, l3.value);
    assert ChildrenOf(l4) == ChildrenOf(l3) + Field(l4.tag, l4.value);
    assert ChildrenOf(l5) == ChildrenOf(l4) + Field(l5.tag, l5.value);
    assert ChildrenOf(l6) == ChildrenOf(l5) + Field(l6.tag, l6.value);
    assert ChildrenOf(l) == ChildrenOf(l6) + Field(l.tag, l.value);
  }

  /** StringUtils.isNullOrEmpty. */
  predicate IsNullOrEmpty(s: Option<string>) {
    s.None? || s.value == ""
  }

  /** The description that is written: null and "" are both dropped. */
  function NonEmpty(description: Option<string>): (r: Option<string>)
    ensures r.Some? <==> description.Some? && description.value != ""
    ensures r.Some? ==> r == description
  {
    if IsNullOrEmpty(description) then None else description
  }

  /**
   * The attributes of the element: name always, description only when it is
   * neither null nor empty, and nothing else.
   */
  function Attributes(name: string, description: Option<string>): (a: map<string, string>)
    ensures "name" in a && a["name"] == name
    ensures "description" in a <==> description.Some? && description.value != ""
    ensures "description" in a ==> a["description"] == description.value
    ensures a.Keys <= {"name", "description"}
  {
    var named := map["name" := name];
    if IsNullOrEmpty(description) then named else named["description" := description.value]
  }

  /** createDatastoreElement, as a value. */
  function Render(d: DatastoreDefinition): ElementValue {
    ElementValue(DATASTORE_TAG, Attributes(d.name, d.description), Children(d.filepath, d.configuration))
  }

  /** Decodes an optional child text: absent stays absent, malformed text fails. */
  function DecodeField<T>(text: Option<string>, decode: string -> Option<T>): Option<Option<T>> {
    match text
    case None => Some(None)
    case Some(t) =>
      match decode(t)
      case None => None
      case Some(v) => Some(Some(v))
  }

  /** Reads the parser settings back from the children of a csv-datastore element. */
  function ParseConfiguration(cs: seq<TextElement>): Option<CsvConfiguration> {
    var quote :- DecodeField(Lookup(cs, "quote-char"), CharToken.DecodeChar);
    var separator :- DecodeField(Lookup(cs, "separator-char"), CharToken.DecodeChar);
    var escape :- DecodeField(Lookup(cs, "escape-char"), CharToken.DecodeChar);
    var failOn :- DecodeField(Lookup(cs, "fail-on-inconsistencies"), ParseBool);
    var header :- DecodeField(Lookup(cs, "header-line-number"), ParseInt);
    Some(CsvConfiguration(quote, separator, escape, Lookup(cs, "encoding"), failOn, header))
  }

  /** Reads a datastore definition back from a csv-datastore element. */
  function ParseElement(e: ElementValue): Option<DatastoreDefinition> {
    if e.tagName != DATASTORE_TAG || "name" !in e.attributes then None
    else
      var description := if "description" in e.attributes then Some(e.attributes["description"]) else None;
      var configuration :- ParseConfiguration(e.children);
      Some(DatastoreDefinition(e.attributes["name"], description, Lookup(e.children, "filename"), configuration))
  }

  predicate Distinct(tags: seq<string>) {
    forall i, j :: 0 <= i < j < |tags| ==> tags[i] != tags[j]
  }

  /** xs can be obtained from ys by deleting elements (compared from the end). */
  predicate IsSubsequence(xs: seq<string>, ys: seq<string>)
    decreases |ys|
  {
    xs == [] ||
    (ys != [] &&
     ((xs[|xs| - 1] == ys[|ys| - 1] && IsSubsequence(xs[..|xs| - 1], ys[..|ys| - 1])) ||
      IsSubsequence(xs, ys[..|ys| - 1])))
  }

  lemma {:induction false} SubsequenceLength(xs: seq<string>, ys: seq<string>)
    requires IsSubsequence(xs, ys)
    ensures |xs| <= |ys|
    decreases |ys|
  {
    if xs != [] {
      if xs[|xs| - 1] == ys[|ys| - 1] && IsSubsequence(xs[..|xs| - 1], ys[..|ys| - 1]) {
        SubsequenceLength(xs[..|xs| - 1], ys[..|ys| - 1]);
      } else {
        SubsequenceLength(xs, ys[..|ys| - 1]);
      }
    }
  }

  /** With no tag passed twice, a tag that was never passed has no value. */
  lemma {:induction false} ValueForAbsent(l: Layout, t: string)
    requires t !in CallTags(l)
    ensures ValueFor(l, t).None?
  {
    if l.Then? {
      assert CallTags(l) == CallTags(l.earlier) + [l.tag];
      ValueForAbsent(l.earlier, t);
    }
  }

  /** The tags of the calls whose value is not null, in call order. */
  function KeptTags(l: Layout): seq<string> {
    match l
    case NoCalls => []
    case Then(earlier, tag, value) => KeptTags(earlier) + (if value.Some? then [tag] else [])
  }

  /**
   * The child tags are exactly the tags of the calls with a non-null value, in
   * call order; so they form a subsequence of the passed tags.
   */
  lemma {:induction false} ChildrenFollowCalls(l: Layout)
    ensures Tags(ChildrenOf(l)) == KeptTags(l)
    ensures IsSubsequence(Tags(ChildrenOf(l)), CallTags(l))
  {
    if l.Then? {
      var xs := Tags(ChildrenOf(l.earlier));
      var ys := CallTags(l.earlier);
      ChildrenFollowCalls(l.earlier);
      TagsAppend(ChildrenOf(l.earlier), Field(l.tag, l.value));
      var zs := ys + [l.tag];
      assert zs[..|zs| - 1] == ys;
      if l.value.Some? {
        var ws := xs + [l.tag];
        assert Tags(ChildrenOf(l)) == ws;
        assert ws[..|ws| - 1] == xs;
      } else {
        assert Tags(ChildrenOf(l)) == xs;
      }
    }
  }

  /** Without a repeated tag, the earlier calls repeat none either and never pass the last tag. */
  lemma DistinctEarlier(l: Layout)
    requires l.Then? && Distinct(CallTags(l))
    ensures Distinct(CallTags(l.earlier)) && l.tag !in CallTags(l.earlier)
  {
    var ts := CallTags(l.earlier);
    assert CallTags(l) == ts + [l.tag];
    forall i, j | 0 <= i < j < |ts| ensures ts[i] != ts[j] {
      assert CallTags(l)[i] == ts[i] && CallTags(l)[j] == ts[j];
    }
    forall i | 0 <= i < |ts| ensures ts[i] != l.tag {
      assert CallTags(l)[i] == ts[i] && CallTags(l)[|ts|] == l.tag;
    }
  }

  /** Without a repeated tag, the k-th call's tag has the k-th call's value. */
  lemma {:induction false} ValueForCall(l: Layout, k: nat)
    requires Distinct(CallTags(l)) && k < |CallTags(l)|
    ensures ValueFor(l, CallTags(l)[k]) == CallValues(l)[k]
  {
    var ts := CallTags(l.earlier);
    assert CallTags(l) == ts + [l.tag];
    assert CallValues(l) == CallValues(l.earlier) + [l.value];
    DistinctEarlier(l);
    if k < |ts| {
      assert CallTags(l)[k] == ts[k] != l.tag;
      ValueForCall(l.earlier, k);
    }
  }

  /** With no tag passed twice, each tag finds the text of the value passed with it. */
  lemma {:induction false} LookupChildrenOf(l: Layout, t: string)
    requires Distinct(CallTags(l))
    ensures Lookup(ChildrenOf(l), t) == Text(ValueFor(l, t))
  {
    if l.Then? {
      DistinctEarlier(l);
      LookupChildrenOf(l.earlier, t);
      LookupAppend(ChildrenOf(l.earlier), Field(l.tag, l.value), t);
      if l.tag == t {
        ValueForAbsent(l.earlier, t);
      }
    }
  }

  /** The calls createDatastoreElement makes, as a list. */
  lemma CreateLayoutCallValues(filepath: Option<string>, c: CsvConfiguration)
    ensures CallValues(CreateLayout(filepath, c)) ==
      [StringField(filepath), CharField(c.quoteChar), CharField(c.separatorChar), CharField(c.escapeChar),
       StringField(c.encoding), BoolField(c.failOnInconsistentRowLength), IntField(c.columnNameLineNumber)]
  {
    var l := CreateLayout(filepath, c);
    var l6 := l.earlier;
    var l5 := l6.earlier;
    var l4 := l5.earlier;
    var l3 := l4.earlier;
    var l2 := l3.earlier;
    var l1 := l2.earlier;
    assert CallValues(l1) == [] + [l1.value];
    assert CallValues(l2) == CallValues(l1) + [l2.value];
    assert CallValues(l3) == CallValues(l2) + [l3.value];
    assert CallValues(l4) == CallValues(l3) + [l4.value];
    assert CallValues(l5) == CallValues(l4) + [l5.value];
    assert CallValues(l6) == CallValues(l5) + [l6.value];
    assert CallValues(l) == CallValues(l6) + [l.value];
  }

  lemma ChildTagsDistinct()
    ensures Distinct(CHILD_TAGS)
  {
  }

  /** The calls createDatastoreElement makes pass the tags of CHILD_TAGS, in that order. */
  lemma CreateLayoutTags(filepath: Option<string>, c: CsvConfiguration)
    ensures CallTags(CreateLayout(filepath, c)) == CHILD_TAGS
  {
    var l := CreateLayout(filepath, c);
    var l6 := l.earlier;
    var l5 := l6.earlier;
    var l4 := l5.earlier;
    var l3 := l4.earlier;
    var l2 := l3.earlier;
    var l1 := l2.earlier;
    assert CallTags(l1) == [] + ["filename"];
    assert CallTags(l2) == CallTags(l1) + ["quote-char"];
    assert CallTags(l3) == CallTags(l2) + ["separator-char"];
    assert CallTags(l4) == CallTags(l3) + ["escape-char"];
    assert CallTags(l5) == CallTags(l4) + ["encoding"];
    assert CallTags(l6) == CallTags(l5) + ["fail-on-inconsistencies"];
    assert CallTags(l) == CallTags(l6) + ["header-line-number"];
  }

  /** Each tag of createDatastoreElement is passed with its own setting. */
  lemma CreateLayoutValues(filepath: Option<string>, c: CsvConfiguration)
    ensures ValueFor(CreateLayout(filepath, c), "filename") == StringField(filepath)
    ensures ValueFor(CreateLayout(filepath, c), "quote-char") == CharField(c.quoteChar)
    ensures ValueFor(CreateLayout(filepath, c), "separator-char") == CharField(c.separatorChar)
    ensures ValueFor(CreateLayout(filepath, c), "escape-char") == CharField(c.escapeChar)
    ensures ValueFor(CreateLayout(filepath, c), "encoding") == StringField(c.encoding)
    ensures ValueFor(CreateLayout(filepath, c), "fail-on-inconsistencies") == BoolField(c.failOnInconsistentRowLength)
    ensures ValueFor(CreateLayout(filepath, c), "header-line-number") == IntField(c.columnNameLineNumber)
  {
    var l := CreateLayout(filepath, c);
    CreateLayoutTags(filepath, c);
    CreateLayoutCallValues(filepath, c);
    ChildTagsDistinct();
    ValueForCall(l, 0);
    ValueForCall(l, 1);
    ValueForCall(l, 2);
    ValueForCall(l, 3);
    ValueForCall(l, 4);
    ValueForCall(l, 5);
    ValueForCall(l, 6);
  }

  /**
   * The children of the element are filename, quote-char, separator-char,
   * escape-char, encoding, fail-on-inconsistencies and header-line-number, in
   * that order, each present exactly when its value is not null; so there are
   * at most seven of them.
   */
  lemma ChildrenLayout(filepath: Option<string>, c: CsvConfiguration)
    ensures IsSubsequence(Tags(Children(filepath, c)), CHILD_TAGS)
    ensures |Children(filepath, c)| <= 7
    ensures "filename" in Tags(Children(filepath, c)) <==> filepath.Some?
    ensures "quote-char" in Tags(Children(filepath, c)) <==> c.quoteChar.Some?
    ensures "separator-char" in Tags(Children(filepath, c)) <==> c.separatorChar.Some?
    ensures "escape-char" in Tags(Children(filepath, c)) <==> c.escapeChar.Some?
    ensures "encoding" in Tags(Children(filepath, c)) <==> c.encoding.Some?
    ensures "fail-on-inconsistencies" in Tags(Children(filepath, c)) <==> c.failOnInconsistentRowLength.Some?
    ensures "header-line-number" in Tags(Children(filepath, c)) <==> c.columnNameLineNumber.Some?
  {
    var cs := Children(filepath, c);
    CreateLayoutTags(filepath, c);
    ChildrenFollowCalls(CreateLayout(filepath, c));
    SubsequenceLength(Tags(cs), CHILD_TAGS);
    LookupChildren(filepath, c);
  }

  /** Each of the seven tags finds the text of its own setting. */
  lemma LookupChildren(filepath: Option<string>, c: CsvConfiguration)
    ensures Lookup(Children(filepath, c), "filename") == Text(StringField(filepath))
    ensures Lookup(Children(filepath, c), "quote-char") == Text(CharField(c.quoteChar))
    ensures Lookup(Children(filepath, c), "separator-char") == Text(CharField(c.separatorChar))
    ensures Lookup(Children(filepath, c), "escape-char") == Text(CharField(c.escapeChar))
    ensures Lookup(Children(filepath, c), "encoding") == Text(StringField(c.encoding))
    ensures Lookup(Children(filepath, c), "fail-on-inconsistencies") == Text(BoolField(c.failOnInconsistentRowLength))
    ensures Lookup(Children(filepath, c), "header-line-number") == Text(IntField(c.columnNameLineNumber))
  {
    var l := CreateLayout(filepath, c);
    CreateLayoutTags(filepath, c);
    CreateLayoutValues(filepath, c);
    ChildTagsDistinct();
    LookupChildrenOf(l, "filename");
    LookupChildrenOf(l, "quote-char");
    LookupChildrenOf(l, "separator-char");
    LookupChildrenOf(l, "escape-char");
    LookupChildrenOf(l, "encoding");
    LookupChildrenOf(l, "fail-on-inconsistencies");
    LookupChildrenOf(l, "header-line-number");
  }

  /**
   * Reading the element back gives the definition it was written from, except
   * that an empty description is not written and reads back as null.
   */
  lemma ParseRender(d: DatastoreDefinition)
    ensures ParseElement(Render(d)) == Some(d.(description := NonEmpty(d.description)))
  {
    var e := Render(d);
    LookupChildren(d.filepath, d.configuration);
    ParseChildren(d.filepath, d.configuration);
    assert e.tagName == DATASTORE_TAG && "name" in e.attributes && e.attributes["name"] == d.name;
    assert ParseConfiguration(e.children) == Some(d.configuration);
    assert Lookup(e.children, "filename") == d.filepath;
    var description := if "description" in e.attributes then Some(e.attributes["description"]) else None;
    assert description == NonEmpty(d.description);
  }

  /** The settings read back from the children are the ones they were written from. */
  lemma ParseChildren(filepath: Option<string>, c: CsvConfiguration)
    ensures ParseConfiguration(Children(filepath, c)) == Some(c)
  {
    var cs := Children(filepath, c);
    LookupChildren(filepath, c);
    DecodeCharField(c.quoteChar);
    DecodeCharField(c.separatorChar);
    DecodeCharField(c.escapeChar);
    DecodeBoolField(c.failOnInconsistentRowLength);
    DecodeIntField(c.columnNameLineNumber);
    assert DecodeField(Lookup(cs, "quote-char"), CharToken.DecodeChar) == Some(c.quoteChar);
    assert DecodeField(Lookup(cs, "separator-char"), CharToken.DecodeChar) == Some(c.separatorChar);
    assert DecodeField(Lookup(cs, "escape-char"), CharToken.DecodeChar) == Some(c.escapeChar);
    assert DecodeField(Lookup(cs, "fail-on-inconsistencies"), ParseBool) == Some(c.failOnInconsistentRowLength);
    assert DecodeField(Lookup(cs, "header-line-number"), ParseInt) == Some(c.columnNameLineNumber);
    assert Lookup(cs, "encoding") == c.encoding;
  }

  lemma DecodeCharField(o: Option<char>)
    ensures DecodeField(Text(CharField(o)), CharToken.DecodeChar) == Some(o)
  {
    if o.Some? {
      CharToken.DecodeEncode(o.value);
    }
  }

  lemma DecodeBoolField(o: Option<bool>)
    ensures DecodeField(Text(BoolField(o)), ParseBool) == Some(o)
  {
    if o.Some? {
      ParseBoolToString(o.value);
    }
  }

  lemma DecodeIntField(o: Option<int>)
    ensures DecodeField(Text(IntField(o)), ParseInt) == Some(o)
  {
    if o.Some? {
      var t := IntToString(o.value);
      ParseIntToString(o.value);
      assert Text(IntField(o)) == Some(t);
    }
  }
}
