/**
 * Documentation-comment helpers: looking up items of a symbol's parsed XML documentation, and
 * rendering documentation content as a list of inline text elements.
 */
module XmlDocParser {
  import opened Wrappers
  import opened Lists

  // ---------------------------------------------------------------------------------------
  // The XML tree

  /** An element: its local name, its attributes, its child nodes, and whether it was written as `<x/>`. */
  datatype XElement = XElement(name: string, attributes: map<string, string>, nodes: seq<XNode>, selfClosing: bool) {
    /** `XElement.Attribute(n)?.Value`. */
    function Attribute(n: string): Option<string> {
      if n in attributes then Some(attributes[n]) else None
    }

    /** `XElement.HasElements`: some child node is an element. */
    predicate HasElements() {
      exists k :: 0 <= k < |nodes| && nodes[k].ElementNode?
    }

    /** `XElement.IsEmpty`: the element has no content at all. */
    predicate IsEmpty() {
      selfClosing && nodes == []
    }
  }

  /** A node of the tree: an element, text, a CDATA section, an entity (by its text), or anything else. */
  datatype XNode =
    | ElementNode(element: XElement)
    | TextNode(text: string)
    | CDataNode(text: string)
    | EntityNode(text: string)
    | OtherXNode  // comments and processing instructions

  // ---------------------------------------------------------------------------------------
  // Lookups

  /** The child element is named `element` and, when `name` is given, carries that `name` attribute. */
  predicate IsItem(x: XNode, element: string, name: Option<string>) {
    x.ElementNode? && x.element.name == element && (name.Some? ==> x.element.Attribute("name") == name)
  }

  /** The first child node that is an item, if any. */
  function FirstItem(nodes: seq<XNode>, element: string, name: Option<string>): (r: Option<XElement>)
    ensures r.Some? ==> exists k :: (0 <= k < |nodes| && nodes[k] == ElementNode(r.value) && IsItem(nodes[k], element, name)
      && forall j :: 0 <= j < k ==> !IsItem(nodes[j], element, name))
    ensures r.None? <==> forall k :: 0 <= k < |nodes| ==> !IsItem(nodes[k], element, name)
  {
    if nodes == [] then None
    else if IsItem(nodes[0], element, name) then Some(nodes[0].element)
    else
      var r := FirstItem(nodes[1..], element, name);
      assert forall k :: 1 <= k < |nodes| ==> nodes[k] == nodes[1..][k - 1];
      r
  }

  /** `doc?.Element(element)`: the first child element with that name; nothing for a missing document. */
  function Element(doc: Option<XElement>, element: string): (r: Option<XElement>)
    ensures doc.None? ==> r.None?
  {
    if doc.None? then None else FirstItem(doc.value.nodes, element, None)
  }

  function GetSummary(doc: Option<XElement>): (r: Option<XElement>)
    ensures doc.None? ==> r.None?
    ensures r.Some? ==> r.value.name == "summary"
  {
    Element(doc, "summary")
  }

  function GetReturns(doc: Option<XElement>): (r: Option<XElement>)
    ensures doc.None? ==> r.None?
    ensures r.Some? ==> r.value.name == "returns"
  {
    Element(doc, "returns")
  }

  /** `doc?.Elements(element)?.FirstOrDefault(i => i.Attribute("name")?.Value == name)`. */
  function GetNamedDocItem(doc: Option<XElement>, element: string, name: string): (r: Option<XElement>)
    ensures doc.None? ==> r.None?
  {
    if doc.None? then None else FirstItem(doc.value.nodes, element, Some(name))
  }

  /**
   * The named item is the first child element with that element name and that `name`
   * attribute; there is none exactly when no child matches.
   */
  lemma NamedDocItemFirst(doc: XElement, element: string, name: string)
    ensures var r := GetNamedDocItem(Some(doc), element, name);
      && (r.Some? ==> (r.value.name == element && r.value.Attribute("name") == Some(name)
        && exists k :: (0 <= k < |doc.nodes| && doc.nodes[k] == ElementNode(r.value)
          && forall j :: 0 <= j < k ==> !IsItem(doc.nodes[j], element, Some(name)))))
      && (r.None? <==> forall k :: 0 <= k < |doc.nodes| ==> !IsItem(doc.nodes[k], element, Some(name)))
  {
    var r := GetNamedDocItem(Some(doc), element, name);
    if r.Some? {
      var k :| 0 <= k < |doc.nodes| && doc.nodes[k] == ElementNode(r.value) && IsItem(doc.nodes[k], element, Some(name))
        && forall j :: 0 <= j < k ==> !IsItem(doc.nodes[j], element, Some(name));
      assert r.value == doc.nodes[k].element;
    }
  }

  // ---------------------------------------------------------------------------------------
  // GetXmlDocForSymbol

  datatype TypeParameterKind = TypeParameterOfType | TypeParameterOfMethod | OtherTypeParameterKind

  /**
   * The member a parameter belongs to: a method (for a delegate's Invoke method, the
   * delegate's documentation is the one to read) or an indexer.
   */
  datatype ParameterOwner =
    | MethodOwner(isDelegateInvoke: bool, methodDoc: Option<XElement>, delegateDoc: Option<XElement>)
    | IndexerOwner(indexerDoc: Option<XElement>)

  /**
   * What the documentation lookup needs of a symbol. `doc` is the symbol's own parsed
   * documentation (none when it has no documentation text or the text does not parse); a
   * parameter carries its owner's documentation; a type parameter carries the documentation
   * of its containing type and of its declaring method.
   */
  datatype DocSymbolKind =
    | ParameterSymbol(isThis: bool, owner: ParameterOwner)
    | TypeParameterSymbol(tpKind: TypeParameterKind, containingTypeDoc: Option<XElement>, declaringMethodDoc: Option<XElement>)
    | OtherSymbol

  datatype DocSymbol = DocSymbol(name: string, kind: DocSymbolKind, doc: Option<XElement>)

  /** The documentation a parameter's `param` item is looked up in. */
  function OwnerDoc(owner: ParameterOwner): Option<XElement> {
    match owner
    case MethodOwner(isDelegateInvoke, methodDoc, delegateDoc) => if isDelegateInvoke then delegateDoc else methodDoc
    case IndexerOwner(indexerDoc) => indexerDoc
  }

  /** The outcome of the lookup as written: an element or none, or a null dereference. */
  datatype Lookup = Found(element: Option<XElement>) | NullDereference

  /**
   * The lookup as written: the parameter's containing symbol is cast to a method symbol and
   * its method kind read, so a parameter of an indexer (whose containing symbol is a property)
   * dereferences null.
   */
  function GetXmlDocForSymbolAsWritten(symbol: DocSymbol): (r: Lookup)
    ensures r == NullDereference <==> symbol.kind.ParameterSymbol? && !symbol.kind.isThis && symbol.kind.owner.IndexerOwner?
  {
    match symbol.kind
    case ParameterSymbol(isThis, owner) =>
      if isThis then Found(None)
      else if owner.IndexerOwner? then NullDereference
      else Found(GetNamedDocItem(if owner.isDelegateInvoke then owner.delegateDoc else owner.methodDoc, "param", symbol.name))
    case TypeParameterSymbol(tpKind, containingTypeDoc, declaringMethodDoc) =>
      if tpKind.TypeParameterOfType? then Found(GetNamedDocItem(containingTypeDoc, "typeparam", symbol.name))
      else if tpKind.TypeParameterOfMethod? then Found(GetNamedDocItem(declaringMethodDoc, "typeparam", symbol.name))
      else Found(None)
    case OtherSymbol =>
      Found(GetSummary(symbol.doc))
  }

  /** The documentation element shown for a symbol; an indexer's parameter is looked up in the indexer's documentation. */
  function GetXmlDocForSymbol(symbol: DocSymbol): (r: Option<XElement>)
    ensures symbol.kind.ParameterSymbol? && symbol.kind.isThis ==> r.None?
    ensures symbol.kind.TypeParameterSymbol? && symbol.kind.tpKind.OtherTypeParameterKind? ==> r.None?
  {
    match symbol.kind
    case ParameterSymbol(isThis, owner) =>
      if isThis then None else GetNamedDocItem(OwnerDoc(owner), "param", symbol.name)
    case TypeParameterSymbol(tpKind, containingTypeDoc, declaringMethodDoc) =>
      if tpKind.TypeParameterOfType? then GetNamedDocItem(containingTypeDoc, "typeparam", symbol.name)
      else if tpKind.TypeParameterOfMethod? then GetNamedDocItem(declaringMethodDoc, "typeparam", symbol.name)
      else None
    case OtherSymbol =>
      GetSummary(symbol.doc)
  }

  /** Wherever the lookup as written does not fail, the corrected lookup gives the same element. */
  lemma AsWrittenAgrees(symbol: DocSymbol)
    ensures GetXmlDocForSymbolAsWritten(symbol).Found? ==>
      GetXmlDocForSymbolAsWritten(symbol).element == GetXmlDocForSymbol(symbol)
  {
  }

  /** An indexer `this[int index]` documented with `<param name="index">`: the lookup as written fails, the corrected one finds the item. */
  lemma IndexerParameterLookup()
    ensures var item := XElement("param", map["name" := "index"], [TextNode("The position.")], false);
      var doc := XElement("member", map["name" := "P:C.Item(System.Int32)"], [ElementNode(item)], false);
      var symbol := DocSymbol("index", ParameterSymbol(false, IndexerOwner(Some(doc))), None);
      GetXmlDocForSymbolAsWritten(symbol) == NullDereference && GetXmlDocForSymbol(symbol) == Some(item)
  {
    var item := XElement("param", map["name" := "index"], [TextNode("The position.")], false);
    assert IsItem(ElementNode(item), "param", Some("index"));
  }

  /** The documentation a type parameter's `typeparam` item is looked up in: its containing type's or its declaring method's. */
  function TypeParameterDoc(kind: DocSymbolKind): Option<XElement>
    requires kind.TypeParameterSymbol?
  {
    match kind.tpKind
    case TypeParameterOfType => kind.containingTypeDoc
    case TypeParameterOfMethod => kind.declaringMethodDoc
    case OtherTypeParameterKind => None
  }

  /**
   * `r` is the first child of `doc` with that element name and that `name` attribute; it is
   * missing exactly when there is no document or no child matches.
   */
  predicate IsFirstNamedItem(doc: Option<XElement>, element: string, name: string, r: Option<XElement>) {
    && (r.Some? ==> (doc.Some? && r.value.name == element && r.value.Attribute("name") == Some(name)
      && exists k :: (0 <= k < |doc.value.nodes| && doc.value.nodes[k] == ElementNode(r.value)
        && forall j :: 0 <= j < k ==> !IsItem(doc.value.nodes[j], element, Some(name)))))
    && (r.None? <==> doc.None? || forall k :: 0 <= k < |doc.value.nodes| ==> !IsItem(doc.value.nodes[k], element, Some(name)))
  }

  /**
   * A parameter other than `this` is documented by the first `param` item of its owner's
   * documentation named after it, and has none exactly when no such item exists; a type
   * parameter likewise by the first `typeparam` item of its containing type's documentation
   * (a type's type parameter) or of its declaring method's (a method's); any other symbol by
   * its own summary.
   */
  lemma DocForSymbol(symbol: DocSymbol)
    ensures var r := GetXmlDocForSymbol(symbol);
      && (symbol.kind.ParameterSymbol? && !symbol.kind.isThis ==>
        IsFirstNamedItem(OwnerDoc(symbol.kind.owner), "param", symbol.name, r))
      && (symbol.kind.TypeParameterSymbol? ==>
        IsFirstNamedItem(TypeParameterDoc(symbol.kind), "typeparam", symbol.name, r))
      && (symbol.kind.OtherSymbol? ==> r == GetSummary(symbol.doc))
  {
    var k := symbol.kind;
    if k.ParameterSymbol? && !k.isThis && OwnerDoc(k.owner).Some? {
      NamedDocItemFirst(OwnerDoc(k.owner).value, "param", symbol.name);
    } else if k.TypeParameterSymbol? && TypeParameterDoc(k).Some? {
      NamedDocItemFirst(TypeParameterDoc(k).value, "typeparam", symbol.name);
    }
  }

  // ---------------------------------------------------------------------------------------
  // Text normalisation

  /** `char.IsWhiteSpace`: the Unicode separators and the control characters U+0009 to U+000D and U+0085. */
  predicate IsWhiteSpace(c: char) {
    ('\U{0009}' <= c <= '\U{000D}') || c == ' ' || c == '\U{0085}' || c == '\U{00A0}' || c == '\U{1680}'
    || ('\U{2000}' <= c <= '\U{200A}') || c == '\U{2028}' || c == '\U{2029}' || c == '\U{202F}'
    || c == '\U{205F}' || c == '\U{3000}'
  }

  /** `string.TrimStart()`: the text without its leading white space. */
  function TrimStart(s: string): (r: string)
    ensures |r| <= |s| && r == s[|s| - |r|..]
    ensures r != [] ==> !IsWhiteSpace(r[0])
    ensures forall j :: 0 <= j < |s| - |r| ==> IsWhiteSpace(s[j])
  {
    if s != [] && IsWhiteSpace(s[0]) then TrimStart(s[1..]) else s
  }

  /** `string.TrimEnd()`: the text without its trailing white space. */
  function TrimEnd(s: string): (r: string)
    ensures |r| <= |s| && r == s[..|r|]
    ensures r != [] ==> !IsWhiteSpace(r[|r| - 1])
    ensures forall j :: |r| <= j < |s| ==> IsWhiteSpace(s[j])
  {
    if s != [] && IsWhiteSpace(s[|s| - 1]) then TrimEnd(s[..|s| - 1]) else s
  }

  /** `string.Trim()`: white space removed at both ends. */
  function Trim(s: string): (r: string)
    ensures r != [] ==> !IsWhiteSpace(r[0]) && !IsWhiteSpace(r[|r| - 1])
  {
    var t := TrimStart(s);
    var r := TrimEnd(t);
    assert r != [] ==> r[0] == t[0];
    r
  }

  /** Trimming cuts only white space off either side of the text. */
  lemma TrimSlice(s: string)
    ensures exists i, j :: IsTrimmedSlice(s, Trim(s), i, j)
  {
    TrimmedSlice(s, TrimStart(s), Trim(s));
  }

  /** `r` is `s[i..j]`, and everything of `s` outside that slice is white space. */
  predicate IsTrimmedSlice(s: string, r: string, i: int, j: int) {
    && 0 <= i <= j <= |s| && r == s[i..j]
    && (forall k :: 0 <= k < i ==> IsWhiteSpace(s[k]))
    && (forall k :: j <= k < |s| ==> IsWhiteSpace(s[k]))
  }

  /** Trimming the front and then the back cuts only white space off either side. */
  lemma TrimmedSlice(s: string, t: string, r: string)
    requires |t| <= |s| && t == s[|s| - |t|..] && forall k :: 0 <= k < |s| - |t| ==> IsWhiteSpace(s[k])
    requires |r| <= |t| && r == t[..|r|] && forall k :: |r| <= k < |t| ==> IsWhiteSpace(t[k])
    ensures exists i, j :: IsTrimmedSlice(s, r, i, j)
  {
    var i := |s| - |t|;
    forall k | i + |r| <= k < |s| ensures IsWhiteSpace(s[k]) {
      assert s[k] == t[k - i];
    }
    assert IsTrimmedSlice(s, r, i, i + |r|);
  }

  /** `s.Replace('\n', ' ')`: every line feed becomes a space, every other character stays in place. */
  function ReplaceNewlines(s: string): (r: string)
    ensures |r| == |s| && '\n' !in r
    ensures forall k :: 0 <= k < |s| ==> r[k] == (if s[k] == '\n' then ' ' else s[k])
  {
    if s == [] then [] else [if s[0] == '\n' then ' ' else s[0]] + ReplaceNewlines(s[1..])
  }

  predicate NotSpace(c: char) {
    c != ' '
  }

  /** No two spaces in a row. */
  predicate NoDoubleSpace(s: string) {
    forall k :: 0 <= k < |s| - 1 ==> !(s[k] == ' ' && s[k + 1] == ' ')
  }

  /** The replacement of every run of two or more spaces by one space (the pattern ` {2,}`). */
  function CollapseSpaces(s: string): (r: string)
    ensures |r| <= |s|
    ensures s != [] ==> r != [] && r[0] == s[0] && r[|r| - 1] == s[|s| - 1]
    ensures NoDoubleSpace(r)
  {
    if |s| < 2 then s
    else if s[0] == ' ' && s[1] == ' ' then CollapseSpaces(s[1..])
    else
      var rest := CollapseSpaces(s[1..]);
      assert rest[0] == s[1];
      [s[0]] + rest
  }

  /** Collapsing keeps every other character, in order. */
  lemma {:induction false} CollapseKeepsText(s: string)
    ensures Filter(CollapseSpaces(s), NotSpace) == Filter(s, NotSpace)
  {
    if |s| >= 2 {
      CollapseKeepsText(s[1..]);
      assert s == [s[0]] + s[1..];
      FilterAppend([s[0]], s[1..], NotSpace);
      if !(s[0] == ' ' && s[1] == ' ') {
        FilterAppend([s[0]], CollapseSpaces(s[1..]), NotSpace);
      }
    }
  }

  /**
   * A double space collapses like a single one. With CollapseIdempotent this fixes the value:
   * every run of spaces becomes exactly one space.
   */
  lemma {:induction false} CollapseDoubleSpace(a: string, b: string)
    ensures CollapseSpaces(a + "  " + b) == CollapseSpaces(a + " " + b)
  {
    var s, t := a + "  " + b, a + " " + b;
    if a != [] {
      CollapseDoubleSpace(a[1..], b);
      assert s[1..] == a[1..] + "  " + b;
      assert t[1..] == a[1..] + " " + b;
      CollapseStep(s, t);
    } else {
      assert s[1..] == t;
    }
  }

  /** Texts that agree in their first two characters and collapse alike after the first collapse alike. */
  lemma CollapseStep(s: string, t: string)
    requires |s| >= 2 && |t| >= 2 && s[0] == t[0] && s[1] == t[1]
    requires CollapseSpaces(s[1..]) == CollapseSpaces(t[1..])
    ensures CollapseSpaces(s) == CollapseSpaces(t)
  {
  }

  /** Collapsing a collapsed text changes nothing. */
  lemma {:induction false} CollapseIdempotent(s: string)
    requires NoDoubleSpace(s)
    ensures CollapseSpaces(s) == s
  {
    if |s| >= 2 {
      CollapseIdempotent(s[1..]);
    }
  }

  /** Text outside a code element: newlines become spaces, then runs of spaces shrink to one. */
  function Normalize(s: string): (r: string)
    ensures '\n' !in r && NoDoubleSpace(r)
  {
    var t := ReplaceNewlines(s);
    var r := CollapseSpaces(t);
    CollapseKeepsNoNewline(t);
    r
  }

  lemma {:induction false} CollapseKeepsNoNewline(s: string)
    requires '\n' !in s
    ensures '\n' !in CollapseSpaces(s)
  {
    if |s| >= 2 {
      CollapseKeepsNoNewline(s[1..]);
    }
  }

  /**
   * Normalising treats a line feed as a space and a double space as a single one, and leaves
   * text with neither alone: together these fix every result.
   */
  lemma NormalizeRuns(a: string, b: string)
    ensures Normalize(a + "\n" + b) == Normalize(a + " " + b)
    ensures Normalize(a + "  " + b) == Normalize(a + " " + b)
  {
    var ra, rb := ReplaceNewlines(a), ReplaceNewlines(b);
    ReplaceAround(a, "\n", b);
    ReplaceAround(a, " ", b);
    ReplaceAround(a, "  ", b);
    CollapseDoubleSpace(ra, rb);
  }

  /** The replacement around a line feed or a run of one or two spaces. */
  lemma ReplaceAround(a: string, m: string, b: string)
    requires m == "\n" || m == " " || m == "  "
    ensures ReplaceNewlines(a + m + b) == ReplaceNewlines(a) + (if m == "  " then "  " else " ") + ReplaceNewlines(b)
  {
    ReplaceNewlinesAppend(a + m, b);
    ReplaceNewlinesAppend(a, m);
    assert ReplaceNewlines(m) == (if m == "  " then "  " else " ");
  }

  lemma ReplaceNewlinesAppend(a: string, b: string)
    ensures ReplaceNewlines(a + b) == ReplaceNewlines(a) + ReplaceNewlines(b)
  {
    var s := a + b;
    var r, ra, rb := ReplaceNewlines(s), ReplaceNewlines(a), ReplaceNewlines(b);
    forall k | 0 <= k < |s| ensures r[k] == (ra + rb)[k] {
      if k < |a| {
        assert s[k] == a[k] && (ra + rb)[k] == ra[k];
      } else {
        assert s[k] == b[k - |a|] && (ra + rb)[k] == rb[k - |a|];
      }
    }
  }

  /** Text with no line feed and no two spaces in a row is already normal. */
  lemma NormalizeNormal(s: string)
    requires '\n' !in s && NoDoubleSpace(s)
    ensures Normalize(s) == s
  {
    assert ReplaceNewlines(s) == s;
    CollapseIdempotent(s);
  }

  /** Normalising keeps the first and the last character when they are not line feeds. */
  lemma NormalizeEnds(s: string)
    ensures s != [] && s[0] != '\n' ==> Normalize(s) != [] && Normalize(s)[0] == s[0]
    ensures s != [] && s[|s| - 1] != '\n' ==> Normalize(s) != [] && Normalize(s)[|Normalize(s)| - 1] == s[|s| - 1]
  {
  }

  // ---------------------------------------------------------------------------------------
  // Rendering

  datatype SpanStyle = Bold | Italic | Underline

  /** The symbol kind the symbol renderer is called with. */
  datatype RefKind = Alias | DynamicType | Parameter | TypeParameter

  /**
   * An inline element of the rendered text. A call of the symbol renderer (code outside this
   * model) is recorded as the reference it was asked to render.
   */
  datatype Inline =
    | Run(text: string)
    | LineBreak
    | Styled(style: SpanStyle, inlines: seq<Inline>)
    | SymbolRef(name: string, kind: RefKind)

  predicate IsBlockName(n: string) {
    n == "para" || n == "listheader" || n == "item"
  }

  /** The elements after which text keeps its leading white space. */
  predicate IsInlineName(n: string) {
    n == "see" || n == "paramref" || n == "typeparamref" || n == "c" || n == "b" || n == "i" || n == "u"
  }

  /** `(item.PreviousNode as XElement)?.Name`. */
  function PreviousElementName(nodes: seq<XNode>, i: nat): Option<string>
    requires i < |nodes|
  {
    if i > 0 && nodes[i - 1].ElementNode? then Some(nodes[i - 1].element.name) else None
  }

  /** A block element gets a line break before it when it has a previous sibling that is not a `para`. */
  predicate BreakBefore(nodes: seq<XNode>, i: nat)
    requires i < |nodes|
  {
    i > 0 && PreviousElementName(nodes, i) != Some("para")
  }

  /**
   * The trimming of a text node: at the front unless it follows an inline element (`front`
   * false), and at the back when it is the last node (`back`).
   */
  function TrimForPosition(t: string, front: bool, back: bool): (r: string)
    ensures front && r != [] ==> !IsWhiteSpace(r[0])
    ensures back && r != [] ==> !IsWhiteSpace(r[|r| - 1])
    ensures !front && !back ==> r == t
  {
    if front then (if back then Trim(t) else TrimStart(t))
    else if back then TrimEnd(t)
    else t
  }

  /**
   * Trimming for a position cuts only white space off the text, and touches the front only
   * when `front` and the back only when `back`.
   */
  lemma TrimForPositionSlice(t: string, front: bool, back: bool)
    ensures exists i, j :: (IsTrimmedSlice(t, TrimForPosition(t, front, back), i, j)
      && (!front ==> i == 0) && (!back ==> j == |t|))
  {
    var r := TrimForPosition(t, front, back);
    if front && back {
      TrimmedSlice(t, TrimStart(t), r);
    } else if front {
      assert IsTrimmedSlice(t, r, |t| - |r|, |t|);
    } else if back {
      assert IsTrimmedSlice(t, r, 0, |r|);
    } else {
      assert IsTrimmedSlice(t, r, 0, |t|);
    }
  }

  /** The text of a run for the text node at index i of a `parent` element's children. */
  function TextRunText(parent: string, nodes: seq<XNode>, i: nat, t: string): string
    requires i < |nodes|
  {
    if parent == "code" then t
    else
      var previous := PreviousElementName(nodes, i);
      Normalize(TrimForPosition(t, previous.None? || !IsInlineName(previous.value), i + 1 == |nodes|))
  }

  /** The symbol-renderer call of a `see` element: by `cref`, else by `langword`, else none. */
  function SeeTags(e: XElement): seq<Inline> {
    var cref := e.Attribute("cref");
    if cref.Some? then [SymbolRef(cref.value, Alias)]
    else
      var langword := e.Attribute("langword");
      if langword.Some? then [SymbolRef(langword.value, DynamicType)] else []
  }

  /** The call for a `paramref` or `typeparamref` element, by its `name` attribute. */
  function NameRefTags(e: XElement, kind: RefKind): seq<Inline> {
    var n := e.Attribute("name");
    if n.Some? then [SymbolRef(n.value, kind)] else []
  }

  /** The inlines of the children of an element named `parent`, from index i on. */
  function RenderNodes(parent: string, nodes: seq<XNode>, i: nat): seq<Inline>
    requires i <= |nodes|
    decreases nodes, |nodes| - i
  {
    if i == |nodes| then [] else RenderNode(parent, nodes, i) + RenderNodes(parent, nodes, i + 1)
  }

  /** The inlines of child i of an element named `parent`. */
  function RenderNode(parent: string, nodes: seq<XNode>, i: nat): seq<Inline>
    requires i < |nodes|
    decreases nodes[i]
  {
    var item := nodes[i];
    if item.ElementNode? then
      var e := item.element;
      if IsBlockName(e.name) then
        (if BreakBefore(nodes, i) then [LineBreak] else []) + RenderNodes(e.name, e.nodes, 0)
        + (if i + 1 < |nodes| then [LineBreak] else [])
      else if e.name == "see" then SeeTags(e)
      else if e.name == "paramref" then NameRefTags(e, Parameter)
      else if e.name == "typeparamref" then NameRefTags(e, TypeParameter)
      else if e.name == "b" then [Styled(Bold, RenderNodes(e.name, e.nodes, 0))]
      else if e.name == "i" then [Styled(Italic, RenderNodes(e.name, e.nodes, 0))]
      else if e.name == "u" then [Styled(Underline, RenderNodes(e.name, e.nodes, 0))]
      else RenderNodes(e.name, e.nodes, 0)
    else if item.TextNode? then [Run(TextRunText(parent, nodes, i, item.text))]
    else if item.CDataNode? || item.EntityNode? then [Run(item.text)]
    else []
  }

  /** What `ToUIText` yields for an element: nothing for a missing or empty element, or when nothing was rendered. */
  function RenderContent(content: Option<XElement>): (r: Option<seq<Inline>>)
    ensures r.Some? ==> r.value != []
    ensures content.None? ==> r.None?
  {
    if content.None? || (!content.value.HasElements() && content.value.IsEmpty()) then None
    else
      var inlines := RenderNodes(content.value.name, content.value.nodes, 0);
      if inlines == [] then None else Some(inlines)
  }

  // ---------------------------------------------------------------------------------------
  // Properties of the rendering

  /** Text inside a `code` element is emitted as it is. */
  lemma CodeTextVerbatim(nodes: seq<XNode>, i: nat)
    requires i < |nodes| && nodes[i].TextNode?
    ensures RenderNode("code", nodes, i) == [Run(nodes[i].text)]
  {
  }

  /** A text node yields one run. */
  lemma TextNodeRun(parent: string, nodes: seq<XNode>, i: nat)
    requires i < |nodes| && nodes[i].TextNode?
    ensures RenderNode(parent, nodes, i) == [Run(TextRunText(parent, nodes, i, nodes[i].text))]
  {
  }

  /**
   * Text outside a `code` element is one run with no line feed and no two spaces in a row; it
   * has no leading white space unless it follows an inline element, and no trailing white space
   * when it is the last node. It is the normalisation of a slice of the text that cuts only white
   * space, at the front only when the text does not follow an inline element and at the back
   * only when it is the last node.
   */
  lemma TextRunShape(parent: string, nodes: seq<XNode>, i: nat)
    requires i < |nodes| && nodes[i].TextNode? && parent != "code"
    ensures |RenderNode(parent, nodes, i)| == 1 && RenderNode(parent, nodes, i)[0].Run?
    ensures var r := RenderNode(parent, nodes, i)[0].text;
      && '\n' !in r && NoDoubleSpace(r)
      && (r != [] && (PreviousElementName(nodes, i).None? || !IsInlineName(PreviousElementName(nodes, i).value))
        ==> !IsWhiteSpace(r[0]))
      && (r != [] && i + 1 == |nodes| ==> !IsWhiteSpace(r[|r| - 1]))
    ensures var r, t := RenderNode(parent, nodes, i)[0].text, nodes[i].text;
      exists x, lo, hi :: (r == Normalize(x) && IsTrimmedSlice(t, x, lo, hi)
        && (PreviousElementName(nodes, i).Some? && IsInlineName(PreviousElementName(nodes, i).value) ==> lo == 0)
        && (i + 1 < |nodes| ==> hi == |t|))
  {
    TextNodeRun(parent, nodes, i);
    var previous := PreviousElementName(nodes, i);
    var front, last := previous.None? || !IsInlineName(previous.value), i + 1 == |nodes|;
    var x := TrimForPosition(nodes[i].text, front, last);
    TrimmedEnds(x, front, last);
    TrimForPositionSlice(nodes[i].text, front, last);
    var lo, hi :| IsTrimmedSlice(nodes[i].text, x, lo, hi) && (!front ==> lo == 0) && (!last ==> hi == |nodes[i].text|);
    assert RenderNode(parent, nodes, i)[0].text == Normalize(x);
  }

  /** Normalising text with no white space at the front (at the back) keeps it free of white space there. */
  lemma TrimmedEnds(trimmed: string, front: bool, back: bool)
    requires front && trimmed != [] ==> !IsWhiteSpace(trimmed[0])
    requires back && trimmed != [] ==> !IsWhiteSpace(trimmed[|trimmed| - 1])
    ensures var r := Normalize(trimmed);
      (r != [] && front ==> !IsWhiteSpace(r[0])) && (r != [] && back ==> !IsWhiteSpace(r[|r| - 1]))
  {
    NormalizeEnds(trimmed);
    if trimmed == [] {
      assert Normalize(trimmed) == [];
    }
  }

  /**
   * A `see` element calls the renderer once, by its `cref` (kind Alias) when it has one, else by
   * its `langword` (kind DynamicType); with neither it yields nothing.
   */
  lemma SeeRendering(parent: string, nodes: seq<XNode>, i: nat)
    requires i < |nodes| && nodes[i].ElementNode? && nodes[i].element.name == "see"
    ensures var e, r := nodes[i].element, RenderNode(parent, nodes, i);
      && |r| <= 1
      && (e.Attribute("cref").Some? ==> r == [SymbolRef(e.Attribute("cref").value, Alias)])
      && (e.Attribute("cref").None? && e.Attribute("langword").Some? ==> r == [SymbolRef(e.Attribute("langword").value, DynamicType)])
      && (r == [] <==> e.Attribute("cref").None? && e.Attribute("langword").None?)
  {
  }

  /**
   * A block element (`para`, `listheader`, `item`) renders its content between a line break
   * before it, unless it is first or follows a `para`, and a line break after it, unless it is last.
   */
  lemma BlockLineBreaks(parent: string, nodes: seq<XNode>, i: nat)
    requires i < |nodes| && nodes[i].ElementNode? && IsBlockName(nodes[i].element.name)
    ensures var e, r := nodes[i].element, RenderNode(parent, nodes, i);
      var inner := RenderNodes(e.name, e.nodes, 0);
      && (!BreakBefore(nodes, i) && i + 1 == |nodes| ==> r == inner)
      && (BreakBefore(nodes, i) && i + 1 < |nodes| ==> r == [LineBreak] + inner + [LineBreak])
      && (BreakBefore(nodes, i) && i + 1 == |nodes| ==> r == [LineBreak] + inner)
      && (!BreakBefore(nodes, i) && i + 1 < |nodes| ==> r == inner + [LineBreak])
  {
  }

  /** Two paragraphs in a row are separated by exactly one line break. */
  lemma {:induction false} ParagraphsSeparatedOnce(parent: string, a: XElement, b: XElement)
    requires a.name == "para" && b.name == "para"
    ensures RenderNodes(parent, [ElementNode(a), ElementNode(b)], 0)
      == RenderNodes("para", a.nodes, 0) + [LineBreak] + RenderNodes("para", b.nodes, 0)
  {
    var nodes := [ElementNode(a), ElementNode(b)];
    assert RenderNode(parent, nodes, 0) == RenderNodes("para", a.nodes, 0) + [LineBreak];
    assert RenderNode(parent, nodes, 1) == RenderNodes("para", b.nodes, 0);
    assert RenderNodes(parent, nodes, 1) == RenderNode(parent, nodes, 1) + RenderNodes(parent, nodes, 2);
  }

  /** Rendering a missing element, or one with no content at all, gives nothing. */
  lemma EmptyContentRendersNothing(content: Option<XElement>)
    requires content.None? || content.value.IsEmpty()
    ensures RenderContent(content).None?
  {
  }

  // ---------------------------------------------------------------------------------------
  // The rendering walk

  /** `InlineCollection`: the inlines of a text block or of a span, appended to in place. */
  class InlineCollection {
    var inlines: seq<Inline>

    constructor ()
      ensures inlines == []
    {
      inlines := [];
    }

    method Add(x: Inline)
      modifies this
      ensures inlines == old(inlines) + [x]
    {
      inlines := inlines + [x];
    }
  }

  /** Appends the inlines of the children of an element named `parent`. */
  method ToUIText(parent: string, nodes: seq<XNode>, text: InlineCollection)
    modifies text
    decreases nodes
    ensures text.inlines == old(text.inlines) + RenderNodes(parent, nodes, 0)
  {
    var i := 0;
    while i < |nodes|
      invariant 0 <= i <= |nodes|
      invariant text.inlines + RenderNodes(parent, nodes, i) == old(text.inlines) + RenderNodes(parent, nodes, 0)
    {
      ghost var before := text.inlines;
      ghost var rest := RenderNodes(parent, nodes, i + 1);
      assert RenderNodes(parent, nodes, i) == RenderNode(parent, nodes, i) + rest;
      ToUITextNode(parent, nodes, i, text);
      AppendAssoc(before, RenderNode(parent, nodes, i), rest);
      i := i + 1;
    }
    assert text.inlines + [] == text.inlines;
  }

  /** Appends the inlines of child i of an element named `parent`: the body of the walk's switch. */
  method ToUITextNode(parent: string, nodes: seq<XNode>, i: nat, text: InlineCollection)
    requires i < |nodes|
    modifies text
    decreases nodes[i], 1
    ensures text.inlines == old(text.inlines) + RenderNode(parent, nodes, i)
  {
    var item := nodes[i];
    if item.ElementNode? {
      var e := item.element;
      if IsBlockName(e.name) {
        BlockElement(parent, nodes, i, text);
      } else if e.name == "see" {
        var see := e.Attribute("cref");
        if see.Some? {
          text.Add(SymbolRef(see.value, Alias));
        } else {
          see := e.Attribute("langword");
          if see.Some? {
            text.Add(SymbolRef(see.value, DynamicType));
          }
        }
      } else if e.name == "paramref" {
        var paramName := e.Attribute("name");
        if paramName.Some? {
          text.Add(SymbolRef(paramName.value, Parameter));
        }
      } else if e.name == "typeparamref" {
        var typeParamName := e.Attribute("name");
        if typeParamName.Some? {
          text.Add(SymbolRef(typeParamName.value, TypeParameter));
        }
      } else if e.name == "b" {
        StyleInner(e, text, Bold);
      } else if e.name == "i" {
        StyleInner(e, text, Italic);
      } else if e.name == "u" {
        StyleInner(e, text, Underline);
      } else {
        ToUIText(e.name, e.nodes, text);
      }
    } else if item.TextNode? {
      text.Add(Run(TextRunText(parent, nodes, i, item.text)));
    } else if item.CDataNode? || item.EntityNode? {
      text.Add(Run(item.text));
    }
  }

  /** A `para`, `listheader` or `item` child: its content, with the line breaks around it. */
  method BlockElement(parent: string, nodes: seq<XNode>, i: nat, text: InlineCollection)
    requires i < |nodes| && nodes[i].ElementNode? && IsBlockName(nodes[i].element.name)
    modifies text
    decreases nodes[i], 0
    ensures text.inlines == old(text.inlines) + RenderNode(parent, nodes, i)
  {
    var e := nodes[i].element;
    ghost var pre := if BreakBefore(nodes, i) then [LineBreak] else [];
    ghost var inner := RenderNodes(e.name, e.nodes, 0);
    ghost var post := if i + 1 < |nodes| then [LineBreak] else [];
    if i > 0 && !(nodes[i - 1].ElementNode? && nodes[i - 1].element.name == "para") {
      text.Add(LineBreak);
    }
    assert text.inlines == old(text.inlines) + pre;
    ToUIText(e.name, e.nodes, text);
    if i + 1 < |nodes| {
      text.Add(LineBreak);
    }
    assert text.inlines == old(text.inlines) + pre + inner + post;
    assert RenderNode(parent, nodes, i) == pre + inner + post;
    AppendAssoc(old(text.inlines) + pre, inner, post);
    AppendAssoc(old(text.inlines), pre, inner + post);
    AppendAssoc(pre, inner, post);
  }

  /** A `b`, `i` or `u` child: a styled span holding the element's content. */
  method StyleInner(e: XElement, text: InlineCollection, style: SpanStyle)
    modifies text
    decreases e
    ensures text.inlines == old(text.inlines) + [Styled(style, RenderNodes(e.name, e.nodes, 0))]
  {
    var span := new InlineCollection();
    ToUIText(e.name, e.nodes, span);
    assert span.inlines == RenderNodes(e.name, e.nodes, 0);
    text.Add(Styled(style, span.inlines));
  }

  /** `ToUIText(content, symbolRenderer)`: a text block for the element, or nothing. */
  method ToTextBlock(content: Option<XElement>) returns (r: Option<seq<Inline>>)
    ensures r == RenderContent(content)
  {
    if content.None? || (!content.value.HasElements() && content.value.IsEmpty()) {
      return None;
    }
    var text := new InlineCollection();
    ToUIText(content.value.name, content.value.nodes, text);
    assert text.inlines == RenderNodes(content.value.name, content.value.nodes, 0);
    r := if text.inlines != [] then Some(text.inlines) else None;
  }
}
