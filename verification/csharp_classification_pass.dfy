/**
 * The classification pass of the C# classifier over a requested range: the dispatch on each
 * classified span's category, the doc-comment span tracking, and the re-projection of code
 * embedded in documentation comments.
 */
module CSharpClassificationPass {
  import opened Wrappers
  import opened Lists
  import opened FlagOps
  import opened ConfigFlags
  import opened ClassificationTags
  import opened CSharpSyntax
  import opened CSharpClassifier

  // ---------------------------------------------------------------------------------------
  // Code embedded in documentation comments

  // The classification names the pass dispatches on (the compiler's classification type names).
  const KeywordClassification := "keyword"
  const PunctuationClassification := "punctuation"
  const IdentifierClassification := "identifier"
  const ClassNameClassification := "class name"
  const StructNameClassification := "struct name"
  const InterfaceNameClassification := "interface name"
  const EnumNameClassification := "enum name"
  const TypeParameterNameClassification := "type parameter name"
  const DelegateNameClassification := "delegate name"
  const XmlDocCDataClassification := "xml doc comment - cdata section"
  const XmlDocDelimiterClassification := "xml doc comment - delimiter"

  /** `s.EndsWith(suffix, StringComparison.Ordinal)`. */
  predicate EndsWith(s: string, suffix: string) {
    |suffix| <= |s| && s[|s| - |suffix|..] == suffix
  }

  /** A span classified in the text of a CDATA section, compiled on its own as a script document. */
  datatype EmbeddedItem = EmbeddedItem(
    span: TextSpan,          // relative to the start of the section
    classification: string,
    node: Node,              // the node the span belongs to
    facts: SymbolFacts)      // the semantic answers for that node

  /** The classifications of embedded code that are re-classified by symbol. */
  predicate IsEmbeddedName(ct: string) {
    ct == IdentifierClassification || ct == ClassNameClassification || ct == StructNameClassification
    || ct == InterfaceNameClassification || ct == EnumNameClassification
    || ct == TypeParameterNameClassification || ct == DelegateNameClassification
  }

  /** The tags of one embedded span: by symbol for names, otherwise the registered tag of its classification. */
  function EmbeddedTags(item: EmbeddedItem, markers: map<int, string>): seq<Tag> {
    if IsEmbeddedName(item.classification) then GetClassificationType(item.node, item.facts, markers)
    else [Registered(item.classification)]
  }

  /** A span of the section moved to the document: offset by the section's start, length unchanged. */
  function Shift(start: int, s: TextSpan): (r: TextSpan)
    ensures r.start - start == s.start && r.length == s.length
  {
    TextSpan(start + s.start, s.length)
  }

  /** The spans the embedded items of a section starting at `start` produce, in order. */
  function CDataSpans(start: int, items: seq<EmbeddedItem>, markers: map<int, string>): seq<ClassificationSpan> {
    if items == [] then []
    else
      var last := items[|items| - 1];
      CDataSpans(start, items[..|items| - 1], markers) + SpansOf(Shift(start, last.span), EmbeddedTags(last, markers))
  }

  lemma SpansOfSpan(span: TextSpan, tags: seq<Tag>)
    ensures forall c :: c in SpansOf(span, tags) ==> c.span == span
  {
    forall c | c in SpansOf(span, tags) ensures c.span == span {
      var k :| 0 <= k < |SpansOf(span, tags)| && SpansOf(span, tags)[k] == c;
      SpansOfAt(span, tags, k);
    }
  }

  /**
   * Every span produced for embedded code is the span of one of the embedded items shifted by
   * the section's start; so when the items lie within the section's text, the spans lie within
   * the section.
   */
  lemma {:induction false} CDataShift(start: int, items: seq<EmbeddedItem>, markers: map<int, string>, length: nat)
    ensures forall c :: c in CDataSpans(start, items, markers) ==>
      exists k :: 0 <= k < |items| && c.span == Shift(start, items[k].span)
    ensures (forall k :: 0 <= k < |items| ==> TextSpan(0, length).Contains(items[k].span)) ==>
      forall c :: c in CDataSpans(start, items, markers) ==> TextSpan(start, length).Contains(c.span)
  {
    if items != [] {
      var n := |items| - 1;
      var init := items[..n];
      CDataShift(start, init, markers, length);
      SpansOfSpan(Shift(start, items[n].span), EmbeddedTags(items[n], markers));
      forall c | c in CDataSpans(start, items, markers)
        ensures exists k :: 0 <= k < |items| && c.span == Shift(start, items[k].span)
      {
        if c in CDataSpans(start, init, markers) {
          var k :| 0 <= k < |init| && c.span == Shift(start, init[k].span);
          assert items[k] == init[k];
        } else {
          assert c.span == Shift(start, items[n].span);
        }
      }
      if forall k :: 0 <= k < |items| ==> TextSpan(0, length).Contains(items[k].span) {
        assert forall k :: 0 <= k < |init| ==> init[k] == items[k];
      }
    }
  }

  /** The spans of one more item follow the spans of the items before it. */
  lemma CDataSpansSnoc(start: int, items: seq<EmbeddedItem>, markers: map<int, string>, i: nat)
    requires i < |items|
    ensures CDataSpans(start, items[..i + 1], markers)
      == CDataSpans(start, items[..i], markers) + SpansOf(Shift(start, items[i].span), EmbeddedTags(items[i], markers))
  {
    assert items[..i + 1][..i] == items[..i];
  }

  /** Classifies the code of a CDATA section starting at `start` and appends the shifted spans. */
  method HighlightXmlDocCData(result: SpanList, start: int, items: seq<EmbeddedItem>, markers: map<int, string>)
    modifies result
    ensures result.spans == old(result.spans) + CDataSpans(start, items, markers)
  {
    var i := 0;
    while i < |items|
      invariant 0 <= i <= |items|
      invariant result.spans == old(result.spans) + CDataSpans(start, items[..i], markers)
    {
      var item := items[i];
      var tags := EmbeddedTags(item, markers);
      ghost var done := CDataSpans(start, items[..i], markers);
      ghost var before := result.spans;
      result.AddAll(Shift(start, item.span), tags);
      assert result.spans == before + SpansOf(Shift(start, item.span), tags);
      CDataSpansSnoc(start, items, markers, i);
      AppendAssoc(old(result.spans), done, SpansOf(Shift(start, item.span), tags));
      i := i + 1;
    }
    assert items[..i] == items;
  }

  // ---------------------------------------------------------------------------------------
  // The classification pass

  datatype TriviaKind =
    | SingleLineDocumentationCommentTrivia | MultiLineDocumentationCommentTrivia
    | DocumentationCommentExteriorTrivia | OtherTrivia

  /** The trivia found at a position: its kind (OtherTrivia when there is none) and its full span. */
  datatype Trivia = Trivia(kind: TriviaKind, fullSpan: TextSpan)

  /** What the compiler answers about one classified span of the requested range. */
  datatype BaseItem = BaseItem(
    span: TextSpan,
    classification: string,
    keywordNode: Node,               // the innermost node around a keyword
    token: TokenKind,                // the token at the span's start
    punctuation: PunctuationFacts,   // the facts about a punctuation character
    trivia: Trivia,                  // the trivia at the span's start
    nameNode: Node,                  // the node of a name
    nameFacts: SymbolFacts,          // the semantic answers for that node
    embedded: seq<EmbeddedItem>)     // the classified spans of a CDATA section's code

  /** What the compiler answers about the requested range. */
  datatype RangeFacts = RangeFacts(
    hasWorkspace: bool,              // the buffer belongs to a workspace
    span: TextSpan,                  // the requested range
    spanNodeKind: NodeKind,          // the kind of the node covering the range
    leadingTrivia: Option<TextSpan>, // the full span of that node's leading trivia, if it has any
    items: seq<BaseItem>)            // the compiler's classified spans of the range, in order

  predicate IsDocCommentTrivia(k: TriviaKind) {
    k.SingleLineDocumentationCommentTrivia? || k.MultiLineDocumentationCommentTrivia? || k.DocumentationCommentExteriorTrivia?
  }

  /** The spans of one classified span, and the doc-comment span seen last. */
  datatype Step = Step(spans: seq<ClassificationSpan>, last: TextSpan)

  function ItemStep(options: bv32, markers: map<int, string>, item: BaseItem, last: TextSpan): Step {
    var ct := item.classification;
    if ct == KeywordClassification then
      var t := KeywordTag(item.keywordNode, item.token);
      Step(if t.Some? then [ClassificationSpan(item.span, t.value)] else [], last)
    else if ct == XmlDocCDataClassification then
      Step(if MatchFlags(options, HighlightXmlDocCode) then CDataSpans(item.span.start, item.embedded, markers) else [], last)
    else if ct == PunctuationClassification then
      Step(if item.span.length == 1 then SpansOf(item.span, PunctuationTags(options, item.punctuation)) else [], last)
    else if ct == XmlDocDelimiterClassification then
      if last.Contains(item.span) || !IsDocCommentTrivia(item.trivia.kind) then Step([], last)
      else Step([ClassificationSpan(item.trivia.fullSpan, XmlDoc)], item.trivia.fullSpan)
    else if ct == IdentifierClassification || EndsWith(ct, "name") then
      Step(SpansOf(item.span, GetClassificationType(item.nameNode, item.nameFacts, markers)), last)
    else Step([], last)
  }

  /** The spans of the items from index i on, with `last` the doc-comment span seen last. */
  function RunFrom(options: bv32, markers: map<int, string>, items: seq<BaseItem>, i: nat, last: TextSpan): seq<ClassificationSpan>
    requires i <= |items|
    decreases |items| - i
  {
    if i == |items| then []
    else
      var step := ItemStep(options, markers, items[i], last);
      step.spans + RunFrom(options, markers, items, i + 1, step.last)
  }

  /** The attribute-notation span of a range that is an attribute list or attribute argument list. */
  function LeadingSpans(facts: RangeFacts): seq<ClassificationSpan> {
    if (facts.leadingTrivia.None? || !facts.leadingTrivia.value.Contains(facts.span))
      && (facts.spanNodeKind.AttributeList? || facts.spanNodeKind.AttributeArgumentList?)
    then [ClassificationSpan(facts.span, AttributeNotation)]
    else []
  }

  /** The spans of a requested range: none without a workspace. */
  function ClassificationSpans(options: bv32, markers: map<int, string>, facts: RangeFacts): seq<ClassificationSpan> {
    if !facts.hasWorkspace then []
    else LeadingSpans(facts) + RunFrom(options, markers, facts.items, 0, TextSpan(0, 0))
  }

  /** Appends the spans of one classified span and returns the doc-comment span seen last. */
  method ClassifyItem(result: SpanList, options: bv32, markers: map<int, string>, item: BaseItem, last: TextSpan)
    returns (newLast: TextSpan)
    modifies result
    ensures result.spans == old(result.spans) + ItemStep(options, markers, item, last).spans
    ensures newLast == ItemStep(options, markers, item, last).last
  {
    newLast := last;
    var ct := item.classification;
    if ct == KeywordClassification {
      var t := KeywordTag(item.keywordNode, item.token);
      if t.Some? {
        result.Add(ClassificationSpan(item.span, t.value));
      }
    } else if ct == XmlDocCDataClassification {
      if MatchFlags(options, HighlightXmlDocCode) {
        HighlightXmlDocCData(result, item.span.start, item.embedded, markers);
      }
    } else if ct == PunctuationClassification {
      if item.span.length == 1 {
        ClassifyPunctuation(result, item.span, options, item.punctuation);
      }
    } else if ct == XmlDocDelimiterClassification {
      if last.Contains(item.span) {
        return;
      }
      if IsDocCommentTrivia(item.trivia.kind) {
        newLast := item.trivia.fullSpan;
        result.Add(ClassificationSpan(newLast, XmlDoc));
      }
    } else if ct == IdentifierClassification || EndsWith(ct, "name") {
      result.AddAll(item.span, GetClassificationType(item.nameNode, item.nameFacts, markers));
    }
  }

  /** The classification pass over a requested range. */
  method GetClassificationSpans(options: bv32, markers: map<int, string>, facts: RangeFacts)
    returns (r: seq<ClassificationSpan>)
    ensures r == ClassificationSpans(options, markers, facts)
  {
    if !facts.hasWorkspace {
      return [];
    }
    var result := new SpanList();
    if (facts.leadingTrivia.None? || !facts.leadingTrivia.value.Contains(facts.span))
      && (facts.spanNodeKind.AttributeList? || facts.spanNodeKind.AttributeArgumentList?) {
      result.Add(ClassificationSpan(facts.span, AttributeNotation));
    }
    assert result.spans == LeadingSpans(facts);
    var items := facts.items;
    var last := TextSpan(0, 0);
    var i := 0;
    while i < |items|
      invariant 0 <= i <= |items|
      invariant result.spans + RunFrom(options, markers, items, i, last)
        == LeadingSpans(facts) + RunFrom(options, markers, items, 0, TextSpan(0, 0))
    {
      ghost var before := result.spans;
      ghost var step := ItemStep(options, markers, items[i], last);
      ghost var rest := RunFrom(options, markers, items, i + 1, step.last);
      assert RunFrom(options, markers, items, i, last) == step.spans + rest;
      last := ClassifyItem(result, options, markers, items[i], last);
      AppendAssoc(before, step.spans, rest);
      i := i + 1;
    }
    assert RunFrom(options, markers, items, i, last) == [];
    r := result.spans;
    assert r + [] == r;
  }

  /** Without a workspace the pass produces nothing. */
  lemma NoWorkspaceNoSpans(options: bv32, markers: map<int, string>, facts: RangeFacts)
    requires !facts.hasWorkspace
    ensures ClassificationSpans(options, markers, facts) == []
  {
  }

  /**
   * A doc-comment delimiter inside the doc-comment span emitted last adds nothing; one that
   * starts a new doc comment adds a single doc span over the comment's full span, which becomes
   * the span seen last.
   */
  lemma DelimiterSpans(options: bv32, markers: map<int, string>, item: BaseItem, last: TextSpan)
    requires item.classification == XmlDocDelimiterClassification
    ensures last.Contains(item.span) ==> ItemStep(options, markers, item, last) == Step([], last)
    ensures !last.Contains(item.span) && IsDocCommentTrivia(item.trivia.kind) ==>
      ItemStep(options, markers, item, last) == Step([ClassificationSpan(item.trivia.fullSpan, XmlDoc)], item.trivia.fullSpan)
  {
  }

  /**
   * Every span the pass emits for a keyword, punctuation or name lies on that item's span; a
   * doc-comment span covers the delimiter's trivia; an embedded-code span is an embedded item's
   * span shifted by the section's start.
   */
  lemma ItemStepAnchored(options: bv32, markers: map<int, string>, item: BaseItem, last: TextSpan)
    ensures forall c :: c in ItemStep(options, markers, item, last).spans ==>
      if item.classification == XmlDocDelimiterClassification then c == ClassificationSpan(item.trivia.fullSpan, XmlDoc)
      else if item.classification == XmlDocCDataClassification then
        exists k :: 0 <= k < |item.embedded| && c.span == Shift(item.span.start, item.embedded[k].span)
      else c.span == item.span
    ensures item.classification != XmlDocDelimiterClassification ==> ItemStep(options, markers, item, last).last == last
  {
    var ct := item.classification;
    var step := ItemStep(options, markers, item, last);
    if ct == XmlDocCDataClassification {
      CDataShift(item.span.start, item.embedded, markers, 0);
    } else if ct == PunctuationClassification {
      SpansOfSpan(item.span, PunctuationTags(options, item.punctuation));
    } else if ct != KeywordClassification && ct != XmlDocDelimiterClassification {
      SpansOfSpan(item.span, GetClassificationType(item.nameNode, item.nameFacts, markers));
    }
  }
}
