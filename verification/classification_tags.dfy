/**
 * The style tags the C# classifier emits, the text spans they cover and the list the
 * classifier appends its results to.
 */
module ClassificationTags {
  /** A semantic style tag. */
  datatype Tag =
    // C# classifications
    | AttributeNotation | AbstractionKeyword | ResourceKeyword | XmlDoc | DeclarationBrace
    | ClassName | InterfaceName | StructName | DelegateName | EnumName | TypeParameter
    | Method | ConstructorMethod | ExtensionMethod | ExternMethod | Property | Event
    | Field | ConstField | ReadonlyField | LocalVariable | Parameter | Label
    | Namespace | AliasNamespace | AttributeName | Declaration | NestedDeclaration
    | StaticMember | SealedMember | OverrideMember | VirtualMember | AbstractMember
    // general classifications
    | ControlFlowKeyword | BranchingKeyword | LoopKeyword | SpecialPunctuation
    // a style the user pinned to a symbol
    | Marker(name: string)
    // a tag looked up by its registered name
    | Registered(typeName: string)

  /** The five member-modifier tags. */
  predicate IsModifierTag(t: Tag) {
    t == StaticMember || t == SealedMember || t == OverrideMember || t == VirtualMember || t == AbstractMember
  }

  /** `TextSpan`: a start offset and a length. */
  datatype TextSpan = TextSpan(start: int, length: nat) {
    function End(): int {
      start + length
    }

    /** `TextSpan.Contains(TextSpan)`: the other span lies within this one. */
    predicate Contains(other: TextSpan) {
      start <= other.start && other.End() <= End()
    }
  }

  /** A span of the snapshot together with the tag it is classified with. */
  datatype ClassificationSpan = ClassificationSpan(span: TextSpan, tag: Tag)

  /** One classification span per tag, all over the same text span. */
  function SpansOf(span: TextSpan, tags: seq<Tag>): (r: seq<ClassificationSpan>)
    ensures |r| == |tags|
  {
    if tags == [] then [] else [ClassificationSpan(span, tags[0])] + SpansOf(span, tags[1..])
  }

  /** The k-th span carries the k-th tag. */
  lemma {:induction false} SpansOfAt(span: TextSpan, tags: seq<Tag>, k: nat)
    requires k < |tags|
    ensures SpansOf(span, tags)[k] == ClassificationSpan(span, tags[k])
  {
    if k > 0 {
      SpansOfAt(span, tags[1..], k - 1);
    }
  }

  /** The result list of a classification pass, appended to in place. */
  class SpanList {
    var spans: seq<ClassificationSpan>

    constructor ()
      ensures spans == []
    {
      spans := [];
    }

    method Add(s: ClassificationSpan)
      modifies this
      ensures spans == old(spans) + [s]
    {
      spans := spans + [s];
    }

    /** Appends one span per tag, in the order of the tags. */
    method AddAll(span: TextSpan, tags: seq<Tag>)
      modifies this
      ensures spans == old(spans) + SpansOf(span, tags)
    {
      var i := 0;
      while i < |tags|
        invariant 0 <= i <= |tags|
        invariant spans == old(spans) + SpansOf(span, tags[..i])
      {
        assert tags[..i + 1] == tags[..i] + [tags[i]];
        SpansOfAppend(span, tags[..i], [tags[i]]);
        spans := spans + [ClassificationSpan(span, tags[i])];
        i := i + 1;
      }
      assert tags[..i] == tags;
    }
  }

  lemma SpansOfAppend(span: TextSpan, a: seq<Tag>, b: seq<Tag>)
    ensures SpansOf(span, a + b) == SpansOf(span, a) + SpansOf(span, b)
  {
    var l, r := SpansOf(span, a + b), SpansOf(span, a) + SpansOf(span, b);
    assert |l| == |r|;
    forall k | 0 <= k < |l| ensures l[k] == r[k] {
      SpansOfAt(span, a + b, k);
      if k < |a| {
        SpansOfAt(span, a, k);
        assert (a + b)[k] == a[k];
      } else {
        SpansOfAt(span, b, k - |a|);
        assert (a + b)[k] == b[k - |a|];
      }
    }
  }
}
