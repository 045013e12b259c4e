/**
 * The three operations the program uses on [Flags] enumerations: testing that all given bits
 * are set, testing that any of them is set, and setting or clearing a group of bits.
 */
module FlagOps {
  /** Every bit of `flags` is set in `value`. */
  predicate MatchFlags(value: bv32, flags: bv32) {
    value & flags == flags
  }

  /** At least one bit of `flags` is set in `value`. */
  predicate HasAnyFlag(value: bv32, flags: bv32) {
    value & flags != 0
  }

  /** `value` with the bits of `flags` turned on (enable) or off: afterwards they all match, or none is left. */
  function SetFlags(value: bv32, flags: bv32, enable: bool): (r: bv32)
    ensures r & flags == (if enable then flags else 0)
  {
    if enable then value | flags else value & !flags
  }

  /** Setting or clearing a group of bits moves no other bit. */
  lemma SetFlagsKeepsOthers(value: bv32, flags: bv32, enable: bool)
    ensures SetFlags(value, flags, enable) & !flags == value & !flags
  {
    if enable {
      KeepOthersOn(value, flags);
    } else {
      KeepOthersOff(value, flags);
    }
  }

  lemma KeepOthersOn(value: bv32, flags: bv32)
    ensures (value | flags) & !flags == value & !flags
  {
  }

  lemma KeepOthersOff(value: bv32, flags: bv32)
    ensures (value & !flags) & !flags == value & !flags
  {
  }

  /** Setting flags that are already set, or clearing flags none of which is set, changes nothing. */
  lemma SetFlagsNoChange(value: bv32, flags: bv32)
    ensures MatchFlags(value, flags) ==> SetFlags(value, flags, true) == value
    ensures !HasAnyFlag(value, flags) ==> SetFlags(value, flags, false) == value
  {
  }
}

/** The [Flags] enumerations of the configuration, as 32-bit masks. */
module ConfigFlags {
  import opened FlagOps

  // Features
  const FeaturesNone: bv32 := 0
  const FeaturesSyntaxHighlight: bv32 := 1
  const FeaturesScrollbarMarkers: bv32 := 1 << 1
  const FeaturesSuperQuickInfo: bv32 := 1 << 2
  const FeaturesSmartBar: bv32 := 1 << 3
  const FeaturesAll: bv32 := FeaturesSyntaxHighlight | FeaturesScrollbarMarkers | FeaturesSuperQuickInfo | FeaturesSmartBar

  // QuickInfoOptions
  const QuickInfoAttributes: bv32 := 1
  const QuickInfoBaseType: bv32 := 1 << 1
  const QuickInfoBaseTypeInheritence: bv32 := 1 << 2
  const QuickInfoDeclaration: bv32 := 1 << 3
  const QuickInfoSymbolLocation: bv32 := 1 << 4
  const QuickInfoInterfaces: bv32 := 1 << 5
  const QuickInfoInterfacesInheritence: bv32 := 1 << 6
  const QuickInfoNumericValues: bv32 := 1 << 7
  const QuickInfoString: bv32 := 1 << 8
  const QuickInfoParameter: bv32 := 1 << 9
  const QuickInfoInterfaceImplementations: bv32 := 1 << 10
  const QuickInfoTypeParameters: bv32 := 1 << 11
  const QuickInfoNamespaceTypes: bv32 := 1 << 12
  const QuickInfoOverrideDefaultDocumentation: bv32 := 1 << 20
  const QuickInfoDocumentationFromBaseType: bv32 := 1 << 21
  const QuickInfoTextOnlyDoc: bv32 := 1 << 22
  const QuickInfoReturnsDoc: bv32 := 1 << 23
  const QuickInfoRemarksDoc: bv32 := 1 << 24
  const QuickInfoColor: bv32 := 1 << 26
  const QuickInfoSelection: bv32 := 1 << 27
  const QuickInfoClickAndGo: bv32 := 1 << 28
  const QuickInfoCtrlQuickInfo: bv32 := 1 << 29
  const QuickInfoHideOriginalQuickInfo: bv32 := 1 << 30
  const QuickInfoOverride: bv32 := QuickInfoOverrideDefaultDocumentation | QuickInfoDocumentationFromBaseType | QuickInfoClickAndGo
  const QuickInfoDefault: bv32 :=
    QuickInfoAttributes | QuickInfoBaseType | QuickInfoInterfaces | QuickInfoNumericValues
    | QuickInfoInterfaceImplementations | QuickInfoClickAndGo

  // SmartBarOptions
  const SmartBarExpansionIncludeTrivia: bv32 := 1 << 1
  const SmartBarShiftSuppression: bv32 := 1 << 2
  const SmartBarDefault: bv32 := SmartBarExpansionIncludeTrivia

  // SpecialHighlightOptions
  const HighlightNone: bv32 := 0
  const HighlightSpecialComment: bv32 := 1
  const HighlightDeclarationBrace: bv32 := 1 << 1
  const HighlightParameterBrace: bv32 := 1 << 2
  const HighlightXmlDocCode: bv32 := 1 << 3
  const HighlightBranchBrace: bv32 := 1 << 4
  const HighlightLoopBrace: bv32 := 1 << 5
  const HighlightResourceBrace: bv32 := 1 << 6
  const HighlightSpecialPunctuation: bv32 := 1 << 7
  const HighlightAllBraces: bv32 :=
    HighlightDeclarationBrace | HighlightParameterBrace | HighlightBranchBrace | HighlightLoopBrace
    | HighlightResourceBrace | HighlightSpecialPunctuation

  // MarkerOptions
  const MarkerSpecialComment: bv32 := 1
  const MarkerMemberDeclaration: bv32 := 1 << 1
  const MarkerLongMemberDeclaration: bv32 := 1 << 2
  const MarkerCompilerDirective: bv32 := 1 << 3
  const MarkerLineNumber: bv32 := 1 << 4
  const MarkerTypeDeclaration: bv32 := 1 << 5
  const MarkerMethodDeclaration: bv32 := 1 << 6
  const MarkerSymbolReference: bv32 := 1 << 7
  const MarkerCodeMarginMask: bv32 := MarkerSpecialComment | MarkerCompilerDirective
  const MarkerMemberMarginMask: bv32 := MarkerMemberDeclaration | MarkerSymbolReference
  const MarkerDefault: bv32 :=
    MarkerSpecialComment | MarkerMemberDeclaration | MarkerLineNumber | MarkerLongMemberDeclaration
    | MarkerSymbolReference

  /** The single SpecialHighlightOptions flags, in declaration order. */
  function HighlightSingles(): seq<bv32> {
    [HighlightSpecialComment, HighlightDeclarationBrace, HighlightParameterBrace, HighlightXmlDocCode,
     HighlightBranchBrace, HighlightLoopBrace, HighlightResourceBrace, HighlightSpecialPunctuation]
  }

  /**
   * The single highlight flags are distinct powers of two, and AllBraces is the union of the
   * brace and punctuation flags: it holds neither SpecialComment nor XmlDocCode.
   */
  lemma HighlightFlagLayout()
    ensures |HighlightSingles()| == 8
    ensures forall i :: 0 <= i < |HighlightSingles()| ==>
      HighlightSingles()[i] != 0 && HighlightSingles()[i] & (HighlightSingles()[i] - 1) == 0
    ensures forall i, j :: 0 <= i < j < |HighlightSingles()| ==> HighlightSingles()[i] & HighlightSingles()[j] == 0
    ensures MatchFlags(HighlightAllBraces, HighlightDeclarationBrace | HighlightParameterBrace | HighlightBranchBrace)
    ensures MatchFlags(HighlightAllBraces, HighlightLoopBrace | HighlightResourceBrace | HighlightSpecialPunctuation)
    ensures !HasAnyFlag(HighlightAllBraces, HighlightSpecialComment | HighlightXmlDocCode)
    ensures HighlightAllBraces == 0xF6
  {
  }
}
