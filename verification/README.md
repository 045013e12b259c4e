# Codist core, modelled in Dafny

Codist is a Visual Studio extension. This project models its C# semantic highlighter and its
C# quick-info helpers, with properties proved about each:

- **The C# classifier** (`csharp_classifier.dfy`, `csharp_classification_pass.dfy`).
  - It walks the classified spans of a requested range and appends style tags.
  - Keywords get modifier, control-flow, branching, loop and resource tags.
  - Documentation-comment delimiters get one doc span per comment.
  - Names get tags from their symbol: a declaration tag, a kind tag, the style the user pinned
    to the symbol, and at most one modifier tag.
  - Braces and parentheses are tagged with their context, each under its special-highlight
    option.
  - Code in a CDATA section of a doc comment is re-classified and shifted back into the
    document.
- **The quick-info helpers** (`csharp_tooltip.dfy`).
  - The DEC / HEX / BIN forms of an integral constant: two's-complement bytes, negation
    under a unary minus, reinterpretation of unsigned values.
  - The base-class filter and attribute display names.
- **The configuration** (`config.dfy`, `config_flags.dfy`).
  - The [Flags] option enumerations and their setters.
  - Comment labels and their clean-up on load.
  - The loading pipeline for style lists: filter, sort, clear fonts, drop undefined ids,
    merge defaults.
- **The documentation parser** (`xml_doc_parser.dfy`).
  - Lookup of `summary`, `returns`, `param` and `typeparam` items.
  - Rendering of documentation XML into inline text: line breaks around paragraphs, symbol
    references, styled spans, whitespace normalisation.

Supporting modules:
- `wrappers.dfy`: `Option`.
- `lists.dfy`: the order-keeping filter behind `RemoveAll` and the backward `RemoveAt` loops.
- `classification_tags.dfy`: tags, text spans and the appendable span list.
- `csharp_syntax.dfy`: the compiler facts the classifier reads, as input records.

Where the source changes state, the model does too:
- the classifier appends to a `SpanList` object;
- the style loader filters, sorts and merges a `StyleList` in place;
- the configuration setters update fields of a `Config` object;
- documentation rendering appends to an `InlineCollection`.

Each such method is proved equal to a specification function. The properties are proved about
those functions.

## Model

| member | source | states |
|---|---|---|
| Lists.FilterMembers | Codist/Config.cs:188 | an entry survives a RemoveAll exactly when it was in the list and satisfies the keep predicate |
| Lists.FilterAppend | Codist/Config.cs:188 | filtering a concatenation filters each part |
| Lists.RemoveFailing | Codist/Config.cs:193-197 | the backward RemoveAt loop leaves exactly the entries that pass, in their original order |
| FlagOps.MatchFlags | Codist/Classifiers/CSharpClassifier.cs:335 | every given bit is set; the option gate of each highlight |
| FlagOps.HasAnyFlag | Codist/Classifiers/CSharpClassifier.cs:215 | at least one given bit is set; the brace-option test before punctuation is classified |
| FlagOps.SetFlags | Codist/Config.cs:289-301 | after setting, every given bit is on when enabling and off when disabling |
| FlagOps.SetFlagsKeepsOthers | Codist/Config.cs:289-301 | setting or clearing a group of option bits changes no other bit |
| FlagOps.SetFlagsNoChange | Codist/Config.cs:289-301 | setting bits that are all set, or clearing bits none of which is set, leaves the value unchanged |
| ConfigFlags.HighlightFlagLayout | Codist/Config.cs:374-387 | the special-highlight flags are eight distinct single bits; AllBraces holds the brace and punctuation flags but not SpecialComment or XmlDocCode |
| Configuration.DefaultLabels | Codist/Config.cs:214-233 | there are seventeen default comment labels |
| Configuration.DefaultLabelsHaveText | Codist/Config.cs:214-233 | every default label has non-blank text |
| Configuration.CleanLabels | Codist/Config.cs:111-119 | the labels with text, or the defaults when none has text; its properties are CleanLabelsResult and DefaultLabelsHaveText |
| Configuration.CleanLabelsResult | Codist/Config.cs:111-119 | after loading no label is blank; when some label had text the result is exactly the labels with text, in their order and multiplicity; the defaults are installed exactly when no label had text |
| Configuration.SortById | Codist/Config.cs:189 | the order `Sort` with the id comparison leaves, as an insertion sort; same length, and sorted and a permutation by SortByIdSorted |
| Configuration.InsertByIdSorted | Codist/Config.cs:189 | inserting into a list sorted by id keeps it sorted and adds exactly that entry |
| Configuration.SortByIdSorted | Codist/Config.cs:189 | sorting by id yields an ascending list that is a permutation of the input |
| Configuration.SortByIdPermutes | Codist/Config.cs:189 | sorting keeps every entry, as a multiset |
| Configuration.FilterSortedById | Codist/Config.cs:193-197 | removing entries from a sorted list keeps it sorted |
| Configuration.ClearFonts | Codist/Config.cs:190-192 | every entry keeps its place and its id and loses its font |
| Configuration.FindIndexOfId | Codist/Config.cs:238 | returns the first index holding the id, or -1 exactly when no entry has it |
| Configuration.MergeUpTo | Codist/Config.cs:235-243 | the merge of the default styles for ids 1 .. count - 1; it never shortens the list, and its facts are MergeUpToFacts and MergeUpToComplete |
| Configuration.MergeUpToFacts | Codist/Config.cs:235-243 | merging keeps existing entries in place and appends a default only for each absent positive id, in ascending order, never twice; afterwards every positive id is present |
| Configuration.MergeUpToComplete | Codist/Config.cs:235-243 | merging into a list that already has every positive id changes nothing |
| Configuration.GetDefaultCodeStyles | Codist/Config.cs:275-283 | a fresh array with one default style per enumeration member, entry i having id i |
| Configuration.MergeDefaultCodeStyles | Codist/Config.cs:235-243 | the in-place merge leaves the list the merge function describes |
| Configuration.ResetCodeStyle | Codist/Config.cs:244-247 | the list is replaced by the target entries |
| Configuration.LoadedEntries | Codist/Config.cs:185-197 | the entries after RemoveAll, Sort, the font clearing and the undefined-id removal; stated by LoadedEntriesSorted and LoadedEntriesKeep |
| Configuration.LoadedStyles | Codist/Config.cs:185-200 | the loaded entries merged with the defaults; stated by LoadedStylesComplete |
| Configuration.LoadedEntriesSorted | Codist/Config.cs:185-200 | before merging, the entries are sorted by id and every id is positive and defined; on a theme load every font is cleared |
| Configuration.LoadedEntriesKeep | Codist/Config.cs:185-200 | every input entry with a positive, defined id survives loading; on a theme load its font is cleared |
| Configuration.LoadStyleEntries | Codist/Config.cs:185-200 | the in-place filter, sort, font clearing, removal loop and merge leave the list the load function describes |
| Configuration.LoadedStylesComplete | Codist/Config.cs:185-200 | after loading every positive id of the enumeration is present |
| Configuration.Config.constructor | Codist/Config.cs:30-57 | a new configuration holds the property initialisers, no labels and no announcements |
| Configuration.Config.FireConfigChangedEvent | Codist/Config.cs:181-183 | the updated feature is announced once more |
| Configuration.Config.SetFeatures | Codist/Config.cs:289-291 | the features become the flag update of their old value |
| Configuration.Config.SetQuickInfoOptions | Codist/Config.cs:292-294 | the quick-info options become the flag update of their old value |
| Configuration.Config.SetMarkerOptions | Codist/Config.cs:295-298 | the marker options are updated and a ScrollbarMarkers change is announced |
| Configuration.Config.SetSpecialHighlightOptions | Codist/Config.cs:299-302 | the special-highlight options are updated and a SyntaxHighlight change is announced |
| Configuration.Config.LoadLabels | Codist/Config.cs:111-119 | the backward blank-label removal and the default fallback leave the cleaned labels |
| ClassificationTags.SpansOf | Codist/Classifiers/CSharpClassifier.cs:204-206 | one classification span per tag, as many spans as tags |
| ClassificationTags.SpansOfAt | Codist/Classifiers/CSharpClassifier.cs:204-206 | the k-th span lies over the given text span and carries the k-th tag |
| ClassificationTags.SpanList.AddAll | Codist/Classifiers/CSharpClassifier.cs:204-206 | one span per tag is appended, over the same text span, in tag order |
| CSharpClassifier.GetClassificationType | Codist/Classifiers/CSharpClassifier.cs:431-473 | a name that resolves to no symbol yields only its declaration, alias or attribute-argument tags |
| CSharpClassifier.SymbolTags | Codist/Classifiers/CSharpClassifier.cs:475-572 | the tags of a resolved symbol: its kind switch (KindTags), then the marker (MarkerTags) and modifier (ModifierTags); stated by SymbolTagsShape and the per-kind lemmas |
| CSharpClassifier.KindTagsHaveNoModifier | Codist/Classifiers/CSharpClassifier.cs:475-546 | the kind switch yields no modifier tag, and it goes on to marker and modifiers exactly for fields, properties, events, locals, parameters, methods and named types |
| CSharpClassifier.SymbolTagsShape | Codist/Classifiers/CSharpClassifier.cs:475-572 | a resolved symbol yields its kind tags, then (for the kinds that go on) its marker and at most one modifier tag |
| CSharpClassifier.ResolvedTags | Codist/Classifiers/CSharpClassifier.cs:431-473 | with a symbol resolved, the tags are the declaration prefix (DeclarationTags) followed by the symbol's own tags |
| CSharpClassifier.SymbolModifierCount | Codist/Classifiers/CSharpClassifier.cs:553-572 | a symbol's tags hold at most one modifier tag |
| CSharpClassifier.ModifierMember | Codist/Classifiers/CSharpClassifier.cs:553-572 | a modifier tag is emitted exactly when the kind goes on to modifiers and the modifier chain picks that tag |
| CSharpClassifier.ModifierAtMostOne | Codist/Classifiers/CSharpClassifier.cs:553-572 | whatever the name, at most one of static, sealed, override, virtual and abstract is emitted |
| CSharpClassifier.ModifierPrecedence | Codist/Classifiers/CSharpClassifier.cs:553-572 | the emitted modifier is the first of static, sealed (classes only), override, virtual and abstract that holds, each as an if-and-only-if |
| CSharpClassifier.SoleKindTag | Codist/Classifiers/CSharpClassifier.cs:475-546 | a symbol with a single kind tag yields no other non-declaration, non-marker, non-modifier tag |
| CSharpClassifier.FieldTags | Codist/Classifiers/CSharpClassifier.cs:496-499 | a field gets the const tag if const, else the readonly tag if read-only, else the field tag, and no other of the three |
| CSharpClassifier.LocalTags | Codist/Classifiers/CSharpClassifier.cs:509-512 | a local gets the const-field tag if const, else the local-variable tag, and not both |
| CSharpClassifier.KindOnlyTags | Codist/Classifiers/CSharpClassifier.cs:475-494 | namespaces, labels and type parameters yield only their kind tag; alias, array, pointer, dynamic, error and similar symbols yield nothing |
| CSharpClassifier.SealedOnlyForClasses | Codist/Classifiers/CSharpClassifier.cs:558-563 | a sealed named type that is not a class ends the sequence without any modifier tag |
| CSharpClassifier.ConstructorTags | Codist/Classifiers/CSharpClassifier.cs:524-530 | a constructor gets the attribute-name tag exactly inside an attribute and the constructor tag exactly outside one, never the method tag |
| CSharpClassifier.DestructorTags | Codist/Classifiers/CSharpClassifier.cs:531-534 | destructors and static constructors get the constructor tag, never the attribute-name or method tag |
| CSharpClassifier.OrdinaryMethodTags | Codist/Classifiers/CSharpClassifier.cs:535-537 | other methods get the extension tag if extension, else the extern tag if extern, else the method tag, each as an if-and-only-if |
| CSharpClassifier.OrdinaryMethodNotConstructor | Codist/Classifiers/CSharpClassifier.cs:535-537 | other methods never get the constructor or attribute-name tag |
| CSharpClassifier.DeclaredSymbolTags | Codist/Classifiers/CSharpClassifier.cs:434-452 | declared types and events get the nested-declaration tag inside a type and the declaration tag otherwise; methods get the declaration tag; properties get it unless they belong to an anonymous type |
| CSharpClassifier.UnresolvedNameTags | Codist/Classifiers/CSharpClassifier.cs:453-473 | an unresolved using-alias name gets the alias tag; an attribute argument naming a const field gets the const-field and static tags; other names get nothing |
| CSharpClassifier.ClassifySyntaxNode | Codist/Classifiers/CSharpClassifier.cs:340-389 | the node table; stated by NodeTableBranches, NodeTableLoops, NodeTableResources, NodeTableMethods and NodeTableTags |
| CSharpClassifier.NodeTableBranches | Codist/Classifiers/CSharpClassifier.cs:368-372 | a node maps to the branching tag exactly when it is an if, else, switch or switch section |
| CSharpClassifier.NodeTableLoops | Codist/Classifiers/CSharpClassifier.cs:373-377 | a node maps to the loop tag exactly when it is a for, foreach, while or do |
| CSharpClassifier.NodeTableResources | Codist/Classifiers/CSharpClassifier.cs:378-386 | a node maps to the resource tag exactly when it is a using, lock, fixed, unsafe, try, catch, catch filter or finally |
| CSharpClassifier.NodeTableMethods | Codist/Classifiers/CSharpClassifier.cs:341-351 | methods, anonymous methods, lambdas and invocations map to the method tag, except that an invocation of nameof maps to nothing |
| CSharpClassifier.NodeTableTags | Codist/Classifiers/CSharpClassifier.cs:340-389 | no node maps to a modifier, declaration-brace or punctuation tag |
| CSharpClassifier.KeywordTag | Codist/Classifiers/CSharpClassifier.cs:108-171 | a keyword gets the abstraction tag exactly for sealed, override, abstract, virtual or new on a member declaration; otherwise it gets a control-flow, branching, loop or resource tag or nothing |
| CSharpClassifier.BreakInSwitchSection | Codist/Classifiers/CSharpClassifier.cs:127-131 | a break gets no tag exactly when it ends a switch section; otherwise it gets the control-flow tag |
| CSharpClassifier.Gate | Codist/Classifiers/CSharpClassifier.cs:335-337 | a tag is added exactly when all of its option bits are set |
| CSharpClassifier.PunctuationTags | Codist/Classifiers/CSharpClassifier.cs:214-329 | the tags of one punctuation character under the options, through BraceTags for curly braces and ParenTags for parentheses; stated by the brace and parenthesis lemmas below |
| CSharpClassifier.NoBraceOptionsNoTags | Codist/Classifiers/CSharpClassifier.cs:215-217 | with no brace or punctuation option set, punctuation gets no tag |
| CSharpClassifier.StatementBraceGating | Codist/Classifiers/CSharpClassifier.cs:227-249 | a statement's curly brace gets the statement's tag exactly when its own option is set, never the declaration-brace tag, and nothing besides the punctuation tag |
| CSharpClassifier.DeclarationBraceTags | Codist/Classifiers/CSharpClassifier.cs:250-255 | a declaration's curly brace gets the declaration-brace tag exactly when it is not an expression, and the declaration's tag exactly under the declaration-brace option |
| CSharpClassifier.StatementParenGating | Codist/Classifiers/CSharpClassifier.cs:288-309 | a parenthesis of a branch, loop or resource statement gets the statement's tag exactly under that statement's option |
| CSharpClassifier.CastParenTags | Codist/Classifiers/CSharpClassifier.cs:261-287 | a cast's parenthesis gets its target type's kind tag under the parameter-brace option and nothing otherwise |
| CSharpClassifier.MarkClassificationTypeForBrace | Codist/Classifiers/CSharpClassifier.cs:331-338 | appends the punctuation tag, then the context tag when its option is set |
| CSharpClassifier.ClassifyBrace | Codist/Classifiers/CSharpClassifier.cs:219-256 | the curly-brace branch appends exactly the brace tags the punctuation rule gives |
| CSharpClassifier.AddBraceContextTags | Codist/Classifiers/CSharpClassifier.cs:228-255 | appends the tags that follow the punctuation tag of a curly brace |
| CSharpClassifier.ClassifyParenthesis | Codist/Classifiers/CSharpClassifier.cs:258-321 | the parenthesis branch appends exactly the parenthesis tags the punctuation rule gives |
| CSharpClassifier.ClassifyPunctuation | Codist/Classifiers/CSharpClassifier.cs:214-329 | appends exactly the punctuation rule's tags for a one-character punctuation span |
| CSharpClassificationPass.Shift | Codist/Classifiers/CSharpClassifier.cs:419 | an embedded span moves by the section's start and keeps its length |
| CSharpClassificationPass.CDataSpans | Codist/Classifiers/CSharpClassifier.cs:406-424 | the spans of the embedded code items, each shifted by the section start, in order; stated by CDataShift |
| CSharpClassificationPass.CDataShift | Codist/Classifiers/CSharpClassifier.cs:406-424 | every span produced for embedded code is an embedded item's span shifted by the section's start; items within the section text yield spans within the section |
| CSharpClassificationPass.HighlightXmlDocCData | Codist/Classifiers/CSharpClassifier.cs:391-429 | the loop appends the shifted spans of all embedded items, in order |
| CSharpClassificationPass.ItemStep | Codist/Classifiers/CSharpClassifier.cs:106-209 | the spans of one classified span and the doc-comment span seen last; stated by DelimiterSpans and ItemStepAnchored |
| CSharpClassificationPass.RunFrom | Codist/Classifiers/CSharpClassifier.cs:105-210 | the spans of the classified spans from an index on, threading the last doc-comment span |
| CSharpClassificationPass.ClassificationSpans | Codist/Classifiers/CSharpClassifier.cs:83-212 | the result of a pass: nothing without a workspace, else the attribute-notation span and the run of all items |
| CSharpClassificationPass.ClassifyItem | Codist/Classifiers/CSharpClassifier.cs:106-209 | one classified span appends its spans and updates the last doc-comment span as the step function says |
| CSharpClassificationPass.GetClassificationSpans | Codist/Classifiers/CSharpClassifier.cs:83-212 | the pass returns the attribute-notation span (if any) followed by the spans of every classified span, in order |
| CSharpClassificationPass.NoWorkspaceNoSpans | Codist/Classifiers/CSharpClassifier.cs:85-88 | without a workspace the pass yields nothing |
| CSharpClassificationPass.DelimiterSpans | Codist/Classifiers/CSharpClassifier.cs:183-198 | a delimiter inside the last doc-comment span adds nothing; one that starts a doc comment adds one span over the comment's full span, which becomes the last |
| CSharpClassificationPass.ItemStepAnchored | Codist/Classifiers/CSharpClassifier.cs:105-210 | every emitted span lies on its item's span, on the doc comment's span or on a shifted embedded span; only delimiters change the last doc-comment span |
| CSharpTooltip.Wrap32 | Codist/Views/CSharpTooltip.cs:194-197 | unchecked int arithmetic: the result is congruent to the value modulo 2^32 and equal to it when in range |
| CSharpTooltip.Wrap64 | Codist/Views/CSharpTooltip.cs:202-205 | the same for long, modulo 2^64 |
| CSharpTooltip.Wrap16 | Codist/Views/CSharpTooltip.cs:212-215 | the same for short, modulo 2^16 |
| CSharpTooltip.ShowNumericForms | Codist/Views/CSharpTooltip.cs:192-233 | there are no forms exactly for a non-integral value, and otherwise as many bytes as the type's width |
| CSharpTooltip.BytesBEValue | Codist/Views/CSharpTooltip.cs:198 | the shifted bytes, read big-endian, give the value modulo 256^n |
| CSharpTooltip.Int16BytesValue | Codist/Views/CSharpTooltip.cs:216 | the two bytes of a short encode it modulo 2^16 |
| CSharpTooltip.Int32BytesValue | Codist/Views/CSharpTooltip.cs:198 | the four bytes of an int encode it modulo 2^32 |
| CSharpTooltip.Int64BytesValue | Codist/Views/CSharpTooltip.cs:206 | the eight bytes of a long encode it modulo 2^64 |
| CSharpTooltip.Wrap32Unsigned | Codist/Views/CSharpTooltip.cs:220-221 | a uint survives the round trip through int: the same value modulo 2^32 and the same bytes |
| CSharpTooltip.Wrap64Unsigned | Codist/Views/CSharpTooltip.cs:223-224 | a ulong survives the round trip through long |
| CSharpTooltip.Wrap16Unsigned | Codist/Views/CSharpTooltip.cs:226-227 | a ushort survives the round trip through short |
| CSharpTooltip.UnsignedForms | Codist/Views/CSharpTooltip.cs:219-228 | an unsigned value shows what its signed counterpart shows in the unsigned form |
| CSharpTooltip.PlainFormShowsValue | Codist/Views/CSharpTooltip.cs:192-231 | in the plain form every integral value shows itself as DEC, and its bytes encode it in two's complement |
| CSharpTooltip.UnsignedBytes | Codist/Views/CSharpTooltip.cs:219-228 | the bytes shown for uint, ulong and ushort encode the unsigned value itself |
| CSharpTooltip.UIntBytes | Codist/Views/CSharpTooltip.cs:220-221 | the bytes shown for a uint encode it |
| CSharpTooltip.ULongBytes | Codist/Views/CSharpTooltip.cs:223-224 | the bytes shown for a ulong encode it |
| CSharpTooltip.UShortBytes | Codist/Views/CSharpTooltip.cs:226-227 | the bytes shown for a ushort encode it |
| CSharpTooltip.NegativeFormNegates | Codist/Views/CSharpTooltip.cs:192-218 | under a unary minus, int, long and short show bytes of the negated value; their DEC is the negation exactly when the value is not the minimum, and for the minimum DEC is the minimum itself |
| CSharpTooltip.NegateIntForm | Codist/Views/CSharpTooltip.cs:193-199 | the negative form of an int |
| CSharpTooltip.NegateLongForm | Codist/Views/CSharpTooltip.cs:201-207 | the negative form of a long |
| CSharpTooltip.NegateShortForm | Codist/Views/CSharpTooltip.cs:212-218 | the negative form of a short |
| CSharpTooltip.NegateInt32 | Codist/Views/CSharpTooltip.cs:195-198 | negating an int encodes the negation modulo 2^32, and is exact exactly when the value is not the minimum |
| CSharpTooltip.NegateInt64 | Codist/Views/CSharpTooltip.cs:203-206 | the same for long |
| CSharpTooltip.NegateInt16 | Codist/Views/CSharpTooltip.cs:214-217 | the same for short |
| CSharpTooltip.SingleByteIgnoresForm | Codist/Views/CSharpTooltip.cs:209-231 | byte and sbyte ignore the form and show one byte holding the value |
| CSharpTooltip.UnsignedReinterpreted | Codist/Views/CSharpTooltip.cs:219-228 | unsigned values show the bytes of their same-width signed counterpart and their own unsigned value as DEC, in any form |
| CSharpTooltip.Hex2 | Codist/Views/CSharpTooltip.cs:254 | a byte is shown as exactly two hexadecimal digits |
| CSharpTooltip.Hex2RoundTrip | Codist/Views/CSharpTooltip.cs:254 | the two digits read back to the byte |
| CSharpTooltip.ToHexString | Codist/Views/CSharpTooltip.cs:252-264 | 1 or 2 bytes give 2 digits each; 4 or 8 bytes give digit pairs grouped two bytes per group; any other length gives empty text |
| CSharpTooltip.HexLayout | Codist/Views/CSharpTooltip.cs:252-264 | byte k's digits sit at a fixed position and read back to the byte; groups of two bytes are separated by single spaces |
| CSharpTooltip.Bin8 | Codist/Views/CSharpTooltip.cs:246 | a byte is shown as eight binary digits |
| CSharpTooltip.BinDigitsRoundTrip | Codist/Views/CSharpTooltip.cs:246 | zero-padded binary digits read back to the number |
| CSharpTooltip.Bin8RoundTrip | Codist/Views/CSharpTooltip.cs:246 | each eight-digit group reads back to its byte |
| CSharpTooltip.SkipLeadingZeros | Codist/Views/CSharpTooltip.cs:240-242 | what remains after the skipped bytes starts with a non-zero byte |
| CSharpTooltip.SkippedAreZero | Codist/Views/CSharpTooltip.cs:240-242 | what remains is a suffix of the bytes, and only zero bytes are skipped |
| CSharpTooltip.JoinBinGroups | Codist/Views/CSharpTooltip.cs:243-246 | n groups take 9n - 1 characters, and no groups take none |
| CSharpTooltip.ToBinString | Codist/Views/CSharpTooltip.cs:235-250 | the StringBuilder loop yields the groups of the bytes after the leading zero bytes, or "00000000" when none remain |
| CSharpTooltip.AppendGroup | Codist/Views/CSharpTooltip.cs:240-246 | one loop step skips a zero byte while nothing has been written, and otherwise appends a space (if needed) and the byte's group |
| CSharpTooltip.BinString | Codist/Views/CSharpTooltip.cs:235-250 | the binary text: the groups of the bytes after the leading zero bytes, or "00000000"; stated by BinStringAllZero and JoinBinGroupsLayout |
| CSharpTooltip.BinStringAllZero | Codist/Views/CSharpTooltip.cs:248 | the binary text is "00000000" exactly when every byte is zero |
| CSharpTooltip.JoinBinGroupsLayout | Codist/Views/CSharpTooltip.cs:243-246 | group j sits at 9j, holds the digits of the j-th kept byte, and is followed by a space unless it is last |
| CSharpTooltip.NumericPanel | Codist/Views/CSharpTooltip.cs:266-272 | the panel has no lines exactly for a non-integral value, and otherwise shows the forms' DEC value with its HEX and BIN texts |
| CSharpTooltip.IsCommonClassName | Codist/Views/CSharpTooltip.cs:174-176 | exactly Object, ValueType, Enum and MulticastDelegate are common class names |
| CSharpTooltip.AttributeDisplayName | Codist/Views/CSharpTooltip.cs:327 | a class name ending in "Attribute" loses exactly that suffix; any other name is shown as is |
| CSharpTooltip.AttributeSuffixRoundTrip | Codist/Views/CSharpTooltip.cs:327 | trimming the suffix undoes appending it |
| XmlDocParser.FirstItem | Codist/Helpers/XmlDocParser.cs:59-61 | the result is a matching child element with no match before it, and there is none exactly when no child matches |
| XmlDocParser.Element | Codist/Helpers/XmlDocParser.cs:53-58 | a missing document has no elements |
| XmlDocParser.GetSummary | Codist/Helpers/XmlDocParser.cs:53-55 | the summary of a missing document is missing; a found summary is a summary element |
| XmlDocParser.GetReturns | Codist/Helpers/XmlDocParser.cs:56-58 | the same for the returns element |
| XmlDocParser.GetNamedDocItem | Codist/Helpers/XmlDocParser.cs:59-61 | a missing document has no named items |
| XmlDocParser.NamedDocItemFirst | Codist/Helpers/XmlDocParser.cs:59-61 | the named item is the first child with that element name and name attribute; there is none exactly when no child matches |
| XmlDocParser.GetXmlDocForSymbolAsWritten | Codist/Helpers/XmlDocParser.cs:31-52 | the lookup as written dereferences null exactly for a parameter of an indexer |
| XmlDocParser.GetXmlDocForSymbol | Codist/Helpers/XmlDocParser.cs:31-52 | a `this` parameter and a type parameter of another kind have no documentation |
| XmlDocParser.AsWrittenAgrees | Codist/Helpers/XmlDocParser.cs:31-52 | wherever the lookup as written succeeds, the corrected lookup gives the same element |
| XmlDocParser.IndexerParameterLookup | Codist/Helpers/XmlDocParser.cs:38-39 | for an indexer parameter documented by a param item, the lookup as written fails and the corrected one finds the item |
| XmlDocParser.DocForSymbol | Codist/Helpers/XmlDocParser.cs:31-52 | a parameter's documentation is the first param item named after it in its owner's documentation, missing exactly when that document is missing or has none; a type parameter's is likewise the first typeparam item of its containing type's documentation (type kind) or its declaring method's (method kind), and none for another kind; any other symbol's is its summary |
| XmlDocParser.TrimStart | Codist/Helpers/XmlDocParser.cs:134 | the result is a suffix of the text with no leading white space, and only white space was removed |
| XmlDocParser.TrimEnd | Codist/Helpers/XmlDocParser.cs:137 | the result is a prefix of the text with no trailing white space, and only white space was removed |
| XmlDocParser.Trim | Codist/Helpers/XmlDocParser.cs:134 | the result has white space at neither end |
| XmlDocParser.TrimSlice | Codist/Helpers/XmlDocParser.cs:134 | the trimmed text is a slice of the text, and everything cut off on either side is white space |
| XmlDocParser.ReplaceNewlines | Codist/Helpers/XmlDocParser.cs:139 | the length is kept; each line feed becomes a space and every other character stays in place |
| XmlDocParser.CollapseSpaces | Codist/Helpers/XmlDocParser.cs:139 | no two spaces remain in a row, and the first and last characters are kept; CollapseDoubleSpace and CollapseIdempotent fix its value |
| XmlDocParser.CollapseDoubleSpace | Codist/Helpers/XmlDocParser.cs:139 | a double space collapses exactly like a single one, so every run of spaces becomes one space, never none |
| XmlDocParser.CollapseKeepsText | Codist/Helpers/XmlDocParser.cs:139 | collapsing keeps every character other than a space, in order |
| XmlDocParser.CollapseIdempotent | Codist/Helpers/XmlDocParser.cs:139 | collapsing text with no double space changes nothing |
| XmlDocParser.TrimForPosition | Codist/Helpers/XmlDocParser.cs:132-138 | an end that is trimmed (the front unless the text follows see, paramref, typeparamref, c, b, i or u; the back when it is the last node) holds no white space; text after an inline element with more nodes after it is kept unchanged; TrimForPositionSlice states what is cut |
| XmlDocParser.TrimForPositionSlice | Codist/Helpers/XmlDocParser.cs:132-138 | trimming cuts only white space, and touches the front only when it trims the front and the back only when the text is the last node |
| XmlDocParser.Normalize | Codist/Helpers/XmlDocParser.cs:139 | normalised text has no line feed and no two spaces in a row; NormalizeRuns and NormalizeNormal fix its value |
| XmlDocParser.NormalizeRuns | Codist/Helpers/XmlDocParser.cs:139 | normalising treats a line feed as a space and a double space as a single space |
| XmlDocParser.NormalizeNormal | Codist/Helpers/XmlDocParser.cs:139 | text with no line feed and no double space is left unchanged |
| XmlDocParser.NormalizeEnds | Codist/Helpers/XmlDocParser.cs:139 | normalising keeps the first and last characters when they are not line feeds |
| XmlDocParser.RenderNodes | Codist/Helpers/XmlDocParser.cs:74-152 | the rendering of the child nodes from an index on, in order |
| XmlDocParser.RenderNode | Codist/Helpers/XmlDocParser.cs:76-150 | the rendering of one child node by the node switch, with TextRunText for text, SeeTags for see and BreakBefore for blocks; stated by CodeTextVerbatim, TextRunShape, SeeRendering and BlockLineBreaks |
| XmlDocParser.RenderContent | Codist/Helpers/XmlDocParser.cs:65-72 | a missing element renders to nothing, and a rendering that exists is never empty |
| XmlDocParser.CodeTextVerbatim | Codist/Helpers/XmlDocParser.cs:129-142 | text inside a code element becomes one run, unchanged |
| XmlDocParser.TextRunShape | Codist/Helpers/XmlDocParser.cs:129-142 | text elsewhere becomes one run with no line feed and no double space; it has no leading white space unless it follows see, paramref, typeparamref, c, b, i or u, and no trailing white space when it is the last node; it is the normalisation of a slice of the text that cuts only white space, keeping the front after an inline element and the back before a further node |
| XmlDocParser.SeeRendering | Codist/Helpers/XmlDocParser.cs:91-99 | a see element renders by its cref as an alias, else by its langword as a keyword type, else not at all; cref wins when both are present |
| XmlDocParser.BlockLineBreaks | Codist/Helpers/XmlDocParser.cs:80-90 | para, listheader and item render their content with a line break before exactly when they are not first and do not follow a para, and after exactly when they are not last; all four combinations are stated |
| XmlDocParser.ParagraphsSeparatedOnce | Codist/Helpers/XmlDocParser.cs:80-90 | two consecutive paragraphs are separated by exactly one line break |
| XmlDocParser.EmptyContentRendersNothing | Codist/Helpers/XmlDocParser.cs:66-68 | a missing element, or one with no content, renders to nothing |
| XmlDocParser.InlineCollection.Add | Codist/Helpers/XmlDocParser.cs:141 | one inline is appended |
| XmlDocParser.ToUIText | Codist/Helpers/XmlDocParser.cs:74-152 | the walk appends the rendering of every child node, in order |
| XmlDocParser.ToUITextNode | Codist/Helpers/XmlDocParser.cs:76-150 | one child node appends exactly its rendering |
| XmlDocParser.BlockElement | Codist/Helpers/XmlDocParser.cs:80-90 | a block element appends its line breaks and content as the rendering says |
| XmlDocParser.StyleInner | Codist/Helpers/XmlDocParser.cs:154-157 | a styled span holding the element's rendered content is appended |
| XmlDocParser.ToTextBlock | Codist/Helpers/XmlDocParser.cs:65-72 | returns nothing for a missing or empty element or when nothing was rendered, otherwise the rendered inlines |

## Left out

- Visual Studio, WPF and Roslyn services are inputs or are not modelled:
  - syntax trees, semantic models and classified spans are input records (`csharp_syntax.dfy`,
    the `RangeFacts` of the pass);
  - the document created for a CDATA section, and its compilation, are replaced by the
    embedded items it yields;
  - text snapshots, brushes, panels and the hover controller are not modelled.
- JSON (de)serialisation, file I/O, the save/load timestamps and the Loaded/Updated event
  plumbing are not modelled. An announcement is recorded in `updates`.
- SymbolMarkManager is a map from symbol id to pinned style name.
- Constants.cs and the classification-type registry are not part of this model. Classification
  names are the Roslyn ones, and a registered tag is `Registered(name)`.
- CSharpSyntax.ParentConsistent: the classifier relies on an attribute argument sitting in an
  attribute argument list. The lemmas assume it.
- CSharpClassifier.DeclaredSymbolTags: a declared property with no containing type counts as not
  anonymous. The source would dereference null there.
- The `ReturnKeyword` case of the keyword switch compares a node kind with a token kind and can
  never match. It is not modelled.
- Configuration.SortById: `List.Sort` is unstable. The model sorts stably, so the order of equal
  ids is one the source may not produce. Sortedness and permutation hold either way.
- Null entries of a style list are not modelled.
- A style entry is its id and font only. The other formatting properties and
  `GetDefaultCommentStyles` are not modelled.
- Configuration.ResetCodeStyle copies the target entries. Sharing of style objects between the
  two lists is not captured.
- The enumeration helpers defining `MatchFlags` and `HasAnyFlag` are not part of this model. They are
  modelled as the all-bits and any-bit tests their uses in the classifier need.
- `EnumHelper` is not part of this model. `IsDefined` is taken to be `0 <= id < count`, with
  enumerations numbered from 0.
- XmlDocParser.GetXmlDoc, `GetDocumentationCommentXml` and XML parsing are inputs: each symbol
  carries its parsed documentation, which is none when empty or malformed.
- XmlDocParser.GetExceptions is not modelled. It only enumerates the `exception` children.
- XML namespaces are not modelled. Names are local names.
- XmlDocParser.XElement: `IsEmpty` is taken as a self-closing tag with no nodes.
- Comments and processing instructions render to nothing. An entity renders to its text.
- XmlDocParser.InlineCollection: WPF inline objects are values. A symbol-renderer call is
  recorded as a `SymbolRef(name, kind)` inline, and what the renderer draws is not modelled.
- XmlDocParser.StyleInner: the source adds the span before filling it. The model fills it first.
  The final collection is the same.
- CSharpTooltip: decimal text is its integer value. `ToString` digit rendering is not modelled.

## Findings

| source | as written | input that shows it | evidently intended | confidence | as-written member | corrected member |
|---|---|---|---|---|---|---|
| Codist/Helpers/XmlDocParser.cs:38-39 | a parameter's containing symbol is cast to a method symbol and its method kind is read without a null check | a parameter of an indexer `this[int index]`: its containing symbol is a property, so the cast yields null and the lookup dereferences it | the indexer's own `param` item documents the parameter | not executed; medium | XmlDocParser.GetXmlDocForSymbolAsWritten, XmlDocParser.IndexerParameterLookup | XmlDocParser.GetXmlDocForSymbol, XmlDocParser.DocForSymbol |
