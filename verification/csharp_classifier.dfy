/**
 * The semantic rules of the C# classifier: which style tags a resolved symbol earns, which
 * tag a syntax node stands for, how keywords, braces and parentheses are tagged under the
 * special-highlight options, and the per-span pass that appends the results.
 */
module CSharpClassifier {
  import opened Wrappers
  import opened Lists
  import opened FlagOps
  import opened ConfigFlags
  import opened ClassificationTags
  import opened CSharpSyntax

  // ---------------------------------------------------------------------------------------
  // Symbol tags

  /** An argument is classified by the expression it wraps; the argument becomes its parent. */
  function UnwrapArgument(node: Node): Node {
    if node.kind.Argument? then Node(node.kind.expression, Some(node)) else node
  }

  /** The node is the alias name of a using directive (`using X = ...`). */
  predicate IsAliasName(node: Node) {
    node.ParentKind() == Some(NameEquals) && node.GrandparentKind() == Some(UsingDirective)
  }

  /** The node is an attribute, or its parent or grandparent is. */
  predicate InAttribute(node: Node) {
    node.kind.Attribute? || node.ParentKind() == Some(Attribute) || node.GrandparentKind() == Some(Attribute)
  }

  predicate IsConstFieldSymbol(s: Option<Symbol>) {
    s.Some? && s.value.kind.FieldSymbol? && s.value.kind.isConst
  }

  /** The first candidate symbol of the enclosing member access or argument, if the parent is one. */
  function Candidate(node: Node, facts: SymbolFacts): Option<Symbol> {
    if node.ParentKind() == Some(MemberAccessExpression) then facts.memberAccessCandidate
    else if node.ParentKind().Some? && node.ParentKind().value.Argument? then facts.argumentCandidate
    else None
  }

  /** The symbol whose kind decides the tags: the bound one, else the declared one, else a candidate. */
  function ResolvedSymbol(node: Node, facts: SymbolFacts): Option<Symbol> {
    if facts.symbol.Some? then facts.symbol
    else if facts.declared.Some? then facts.declared
    else Candidate(UnwrapArgument(node), facts)
  }

  /** The tag a declared symbol earns ahead of its kind tag. */
  function DeclarationTags(s: Symbol): seq<Tag> {
    if s.kind.NamedTypeSymbol? || s.kind.EventSymbol? then [if s.containingType.Some? then NestedDeclaration else Declaration]
    else if s.kind.MethodSymbol? then [Declaration]
    else if s.kind.PropertySymbol? then
      (if s.containingType.Some? && s.containingType.value.isAnonymousType then [] else [Declaration])
    else []
  }

  /** The tags emitted for a name that binds to nothing and declares nothing. */
  function UnresolvedTags(node: Node, facts: SymbolFacts): seq<Tag> {
    if IsAliasName(node) then [AliasNamespace]
    else if node.kind.AttributeArgument? && IsConstFieldSymbol(facts.attributeArgumentSymbol) then [ConstField, StaticMember]
    else []
  }

  /** The tags emitted before the symbol's kind is looked at. */
  function PrefixTags(node: Node, facts: SymbolFacts): seq<Tag> {
    if facts.symbol.Some? then []
    else if facts.declared.Some? then DeclarationTags(facts.declared.value)
    else UnresolvedTags(UnwrapArgument(node), facts)
  }

  /** The outcome of the kind switch: tags after which the sequence ends, or tags followed by marker and modifiers. */
  datatype KindOutcome = Stop(tags: seq<Tag>) | Continue(tags: seq<Tag>)

  function MethodTag(node: Node, methodKind: MethodKind, isExtension: bool, isExtern: bool): Tag {
    match methodKind
    case Constructor => if InAttribute(node) then AttributeName else ConstructorMethod
    case Destructor => ConstructorMethod
    case StaticConstructor => ConstructorMethod
    case OtherMethodKind => if isExtension then ExtensionMethod else if isExtern then ExternMethod else Method
  }

  function KindTags(node: Node, s: Symbol): KindOutcome {
    var k := s.kind;
    if k.LabelSymbol? then Stop([Label])
    else if k.TypeParameterSymbol? then Stop([TypeParameter])
    else if k.NamespaceSymbol? then Stop([Namespace])
    else if k.FieldSymbol? then Continue([if k.isConst then ConstField else if k.isReadOnly then ReadonlyField else Field])
    else if k.PropertySymbol? then Continue([Property])
    else if k.EventSymbol? then Continue([Event])
    else if k.LocalSymbol? then Continue([if k.isConst then ConstField else LocalVariable])
    else if k.ParameterSymbol? then Continue([Parameter])
    else if k.MethodSymbol? then Continue([MethodTag(node, k.methodKind, k.isExtensionMethod, k.isExtern)])
    else if k.NamedTypeSymbol? then Continue([])
    else Stop([])
  }

  /** The style a user pinned to the symbol, if any. */
  function MarkerTags(s: Symbol, markers: map<int, string>): seq<Tag> {
    if s.id in markers then [Marker(markers[s.id])] else []
  }

  /** The modifier tag: the first of static, sealed, override, virtual, abstract that holds. */
  function ModifierTags(s: Symbol): seq<Tag> {
    if s.isStatic then (if s.kind.NamespaceSymbol? then [] else [StaticMember])
    else if s.isSealed then (if s.kind.NamedTypeSymbol? && s.kind.typeKind != Class then [] else [SealedMember])
    else if s.isOverride then [OverrideMember]
    else if s.isVirtual then [VirtualMember]
    else if s.isAbstract then [AbstractMember]
    else []
  }

  function SymbolTags(node: Node, s: Symbol, markers: map<int, string>): seq<Tag> {
    match KindTags(node, s)
    case Stop(tags) => tags
    case Continue(tags) => tags + MarkerTags(s, markers) + ModifierTags(s)
  }

  /**
   * The style tags of a name, in the order they are yielded. `facts` are the semantic model's
   * answers for the node after an argument has been unwrapped; `markers` maps symbol ids to the
   * style the user pinned to them.
   */
  function GetClassificationType(node: Node, facts: SymbolFacts, markers: map<int, string>): (r: seq<Tag>)
    ensures ResolvedSymbol(node, facts).None? ==> r == PrefixTags(node, facts)
  {
    var n := UnwrapArgument(node);
    var s := ResolvedSymbol(node, facts);
    PrefixTags(node, facts) + (if s.Some? then SymbolTags(n, s.value, markers) else [])
  }

  /** The kinds whose tag sequence goes on to the marker and the modifier tags. */
  predicate TakesModifiers(k: SymbolKind) {
    k.FieldSymbol? || k.PropertySymbol? || k.EventSymbol? || k.LocalSymbol? || k.ParameterSymbol?
    || k.MethodSymbol? || k.NamedTypeSymbol?
  }

  /** The number of modifier tags in a tag sequence. */
  function ModifierCount(tags: seq<Tag>): nat {
    |Filter(tags, IsModifierTag)|
  }

  lemma KindTagsHaveNoModifier(node: Node, s: Symbol)
    ensures forall t :: t in KindTags(node, s).tags ==> !IsModifierTag(t)
    ensures KindTags(node, s).Continue? <==> TakesModifiers(s.kind)
  {
  }

  /** The tags yielded for a resolved symbol: its kind tags, then (for most kinds) marker and modifier. */
  lemma SymbolTagsShape(node: Node, s: Symbol, markers: map<int, string>)
    ensures TakesModifiers(s.kind) ==>
      SymbolTags(node, s, markers) == KindTags(node, s).tags + MarkerTags(s, markers) + ModifierTags(s)
    ensures !TakesModifiers(s.kind) ==> SymbolTags(node, s, markers) == KindTags(node, s).tags
    ensures |ModifierTags(s)| <= 1 && forall t :: t in ModifierTags(s) ==> IsModifierTag(t)
  {
    KindTagsHaveNoModifier(node, s);
  }

  /** With a symbol resolved, the tags are at most a declaration tag followed by the symbol's own tags. */
  lemma ResolvedTags(node: Node, facts: SymbolFacts, markers: map<int, string>, s: Symbol)
    requires ParentConsistent(UnwrapArgument(node))
    requires ResolvedSymbol(node, facts) == Some(s)
    ensures GetClassificationType(node, facts, markers) == PrefixTags(node, facts) + SymbolTags(UnwrapArgument(node), s, markers)
    ensures forall t :: t in PrefixTags(node, facts) ==> t == Declaration || t == NestedDeclaration
  {
    if facts.symbol.None? && facts.declared.None? {
      var n := UnwrapArgument(node);
      assert IsAliasName(n) ==> Candidate(n, facts).None?;
      assert n.kind.AttributeArgument? ==> Candidate(n, facts).None?;
      assert PrefixTags(node, facts) == [];
    }
  }

  lemma {:induction false} ModifierCountAppend(a: seq<Tag>, b: seq<Tag>)
    ensures ModifierCount(a + b) == ModifierCount(a) + ModifierCount(b)
  {
    FilterAppend(a, b, IsModifierTag);
  }

  lemma {:induction false} NoModifierCount(a: seq<Tag>)
    requires forall t :: t in a ==> !IsModifierTag(t)
    ensures ModifierCount(a) == 0
  {
    if a != [] {
      assert a[0] in a;
      NoModifierCount(a[1..]);
    }
  }

  /** The tags of a resolved symbol hold at most one modifier tag. */
  lemma {:induction false} SymbolModifierCount(n: Node, s: Symbol, markers: map<int, string>)
    ensures ModifierCount(SymbolTags(n, s, markers)) <= 1
  {
    SymbolTagsShape(n, s, markers);
    var k := KindTags(n, s).tags;
    if TakesModifiers(s.kind) {
      CountOfShape(k, MarkerTags(s, markers), ModifierTags(s));
    } else {
      NoModifierCount(k);
    }
  }

  lemma {:induction false} CountOfShape(k: seq<Tag>, m: seq<Tag>, mods: seq<Tag>)
    requires forall t :: t in k ==> !IsModifierTag(t)
    requires forall t :: t in m ==> !IsModifierTag(t)
    requires |mods| <= 1
    ensures ModifierCount(k + m + mods) <= 1
  {
    NoModifierCount(k);
    NoModifierCount(m);
    ModifierCountAppend(k, m);
    ModifierCountAppend(k + m, mods);
  }

  /** A modifier tag is among a symbol's tags exactly when its kind takes modifiers and the modifier rule picks it. */
  lemma ModifierMember(node: Node, facts: SymbolFacts, markers: map<int, string>, s: Symbol, t: Tag)
    requires ParentConsistent(UnwrapArgument(node))
    requires ResolvedSymbol(node, facts) == Some(s)
    requires IsModifierTag(t)
    ensures t in GetClassificationType(node, facts, markers) <==> TakesModifiers(s.kind) && t in ModifierTags(s)
  {
    var n := UnwrapArgument(node);
    ResolvedTags(node, facts, markers, s);
    SymbolTagsShape(n, s, markers);
    var k, m := KindTags(n, s).tags, MarkerTags(s, markers);
    assert t !in k && t !in m;
  }

  /** Whatever name a symbol is resolved from, at most one modifier tag is emitted. */
  lemma {:induction false} ModifierAtMostOne(node: Node, facts: SymbolFacts, markers: map<int, string>, s: Symbol)
    requires ParentConsistent(UnwrapArgument(node))
    requires ResolvedSymbol(node, facts) == Some(s)
    ensures ModifierCount(GetClassificationType(node, facts, markers)) <= 1
  {
    var n := UnwrapArgument(node);
    var p := PrefixTags(node, facts);
    ResolvedTags(node, facts, markers, s);
    SymbolModifierCount(n, s, markers);
    NoModifierCount(p);
    ModifierCountAppend(p, SymbolTags(n, s, markers));
  }

  /**
   * Modifier precedence: the modifier tag emitted is the first of static, sealed, override,
   * virtual and abstract that the symbol has; kinds that end early get none.
   */
  lemma ModifierPrecedence(node: Node, facts: SymbolFacts, markers: map<int, string>, s: Symbol)
    requires ParentConsistent(UnwrapArgument(node))
    requires ResolvedSymbol(node, facts) == Some(s)
    ensures StaticMember in GetClassificationType(node, facts, markers) <==> TakesModifiers(s.kind) && s.isStatic
    ensures SealedMember in GetClassificationType(node, facts, markers) <==>
      TakesModifiers(s.kind) && !s.isStatic && s.isSealed && !(s.kind.NamedTypeSymbol? && s.kind.typeKind != Class)
    ensures OverrideMember in GetClassificationType(node, facts, markers) <==>
      TakesModifiers(s.kind) && !s.isStatic && !s.isSealed && s.isOverride
    ensures VirtualMember in GetClassificationType(node, facts, markers) <==>
      TakesModifiers(s.kind) && !s.isStatic && !s.isSealed && !s.isOverride && s.isVirtual
    ensures AbstractMember in GetClassificationType(node, facts, markers) <==>
      TakesModifiers(s.kind) && !s.isStatic && !s.isSealed && !s.isOverride && !s.isVirtual && s.isAbstract
  {
    ModifierMember(node, facts, markers, s, StaticMember);
    ModifierMember(node, facts, markers, s, SealedMember);
    ModifierMember(node, facts, markers, s, OverrideMember);
    ModifierMember(node, facts, markers, s, VirtualMember);
    ModifierMember(node, facts, markers, s, AbstractMember);
  }

  /**
   * Apart from declaration, marker and modifier tags, a symbol with a single kind tag yields
   * exactly that tag: any other tag u is among its tags exactly when it is that tag.
   */
  lemma SoleKindTag(node: Node, facts: SymbolFacts, markers: map<int, string>, s: Symbol, t: Tag, u: Tag)
    requires ParentConsistent(UnwrapArgument(node))
    requires ResolvedSymbol(node, facts) == Some(s)
    requires KindTags(UnwrapArgument(node), s) == Continue([t])
    requires u != Declaration && u != NestedDeclaration && !u.Marker? && !IsModifierTag(u)
    ensures u in GetClassificationType(node, facts, markers) <==> u == t
  {
    var n := UnwrapArgument(node);
    ResolvedTags(node, facts, markers, s);
    SymbolTagsShape(n, s, markers);
    var p, m, mods := PrefixTags(node, facts), MarkerTags(s, markers), ModifierTags(s);
    assert GetClassificationType(node, facts, markers) == p + ([t] + m + mods);
    assert u !in p && u !in m && u !in mods;
  }

  /** A field gets the const tag if const, else the readonly tag if readonly, else the field tag. */
  lemma FieldTags(node: Node, facts: SymbolFacts, markers: map<int, string>, s: Symbol)
    requires ParentConsistent(UnwrapArgument(node))
    requires ResolvedSymbol(node, facts) == Some(s)
    requires s.kind.FieldSymbol?
    ensures var r := GetClassificationType(node, facts, markers);
      (ConstField in r <==> s.kind.isConst)
      && (ReadonlyField in r <==> !s.kind.isConst && s.kind.isReadOnly)
      && (Field in r <==> !s.kind.isConst && !s.kind.isReadOnly)
  {
    var k := s.kind;
    var t := if k.isConst then ConstField else if k.isReadOnly then ReadonlyField else Field;
    SoleKindTag(node, facts, markers, s, t, ConstField);
    SoleKindTag(node, facts, markers, s, t, ReadonlyField);
    SoleKindTag(node, facts, markers, s, t, Field);
  }

  /** A local gets the const-field tag if const, else the local-variable tag. */
  lemma LocalTags(node: Node, facts: SymbolFacts, markers: map<int, string>, s: Symbol)
    requires ParentConsistent(UnwrapArgument(node))
    requires ResolvedSymbol(node, facts) == Some(s)
    requires s.kind.LocalSymbol?
    ensures var r := GetClassificationType(node, facts, markers);
      (ConstField in r <==> s.kind.isConst) && (LocalVariable in r <==> !s.kind.isConst)
  {
    var t := if s.kind.isConst then ConstField else LocalVariable;
    SoleKindTag(node, facts, markers, s, t, ConstField);
    SoleKindTag(node, facts, markers, s, t, LocalVariable);
  }

  /**
   * Namespace, label and type-parameter symbols get only their kind tag; alias, array, pointer,
   * dynamic, error, range-variable, assembly, module, preprocessing and discard symbols get nothing.
   */
  lemma KindOnlyTags(node: Node, facts: SymbolFacts, markers: map<int, string>, s: Symbol)
    requires ParentConsistent(UnwrapArgument(node))
    requires ResolvedSymbol(node, facts) == Some(s)
    ensures s.kind.NamespaceSymbol? ==> GetClassificationType(node, facts, markers) == [Namespace]
    ensures s.kind.LabelSymbol? ==> GetClassificationType(node, facts, markers) == [Label]
    ensures s.kind.TypeParameterSymbol? ==> GetClassificationType(node, facts, markers) == [TypeParameter]
    ensures !TakesModifiers(s.kind) && !s.kind.NamespaceSymbol? && !s.kind.LabelSymbol? && !s.kind.TypeParameterSymbol?
      ==> GetClassificationType(node, facts, markers) == []
  {
    ResolvedTags(node, facts, markers, s);
    SymbolTagsShape(UnwrapArgument(node), s, markers);
  }

  /** A sealed named type that is not a class ends the sequence instead of getting the sealed tag. */
  lemma SealedOnlyForClasses(node: Node, facts: SymbolFacts, markers: map<int, string>, s: Symbol)
    requires ParentConsistent(UnwrapArgument(node))
    requires ResolvedSymbol(node, facts) == Some(s)
    requires s.kind.NamedTypeSymbol? && s.kind.typeKind != Class && !s.isStatic && s.isSealed
    ensures GetClassificationType(node, facts, markers) == PrefixTags(node, facts) + MarkerTags(s, markers)
    ensures forall t :: t in GetClassificationType(node, facts, markers) ==> !IsModifierTag(t)
  {
    ResolvedTags(node, facts, markers, s);
    SymbolTagsShape(UnwrapArgument(node), s, markers);
  }

  /**
   * A constructor named inside an attribute (the node, its parent or its grandparent is the
   * attribute) gets the attribute-name tag, any other constructor the constructor tag.
   */
  lemma ConstructorTags(node: Node, facts: SymbolFacts, markers: map<int, string>, s: Symbol)
    requires ParentConsistent(UnwrapArgument(node))
    requires ResolvedSymbol(node, facts) == Some(s)
    requires s.kind.MethodSymbol? && s.kind.methodKind.Constructor?
    ensures AttributeName in GetClassificationType(node, facts, markers) <==> InAttribute(UnwrapArgument(node))
    ensures ConstructorMethod in GetClassificationType(node, facts, markers) <==> !InAttribute(UnwrapArgument(node))
    ensures Method !in GetClassificationType(node, facts, markers)
  {
    var n := UnwrapArgument(node);
    var t := if InAttribute(n) then AttributeName else ConstructorMethod;
    assert KindTags(n, s) == Continue([t]);
    SoleKindTag(node, facts, markers, s, t, AttributeName);
    SoleKindTag(node, facts, markers, s, t, ConstructorMethod);
    SoleKindTag(node, facts, markers, s, t, Method);
  }

  /** Destructors and static constructors get the constructor tag. */
  lemma DestructorTags(node: Node, facts: SymbolFacts, markers: map<int, string>, s: Symbol)
    requires ParentConsistent(UnwrapArgument(node))
    requires ResolvedSymbol(node, facts) == Some(s)
    requires s.kind.MethodSymbol? && (s.kind.methodKind.Destructor? || s.kind.methodKind.StaticConstructor?)
    ensures ConstructorMethod in GetClassificationType(node, facts, markers)
    ensures AttributeName !in GetClassificationType(node, facts, markers)
    ensures Method !in GetClassificationType(node, facts, markers)
  {
    var n := UnwrapArgument(node);
    assert KindTags(n, s) == Continue([ConstructorMethod]);
    SoleKindTag(node, facts, markers, s, ConstructorMethod, ConstructorMethod);
    SoleKindTag(node, facts, markers, s, ConstructorMethod, AttributeName);
    SoleKindTag(node, facts, markers, s, ConstructorMethod, Method);
  }

  /** Other methods get the extension tag, else the extern tag, else the method tag. */
  lemma OrdinaryMethodTags(node: Node, facts: SymbolFacts, markers: map<int, string>, s: Symbol)
    requires ParentConsistent(UnwrapArgument(node))
    requires ResolvedSymbol(node, facts) == Some(s)
    requires s.kind.MethodSymbol? && s.kind.methodKind.OtherMethodKind?
    ensures var r := GetClassificationType(node, facts, markers);
      (ExtensionMethod in r <==> s.kind.isExtensionMethod)
      && (ExternMethod in r <==> !s.kind.isExtensionMethod && s.kind.isExtern)
      && (Method in r <==> !s.kind.isExtensionMethod && !s.kind.isExtern)
  {
    var k := s.kind;
    var t := if k.isExtensionMethod then ExtensionMethod else if k.isExtern then ExternMethod else Method;
    assert KindTags(UnwrapArgument(node), s) == Continue([t]);
    SoleKindTag(node, facts, markers, s, t, ExtensionMethod);
    SoleKindTag(node, facts, markers, s, t, ExternMethod);
    SoleKindTag(node, facts, markers, s, t, Method);
  }

  /** Other methods never get the constructor or attribute-name tag. */
  lemma OrdinaryMethodNotConstructor(node: Node, facts: SymbolFacts, markers: map<int, string>, s: Symbol)
    requires ParentConsistent(UnwrapArgument(node))
    requires ResolvedSymbol(node, facts) == Some(s)
    requires s.kind.MethodSymbol? && s.kind.methodKind.OtherMethodKind?
    ensures ConstructorMethod !in GetClassificationType(node, facts, markers)
    ensures AttributeName !in GetClassificationType(node, facts, markers)
  {
    var k := s.kind;
    var t := if k.isExtensionMethod then ExtensionMethod else if k.isExtern then ExternMethod else Method;
    assert KindTags(UnwrapArgument(node), s) == Continue([t]);
    SoleKindTag(node, facts, markers, s, t, ConstructorMethod);
    SoleKindTag(node, facts, markers, s, t, AttributeName);
  }

  /**
   * Declared symbols: named types and events get the nested-declaration tag when they have a
   * containing type and the declaration tag otherwise; methods get the declaration tag;
   * properties get it unless they belong to an anonymous type.
   */
  lemma DeclaredSymbolTags(node: Node, facts: SymbolFacts, markers: map<int, string>, s: Symbol)
    requires facts.symbol.None? && facts.declared == Some(s)
    ensures var r := GetClassificationType(node, facts, markers);
      (s.kind.NamedTypeSymbol? || s.kind.EventSymbol? ==>
        |r| > 0 && r[0] == (if s.containingType.Some? then NestedDeclaration else Declaration))
      && (s.kind.MethodSymbol? ==> |r| > 0 && r[0] == Declaration)
      && (s.kind.PropertySymbol? ==>
        (Declaration in r <==> !(s.containingType.Some? && s.containingType.value.isAnonymousType)))
  {
  }

  /**
   * Names that resolve to nothing: the alias of a using directive gets the alias tag, an
   * attribute argument naming a const field gets the const-field and static tags, and anything
   * else gets no tag.
   */
  lemma UnresolvedNameTags(node: Node, facts: SymbolFacts, markers: map<int, string>)
    requires ParentConsistent(UnwrapArgument(node))
    requires facts.symbol.None? && facts.declared.None?
    ensures var n := UnwrapArgument(node);
      var r := GetClassificationType(node, facts, markers);
      (IsAliasName(n) ==> r == [AliasNamespace])
      && (n.kind.AttributeArgument? ==> r == (if IsConstFieldSymbol(facts.attributeArgumentSymbol) then [ConstField, StaticMember] else []))
      && (!n.ParentKind().Some? ==> r == [])
  {
    var n := UnwrapArgument(node);
    assert IsAliasName(n) ==> Candidate(n, facts).None?;
    assert n.kind.AttributeArgument? ==> Candidate(n, facts).None?;
  }

  // ---------------------------------------------------------------------------------------
  // Syntax node table

  /** The branching statements and clauses. */
  predicate IsBranchContext(k: NodeKind) {
    k.IfStatement? || k.ElseClause? || k.SwitchStatement? || k.SwitchSection?
  }

  /** The loop statements. */
  predicate IsLoopContext(k: NodeKind) {
    k.ForStatement? || k.ForEachStatement? || k.WhileStatement? || k.DoStatement?
  }

  /** The statements and clauses that guard a resource or a region. */
  predicate IsResourceContext(k: NodeKind) {
    k.UsingStatement? || k.LockStatement? || k.FixedStatement? || k.UnsafeStatement? || k.TryStatement?
    || k.CatchClause? || k.CatchFilterClause? || k.FinallyClause?
  }

  /** The tag a syntax node stands for when its braces or parentheses are highlighted. */
  function ClassifySyntaxNode(k: NodeKind): Option<Tag>
  {
    if k.MethodDeclaration? || k.AnonymousMethodExpression? || k.SimpleLambdaExpression? || k.ParenthesizedLambdaExpression? then
      Some(Method)
    else if k.InvocationExpression? then
      (if k.calleeIsNameof then None else Some(Method))
    else if k.ConstructorDeclaration? || k.AnonymousObjectCreationExpression? || k.ObjectInitializerExpression?
      || k.ObjectCreationExpression? || k.CollectionInitializerExpression? || k.ArrayInitializerExpression?
      || k.ThisConstructorInitializer? then
      Some(ConstructorMethod)
    else if k.PropertyDeclaration? then Some(Property)
    else if k.ClassDeclaration? then Some(ClassName)
    else if k.InterfaceDeclaration? then Some(InterfaceName)
    else if k.EnumDeclaration? then Some(EnumName)
    else if k.StructDeclaration? then Some(StructName)
    else if k.Attribute? then Some(AttributeName)
    else if k.NamespaceDeclaration? then Some(Namespace)
    else if IsBranchContext(k) then Some(BranchingKeyword)
    else if IsLoopContext(k) then Some(LoopKeyword)
    else if IsResourceContext(k) then Some(ResourceKeyword)
    else None
  }

  /** The node table maps branch statements to the branching keyword tag, and nothing else to it. */
  lemma NodeTableBranches(k: NodeKind)
    ensures ClassifySyntaxNode(k) == Some(BranchingKeyword) <==> IsBranchContext(k)
  {
  }

  /** The node table maps loop statements to the loop keyword tag, and nothing else to it. */
  lemma NodeTableLoops(k: NodeKind)
    ensures ClassifySyntaxNode(k) == Some(LoopKeyword) <==> IsLoopContext(k)
  {
  }

  /** The node table maps resource statements and clauses to the resource keyword tag, and nothing else to it. */
  lemma NodeTableResources(k: NodeKind)
    ensures ClassifySyntaxNode(k) == Some(ResourceKeyword) <==> IsResourceContext(k)
  {
  }

  /** Methods, lambdas and invocations map to the method tag, except an invocation of `nameof`, which maps to nothing. */
  lemma NodeTableMethods(k: NodeKind)
    ensures ClassifySyntaxNode(k) == Some(Method) <==>
      k.MethodDeclaration? || k.AnonymousMethodExpression? || k.SimpleLambdaExpression?
      || k.ParenthesizedLambdaExpression? || (k.InvocationExpression? && !k.calleeIsNameof)
    ensures k.InvocationExpression? ==> (ClassifySyntaxNode(k).None? <==> k.calleeIsNameof)
  {
  }

  /** No node maps to a modifier, declaration-brace or punctuation tag. */
  lemma NodeTableTags(k: NodeKind)
    ensures ClassifySyntaxNode(k).Some? ==>
      var t := ClassifySyntaxNode(k).value;
      !IsModifierTag(t) && t != DeclarationBrace && t != SpecialPunctuation
  {
  }

  // ---------------------------------------------------------------------------------------
  // Keywords

  predicate IsAbstractionKeyword(t: TokenKind) {
    t.SealedKeyword? || t.OverrideKeyword? || t.AbstractKeyword? || t.VirtualKeyword? || t.NewKeyword?
  }

  /** The statements whose keywords leave the current flow: return, yield, throw, goto, continue and break. */
  predicate IsControlFlowStatement(k: NodeKind) {
    k.GotoCaseStatement? || k.GotoDefaultStatement? || k.GotoStatement? || k.ContinueStatement?
    || k.ReturnStatement? || k.YieldReturnStatement? || k.YieldBreakStatement? || k.ThrowStatement?
    || k.ThrowExpression?
  }

  /**
   * The tag of a keyword, from the innermost node around it and the token it starts with: a
   * modifier keyword of a member declaration, or a keyword of a control-flow, branching, loop
   * or resource statement.
   */
  function KeywordTag(node: Node, token: TokenKind): (r: Option<Tag>)
    ensures r == Some(AbstractionKeyword) <==> IsMemberDeclaration(node.kind) && IsAbstractionKeyword(token)
    ensures r.Some? ==> r.value in {AbstractionKeyword, ControlFlowKeyword, BranchingKeyword, LoopKeyword, ResourceKeyword}
  {
    if IsMemberDeclaration(node.kind) then
      (if IsAbstractionKeyword(token) then Some(AbstractionKeyword) else None)
    else if node.kind.BreakStatement? then
      (if node.ParentKind().Some? && node.ParentKind().value.SwitchSection? then None else Some(ControlFlowKeyword))
    else if IsControlFlowStatement(node.kind) then Some(ControlFlowKeyword)
    else if node.kind.IfStatement? || node.kind.ElseClause? || node.kind.SwitchStatement?
      || node.kind.CaseSwitchLabel? || node.kind.DefaultSwitchLabel? then Some(BranchingKeyword)
    else if IsLoopContext(node.kind) || node.kind.SelectClause? then Some(LoopKeyword)
    else if IsResourceContext(node.kind) then Some(ResourceKeyword)
    else None
  }

  /**
   * A `break` that ends a switch section is an ordinary keyword; any other `break` is tagged as
   * control flow, like return, continue, goto, yield and throw.
   */
  lemma BreakInSwitchSection(node: Node, token: TokenKind)
    requires node.kind.BreakStatement?
    ensures KeywordTag(node, token).None? <==> node.ParentKind() == Some(SwitchSection)
    ensures KeywordTag(node, token).Some? <==> KeywordTag(node, token) == Some(ControlFlowKeyword)
  {
  }

  // ---------------------------------------------------------------------------------------
  // Braces and parentheses

  /** `[t]` when all bits of `flag` are set in the options, `[]` otherwise. */
  function Gate(options: bv32, flag: bv32, t: Tag): (r: seq<Tag>)
    ensures t in r <==> MatchFlags(options, flag)
    ensures |r| <= 1
  {
    if MatchFlags(options, flag) then [t] else []
  }

  /** The tags of a brace marked with the tag of its context. */
  function Mark(options: bv32, t: Tag, flag: bv32): seq<Tag> {
    Gate(options, HighlightSpecialPunctuation, SpecialPunctuation) + Gate(options, flag, t)
  }

  /** The node a curly brace belongs to: the node itself for type, namespace, switch and expression nodes, else its parent. */
  function BraceContext(node: Node): Option<Node> {
    if IsBaseTypeDeclaration(node.kind) || IsExpression(node.kind) || node.kind.NamespaceDeclaration? || node.kind.SwitchStatement?
    then Some(node)
    else node.parent
  }

  /** The option that gates the brace tag of a statement context. */
  function StatementFlag(t: Tag): bv32 {
    if t == BranchingKeyword then HighlightBranchBrace
    else if t == LoopKeyword then HighlightLoopBrace
    else HighlightResourceBrace
  }

  predicate IsStatementTag(t: Tag) {
    t == BranchingKeyword || t == LoopKeyword || t == ResourceKeyword
  }

  function BraceTags(options: bv32, node: Node): seq<Tag> {
    var c := BraceContext(node);
    if c.None? then []
    else match ClassifySyntaxNode(c.value.kind)
      case None => []
      case Some(t) =>
        Gate(options, HighlightSpecialPunctuation, SpecialPunctuation) + BraceContextTags(options, c.value, t)
  }

  /**
   * After the punctuation tag: a statement's brace gets the statement's tag under its own
   * option; any other brace gets the declaration-brace tag unless it belongs to an expression,
   * and the context's tag under the declaration-brace option.
   */
  function BraceContextTags(options: bv32, c: Node, t: Tag): seq<Tag> {
    if IsStatementTag(t) then Gate(options, StatementFlag(t), t)
    else (if IsExpression(c.kind) then [] else [DeclarationBrace]) + Gate(options, HighlightDeclarationBrace, t)
  }

  /** The tag of a cast's target type: the kind of a named type, or the type-parameter tag. */
  function CastTypeTag(s: Symbol): Option<Tag> {
    if s.kind.NamedTypeSymbol? then
      match s.kind.typeKind
      case Class => Some(ClassName)
      case Interface => Some(InterfaceName)
      case Struct => Some(StructName)
      case Delegate => Some(DelegateName)
      case Enum => Some(EnumName)
      case OtherTypeKind => None
    else if s.kind.TypeParameterSymbol? then Some(TypeParameter)
    else None
  }

  /** A parenthesis of an argument list, a parameter list or a cast is marked with the tag of the node around it. */
  function ListParenTags(options: bv32, node: Node): seq<Tag> {
    if (IsBaseArgumentList(node.kind) || IsBaseParameterList(node.kind) || node.kind.CastExpression?) && node.parent.Some? then
      match ClassifySyntaxNode(node.parent.value.kind)
      case None => []
      case Some(t) => Mark(options, t, HighlightParameterBrace)
    else []
  }

  /** What the punctuation rule learns about a one-character punctuation span. */
  datatype PunctuationFacts = PunctuationFacts(
    ch: char,                        // the character
    node: Node,                      // the innermost node around it
    castTypeSymbol: Option<Symbol>)  // the symbol of the target type, when the node is a cast

  function ParenTags(options: bv32, p: PunctuationFacts): seq<Tag> {
    var k := p.node.kind;
    if k.CastExpression? then
      if !MatchFlags(options, HighlightParameterBrace) || p.castTypeSymbol.None? then []
      else match CastTypeTag(p.castTypeSymbol.value)
        case Some(t) => [t]
        case None => ListParenTags(options, p.node)
    else if IsBranchContext(k) then Mark(options, BranchingKeyword, HighlightBranchBrace)
    else if IsLoopContext(k) then Mark(options, LoopKeyword, HighlightLoopBrace)
    else if IsResourceContext(k) then Mark(options, ResourceKeyword, HighlightResourceBrace)
    else ListParenTags(options, p.node)
  }

  const ParenFlags: bv32 := HighlightParameterBrace | HighlightBranchBrace | HighlightLoopBrace | HighlightResourceBrace

  /** The tags of a punctuation character under the special-highlight options. */
  function PunctuationTags(options: bv32, p: PunctuationFacts): seq<Tag> {
    if !HasAnyFlag(options, HighlightAllBraces) then []
    else if p.ch == '{' || p.ch == '}' then BraceTags(options, p.node)
    else if (p.ch == '(' || p.ch == ')') && HasAnyFlag(options, ParenFlags) then ParenTags(options, p)
    else []
  }

  /** Without any brace or punctuation option, punctuation earns no tag. */
  lemma NoBraceOptionsNoTags(options: bv32, p: PunctuationFacts)
    requires !HasAnyFlag(options, HighlightAllBraces)
    ensures PunctuationTags(options, p) == []
  {
  }

  /**
   * A curly brace of a branch, loop or resource statement gets that statement's tag exactly
   * when the statement's own option is set, never the declaration-brace tag, and nothing but
   * that tag and the punctuation tag.
   */
  lemma StatementBraceGating(options: bv32, p: PunctuationFacts, c: Node, t: Tag)
    requires HasAnyFlag(options, HighlightAllBraces)
    requires p.ch == '{' || p.ch == '}'
    requires BraceContext(p.node) == Some(c) && ClassifySyntaxNode(c.kind) == Some(t) && IsStatementTag(t)
    ensures t in PunctuationTags(options, p) <==> MatchFlags(options, StatementFlag(t))
    ensures DeclarationBrace !in PunctuationTags(options, p)
    ensures forall u :: u in PunctuationTags(options, p) ==> u == t || u == SpecialPunctuation
  {
  }

  /**
   * A curly brace of a declaration gets the declaration-brace tag whenever any brace option is
   * set, and the declaration's own tag only under the declaration-brace option.
   */
  lemma DeclarationBraceTags(options: bv32, p: PunctuationFacts, c: Node, t: Tag)
    requires HasAnyFlag(options, HighlightAllBraces)
    requires p.ch == '{' || p.ch == '}'
    requires BraceContext(p.node) == Some(c) && ClassifySyntaxNode(c.kind) == Some(t) && !IsStatementTag(t)
    ensures DeclarationBrace in PunctuationTags(options, p) <==> !IsExpression(c.kind)
    ensures t in PunctuationTags(options, p) <==> MatchFlags(options, HighlightDeclarationBrace)
  {
  }

  /** A parenthesis of a branch, loop or resource statement is gated by that statement's option. */
  lemma StatementParenGating(options: bv32, p: PunctuationFacts)
    requires HasAnyFlag(options, HighlightAllBraces) && HasAnyFlag(options, ParenFlags)
    requires p.ch == '(' || p.ch == ')'
    requires IsBranchContext(p.node.kind) || IsLoopContext(p.node.kind) || IsResourceContext(p.node.kind)
    ensures var t := ClassifySyntaxNode(p.node.kind).value;
      (t in PunctuationTags(options, p) <==> MatchFlags(options, StatementFlag(t)))
      && (SpecialPunctuation in PunctuationTags(options, p) <==> MatchFlags(options, HighlightSpecialPunctuation))
      && |PunctuationTags(options, p)| <= 2
  {
    var k := p.node.kind;
    var t := if IsBranchContext(k) then BranchingKeyword else if IsLoopContext(k) then LoopKeyword else ResourceKeyword;
    if IsBranchContext(k) {
      NodeTableBranches(k);
    } else if IsLoopContext(k) {
      NodeTableLoops(k);
    } else {
      NodeTableResources(k);
    }
    assert ClassifySyntaxNode(k) == Some(t);
    assert PunctuationTags(options, p) == Mark(options, t, StatementFlag(t));
    MarkShape(options, t, StatementFlag(t));
  }

  /** The marked tags hold the context's tag exactly under its option and the punctuation tag exactly under its own. */
  lemma MarkShape(options: bv32, t: Tag, flag: bv32)
    requires t != SpecialPunctuation
    ensures t in Mark(options, t, flag) <==> MatchFlags(options, flag)
    ensures SpecialPunctuation in Mark(options, t, flag) <==> MatchFlags(options, HighlightSpecialPunctuation)
    ensures |Mark(options, t, flag)| <= 2
  {
  }

  /** A cast's parenthesis is tagged with the kind of its target type, under the parameter-brace option only. */
  lemma CastParenTags(options: bv32, p: PunctuationFacts, s: Symbol, t: Tag)
    requires HasAnyFlag(options, HighlightAllBraces) && HasAnyFlag(options, ParenFlags)
    requires p.ch == '(' || p.ch == ')'
    requires p.node.kind.CastExpression? && p.castTypeSymbol == Some(s) && CastTypeTag(s) == Some(t)
    ensures PunctuationTags(options, p) == (if MatchFlags(options, HighlightParameterBrace) then [t] else [])
  {
  }

  /** Appends the marked tags of a brace: the punctuation tag, then the context's tag if its option is set. */
  method MarkClassificationTypeForBrace(result: SpanList, span: TextSpan, options: bv32, t: Tag, flag: bv32)
    modifies result
    ensures result.spans == old(result.spans) + SpansOf(span, Mark(options, t, flag))
  {
    if MatchFlags(options, HighlightSpecialPunctuation) {
      result.Add(ClassificationSpan(span, SpecialPunctuation));
    }
    if MatchFlags(options, flag) {
      result.Add(ClassificationSpan(span, t));
    }
    SpansOfAppend(span, Gate(options, HighlightSpecialPunctuation, SpecialPunctuation), Gate(options, flag, t));
  }

  /** Appends the tags of a curly brace. */
  method ClassifyBrace(result: SpanList, span: TextSpan, options: bv32, p: PunctuationFacts)
    requires HasAnyFlag(options, HighlightAllBraces) && (p.ch == '{' || p.ch == '}')
    modifies result
    ensures result.spans == old(result.spans) + SpansOf(span, PunctuationTags(options, p))
  {
    var node := p.node;
    assert PunctuationTags(options, p) == BraceTags(options, node);
    var c := BraceContext(node);
    if c.None? {
      assert BraceTags(options, node) == [];
      return;
    }
    var t := ClassifySyntaxNode(c.value.kind);
    if t.None? {
      assert BraceTags(options, node) == [];
      return;
    }
    var special := Gate(options, HighlightSpecialPunctuation, SpecialPunctuation);
    if MatchFlags(options, HighlightSpecialPunctuation) {
      result.Add(ClassificationSpan(span, SpecialPunctuation));
    }
    assert result.spans == old(result.spans) + SpansOf(span, special);
    AddBraceContextTags(result, span, options, c.value, t.value);
    SpansOfAppend(span, special, BraceContextTags(options, c.value, t.value));
  }

  /** Appends the tags that follow the punctuation tag of a curly brace. */
  method AddBraceContextTags(result: SpanList, span: TextSpan, options: bv32, c: Node, t: Tag)
    modifies result
    ensures result.spans == old(result.spans) + SpansOf(span, BraceContextTags(options, c, t))
  {
    if IsStatementTag(t) {
      if MatchFlags(options, StatementFlag(t)) {
        result.Add(ClassificationSpan(span, t));
      }
      return;
    }
    var declaration: seq<Tag> := if IsExpression(c.kind) then [] else [DeclarationBrace];
    if !IsExpression(c.kind) {
      result.Add(ClassificationSpan(span, DeclarationBrace));
    }
    assert result.spans == old(result.spans) + SpansOf(span, declaration);
    var own := Gate(options, HighlightDeclarationBrace, t);
    if MatchFlags(options, HighlightDeclarationBrace) {
      result.Add(ClassificationSpan(span, t));
    }
    SpansOfAppend(span, declaration, own);
  }

  /** Appends the tags of a parenthesis. */
  method ClassifyParenthesis(result: SpanList, span: TextSpan, options: bv32, p: PunctuationFacts)
    requires HasAnyFlag(options, HighlightAllBraces) && !(p.ch == '{' || p.ch == '}')
    requires (p.ch == '(' || p.ch == ')') && HasAnyFlag(options, ParenFlags)
    modifies result
    ensures result.spans == old(result.spans) + SpansOf(span, PunctuationTags(options, p))
  {
    assert PunctuationTags(options, p) == ParenTags(options, p);
    var k := p.node.kind;
    if k.CastExpression? {
      if !MatchFlags(options, HighlightParameterBrace) || p.castTypeSymbol.None? {
        return;
      }
      var t := CastTypeTag(p.castTypeSymbol.value);
      if t.Some? {
        result.Add(ClassificationSpan(span, t.value));
        return;
      }
    } else if IsBranchContext(k) {
      MarkClassificationTypeForBrace(result, span, options, BranchingKeyword, HighlightBranchBrace);
      return;
    } else if IsLoopContext(k) {
      MarkClassificationTypeForBrace(result, span, options, LoopKeyword, HighlightLoopBrace);
      return;
    } else if IsResourceContext(k) {
      MarkClassificationTypeForBrace(result, span, options, ResourceKeyword, HighlightResourceBrace);
      return;
    }
    if (IsBaseArgumentList(k) || IsBaseParameterList(k) || k.CastExpression?) && p.node.parent.Some? {
      var t := ClassifySyntaxNode(p.node.parent.value.kind);
      if t.Some? {
        MarkClassificationTypeForBrace(result, span, options, t.value, HighlightParameterBrace);
      }
    }
  }

  /** Appends the tags of a one-character punctuation span. */
  method ClassifyPunctuation(result: SpanList, span: TextSpan, options: bv32, p: PunctuationFacts)
    modifies result
    ensures result.spans == old(result.spans) + SpansOf(span, PunctuationTags(options, p))
  {
    if !HasAnyFlag(options, HighlightAllBraces) {
      assert PunctuationTags(options, p) == [];
      return;
    }
    if p.ch == '{' || p.ch == '}' {
      ClassifyBrace(result, span, options, p);
    } else if (p.ch == '(' || p.ch == ')') && HasAnyFlag(options, ParenFlags) {
      ClassifyParenthesis(result, span, options, p);
    } else {
      assert PunctuationTags(options, p) == [];
    }
  }
}
