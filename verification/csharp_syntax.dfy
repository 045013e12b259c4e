/**
 * The facts the classifier reads from the compiler: syntax node kinds and their ancestry,
 * resolved symbols and their modifiers. They are inputs here; parsing and binding are not
 * part of the model.
 */
module CSharpSyntax {
  import opened Wrappers

  /** The syntax node kinds the classifier distinguishes; everything else falls into a catch-all. */
  datatype NodeKind =
    // declarations
    | NamespaceDeclaration | ClassDeclaration | InterfaceDeclaration | StructDeclaration | EnumDeclaration
    | DelegateDeclaration | MethodDeclaration | ConstructorDeclaration | PropertyDeclaration
    | OtherMemberDeclaration  // fields, events, indexers, operators, accessors' owners, enum members, ...
    // statements and clauses
    | BreakStatement | GotoCaseStatement | GotoDefaultStatement | GotoStatement | ContinueStatement
    | ReturnStatement | YieldReturnStatement | YieldBreakStatement | ThrowStatement
    | IfStatement | ElseClause | SwitchStatement | SwitchSection | CaseSwitchLabel | DefaultSwitchLabel
    | ForStatement | ForEachStatement | WhileStatement | DoStatement | SelectClause
    | UsingStatement | FixedStatement | LockStatement | UnsafeStatement | TryStatement
    | CatchClause | CatchFilterClause | FinallyClause | Block | OtherStatement
    // expressions
    | ThrowExpression | AnonymousMethodExpression | SimpleLambdaExpression | ParenthesizedLambdaExpression
    | InvocationExpression(calleeIsNameof: bool)  // whether the callee is the identifier `nameof`
    | AnonymousObjectCreationExpression | ObjectCreationExpression
    | ObjectInitializerExpression | CollectionInitializerExpression | ArrayInitializerExpression
    | CastExpression | MemberAccessExpression | IdentifierName | OtherExpression
    // other nodes
    | ThisConstructorInitializer | Attribute | AttributeList | AttributeArgumentList | AttributeArgument
    | Argument(expression: NodeKind)  // an argument, with the kind of the expression it wraps
    | ArgumentList | BracketedArgumentList | ParameterList | BracketedParameterList
    | NameEquals | UsingDirective | OtherNode

  /** `is MemberDeclarationSyntax` (namespace declarations included). */
  predicate IsMemberDeclaration(k: NodeKind) {
    k.NamespaceDeclaration? || IsBaseTypeDeclaration(k) || k.DelegateDeclaration? || k.MethodDeclaration?
    || k.ConstructorDeclaration? || k.PropertyDeclaration? || k.OtherMemberDeclaration?
  }

  /** `is BaseTypeDeclarationSyntax`: classes, interfaces, structs and enums. */
  predicate IsBaseTypeDeclaration(k: NodeKind) {
    k.ClassDeclaration? || k.InterfaceDeclaration? || k.StructDeclaration? || k.EnumDeclaration?
  }

  /** `is ExpressionSyntax`. */
  predicate IsExpression(k: NodeKind) {
    k.ThrowExpression? || k.AnonymousMethodExpression? || k.SimpleLambdaExpression?
    || k.ParenthesizedLambdaExpression? || k.InvocationExpression? || k.AnonymousObjectCreationExpression?
    || k.ObjectCreationExpression? || k.ObjectInitializerExpression? || k.CollectionInitializerExpression?
    || k.ArrayInitializerExpression? || k.CastExpression? || k.MemberAccessExpression? || k.IdentifierName?
    || k.OtherExpression?
  }

  /** `is BaseArgumentListSyntax`. */
  predicate IsBaseArgumentList(k: NodeKind) {
    k.ArgumentList? || k.BracketedArgumentList?
  }

  /** `is BaseParameterListSyntax`. */
  predicate IsBaseParameterList(k: NodeKind) {
    k.ParameterList? || k.BracketedParameterList?
  }

  /** A syntax node: its kind and the chain of nodes above it. */
  datatype Node = Node(kind: NodeKind, parent: Option<Node>) {
    /** The kind of the parent node, if there is one. */
    function ParentKind(): Option<NodeKind> {
      if parent.Some? then Some(parent.value.kind) else None
    }

    /** The kind of the grandparent node, if there is one. */
    function GrandparentKind(): Option<NodeKind> {
      if parent.Some? then parent.value.ParentKind() else None
    }
  }

  /** What the syntax guarantees and the classifier relies on: an attribute argument sits in an attribute argument list. */
  predicate ParentConsistent(n: Node) {
    n.kind.AttributeArgument? ==> n.ParentKind() == Some(AttributeArgumentList)
  }

  /** The token kinds the keyword rule looks at. */
  datatype TokenKind = SealedKeyword | OverrideKeyword | AbstractKeyword | VirtualKeyword | NewKeyword | OtherToken

  datatype MethodKind = Constructor | Destructor | StaticConstructor | OtherMethodKind

  datatype TypeKind = Class | Interface | Struct | Delegate | Enum | OtherTypeKind

  /** A symbol kind, with the kind-specific facts the classifier reads. */
  datatype SymbolKind =
    | AliasSymbol | ArrayTypeSymbol | AssemblySymbol | DynamicTypeSymbol | ErrorTypeSymbol
    | NetModuleSymbol | PointerTypeSymbol | RangeVariableSymbol | PreprocessingSymbol | DiscardSymbol
    | LabelSymbol | TypeParameterSymbol | NamespaceSymbol | PropertySymbol | EventSymbol | ParameterSymbol
    | FieldSymbol(isConst: bool, isReadOnly: bool)
    | LocalSymbol(isConst: bool)
    | MethodSymbol(methodKind: MethodKind, isExtensionMethod: bool, isExtern: bool)
    | NamedTypeSymbol(typeKind: TypeKind)

  /** The containing type of a symbol, as far as the classifier looks at it. */
  datatype ContainingType = ContainingType(isAnonymousType: bool)

  /** A resolved symbol: a stable identity, its kind, its modifiers and its containing type. */
  datatype Symbol = Symbol(
    id: int,
    kind: SymbolKind,
    isStatic: bool,
    isSealed: bool,
    isOverride: bool,
    isVirtual: bool,
    isAbstract: bool,
    containingType: Option<ContainingType>)

  /**
   * What the semantic model answers about a node (after an argument has been unwrapped to its
   * expression): the symbol it binds to, the symbol it declares, the symbol an attribute
   * argument's expression binds to, and the first candidate symbol of the enclosing member
   * access or of the enclosing argument's expression.
   */
  datatype SymbolFacts = SymbolFacts(
    symbol: Option<Symbol>,
    declared: Option<Symbol>,
    attributeArgumentSymbol: Option<Symbol>,
    memberAccessCandidate: Option<Symbol>,
    argumentCandidate: Option<Symbol>)
}
