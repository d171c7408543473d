/** The facts the generator obtains from the compiler about one syntax node.
    Each Roslyn query the generator makes is replaced by the value it would
    return, stored on the node or on the attribute it is asked about. */
module Syntax {
  import opened Wrappers

  /** What `GetSymbolInfo(attr).Symbol` resolves an attribute usage to.
      For a well-formed attribute this is its constructor, a method symbol,
      whose containing type is rendered by `ToDisplayString()`. */
  datatype AttributeSymbol =
    | MethodSymbol(containingTypeDisplayName: string)
    | OtherSymbol
    | Unresolved

  /** What `GetConstantValue` reports for an argument expression. A constant
      `null` has a value, but that value is not a string. */
  datatype ConstantValue =
    | ConstString(text: string)
    | ConstNull
    | ConstOther
    | NotConstant

  /** One attribute usage `[Name(args)]`. `argumentList` is `None` when the
      usage has no parentheses at all (`ArgumentList` is `null`); otherwise it
      holds the constant value of each argument expression, in order. */
  datatype Attribute = Attribute(symbol: AttributeSymbol, argumentList: Option<seq<ConstantValue>>)

  /** The `INamedTypeSymbol` declared by a class: its simple name and the
      display string of its containing namespace. */
  datatype ClassSymbol = ClassSymbol(name: string, containingNamespace: string)

  /** A node offered by the syntax provider. A class declaration carries its
      attribute lists (each a list of attributes, in source order) and the
      result of `GetDeclaredSymbol` on it, which may fail to be a named type. */
  datatype SyntaxNode =
    | ClassDeclaration(attributeLists: seq<seq<Attribute>>, declaredSymbol: Option<ClassSymbol>)
    | OtherNode

  /** The tuple `(Namespace, ClassName, SectionName)` the generator extracts
      for one settings class. */
  datatype SettingClass = SettingClass(namespace: string, className: string, sectionName: string)
}
