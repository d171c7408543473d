/** The attribute resolver `GetSettingClass`: decides whether a class is a
    settings class and, if so, extracts its namespace, class name and
    configuration section name. */
module Resolver {
  import opened Wrappers
  import opened Strings
  import opened Syntax

  /** The two suffixes that mark the settings attribute, leading dot included. */
  const AttributeSuffix := ".SettingsAttribute"
  const ShortSuffix := ".Settings"

  /** A containing-type display name that names the marker attribute. */
  predicate IsMarkerName(displayName: string)
  {
    EndsWith(displayName, AttributeSuffix) || EndsWith(displayName, ShortSuffix)
  }

  /** An attribute usage that resolves to a constructor of the marker attribute.
      Usages whose symbol is not a method symbol never match. */
  predicate IsMarker(attr: Attribute)
  {
    attr.symbol.MethodSymbol? && IsMarkerName(attr.symbol.containingTypeDisplayName)
  }

  /** The section name a matching attribute gives a class called `className`:
      the first argument when it is a constant string, the class name otherwise. */
  function SectionName(attr: Attribute, className: string): (section: string)
    ensures (attr.argumentList.Some? && |attr.argumentList.value| > 0
             && attr.argumentList.value[0].ConstString?)
            ==> section == attr.argumentList.value[0].text
    ensures (attr.argumentList.None? || |attr.argumentList.value| == 0
             || !attr.argumentList.value[0].ConstString?)
            ==> section == className
  {
    match attr.argumentList
    case None => className
    case Some(args) =>
      if |args| > 0 && args[0].ConstString? then args[0].text else className
  }

  /** The record produced for class `cls` when `attr` is the deciding marker. */
  function RecordFor(attr: Attribute, cls: ClassSymbol): SettingClass
  {
    SettingClass(cls.containingNamespace, cls.name, SectionName(attr, cls.name))
  }

  /** The attributes of all attribute lists, in the order the nested loops visit them. */
  function Flatten(lists: seq<seq<Attribute>>): seq<Attribute>
  {
    if |lists| == 0 then [] else lists[0] + Flatten(lists[1..])
  }

  /** `i` is the position of the first marker attribute in `attrs`. */
  predicate IsFirstMarker(attrs: seq<Attribute>, i: int)
  {
    0 <= i < |attrs| && IsMarker(attrs[i]) && forall j :: 0 <= j < i ==> !IsMarker(attrs[j])
  }

  /** Scans `attrs` in order; the first marker decides the result when the
      class symbol resolves. When it does not resolve, every marker falls
      through, so the scan ends in `None`. */
  function ResolveAttributes(attrs: seq<Attribute>, declared: Option<ClassSymbol>): (r: Option<SettingClass>)
    ensures r.Some? <==> declared.Some? && exists i :: 0 <= i < |attrs| && IsMarker(attrs[i])
    ensures r.Some? ==> exists i :: IsFirstMarker(attrs, i) && r.value == RecordFor(attrs[i], declared.value)
  {
    if |attrs| == 0 then None
    else if IsMarker(attrs[0]) && declared.Some? then
      assert IsFirstMarker(attrs, 0);
      Some(RecordFor(attrs[0], declared.value))
    else
      var rest := ResolveAttributes(attrs[1..], declared);
      assert forall i :: 0 <= i < |attrs[1..]| ==> attrs[1..][i] == attrs[i + 1];
      assert rest.Some? ==> !IsMarker(attrs[0]);
      rest
  }

  /** `GetSettingClass`: non-class nodes give `None`; a class gives the record
      decided by its first marker attribute, if any. */
  function GetSettingClass(node: SyntaxNode): (r: Option<SettingClass>)
    ensures r.Some? <==> node.ClassDeclaration? && node.declaredSymbol.Some?
                         && exists i :: 0 <= i < |Flatten(node.attributeLists)|
                                        && IsMarker(Flatten(node.attributeLists)[i])
    ensures r.Some? ==> node.ClassDeclaration? && node.declaredSymbol.Some?
                        && r.value.className == node.declaredSymbol.value.name
                        && r.value.namespace == node.declaredSymbol.value.containingNamespace
  {
    match node
    case OtherNode => None
    case ClassDeclaration(lists, declared) => ResolveAttributes(Flatten(lists), declared)
  }

  /** The generator's nested `foreach` over attribute lists and attributes,
      returning at the first marker whose class symbol resolves. */
  method ScanAttributeLists(node: SyntaxNode) returns (r: Option<SettingClass>)
    ensures r == GetSettingClass(node)
  {
    if node.OtherNode? {
      return None;
    }
    var lists := node.attributeLists;
    var declared := node.declaredSymbol;
    var i := 0;
    while i < |lists|
      invariant 0 <= i <= |lists|
      invariant GetSettingClass(node) == ResolveAttributes(Flatten(lists[i..]), declared)
    {
      assert lists[i..][1..] == lists[i + 1..];
      var j := 0;
      while j < |lists[i]|
        invariant 0 <= j <= |lists[i]|
        invariant GetSettingClass(node) == ResolveAttributes(lists[i][j..] + Flatten(lists[i + 1..]), declared)
      {
        var attr := lists[i][j];
        assert (lists[i][j..] + Flatten(lists[i + 1..]))[1..] == lists[i][j + 1..] + Flatten(lists[i + 1..]);
        if attr.symbol.MethodSymbol? {
          var attrName := attr.symbol.containingTypeDisplayName;
          if EndsWith(attrName, AttributeSuffix) || EndsWith(attrName, ShortSuffix) {
            if declared.Some? {
              return Some(RecordFor(attr, declared.value));
            }
          }
        }
        j := j + 1;
      }
      assert lists[i][j..] + Flatten(lists[i + 1..]) == Flatten(lists[i + 1..]);
      i := i + 1;
    }
    return None;
  }
}
