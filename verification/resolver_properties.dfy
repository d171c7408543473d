/** Properties of the attribute resolver: which attribute names match, how the
    section name is chosen, and which attributes decide the result. */
module ResolverProperties {
  import opened Wrappers
  import opened Strings
  import opened Syntax
  import opened Resolver

  /** The suffix includes the dot: a longer identifier ending in "Settings"
      and an undotted global-namespace name do not match. */
  lemma MarkerNameExamples()
    ensures IsMarkerName("Foo.Settings")
    ensures IsMarkerName("Foo.SettingsAttribute")
    ensures IsMarkerName("TomRR.SourceGenerator.SettingsBinder.SettingsAttribute")
    ensures !IsMarkerName("Foo.MySettings")
    ensures !IsMarkerName("SettingsAttribute")
    ensures !IsMarkerName("Settings")
    ensures !IsMarkerName("System.ObsoleteAttribute")
  {
    assert "Foo.Settings"[3..] == ShortSuffix;
    assert "Foo.SettingsAttribute"[3..] == AttributeSuffix;
    var qualified := "TomRR.SourceGenerator.SettingsBinder.SettingsAttribute";
    assert qualified[|qualified| - |AttributeSuffix|..] == AttributeSuffix;
    var mine := "Foo.MySettings";
    assert mine[|mine| - |ShortSuffix|] == 'y';
    var other := "System.ObsoleteAttribute";
    assert other[|other| - |AttributeSuffix| + 1] == 'O';
    assert other[|other| - |ShortSuffix|] == 'A';
  }

  /** A display name matches exactly when it is some (possibly empty) prefix
      followed by ".SettingsAttribute" or ".Settings". */
  lemma MarkerNameIffDottedSuffix(name: string)
    ensures IsMarkerName(name) <==>
            (exists prefix :: name == prefix + AttributeSuffix) || (exists prefix :: name == prefix + ShortSuffix)
  {
    EndsWithIffConcat(name, AttributeSuffix);
    EndsWithIffConcat(name, ShortSuffix);
  }

  /** The result of the scan is fixed by the first marker, when the class symbol resolves. */
  lemma ResolveAtFirstMarker(attrs: seq<Attribute>, i: int, cls: ClassSymbol)
    requires IsFirstMarker(attrs, i)
    ensures ResolveAttributes(attrs, Some(cls)) == Some(RecordFor(attrs[i], cls))
  {
    var r := ResolveAttributes(attrs, Some(cls));
    var k :| IsFirstMarker(attrs, k) && r.value == RecordFor(attrs[k], cls);
    assert k == i;
  }

  /** Removing an attribute that is not a marker does not change the result:
      non-matching and unresolved attributes are passed over. */
  lemma {:induction false} NonMarkerIsSkipped(before: seq<Attribute>, attr: Attribute, after: seq<Attribute>, declared: Option<ClassSymbol>)
    requires !IsMarker(attr)
    ensures ResolveAttributes(before + [attr] + after, declared) == ResolveAttributes(before + after, declared)
  {
    if |before| == 0 {
      assert before + [attr] + after == [attr] + after;
      assert ([attr] + after)[1..] == after;
      assert before + after == after;
    } else {
      NonMarkerIsSkipped(before[1..], attr, after, declared);
      assert (before + [attr] + after)[0] == before[0];
      assert (before + [attr] + after)[1..] == before[1..] + [attr] + after;
      assert (before + after)[0] == before[0];
      assert (before + after)[1..] == before[1..] + after;
    }
  }

  /** An attribute whose symbol is not a method symbol, or does not resolve,
      is passed over: removing it leaves the result unchanged, and no error arises. */
  lemma NonMethodSymbolIsSkipped(before: seq<Attribute>, attr: Attribute, after: seq<Attribute>, declared: Option<ClassSymbol>)
    requires !attr.symbol.MethodSymbol?
    ensures ResolveAttributes(before + [attr] + after, declared) == ResolveAttributes(before + after, declared)
  {
    NonMarkerIsSkipped(before, attr, after, declared);
  }

  /** Once attribute `i` matches, attributes after the scanned ones are never
      examined: appending any attributes leaves the result unchanged. */
  lemma {:induction false} LaterAttributesIgnored(attrs: seq<Attribute>, i: int, later: seq<Attribute>, declared: Option<ClassSymbol>)
    requires 0 <= i < |attrs| && IsMarker(attrs[i])
    ensures ResolveAttributes(attrs + later, declared) == ResolveAttributes(attrs, declared)
  {
    if declared.None? {
      assert ResolveAttributes(attrs + later, declared).None?;
    } else if !IsMarker(attrs[0]) {
      assert (attrs + later)[0] == attrs[0];
      assert (attrs + later)[1..] == attrs[1..] + later;
      LaterAttributesIgnored(attrs[1..], i - 1, later, declared);
    } else {
      assert (attrs + later)[0] == attrs[0];
    }
  }

  /** A matching attribute whose class symbol does not resolve falls through,
      and so does every later one: the class yields no record. */
  lemma UnresolvedClassYieldsNothing(lists: seq<seq<Attribute>>)
    ensures GetSettingClass(ClassDeclaration(lists, None)) == None
  {
  }

  /** With no argument list, an empty one, or a first argument that is not a
      constant string (a constant null, another constant, or a non-constant
      expression), the section name is the class name. */
  lemma SectionDefaultsToClassName(lists: seq<seq<Attribute>>, i: int, cls: ClassSymbol)
    requires IsFirstMarker(Flatten(lists), i)
    requires Flatten(lists)[i].argumentList.None? || |Flatten(lists)[i].argumentList.value| == 0
             || !Flatten(lists)[i].argumentList.value[0].ConstString?
    ensures GetSettingClass(ClassDeclaration(lists, Some(cls)))
            == Some(SettingClass(cls.containingNamespace, cls.name, cls.name))
  {
    ResolveAtFirstMarker(Flatten(lists), i, cls);
  }

  /** A constant string as first argument becomes the section name, whatever
      follows it. */
  lemma SectionOverriddenByConstantString(lists: seq<seq<Attribute>>, i: int, cls: ClassSymbol, text: string)
    requires IsFirstMarker(Flatten(lists), i)
    requires Flatten(lists)[i].argumentList.Some? && |Flatten(lists)[i].argumentList.value| > 0
    requires Flatten(lists)[i].argumentList.value[0] == ConstString(text)
    ensures GetSettingClass(ClassDeclaration(lists, Some(cls)))
            == Some(SettingClass(cls.containingNamespace, cls.name, text))
  {
    ResolveAtFirstMarker(Flatten(lists), i, cls);
  }

  /** Arguments after the first are never inspected. */
  lemma OnlyFirstArgumentInspected(symbol: AttributeSymbol, args: seq<ConstantValue>, className: string)
    requires |args| > 0
    ensures SectionName(Attribute(symbol, Some(args)), className)
            == SectionName(Attribute(symbol, Some([args[0]])), className)
  {
  }

  /** An empty argument list `[Settings()]` behaves like no argument list `[Settings]`. */
  lemma EmptyArgumentsLikeNone(symbol: AttributeSymbol, className: string)
    ensures SectionName(Attribute(symbol, Some([])), className) == className
    ensures SectionName(Attribute(symbol, None), className) == className
  {
  }
}
