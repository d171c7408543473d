/** One generator pass: the collected settings classes of the compilation's
    syntax nodes, handed to `Generate`. */
module Generator {
  import opened Wrappers
  import opened Syntax
  import opened Resolver
  import opened Pipeline
  import opened Synthesis
  import opened SynthesisProperties
  import opened ResolverProperties

  /** The artifacts registered by `RegisterSourceOutput(settingsClasses, Generate)`. */
  function Run(nodes: seq<SyntaxNode>): (r: seq<Artifact>)
    ensures |r| == CountAccepted(nodes) + 4
    ensures r[0].hintName == InterfaceHintName
    ensures r[|r| - 1] == Artifact(BinderHintName, SettingsBinderSource(Collect(nodes)))
  {
    CollectLength(nodes);
    Generate(Collect(nodes))
  }

  /** A node that no attribute marks contributes no artifact: adding it to
      the input leaves the whole output unchanged. */
  lemma UnmarkedNodeChangesNothing(before: seq<SyntaxNode>, node: SyntaxNode, after: seq<SyntaxNode>)
    requires GetSettingClass(node).None?
    ensures Run(before + [node] + after) == Run(before + after)
  {
    assert Collect(before + [node] + after) == Collect(before + after) by {
      CollectAppend(before + [node], after);
      CollectAppend(before, [node]);
      CollectAppend(before, after);
      CollectSingle(node);
    }
  }

  /** Example display names: a qualified name of a marker attribute, and an unrelated attribute. */
  const MarkerName := "TomRR.SourceGenerator.SettingsBinder.SettingsAttribute"
  const OtherAttributeName := "System.ObsoleteAttribute"

  /** A class carrying the single attribute `attr`. */
  function SingleAttributeClass(attr: Attribute, cls: ClassSymbol): SyntaxNode
  {
    ClassDeclaration([[attr]], Some(cls))
  }

  /** A class with a single attribute is resolved by that attribute alone. */
  lemma SingleAttributeResolution(attr: Attribute, cls: ClassSymbol)
    ensures IsMarker(attr) ==> GetSettingClass(SingleAttributeClass(attr, cls)) == Some(RecordFor(attr, cls))
    ensures !IsMarker(attr) ==> GetSettingClass(SingleAttributeClass(attr, cls)) == None
  {
    assert Flatten([[attr]]) == [attr] by {
      assert [[attr]][1..] == [];
    }
    assert [attr][1..] == [];
  }

  /** Three classes: `A.Foo` marked without arguments, `B.Bar` marked with the
      constant "BarSection", `C.Baz` carrying an unrelated attribute; plus a
      non-class node. */
  function ScenarioNodes(): seq<SyntaxNode>
  {
    [SingleAttributeClass(Attribute(MethodSymbol(MarkerName), None), ClassSymbol("Foo", "A")),
     SingleAttributeClass(Attribute(MethodSymbol(MarkerName), Some([ConstString("BarSection")])), ClassSymbol("Bar", "B")),
     SingleAttributeClass(Attribute(MethodSymbol(OtherAttributeName), None), ClassSymbol("Baz", "C")),
     OtherNode]
  }

  lemma FooIsResolved()
    ensures GetSettingClass(ScenarioNodes()[0]) == Some(SettingClass("A", "Foo", "Foo"))
  {
    MarkerNameExamples();
    SingleAttributeResolution(Attribute(MethodSymbol(MarkerName), None), ClassSymbol("Foo", "A"));
  }

  lemma BarIsResolved()
    ensures GetSettingClass(ScenarioNodes()[1]) == Some(SettingClass("B", "Bar", "BarSection"))
  {
    MarkerNameExamples();
    SingleAttributeResolution(Attribute(MethodSymbol(MarkerName), Some([ConstString("BarSection")])), ClassSymbol("Bar", "B"));
  }

  lemma BazIsRejected()
    ensures GetSettingClass(ScenarioNodes()[2]) == None
  {
    MarkerNameExamples();
    SingleAttributeResolution(Attribute(MethodSymbol(OtherAttributeName), None), ClassSymbol("Baz", "C"));
  }

  /** Collecting four nodes of which the first two are accepted. */
  lemma CollectFirstTwoOfFour(a: SyntaxNode, b: SyntaxNode, c: SyntaxNode, d: SyntaxNode)
    requires GetSettingClass(a).Some? && GetSettingClass(b).Some?
    requires GetSettingClass(c).None? && GetSettingClass(d).None?
    ensures Collect([a, b, c, d]) == [GetSettingClass(a).value, GetSettingClass(b).value]
  {
    CollectSingle(a);
    CollectSingle(b);
    CollectSingle(c);
    CollectSingle(d);
    CollectAppend([a], [b]);
    CollectAppend([a, b], [c]);
    CollectAppend([a, b, c], [d]);
    assert [a] + [b] == [a, b];
    assert [a, b] + [c] == [a, b, c];
    assert [a, b, c] + [d] == [a, b, c, d];
  }

  /** Only `Foo` and `Bar` yield records, in input order, with the expected sections. */
  lemma ScenarioRecords()
    ensures Collect(ScenarioNodes()) == [SettingClass("A", "Foo", "Foo"), SettingClass("B", "Bar", "BarSection")]
  {
    var nodes := ScenarioNodes();
    FooIsResolved();
    BarIsResolved();
    BazIsRejected();
    assert nodes == [nodes[0], nodes[1], nodes[2], nodes[3]];
    CollectFirstTwoOfFour(nodes[0], nodes[1], nodes[2], nodes[3]);
  }

  lemma TwoClassHintNames()
    ensures HintNameList(["Foo", "Bar"])
            == [InterfaceHintName, "Foo.Settings.g.cs", "Bar.Settings.g.cs",
                DefaultConfigurationHintName, AdvancedConfigurationHintName, BinderHintName]
  {
    var names := HintNameList(["Foo", "Bar"]);
    assert names[1] == PocoHintName("Foo") == "Foo.Settings.g.cs";
    assert names[2] == PocoHintName("Bar") == "Bar.Settings.g.cs";
    assert names == [names[0], names[1], names[2], names[3], names[4], names[5]];
  }

  /** The scenario emits the interface, one partial each for `Foo` and `Bar`,
      and the three trailing artifacts; nothing for `Baz`. */
  lemma ScenarioArtifacts()
    ensures Run(ScenarioNodes())
            == Generate([SettingClass("A", "Foo", "Foo"), SettingClass("B", "Bar", "BarSection")])
    ensures HintNames(Run(ScenarioNodes()))
            == [InterfaceHintName, "Foo.Settings.g.cs", "Bar.Settings.g.cs",
                DefaultConfigurationHintName, AdvancedConfigurationHintName, BinderHintName]
  {
    var records := [SettingClass("A", "Foo", "Foo"), SettingClass("B", "Bar", "BarSection")];
    ScenarioRecords();
    assert Run(ScenarioNodes()) == Generate(records);
    GenerateHintNames(records);
    assert ClassNames(records) == ["Foo", "Bar"];
    TwoClassHintNames();
  }

  /** A first argument that is not a compile-time constant leaves the class
      name as the section name; no error is raised. */
  lemma NonConstantArgumentScenario()
    ensures GetSettingClass(ClassDeclaration([[Attribute(MethodSymbol(MarkerName), Some([NotConstant]))]],
                                             Some(ClassSymbol("Foo", "A"))))
            == Some(SettingClass("A", "Foo", "Foo"))
  {
    MarkerNameExamples();
    SingleAttributeResolution(Attribute(MethodSymbol(MarkerName), Some([NotConstant])), ClassSymbol("Foo", "A"));
  }
}
