# SettingsBinder source generator — Dafny model

This project models the incremental source generator of SettingsBinder
(`SettingsBinder/SettingsBinder.Generator/Generator.cs`). The generator looks
for classes that carry the `[Settings]` marker attribute. For each one it
extracts a `(Namespace, ClassName, SectionName)` record. It then adds these
generated files to the compilation:

- a shared `ISettings` interface;
- one partial class per settings class;
- two configuration-builder extension files;
- one aggregated binder extension.

The Roslyn compiler's semantic queries are not computed here. They become
input data on the node and attribute datatypes:

- `GetSymbolInfo` becomes `Syntax.AttributeSymbol`;
- `ToDisplayString` becomes the `containingTypeDisplayName` string;
- `GetConstantValue` becomes `Syntax.ConstantValue`;
- `GetDeclaredSymbol` becomes `Option<ClassSymbol>`.

The template texts are not modelled. An artifact's content is the template
call that produces it (`Synthesis.SourceCode`), so every property holds
whatever the templates print.

Modules, in pipeline order:

- `Wrappers`: the `Option` type that stands in for C# `null`.
- `Strings`: ordinal `EndsWith`, used for the suffix test.
- `Syntax`: the data model — syntax nodes, attributes, constant values,
  class symbols and the extracted `SettingClass` record.
- `Resolver` / `ResolverProperties`: `GetSettingClass` and its properties.
  This is the attribute scan, the marker-name test and the section-name
  choice. It is given twice, as a recursive function and as the nested
  `foreach` loop of the source, and the two are proved equal.
- `Pipeline`: the `Initialize` chain `CreateSyntaxProvider(...)`,
  `.Where(...)`, `.Select(...)`, `.Collect()`, and the facts about its order
  and contents.
- `Synthesis` / `SynthesisProperties`: `Generate`, meaning the artifact list,
  its hint names, and exactly when those hint names collide.
- `Generator`: one whole pass, plus the three-class example pass.

Three behaviours of the code are worth stating up front:

- **Hint names.** Per-class hint names are `{ClassName}.Settings.g.cs`, with
  no namespace and no duplicate check.
  `SynthesisProperties.HintNamesDistinctIff` states exactly when the names
  are distinct: the class names are pairwise distinct and none is
  `ISettings`.
- **Suffixes.** The suffixes `.Settings` and `.SettingsAttribute` include the
  leading dot.
- **Unresolved symbols.** An attribute that does not resolve to a method
  symbol is skipped and the scan continues.

## Model

| member | source | states |
|---|---|---|
| Strings.EndsWithIffConcat | SettingsBinder/SettingsBinder.Generator/Generator.cs:45 | the suffix test used for attribute names holds exactly when the name is some prefix followed by the suffix |
| Strings.EndsWith | SettingsBinder/SettingsBinder.Generator/Generator.cs:45 | the suffix test `EndsWith` applied to the attribute's containing-type display name, compared ordinally |
| Resolver.IsMarkerName | SettingsBinder/SettingsBinder.Generator/Generator.cs:45 | a display name names the marker iff it ends with ".SettingsAttribute" or ".Settings" |
| Resolver.IsMarker | SettingsBinder/SettingsBinder.Generator/Generator.cs:39-45 | an attribute usage is a marker iff its symbol is a method symbol whose containing type's display name is a marker name |
| Resolver.RecordFor | SettingsBinder/SettingsBinder.Generator/Generator.cs:49-65 | the returned tuple: namespace and name from the declared class symbol, section name chosen by SectionName |
| Resolver.SectionName | SettingsBinder/SettingsBinder.Generator/Generator.cs:49-58 | the section name is the first argument when that argument is a constant string, and otherwise the class name (no argument list, an empty one, constant null, another constant, or a non-constant expression) |
| Resolver.ResolveAttributes | SettingsBinder/SettingsBinder.Generator/Generator.cs:35-72 | a record is produced iff the class symbol resolves and some attribute is a marker; the record is built from the FIRST marker attribute |
| Resolver.GetSettingClass | SettingsBinder/SettingsBinder.Generator/Generator.cs:30-73 | non-class nodes give null; a class gives a record iff its symbol resolves and one of its attributes (across all attribute lists) is a marker; the record's class name and namespace come from the declared class symbol |
| Resolver.ScanAttributeLists | SettingsBinder/SettingsBinder.Generator/Generator.cs:35-72 | the nested loop over attribute lists and attributes, with its early return, computes the same result as the recursive scan |
| ResolverProperties.MarkerNameExamples | SettingsBinder/SettingsBinder.Generator/Generator.cs:45 | "Foo.Settings", "Foo.SettingsAttribute" and an example qualified marker name match; "Foo.MySettings", an undotted "SettingsAttribute", "Settings" and "System.ObsoleteAttribute" do not |
| ResolverProperties.MarkerNameIffDottedSuffix | SettingsBinder/SettingsBinder.Generator/Generator.cs:45 | a display name matches iff it is a prefix followed by ".SettingsAttribute" or by ".Settings" |
| ResolverProperties.NonMethodSymbolIsSkipped | SettingsBinder/SettingsBinder.Generator/Generator.cs:39-40 | an attribute whose symbol is not a method symbol, or does not resolve, is passed over: removing it from anywhere in the list leaves the result unchanged |
| ResolverProperties.ResolveAtFirstMarker | SettingsBinder/SettingsBinder.Generator/Generator.cs:35-66 | when the class symbol resolves, the result is the record built from the first marker attribute |
| ResolverProperties.NonMarkerIsSkipped | SettingsBinder/SettingsBinder.Generator/Generator.cs:39-46 | removing a non-marker attribute from anywhere in the list leaves the result unchanged, so such attributes are skipped and never cause an error |
| ResolverProperties.LaterAttributesIgnored | SettingsBinder/SettingsBinder.Generator/Generator.cs:61-65 | once an attribute matches, appending further attributes after it cannot change the result |
| ResolverProperties.UnresolvedClassYieldsNothing | SettingsBinder/SettingsBinder.Generator/Generator.cs:47-72 | when the declared class symbol does not resolve, every marker falls through and the class yields null |
| ResolverProperties.SectionDefaultsToClassName | SettingsBinder/SettingsBinder.Generator/Generator.cs:49-64 | when the deciding attribute has no constant-string first argument, SectionName == ClassName == the class symbol's name |
| ResolverProperties.SectionOverriddenByConstantString | SettingsBinder/SettingsBinder.Generator/Generator.cs:52-58 | when the deciding attribute's first argument is the constant string s, SectionName == s |
| ResolverProperties.OnlyFirstArgumentInspected | SettingsBinder/SettingsBinder.Generator/Generator.cs:54 | arguments after the first never affect the section name |
| ResolverProperties.EmptyArgumentsLikeNone | SettingsBinder/SettingsBinder.Generator/Generator.cs:52 | an empty argument list and a missing argument list both give the class name |
| Pipeline.ClassNodes | SettingsBinder/SettingsBinder.Generator/Generator.cs:19 | the syntax predicate keeps exactly the class declarations of the input |
| Pipeline.Transform | SettingsBinder/SettingsBinder.Generator/Generator.cs:20 | the transform gives one resolver result per node, position by position |
| Pipeline.WhereSome | SettingsBinder/SettingsBinder.Generator/Generator.cs:21-22 | the null filter and unwrap keep exactly the present values and produce nothing else |
| Pipeline.Collect | SettingsBinder/SettingsBinder.Generator/Generator.cs:17-23 | the `CreateSyntaxProvider(...).Where(...).Select(...).Collect()` chain; its order and contents are stated by the Collect* lemmas below |
| Pipeline.ClassNodesAppend | SettingsBinder/SettingsBinder.Generator/Generator.cs:19 | the syntax filter distributes over concatenation, so it keeps input order |
| Pipeline.TransformAppend | SettingsBinder/SettingsBinder.Generator/Generator.cs:20 | the transform distributes over concatenation |
| Pipeline.WhereSomeAppend | SettingsBinder/SettingsBinder.Generator/Generator.cs:21-22 | the null filter distributes over concatenation, so it keeps input order |
| Pipeline.CollectAppend | SettingsBinder/SettingsBinder.Generator/Generator.cs:17-23 | the collected list of a concatenation is the concatenation of the collected lists, so records appear in input order |
| Pipeline.CollectSingle | SettingsBinder/SettingsBinder.Generator/Generator.cs:19-23 | a single node contributes its record when the resolver accepts it, and nothing otherwise |
| Pipeline.CollectIsNonNullResults | SettingsBinder/SettingsBinder.Generator/Generator.cs:19-23 | the collected list is exactly the non-null resolver results, in input order; the syntax predicate is subsumed because the resolver already rejects non-class nodes |
| Pipeline.CollectLength | SettingsBinder/SettingsBinder.Generator/Generator.cs:17-23 | the collected list has exactly one entry per accepted node |
| Pipeline.CollectMembership | SettingsBinder/SettingsBinder.Generator/Generator.cs:17-23 | a record is collected iff some input node resolves to it |
| Synthesis.PocoHintName | SettingsBinder/SettingsBinder.Generator/Generator.cs:84 | a per-class hint name ends with ".Settings.g.cs", and what comes before that suffix is exactly the class name (the namespace is not used) |
| Synthesis.PocoArtifact | SettingsBinder/SettingsBinder.Generator/Generator.cs:83-84 | the one partial added for a record: hint name from the class name, content from the poco template applied to namespace, class name and section name |
| Synthesis.PocoArtifacts | SettingsBinder/SettingsBinder.Generator/Generator.cs:81-85 | one partial artifact per record, in record order, built from that record's namespace, class name and section name |
| Synthesis.Generate | SettingsBinder/SettingsBinder.Generator/Generator.cs:75-92 | exactly n + 4 artifacts, in this order: the interface, one partial per record in input order, the default and advanced configuration extensions, then the binder built from all records |
| Synthesis.HintNameList | SettingsBinder/SettingsBinder.Generator/Generator.cs:78-91 | the hint names used for n classes: "ISettings.Settings.g.cs", one "{class}.Settings.g.cs" each, then the three fixed names |
| SynthesisProperties.FixedArtifactsIndependentOfRecords | SettingsBinder/SettingsBinder.Generator/Generator.cs:77-91 | the interface and the two configuration artifacts, and the binder's hint name, are the same for any record list |
| SynthesisProperties.GenerateEmpty | SettingsBinder/SettingsBinder.Generator/Generator.cs:77-91 | with no records, exactly the four fixed artifacts are emitted |
| SynthesisProperties.FixedNamesAreNotPocoNames | SettingsBinder/SettingsBinder.Generator/Generator.cs:84-91 | no class name can produce the hint name of either configuration extension or of the binder |
| SynthesisProperties.InterfaceNameIsPocoNameOfISettings | SettingsBinder/SettingsBinder.Generator/Generator.cs:78-84 | a per-class hint name equals the interface's hint name iff the class is named "ISettings" |
| SynthesisProperties.PocoNameInjective | SettingsBinder/SettingsBinder.Generator/Generator.cs:84 | two per-class hint names are equal iff the class names are equal |
| SynthesisProperties.GenerateHintNames | SettingsBinder/SettingsBinder.Generator/Generator.cs:77-91 | the emitted hint names depend only on the class names |
| SynthesisProperties.HintNamesDifferAt | SettingsBinder/SettingsBinder.Generator/Generator.cs:77-91 | when the class names are distinct and none is "ISettings", any two positions in the hint-name list hold different names |
| SynthesisProperties.HintNameListDistinctIff | SettingsBinder/SettingsBinder.Generator/Generator.cs:77-91 | the hint-name list is duplicate-free iff the class names are pairwise distinct and none is "ISettings" |
| SynthesisProperties.HintNamesDistinctIff | SettingsBinder/SettingsBinder.Generator/Generator.cs:77-91 | all emitted hint names are pairwise distinct iff the class names are pairwise distinct and none is "ISettings" |
| SynthesisProperties.SameClassNameCollides | SettingsBinder/SettingsBinder.Generator/Generator.cs:81-84 | two records with the same class name, whatever their namespaces, produce the same hint name |
| SynthesisProperties.NamespacesDoNotSeparateKeys | SettingsBinder/SettingsBinder.Generator/Generator.cs:83-84 | A.Foo and B.Foo both produce "Foo.Settings.g.cs" |
| Generator.Run | SettingsBinder/SettingsBinder.Generator/Generator.cs:17-25 | a pass emits one artifact per accepted node plus four; it starts with the interface and ends with the binder over the collected records |
| Generator.UnmarkedNodeChangesNothing | SettingsBinder/SettingsBinder.Generator/Generator.cs:17-25 | inserting a node that the resolver rejects, anywhere in the input, leaves the pass's output unchanged |
| Generator.SingleAttributeResolution | SettingsBinder/SettingsBinder.Generator/Generator.cs:35-65 | a class with one attribute gives a record iff that attribute is a marker |
| Generator.FooIsResolved | SettingsBinder/SettingsBinder.Generator/Generator.cs:49-65 | the class A.Foo, marked with no arguments, gives the record (A, Foo, Foo) |
| Generator.BarIsResolved | SettingsBinder/SettingsBinder.Generator/Generator.cs:52-65 | the class B.Bar, marked with the constant "BarSection", gives the record (B, Bar, BarSection) |
| Generator.BazIsRejected | SettingsBinder/SettingsBinder.Generator/Generator.cs:45-72 | a class that carries only an unrelated attribute gives null |
| Generator.CollectFirstTwoOfFour | SettingsBinder/SettingsBinder.Generator/Generator.cs:21-23 | of four nodes where only the first two are accepted, the collected list is their two records, in order |
| Generator.ScenarioRecords | SettingsBinder/SettingsBinder.Generator/Generator.cs:17-23 | the input A.Foo (marked), B.Bar (marked, "BarSection"), C.Baz (unmarked) and a non-class node collects to [(A, Foo, Foo), (B, Bar, BarSection)] |
| Generator.TwoClassHintNames | SettingsBinder/SettingsBinder.Generator/Generator.cs:78-91 | for the classes Foo and Bar the six hint names are the interface, Foo.Settings.g.cs, Bar.Settings.g.cs and the three fixed names |
| Generator.ScenarioArtifacts | SettingsBinder/SettingsBinder.Generator/Generator.cs:17-25 | the same input emits exactly what Generate emits for [(A, Foo, Foo), (B, Bar, BarSection)] (so the partials carry sections "Foo" and "BarSection" and the binder lists exactly Foo and Bar), and its hint names are the interface, partials for Foo and Bar only, and the three trailing names |
| Generator.NonConstantArgumentScenario | SettingsBinder/SettingsBinder.Generator/Generator.cs:52-58 | a non-constant first argument leaves the class name as the section name, and no error is raised |

## Left out

- The post-initialization output `SettingsAttribute.g.cs` (Generator.cs lines 12-15) is left out. It is one constant emission with no logic.
- Template texts (`SettingsInterfaceExtension`, `SettingsPocoExtension`, `DefaultConfigurationExtension`, `AdvancedConfigurationExtension`, `SettingsBinderExtension`) are not part of this model. Content is the template call with its arguments, so the properties hold for any template text.
- `SourceText.From` and `Encoding.UTF8` are left out. They only wrap text for the host.
- Roslyn's semantic model (`GetSymbolInfo`, `GetDeclaredSymbol`, `GetConstantValue`, `ToDisplayString`) is not computed. Its answers are inputs on `Syntax.SyntaxNode` and `Syntax.Attribute`.
- `GetDeclaredSymbol` is re-queried for every matching attribute in the source. The model asks once per node, because the query is deterministic for a given class.
- Incremental caching, memoisation and cancellation tokens belong to the Roslyn host, not to this code. They are not modelled.
- `AddSource`'s own handling of hint names is host behaviour and is not modelled. That covers rejecting duplicates, comparing names without regard to case, and appending `.cs`. The distinctness lemmas therefore compare hint names ordinally.
- Strings.EndsWith: C#'s `string.EndsWith(string)` compares with culture-sensitive rules. The model compares character by character, which agrees on the ASCII names involved here.
- `CommonDomain.Generators/SettingsBinder.Generator/Generators/SettingsConfiguration.cs` and `SettingsBinder/SettingsBinder.SampleApi/SettingsBinderExtensionsTest.cs` are entirely commented out and have no live code to model.
- Sorting the aggregated records and a fatal duplicate-key check do not exist in the code and are not modelled. `SynthesisProperties.HintNamesDistinctIff` states when keys collide instead.
