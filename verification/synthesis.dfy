/** `Generate`: maps the collected settings classes to the named source
    artifacts the generator adds to the compilation. Template texts are not
    part of this model: an artifact's content is the template call that
    produces it, so every property below holds whatever the templates print. */
module Synthesis {
  import opened Strings
  import opened Syntax

  /** The text of a generated file, named by the template that produces it
      and the arguments that template receives. */
  datatype SourceCode =
    | SettingsInterfaceSource
    | SettingsPocoSource(namespace: string, className: string, sectionName: string)
    | DefaultConfigurationSource
    | AdvancedConfigurationSource
    | SettingsBinderSource(settingsTypes: seq<SettingClass>)

  /** A generated source file: the hint name passed to `AddSource` and its text. */
  datatype Artifact = Artifact(hintName: string, content: SourceCode)

  const InterfaceHintName := "ISettings.Settings.g.cs"
  const DefaultConfigurationHintName := "ConfigurationBuilder.Default.Extensions.g.cs"
  const AdvancedConfigurationHintName := "ConfigurationBuilder.Advanced.Extensions.g.cs"
  const BinderHintName := "SettingsBinder.Extensions.g.cs"

  /** The suffix of every per-class hint name. */
  const PocoHintSuffix := ".Settings.g.cs"

  /** The per-class hint name `{className}.Settings.g.cs`; the namespace is not part of it. */
  function PocoHintName(className: string): (name: string)
    ensures EndsWith(name, PocoHintSuffix)
    ensures name[..|name| - |PocoHintSuffix|] == className
  {
    className + PocoHintSuffix
  }

  /** The partial-class artifact for one record. */
  function PocoArtifact(c: SettingClass): Artifact
  {
    Artifact(PocoHintName(c.className), SettingsPocoSource(c.namespace, c.className, c.sectionName))
  }

  /** One partial-class artifact per record, in record order. */
  function PocoArtifacts(records: seq<SettingClass>): (r: seq<Artifact>)
    ensures |r| == |records|
    ensures forall i :: 0 <= i < |records| ==> r[i] == PocoArtifact(records[i])
  {
    if |records| == 0 then [] else [PocoArtifact(records[0])] + PocoArtifacts(records[1..])
  }

  /** The artifacts `Generate` adds, in the order it adds them: the interface,
      the per-class partials, the two configuration-builder extensions and the
      aggregated binder. */
  function Generate(records: seq<SettingClass>): (r: seq<Artifact>)
    ensures |r| == |records| + 4
    ensures r[0] == Artifact(InterfaceHintName, SettingsInterfaceSource)
    ensures forall i :: 0 <= i < |records| ==>
              r[i + 1].hintName == PocoHintName(records[i].className)
              && r[i + 1].content == SettingsPocoSource(records[i].namespace, records[i].className, records[i].sectionName)
    ensures r[|records| + 1] == Artifact(DefaultConfigurationHintName, DefaultConfigurationSource)
    ensures r[|records| + 2] == Artifact(AdvancedConfigurationHintName, AdvancedConfigurationSource)
    ensures r[|records| + 3] == Artifact(BinderHintName, SettingsBinderSource(records))
  {
    var partials := PocoArtifacts(records);
    var r := [Artifact(InterfaceHintName, SettingsInterfaceSource)]
             + partials
             + [Artifact(DefaultConfigurationHintName, DefaultConfigurationSource),
                Artifact(AdvancedConfigurationHintName, AdvancedConfigurationSource),
                Artifact(BinderHintName, SettingsBinderSource(records))];
    assert forall i :: 0 <= i < |records| ==> r[i + 1] == partials[i];
    r
  }

  /** The hint names of a list of artifacts, in order. */
  function HintNames(artifacts: seq<Artifact>): (names: seq<string>)
    ensures |names| == |artifacts|
    ensures forall i :: 0 <= i < |artifacts| ==> names[i] == artifacts[i].hintName
  {
    seq(|artifacts|, i requires 0 <= i < |artifacts| => artifacts[i].hintName)
  }

  /** The hint names `Generate` uses for records with these class names, in order. */
  function HintNameList(classNames: seq<string>): (names: seq<string>)
    ensures |names| == |classNames| + 4
    ensures names[0] == InterfaceHintName
    ensures forall i :: 0 <= i < |classNames| ==> names[i + 1] == PocoHintName(classNames[i])
    ensures names[|classNames| + 1] == DefaultConfigurationHintName
    ensures names[|classNames| + 2] == AdvancedConfigurationHintName
    ensures names[|classNames| + 3] == BinderHintName
  {
    var partials := seq(|classNames|, i requires 0 <= i < |classNames| => PocoHintName(classNames[i]));
    var names := [InterfaceHintName] + partials
                 + [DefaultConfigurationHintName, AdvancedConfigurationHintName, BinderHintName];
    assert forall i :: 0 <= i < |classNames| ==> names[i + 1] == partials[i];
    names
  }

  /** The class names of the records, in order. */
  function ClassNames(records: seq<SettingClass>): (names: seq<string>)
    ensures |names| == |records|
    ensures forall i :: 0 <= i < |records| ==> names[i] == records[i].className
  {
    seq(|records|, i requires 0 <= i < |records| => records[i].className)
  }

  /** No two positions of `s` hold the same element. */
  predicate Distinct<T(==)>(s: seq<T>)
  {
    forall i, j :: 0 <= i < |s| && 0 <= j < |s| && i != j ==> s[i] != s[j]
  }
}
