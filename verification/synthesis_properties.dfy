/** Properties of `Generate`: the shape of the artifact list, the independence
    of the fixed artifacts from the records, and when hint names collide. */
module SynthesisProperties {
  import opened Strings
  import opened Syntax
  import opened Synthesis

  /** The four fixed artifacts are emitted whatever the records are, even for
      none, and their names and texts do not depend on the records. */
  lemma FixedArtifactsIndependentOfRecords(a: seq<SettingClass>, b: seq<SettingClass>)
    ensures Generate(a)[0] == Generate(b)[0]
    ensures Generate(a)[|a| + 1] == Generate(b)[|b| + 1]
    ensures Generate(a)[|a| + 2] == Generate(b)[|b| + 2]
    ensures Generate(a)[|a| + 3].hintName == Generate(b)[|b| + 3].hintName
  {
  }

  /** With no settings classes, exactly the four fixed artifacts are emitted. */
  lemma GenerateEmpty()
    ensures HintNames(Generate([])) ==
            [InterfaceHintName, DefaultConfigurationHintName, AdvancedConfigurationHintName, BinderHintName]
  {
  }

  /** None of the three trailing fixed names has the per-class suffix. */
  lemma FixedNamesAreNotPocoNames(x: string)
    ensures PocoHintName(x) != DefaultConfigurationHintName
    ensures PocoHintName(x) != AdvancedConfigurationHintName
    ensures PocoHintName(x) != BinderHintName
  {
    var d := DefaultConfigurationHintName;
    var a := AdvancedConfigurationHintName;
    var b := BinderHintName;
    assert d[|d| - |PocoHintSuffix|] == 'x';
    assert a[|a| - |PocoHintSuffix|] == 'x';
    assert b[|b| - |PocoHintSuffix|] == 'x';
  }

  /** The interface name is the per-class name of a class called "ISettings", and only of it. */
  lemma InterfaceNameIsPocoNameOfISettings(x: string)
    ensures PocoHintName(x) == InterfaceHintName <==> x == "ISettings"
  {
    assert InterfaceHintName == "ISettings" + PocoHintSuffix;
    ConcatSuffixInjective(x, "ISettings", PocoHintSuffix);
  }

  /** Two per-class names are equal exactly when the class names are. */
  lemma PocoNameInjective(x: string, y: string)
    ensures PocoHintName(x) == PocoHintName(y) <==> x == y
  {
    ConcatSuffixInjective(x, y, PocoHintSuffix);
  }

  /** The hint names of the generated artifacts depend on the class names only. */
  lemma GenerateHintNames(records: seq<SettingClass>)
    ensures HintNames(Generate(records)) == HintNameList(ClassNames(records))
  {
    var g := Generate(records);
    var names := HintNames(g);
    var expected := HintNameList(ClassNames(records));
    forall k | 0 <= k < |names|
      ensures names[k] == expected[k]
    {
      if 1 <= k <= |records| {
        assert g[k].hintName == PocoHintName(records[k - 1].className);
      }
    }
  }

  /** Two positions `p < q` of the hint-name list hold different names,
      provided the class names are distinct and none is "ISettings". */
  lemma HintNamesDifferAt(classNames: seq<string>, p: int, q: int)
    requires Distinct(classNames) && "ISettings" !in classNames
    requires 0 <= p < q < |classNames| + 4
    ensures HintNameList(classNames)[p] != HintNameList(classNames)[q]
  {
    var names := HintNameList(classNames);
    var n := |classNames|;
    if 1 <= q <= n {
      var y := classNames[q - 1];
      if p == 0 {
        InterfaceNameIsPocoNameOfISettings(y);
      } else {
        assert classNames[p - 1] != y;
        PocoNameInjective(classNames[p - 1], y);
      }
    } else if 1 <= p <= n {
      FixedNamesAreNotPocoNames(classNames[p - 1]);
    }
  }

  /** On the hint-name list: distinct exactly when the class names are
      distinct and none of them is "ISettings". */
  lemma HintNameListDistinctIff(classNames: seq<string>)
    ensures Distinct(HintNameList(classNames)) <==> Distinct(classNames) && "ISettings" !in classNames
  {
    var names := HintNameList(classNames);
    if Distinct(classNames) && "ISettings" !in classNames {
      forall p, q | 0 <= p < |names| && 0 <= q < |names| && p != q
        ensures names[p] != names[q]
      {
        if p < q {
          HintNamesDifferAt(classNames, p, q);
        } else {
          HintNamesDifferAt(classNames, q, p);
        }
      }
    }
    if Distinct(names) {
      forall i, j | 0 <= i < |classNames| && 0 <= j < |classNames| && i != j
        ensures classNames[i] != classNames[j]
      {
        assert names[i + 1] != names[j + 1];
      }
      forall i | 0 <= i < |classNames|
        ensures classNames[i] != "ISettings"
      {
        assert names[0] != names[i + 1];
        InterfaceNameIsPocoNameOfISettings(classNames[i]);
      }
    }
  }

  /** All emitted hint names are pairwise distinct exactly when the class
      names are pairwise distinct and none of them is "ISettings". The
      namespace plays no part, so same-named classes always collide. */
  lemma HintNamesDistinctIff(records: seq<SettingClass>)
    ensures Distinct(HintNames(Generate(records)))
            <==> Distinct(ClassNames(records)) && "ISettings" !in ClassNames(records)
  {
    GenerateHintNames(records);
    HintNameListDistinctIff(ClassNames(records));
  }

  /** Two records with the same class name give two artifacts with the same
      hint name, whatever their namespaces. */
  lemma SameClassNameCollides(records: seq<SettingClass>, i: int, j: int)
    requires 0 <= i < |records| && 0 <= j < |records| && i != j
    requires records[i].className == records[j].className
    ensures Generate(records)[i + 1].hintName == Generate(records)[j + 1].hintName
    ensures !Distinct(HintNames(Generate(records)))
  {
    var g := Generate(records);
    var names := HintNames(g);
    assert g[i + 1].hintName == g[j + 1].hintName;
    assert names[i + 1] == names[j + 1];
  }

  /** `Foo` in namespace `A` and `Foo` in namespace `B` share one hint name. */
  lemma NamespacesDoNotSeparateKeys()
    ensures var g := Generate([SettingClass("A", "Foo", "Foo"), SettingClass("B", "Foo", "Foo")]);
            g[1].hintName == g[2].hintName == "Foo.Settings.g.cs"
  {
  }
}
