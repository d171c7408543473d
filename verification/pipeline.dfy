/** The incremental pipeline set up by `Initialize`: the syntax provider keeps
    class declarations, transforms each with `GetSettingClass`, drops the
    `null` results, unwraps the rest and collects them in order. */
module Pipeline {
  import opened Wrappers
  import opened Syntax
  import opened Resolver

  /** The syntax provider's predicate `s is ClassDeclarationSyntax`. */
  function ClassNodes(nodes: seq<SyntaxNode>): (r: seq<SyntaxNode>)
    ensures |r| <= |nodes|
    ensures forall k :: 0 <= k < |r| ==> r[k].ClassDeclaration? && r[k] in nodes
    ensures forall i :: 0 <= i < |nodes| && nodes[i].ClassDeclaration? ==> nodes[i] in r
  {
    if |nodes| == 0 then []
    else if nodes[0].ClassDeclaration? then [nodes[0]] + ClassNodes(nodes[1..])
    else ClassNodes(nodes[1..])
  }

  /** The syntax provider's transform: `GetSettingClass` applied to each node. */
  function Transform(nodes: seq<SyntaxNode>): (r: seq<Option<SettingClass>>)
    ensures |r| == |nodes|
    ensures forall i :: 0 <= i < |nodes| ==> r[i] == GetSettingClass(nodes[i])
  {
    if |nodes| == 0 then [] else [GetSettingClass(nodes[0])] + Transform(nodes[1..])
  }

  /** `.Where(m => m is not null).Select(m => m!.Value)`: the present values, in order. */
  function WhereSome<T>(xs: seq<Option<T>>): (r: seq<T>)
    ensures |r| <= |xs|
    ensures forall k :: 0 <= k < |r| ==> Some(r[k]) in xs
    ensures forall i :: 0 <= i < |xs| && xs[i].Some? ==> xs[i].value in r
  {
    if |xs| == 0 then []
    else match xs[0]
      case Some(v) => [v] + WhereSome(xs[1..])
      case None => WhereSome(xs[1..])
  }

  /** `.Collect()`: the settings classes found among `nodes`. */
  function Collect(nodes: seq<SyntaxNode>): seq<SettingClass>
  {
    WhereSome(Transform(ClassNodes(nodes)))
  }

  /** The number of nodes `GetSettingClass` accepts. */
  function CountAccepted(nodes: seq<SyntaxNode>): nat
  {
    if |nodes| == 0 then 0
    else (if GetSettingClass(nodes[0]).Some? then 1 else 0) + CountAccepted(nodes[1..])
  }

  lemma {:induction false} ClassNodesAppend(a: seq<SyntaxNode>, b: seq<SyntaxNode>)
    ensures ClassNodes(a + b) == ClassNodes(a) + ClassNodes(b)
  {
    if |a| == 0 {
      assert a + b == b;
    } else {
      assert (a + b)[0] == a[0];
      assert (a + b)[1..] == a[1..] + b;
      ClassNodesAppend(a[1..], b);
    }
  }

  lemma {:induction false} TransformAppend(a: seq<SyntaxNode>, b: seq<SyntaxNode>)
    ensures Transform(a + b) == Transform(a) + Transform(b)
  {
    assert |Transform(a + b)| == |Transform(a) + Transform(b)|;
    forall i | 0 <= i < |a + b|
      ensures Transform(a + b)[i] == (Transform(a) + Transform(b))[i]
    {
      if i < |a| {
        assert (a + b)[i] == a[i];
      } else {
        assert (a + b)[i] == b[i - |a|];
      }
    }
  }

  /** Filtering out the nulls distributes over concatenation: it keeps order. */
  lemma {:induction false} WhereSomeAppend<T>(a: seq<Option<T>>, b: seq<Option<T>>)
    ensures WhereSome(a + b) == WhereSome(a) + WhereSome(b)
  {
    if |a| == 0 {
      assert a + b == b;
    } else {
      assert (a + b)[0] == a[0];
      assert (a + b)[1..] == a[1..] + b;
      WhereSomeAppend(a[1..], b);
    }
  }

  /** The collected list of a concatenation is the concatenation of the
      collected lists: records appear in input order. */
  lemma CollectAppend(a: seq<SyntaxNode>, b: seq<SyntaxNode>)
    ensures Collect(a + b) == Collect(a) + Collect(b)
  {
    ClassNodesAppend(a, b);
    TransformAppend(ClassNodes(a), ClassNodes(b));
    WhereSomeAppend(Transform(ClassNodes(a)), Transform(ClassNodes(b)));
  }

  /** A single node contributes its record if it has one, and nothing otherwise. */
  lemma CollectSingle(node: SyntaxNode)
    ensures GetSettingClass(node).Some? ==> Collect([node]) == [GetSettingClass(node).value]
    ensures GetSettingClass(node).None? ==> Collect([node]) == []
  {
    assert [node][1..] == [];
  }

  /** The syntax predicate changes nothing: `GetSettingClass` already rejects
      non-class nodes, so the collected list is exactly the non-null results. */
  lemma {:induction false} CollectIsNonNullResults(nodes: seq<SyntaxNode>)
    ensures Collect(nodes) == WhereSome(Transform(nodes))
  {
    if |nodes| == 0 {
    } else {
      CollectIsNonNullResults(nodes[1..]);
      assert nodes == [nodes[0]] + nodes[1..];
      CollectAppend([nodes[0]], nodes[1..]);
      CollectSingle(nodes[0]);
      TransformAppend([nodes[0]], nodes[1..]);
      WhereSomeAppend(Transform([nodes[0]]), Transform(nodes[1..]));
      assert Transform([nodes[0]]) == [GetSettingClass(nodes[0])];
      assert [GetSettingClass(nodes[0])][1..] == [];
    }
  }

  /** One record per accepted node, no more and no fewer. */
  lemma {:induction false} CollectLength(nodes: seq<SyntaxNode>)
    ensures |Collect(nodes)| == CountAccepted(nodes)
  {
    if |nodes| > 0 {
      assert nodes == [nodes[0]] + nodes[1..];
      CollectAppend([nodes[0]], nodes[1..]);
      CollectSingle(nodes[0]);
      CollectLength(nodes[1..]);
    }
  }

  /** A record is collected exactly when some input node yields it. */
  lemma CollectMembership(nodes: seq<SyntaxNode>, c: SettingClass)
    ensures c in Collect(nodes) <==> exists i :: 0 <= i < |nodes| && GetSettingClass(nodes[i]) == Some(c)
  {
    CollectIsNonNullResults(nodes);
    var xs := Transform(nodes);
    if c in Collect(nodes) {
      var k :| 0 <= k < |Collect(nodes)| && Collect(nodes)[k] == c;
      assert Some(c) in xs;
    }
    if exists i :: 0 <= i < |nodes| && GetSettingClass(nodes[i]) == Some(c) {
      var i :| 0 <= i < |nodes| && GetSettingClass(nodes[i]) == Some(c);
      assert xs[i] == Some(c);
    }
  }
}
