/** What a path denotes, said without the lookup: four laws that together fix it
    for every sequence of components. */
module Lookup {
  import opened Names
  import opened Trees
  import opened TreeLaws

  /** Each node is a child of the one before, with the next name. */
  ghost predicate Chain(names: seq<Name>, nodes: seq<Node>) {
    && |nodes| == |names| + 1
    && forall i | 0 <= i < |names| :: nodes[i + 1] in nodes[i].children && nodes[i + 1].name == names[i]
  }

  ghost predicate LeadsTo(root: Node, names: seq<Name>, n: Node) {
    exists nodes :: Chain(names, nodes) && nodes[0] == root && nodes[|names|] == n
  }

  lemma {:induction false} WalkFollows(root: Node, names: seq<Name>) returns (nodes: seq<Node>)
    requires names != [] && Walk(root.children, names).Some?
    ensures Chain(names, nodes) && nodes[0] == root && nodes[|names|] == Walk(root.children, names).value
    decreases |names|
  {
    ChildMembers(root.children, names[0]);
    var n := Child(root.children, names[0]).value;
    if |names| == 1 {
      nodes := [root, n];
    } else {
      var rest := WalkFollows(n, names[1..]);
      nodes := [root] + rest;
      forall i | 0 <= i < |names|
        ensures nodes[i + 1] in nodes[i].children && nodes[i + 1].name == names[i]
      {
        if i > 0 {
          assert rest[i - 1 + 1] in rest[i - 1].children && rest[i - 1 + 1].name == names[1..][i - 1];
        }
      }
    }
  }

  lemma {:induction false} ChainWalks(names: seq<Name>, nodes: seq<Node>)
    requires names != [] && Chain(names, nodes) && WellFormed(nodes[0].children)
    ensures Walk(nodes[0].children, names) == Some(nodes[|names|])
    decreases |names|
  {
    var n := nodes[0 + 1];
    assert n in nodes[0].children && n.name == names[0];
    ChildOf(nodes[0].children, n);
    if |names| == 1 {
    } else {
      forall i | 0 <= i < |names| - 1
        ensures nodes[1..][i + 1] in nodes[1..][i].children && nodes[1..][i + 1].name == names[1..][i]
      {
        assert nodes[i + 1 + 1] in nodes[i + 1].children;
      }
      ChainWalks(names[1..], nodes[1..]);
    }
  }

  /** "/" and then names: the node found is exactly the one that a chain of children
      with these names leads to from the root; "/" alone finds the root. */
  lemma PathMeaning(root: Node, names: seq<Name>, n: Node)
    requires WellFormed(root.children) && "." !in names
    ensures Denotes(root, ["/"] + names) == Some(n) <==> LeadsTo(root, names, n)
    ensures Denotes(root, ["/"]) == Some(root)
  {
    hide WellFormed, Walk;
    SignificantPlain(["/"] + names);
    SignificantPlain(["/"]);
    assert (["/"] + names)[1..] == names;
    if names == [] {
      assert ["/"] + names == ["/"];
      if n == root {
        assert Chain(names, [root]);
      }
    } else {
      if Walk(root.children, names) == Some(n) {
        var nodes := WalkFollows(root, names);
      }
      if LeadsTo(root, names, n) {
        var nodes :| Chain(names, nodes) && nodes[0] == root && nodes[|names|] == n;
        ChainWalks(names, nodes);
      }
    }
  }

  /** "." may stand anywhere. */
  lemma DotIgnored(root: Node, a: seq<Name>, b: seq<Name>)
    ensures Denotes(root, a + ["."] + b) == Denotes(root, a + b)
  {
    SignificantAppend(a + ["."], b);
    SignificantAppend(a, b);
    SignificantAppend(a, ["."]);
    assert ["."][..0] == [];
    assert Significant(a) + [] == Significant(a);
  }

  /** Without a root component nothing is found. */
  lemma Rootless(root: Node, components: seq<Name>)
    requires "/" !in components
    ensures Denotes(root, components) == None
  {
    SignificantMembers(components);
  }

  /** What stands before the root component does not matter. */
  lemma OnlyAfterRoot(root: Node, a: seq<Name>, b: seq<Name>)
    requires "/" !in a
    ensures Denotes(root, a + ["/"] + b) == Denotes(root, ["/"] + b)
  {
    hide FirstSlash, Significant, Walk;
    SignificantAppend(a + ["/"], b);
    SignificantAppend(a, ["/"]);
    SignificantAppend(["/"], b);
    SignificantPlain(["/"]);
    SignificantMembers(a);
    var pre, rest := Significant(a), Significant(b);
    FirstSlashAt(pre, rest);
    FirstSlashAt([], rest);
    assert [] + ["/"] + rest == ["/"] + rest;
    assert (pre + ["/"] + rest)[|pre| + 1..] == rest == (["/"] + rest)[1..];
  }

  lemma FirstSlashAt(pre: seq<Name>, rest: seq<Name>)
    requires "/" !in pre
    ensures FirstSlash(pre + ["/"] + rest) == |pre|
  {
    var path := pre + ["/"] + rest;
    assert path[|pre|] == "/" && path[..|pre|] == pre;
  }

  lemma {:induction false} SignificantAppend(a: seq<Name>, b: seq<Name>)
    ensures Significant(a + b) == Significant(a) + Significant(b)
  {
    if b == [] {
      assert a + b == a;
    } else {
      var k := |b| - 1;
      SignificantAppend(a, b[..k]);
      assert (a + b)[..|a + b| - 1] == a + b[..k];
    }
  }

  lemma {:induction false} SignificantMembers(components: seq<Name>)
    ensures forall x :: x in Significant(components) <==> x in components && x != "."
  {
    if components == [] {
    } else {
      var k := |components| - 1;
      SignificantMembers(components[..k]);
      assert components == components[..k] + [components[k]];
    }
  }

  lemma {:induction false} SignificantPlain(components: seq<Name>)
    requires "." !in components
    ensures Significant(components) == components
  {
    if components == [] {
    } else {
      var k := |components| - 1;
      SignificantPlain(components[..k]);
      assert components == components[..k] + [components[k]];
    }
  }
}
