/** The `DirTree` object: its loops over the root's children, each proved
    against the corresponding operation on values. */
module DirTreeClass {
  import opened Names
  import opened Trees
  import opened TreeLaws

  /** `hasConflict` as the source has it, where the walk's upper bound on the
      newcomer is `begin()`, and as it is meant, where the bound is `end()`. */
  datatype ConflictCheck = AsWritten | Intended

  function WalkBound(check: ConflictCheck, theirs: Forest): nat {
    match check
    case AsWritten => 0
    case Intended => |theirs|
  }

  /** The names `hasConflict` reports. */
  function Conflicts(check: ConflictCheck, theirs: Forest, ours: Forest): seq<Name> {
    Common(theirs[..WalkBound(check, theirs)], ours)
  }

  lemma ConflictsMeaning(check: ConflictCheck, theirs: Forest, ours: Forest)
    requires Sorted(theirs) && Sorted(ours)
    ensures check == Intended ==> Conflicts(check, theirs, ours) == Common(theirs, ours)
    ensures check == AsWritten ==> Conflicts(check, theirs, ours) == []
    ensures (Conflicts(check, theirs, ours) == [] <==> |Merge(ours, theirs)| == |ours| + |theirs|)
            <==> (check == Intended || Common(theirs, ours) == [])
  {
    assert theirs[..|theirs|] == theirs;
    MergeLength(ours, theirs);
  }

  lemma CommonBeyond(theirs: Forest, ours: Forest, i: nat, bound: nat)
    requires i <= bound <= |theirs|
    requires forall l | i <= l < bound :: theirs[l].name !in NamesOf(ours)
    ensures Common(theirs[..bound], ours) == Common(theirs[..i], ours)
    decreases bound - i
  {
    if i < bound {
      CommonBeyond(theirs, ours, i, bound - 1);
      ChildMembers(ours, theirs[bound - 1].name);
      assert theirs[..bound][..bound - 1] == theirs[..bound - 1];
    }
  }

  lemma NoCommon(ours: Forest)
    ensures Common([], ours) == []
  {
  }

  lemma CommonNext(theirs: Forest, ours: Forest, i: nat)
    requires i < |theirs|
    ensures Common(theirs[..i + 1], ours) ==
            Common(theirs[..i], ours) + if theirs[i].name in NamesOf(ours) then [theirs[i].name] else []
  {
    ChildMembers(ours, theirs[i].name);
    assert theirs[..i + 1][..i] == theirs[..i];
  }

  /** Between a smaller and a larger neighbour a name is missing. */
  lemma NotBetween(ours: Forest, j: nat, name: Name)
    requires Sorted(ours) && j <= |ours|
    requires forall k | 0 <= k < j :: Less(ours[k].name, name)
    requires j < |ours| ==> Less(name, ours[j].name)
    ensures name !in NamesOf(ours)
  {
    forall k | 0 <= k < |ours|
      ensures ours[k].name != name
    {
      if k < j {
        LessAsymmetric(ours[k].name, name);
      } else {
        if j < k { LessTransitive(name, ours[j].name, ours[k].name); }
        LessAsymmetric(name, ours[k].name);
      }
    }
  }

  /** One more entry on the way through a set of children. */
  lemma RemoveOfNext(s: Forest, i: nat, id: nat)
    requires i < |s|
    ensures s[..i] + RemoveOf(s[i..], id) ==
            (if s[i].hostId == id then s[..i] else s[..i + 1]) + RemoveOf(s[i + 1..], id)
  {
    assert s[i..][1..] == s[i + 1..] && s[..i + 1] == s[..i] + [s[i]];
  }

  lemma RemoveNotOfNext(s: Forest, i: nat, id: nat)
    requires i < |s|
    ensures s[..i] + RemoveNotOf(s[i..], id) ==
            (if s[i].hostId != id then s[..i] else s[..i + 1]) + RemoveNotOf(s[i + 1..], id)
  {
    assert s[i..][1..] == s[i + 1..] && s[..i + 1] == s[..i] + [s[i]];
  }

  lemma RemoveOfNone(id: nat)
    ensures RemoveOf([], id) == []
  {
  }

  lemma RemoveNotOfNone(id: nat)
    ensures RemoveNotOf([], id) == []
  {
  }

  lemma Erased(s: Forest, i: nat)
    requires i < |s|
    ensures (s[..i] + s[i + 1..])[..i] == s[..i] && (s[..i] + s[i + 1..])[i..] == s[i + 1..]
  {
  }

  class DirTree {
    var root: Node

    constructor (root: Node)
      ensures this.root == root
    {
      this.root := root;
    }

    /** Remove all nodes of a certain host. */
    method RemoveHost(hostId: nat)
      modifies this
      ensures root == old(root).(children := RemoveOf(old(root.children), hostId))
    {
      hide RemoveOf;
      var i := 0;
      assert root.children[..0] == [] && root.children[0..] == root.children;
      while i < |root.children|
        invariant i <= |root.children|
        invariant root == old(root).(children := root.children)
        invariant root.children[..i] + RemoveOf(root.children[i..], hostId) == RemoveOf(old(root.children), hostId)
        decreases |root.children| - i
      {
        var s := root.children;
        RemoveOfNext(s, i, hostId);
        if s[i].hostId == hostId {
          Erased(s, i);
          root := root.(children := s[..i] + s[i + 1..]);
        } else {
          i := i + 1;
        }
      }
      assert root.children[i..] == [] && root.children[..i] == root.children;
      RemoveOfNone(hostId);
    }

    /** Remove all nodes but those of a certain host. */
    method RemoveOthers(hostId: nat)
      modifies this
      ensures root == old(root).(children := RemoveNotOf(old(root.children), hostId))
    {
      hide RemoveNotOf;
      var i := 0;
      assert root.children[..0] == [] && root.children[0..] == root.children;
      while i < |root.children|
        invariant i <= |root.children|
        invariant root == old(root).(children := root.children)
        invariant root.children[..i] + RemoveNotOf(root.children[i..], hostId)
                  == RemoveNotOf(old(root.children), hostId)
        decreases |root.children| - i
      {
        var s := root.children;
        RemoveNotOfNext(s, i, hostId);
        if s[i].hostId != hostId {
          Erased(s, i);
          root := root.(children := s[..i] + s[i + 1..]);
        } else {
          i := i + 1;
        }
      }
      assert root.children[i..] == [] && root.children[..i] == root.children;
      RemoveNotOfNone(hostId);
    }

    /** The two-pointer walk over two sorted sets of children.  It reports, in
        order, exactly the names below the bound that both sides use. */
    method HasConflict(check: ConflictCheck, theirs: Forest) returns (conflicts: seq<Name>)
      requires Sorted(root.children) && Sorted(theirs)
      ensures conflicts == Conflicts(check, theirs, root.children)
      ensures check == Intended ==>
                forall x :: x in conflicts <==> x in NamesOf(theirs) && x in NamesOf(root.children)
      ensures forall i, j | 0 <= i < j < |conflicts| :: Less(conflicts[i], conflicts[j])
      ensures check == AsWritten ==> conflicts == []
    {
      hide Less, Child, Common;
      var ours := root.children;
      var last := WalkBound(check, theirs);
      var first1, first2 := 0, 0;
      conflicts := [];
      assert theirs[..0] == [] && Common([], ours) == [] by { NoCommon(ours); }
      while first1 != last && first2 != |ours|
        invariant first1 <= last <= |theirs| && first2 <= |ours|
        invariant conflicts == Common(theirs[..first1], ours)
        invariant first1 < |theirs| ==> forall k | 0 <= k < first2 :: Less(ours[k].name, theirs[first1].name)
        decreases last - first1 + |ours| - first2
      {
        var a, b := theirs[first1], ours[first2];
        CommonNext(theirs, ours, first1);
        ghost var next := first1 + 1;
        assert next < |theirs| ==> Less(a.name, theirs[next].name);
        if Less(a.name, b.name) {
          NotBetween(ours, first2, a.name);
          SkipTo(ours, first2, a, theirs, next);
          first1 := first1 + 1;
        } else if Less(b.name, a.name) {
          first2 := first2 + 1;
        } else {
          LessTotal(a.name, b.name);
          assert b in ours;
          conflicts := conflicts + [a.name];
          SkipTo(ours, first2, a, theirs, next);
          first1, first2 := first1 + 1, first2 + 1;
        }
      }
      BeyondBound(theirs, ours, first1, last, first2);
      CommonBeyond(theirs, ours, first1, last);
      CommonMembers(theirs[..last], ours);
      SortedPrefix(theirs, last);
      CommonSorted(theirs[..last], ours);
      assert check == Intended ==> theirs[..last] == theirs;
    }

    /** Merge another tree's children; a name already present wins. */
    method MergeWith(theirs: Forest)
      modifies this
      ensures root == old(root).(children := Merge(old(root.children), theirs))
    {
      var i := 0;
      while i < |theirs|
        invariant i <= |theirs|
        invariant root == old(root).(children := Merge(old(root.children), theirs[..i]))
      {
        assert theirs[..i + 1][..i] == theirs[..i];
        root := root.(children := Insert(root.children, theirs[i]));
        i := i + 1;
      }
      assert theirs[..i] == theirs;
    }

    /** Give every node below the root to one host; the root keeps its own id. */
    method SetHostId(id: nat)
      modifies this
      ensures root == old(root).(children := TagAll(old(root.children), id))
    {
      var tagged := Retag(root.children, id);
      root := root.(children := tagged);
    }

    static method Retag(nodes: Forest, id: nat) returns (r: Forest)
      ensures r == TagAll(nodes, id)
      decreases nodes
    {
      r := [];
      var i := 0;
      assert nodes[0..] == nodes;
      while i < |nodes|
        invariant i <= |nodes|
        invariant r + TagAll(nodes[i..], id) == TagAll(nodes, id)
      {
        var n := nodes[i];
        var children := Retag(n.children, id);
        assert nodes[i..][1..] == nodes[i + 1..];
        r := r + [Node(n.name, n.attributes, id, children)];
        i := i + 1;
      }
    }

    /** Path lookup over the components that `boost::filesystem::path` yields. */
    method Find(components: seq<Name>) returns (node: Option<Node>)
      requires ".." !in components
      ensures node == Denotes(root, components)
    {
      node := None;
      var i := 0;
      while i < |components|
        invariant i <= |components|
        invariant node == Denotes(root, components[..i])
        invariant node.None? ==> FirstSlash(Significant(components[..i])) == |Significant(components[..i])|
      {
        var c := components[i];
        ghost var before := Significant(components[..i]);
        assert components[..i + 1][..i] == components[..i];
        assert Significant(components[..i + 1]) == before + if c == "." then [] else [c];
        if c == "." {
          assert before + [] == before;
        } else if c == "/" && node.None? {
          FirstSlashExtend(before, c);
          node := Some(root);
        } else if node.None? {
          FirstSlashExtend(before, c);
        } else {
          FirstSlashExtend(before, c);
          BelowExtend(root, before, FirstSlash(before), c);
          var child := Child(node.value.children, c);
          if child.None? {
            LostForever(root, components, i + 1);
            return None;
          }
          node := child;
        }
        i := i + 1;
      }
      assert components[..i] == components;
    }
  }

  /** After passing `a` everything seen of `ours` is below the next newcomer. */
  lemma SkipTo(ours: Forest, first2: nat, a: Node, theirs: Forest, next: nat)
    requires first2 <= |ours|
    requires forall k | 0 <= k < first2 :: Less(ours[k].name, a.name)
    requires next < |theirs| ==> Less(a.name, theirs[next].name)
    ensures next < |theirs| ==> forall k | 0 <= k < first2 :: Less(ours[k].name, theirs[next].name)
  {
    if next < |theirs| {
      forall k | 0 <= k < first2
        ensures Less(ours[k].name, theirs[next].name)
      {
        LessTransitive(ours[k].name, a.name, theirs[next].name);
      }
    }
  }

  /** When `ours` is exhausted the remaining newcomers clash with nothing. */
  lemma BeyondBound(theirs: Forest, ours: Forest, first1: nat, last: nat, first2: nat)
    requires Sorted(theirs) && Sorted(ours) && first1 <= last <= |theirs| && first2 <= |ours|
    requires first1 == last || first2 == |ours|
    requires first1 < |theirs| ==> forall k | 0 <= k < first2 :: Less(ours[k].name, theirs[first1].name)
    ensures forall l | first1 <= l < last :: theirs[l].name !in NamesOf(ours)
  {
    forall l | first1 <= l < last
      ensures theirs[l].name !in NamesOf(ours)
    {
      forall k | 0 <= k < |ours|
        ensures Less(ours[k].name, theirs[l].name)
      {
        if first1 < l { LessTransitive(ours[k].name, theirs[first1].name, theirs[l].name); }
      }
      NotBetween(ours, |ours|, theirs[l].name);
    }
  }

  lemma {:induction false} FirstSlashExtend(path: seq<Name>, c: Name)
    ensures FirstSlash(path) < |path| ==> FirstSlash(path + [c]) == FirstSlash(path)
    ensures FirstSlash(path) == |path| ==> FirstSlash(path + [c]) == if c == "/" then |path| else |path| + 1
  {
    if path == [] {
    } else {
      FirstSlashExtend(path[1..], c);
      assert (path + [c])[1..] == path[1..] + [c];
    }
  }

  lemma {:induction false} WalkExtend(s: Forest, path: seq<Name>, c: Name)
    requires path != []
    ensures Walk(s, path + [c]) ==
            match Walk(s, path)
            case None => None
            case Some(n) => Child(n.children, c)
    decreases |path|
  {
    match Child(s, path[0]) {
      case None =>
      case Some(n) =>
        if |path| > 1 {
          WalkExtend(n.children, path[1..], c);
          assert (path + [c])[1..] == path[1..] + [c];
        } else {
          assert (path + [c])[1..] == [c];
        }
    }
  }

  lemma BelowExtend(root: Node, path: seq<Name>, k: nat, c: Name)
    requires k < |path|
    ensures Below(root, path + [c], k) ==
            match Below(root, path, k)
            case None => None
            case Some(n) => Child(n.children, c)
  {
    if k + 1 == |path| {
      WalkSingle(root.children, c);
      assert (path + [c])[k + 1..] == [c];
    } else {
      WalkExtend(root.children, path[k + 1..], c);
      assert (path + [c])[k + 1..] == path[k + 1..] + [c];
    }
  }

  lemma WalkSingle(s: Forest, c: Name)
    ensures Walk(s, [c]) == Child(s, c)
  {
  }

  /** A missing component stays missing however the path goes on. */
  lemma {:induction false} LostForever(root: Node, components: seq<Name>, i: nat)
    requires i <= |components|
    requires FirstSlash(Significant(components[..i])) < |Significant(components[..i])|
    requires Denotes(root, components[..i]).None?
    ensures Denotes(root, components).None?
    decreases |components| - i
  {
    if i == |components| {
      assert components[..i] == components;
    } else {
      var before, c := Significant(components[..i]), components[i];
      assert components[..i + 1][..i] == components[..i];
      if c != "." {
        FirstSlashExtend(before, c);
        BelowExtend(root, before, FirstSlash(before), c);
      } else {
        assert before + [] == before;
      }
      LostForever(root, components, i + 1);
    }
  }
}
