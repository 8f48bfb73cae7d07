/** Laws that relate the tree operations to each other: what a merge loses, when
    a leave undoes a join, why looking at the top level only is enough to remove
    a host, and what a path resolves to. */
module TreeLaws {
  import opened Names
  import opened Trees

  // ---------------------------------------------------------------------------
  // Conflicts and what a merge loses

  lemma {:induction false} CommonMembers(theirs: Forest, ours: Forest)
    ensures forall x :: x in Common(theirs, ours) <==> x in NamesOf(theirs) && x in NamesOf(ours)
  {
    hide NamesOf;
    if theirs == [] {
      NamesNone();
    } else {
      var k := |theirs| - 1;
      CommonMembers(theirs[..k], ours);
      ChildMembers(ours, theirs[k].name);
      NamesSnoc(theirs);
    }
  }

  lemma NamesSnoc(s: Forest)
    requires s != []
    ensures NamesOf(s) == NamesOf(s[..|s| - 1]) + {s[|s| - 1].name}
  {
    var init, last := s[..|s| - 1], s[|s| - 1];
    assert s == init + [last];
    assert forall n | n in init :: n in s;
    assert last in s;
  }

  /** The clashing names come out in order. */
  lemma {:induction false} CommonSorted(theirs: Forest, ours: Forest)
    requires Sorted(theirs)
    ensures forall i, j | 0 <= i < j < |Common(theirs, ours)| :: Less(Common(theirs, ours)[i], Common(theirs, ours)[j])
  {
    hide Less, Child;
    if theirs == [] {
    } else {
      var k := |theirs| - 1;
      SortedPrefix(theirs, k);
      CommonSorted(theirs[..k], ours);
      CommonMembers(theirs[..k], ours);
      var c, last := Common(theirs[..k], ours), theirs[k];
      forall i | 0 <= i < |c|
        ensures Less(c[i], last.name)
      {
        assert c[i] in c;
        var n :| n in theirs[..k] && n.name == c[i];
        var m :| 0 <= m < k && theirs[m] == n;
        assert Less(theirs[m].name, theirs[k].name);
      }
    }
  }

  lemma {:induction false} InsertLength(s: Forest, n: Node)
    requires Sorted(s)
    ensures |Insert(s, n)| == |s| + if n.name in NamesOf(s) then 0 else 1
  {
    if s == [] {
    } else {
      NamesCons(s);
      if Less(n.name, s[0].name) {
        LessAsymmetric(n.name, s[0].name);
        InsertFirst(s, n);
      } else if n.name != s[0].name {
        InsertLength(s[1..], n);
      }
    }
  }

  lemma MergeNames(ours: Forest, theirs: Forest)
    requires Sorted(ours) && Sorted(theirs)
    ensures NamesOf(Merge(ours, theirs)) == NamesOf(ours) + NamesOf(theirs)
  {
    MergeMembers(ours, theirs);
    var m := Merge(ours, theirs);
    forall x | x in NamesOf(ours) + NamesOf(theirs)
      ensures x in NamesOf(m)
    {
      if x in NamesOf(ours) {
        var n :| n in ours && n.name == x;
        assert n in m;
      } else {
        var n :| n in theirs && n.name == x;
        assert n in m;
      }
    }
  }

  /** Conservation: a merge drops exactly the clashing entries, one per name. */
  lemma {:induction false} MergeLength(ours: Forest, theirs: Forest)
    requires Sorted(ours) && Sorted(theirs)
    ensures |Merge(ours, theirs)| + |Common(theirs, ours)| == |ours| + |theirs|
  {
    if theirs == [] {
    } else {
      var k := |theirs| - 1;
      var init, last := theirs[..k], theirs[k];
      SortedPrefix(theirs, k);
      MergeLength(ours, init);
      MergeMembers(ours, init);
      MergeNames(ours, init);
      InsertLength(Merge(ours, init), last);
      ChildMembers(ours, last.name);
      assert last.name !in NamesOf(init) by {
        NamesDistinct(theirs);
        assert forall n | n in init :: exists i :: 0 <= i < k && theirs[i] == n;
      }
    }
  }

  /** No conflict is reported exactly when the merge keeps every entry of both
      sides, provided the newcomer's entries carry an owner id not yet in use. */
  lemma NoConflictIffNothingLost(ours: Forest, theirs: Forest, id: nat)
    requires Sorted(ours) && Sorted(theirs)
    requires forall n | n in ours :: n.hostId != id
    ensures Common(theirs, ours) == [] <==>
            forall n | n in TagAll(theirs, id) :: n in Merge(ours, TagAll(theirs, id))
    ensures Common(theirs, ours) == [] <==>
            |Merge(ours, TagAll(theirs, id))| == |ours| + |theirs|
  {
    var tagged := TagAll(theirs, id);
    TagAllMembers(theirs, id);
    MergeMembers(ours, tagged);
    MergeLength(ours, tagged);
    CommonTagged(theirs, ours, id);
    CommonMembers(theirs, ours);
    var common := Common(theirs, ours);
    assert common == [] || common[0] in common;
    if forall n | n in tagged :: n in Merge(ours, tagged) {
      forall x | x in NamesOf(theirs)
        ensures x !in NamesOf(ours)
      {
        assert x in NamesOf(tagged);
        var n :| n in tagged && n.name == x;
      }
    }
    if Common(theirs, ours) == [] {
      forall n | n in tagged
        ensures n in Merge(ours, tagged)
      {
        assert n.name in NamesOf(tagged);
        assert n.name !in Common(theirs, ours);
      }
    }
  }

  lemma {:induction false} CommonTagged(theirs: Forest, ours: Forest, id: nat)
    ensures Common(TagAll(theirs, id), ours) == Common(theirs, ours)
  {
    TagAllMembers(theirs, id);
    if theirs == [] {
    } else {
      var k := |theirs| - 1;
      CommonTagged(theirs[..k], ours, id);
      TagAllMembers(theirs[..k], id);
      assert TagAll(theirs, id)[..k] == TagAll(theirs[..k], id);
    }
  }

  // ---------------------------------------------------------------------------
  // Ownership of a merged tree

  ghost predicate Owns(s: Forest, id: nat)
    decreases s
  {
    exists n | n in s :: n.hostId == id || Owns(n.children, id)
  }

  /** Every subtree hanging off the root has one owner. */
  ghost predicate SingleOwners(s: Forest) {
    forall n | n in s :: Uniform(n, n.hostId)
  }

  lemma {:induction false} TagUniform(s: Forest, id: nat)
    ensures forall n | n in TagAll(s, id) :: Uniform(n, id)
    ensures WellFormed(s) ==> WellFormed(TagAll(s, id))
    decreases s
  {
    TagAllMembers(s, id);
    var t := TagAll(s, id);
    forall n | n in t
      ensures Uniform(n, id)
      ensures WellFormed(s) ==> WellFormed(n.children)
    {
      var i :| 0 <= i < |s| && t[i] == n;
      assert s[i] in s;
      TagUniform(s[i].children, id);
    }
  }

  lemma {:induction false} UniformOwns(n: Node, id: nat, other: nat)
    requires Uniform(n, id) && Owns(n.children, other)
    ensures id == other
  {
    var c :| c in n.children && (c.hostId == other || Owns(c.children, other));
    if c.hostId != other {
      UniformOwns(c, id, other);
    }
  }

  /** Top-level removal is deep removal when every subtree has a single owner:
      no node of the removed host is left at any depth, and keeping one host
      leaves no node of any other. */
  lemma RemovalIsDeep(s: Forest, id: nat, other: nat)
    requires SingleOwners(s)
    ensures !Owns(RemoveOf(s, id), id)
    ensures Owns(RemoveNotOf(s, id), other) ==> other == id
    ensures other != id ==> (Owns(RemoveOf(s, id), other) <==> Owns(s, other))
  {
    RemoveOfMembers(s, id);
    RemoveNotOfMembers(s, id);
    if Owns(RemoveOf(s, id), id) {
      var n :| n in RemoveOf(s, id) && (n.hostId == id || Owns(n.children, id));
      UniformOwns(n, n.hostId, id);
      assert false;
    }
    if Owns(RemoveNotOf(s, id), other) {
      var n :| n in RemoveNotOf(s, id) && (n.hostId == other || Owns(n.children, other));
      if n.hostId != other { UniformOwns(n, id, other); }
    }
    if other != id && Owns(s, other) {
      var n :| n in s && (n.hostId == other || Owns(n.children, other));
      if n.hostId != other { UniformOwns(n, n.hostId, other); }
      assert n in RemoveOf(s, id);
    }
  }

  /** What a newcomer contributes: its tagged entries minus the clashing names. */
  lemma MergeKeeps(ours: Forest, theirs: Forest, id: nat)
    requires Sorted(ours) && Sorted(theirs)
    requires forall n | n in ours :: n.hostId != id
    ensures RemoveNotOf(Merge(ours, TagAll(theirs, id)), id)
            == Without(TagAll(theirs, id), Common(theirs, ours))
  {
    var tagged := TagAll(theirs, id);
    TagAllMembers(theirs, id);
    MergeMembers(ours, tagged);
    RemoveNotOfMembers(Merge(ours, tagged), id);
    WithoutMembers(tagged, Common(theirs, ours));
    CommonMembers(theirs, ours);
    assert forall n | n in tagged :: n.name in NamesOf(tagged);
    SameMembers(RemoveNotOf(Merge(ours, tagged), id), Without(tagged, Common(theirs, ours)));
  }

  /** A join or a leave of one host does not touch another host's entries. */
  lemma OthersUntouched(s: Forest, theirs: Forest, id: nat, other: nat)
    requires Sorted(s) && Sorted(theirs) && id != other
    ensures RemoveNotOf(Merge(s, TagAll(theirs, id)), other) == RemoveNotOf(s, other)
    ensures RemoveNotOf(RemoveOf(s, id), other) == RemoveNotOf(s, other)
  {
    var tagged := TagAll(theirs, id);
    TagAllMembers(theirs, id);
    MergeMembers(s, tagged);
    RemoveOfMembers(s, id);
    RemoveNotOfMembers(Merge(s, tagged), other);
    RemoveNotOfMembers(RemoveOf(s, id), other);
    RemoveNotOfMembers(s, other);
    SameMembers(RemoveNotOf(Merge(s, tagged), other), RemoveNotOf(s, other));
    SameMembers(RemoveNotOf(RemoveOf(s, id), other), RemoveNotOf(s, other));
  }

  lemma {:induction false} WithoutNothing(s: Forest)
    ensures Without(s, []) == s
  {
    if s == [] {
    } else {
      WithoutNothing(s[1..]);
    }
  }

  // ---------------------------------------------------------------------------
  // Leave undoes join

  /** Removing a freshly allocated id restores the tree, even when names clash. */
  lemma LeaveUndoesJoin(s: Forest, theirs: Forest, id: nat)
    requires Sorted(s) && Sorted(theirs)
    requires forall n | n in s :: n.hostId != id
    ensures RemoveOf(Merge(s, TagAll(theirs, id)), id) == s
  {
    var tagged := TagAll(theirs, id);
    TagAllMembers(theirs, id);
    MergeMembers(s, tagged);
    RemoveOfMembers(Merge(s, tagged), id);
    SameMembers(RemoveOf(Merge(s, tagged), id), s);
  }

  /** A leave commutes with a join of another host exactly when the newcomer
      brings no name that the leaving host's entries are holding. */
  lemma LeaveCommutesWithJoin(s: Forest, theirs: Forest, id: nat)
    requires Sorted(s) && Sorted(theirs)
    requires forall n | n in theirs :: n.hostId != id
    ensures RemoveOf(Merge(s, theirs), id) == Merge(RemoveOf(s, id), theirs)
            <==> NamesOf(RemoveNotOf(s, id)) !! NamesOf(theirs)
  {
    var left, right := RemoveOf(Merge(s, theirs), id), Merge(RemoveOf(s, id), theirs);
    MergeMembers(s, theirs);
    RemoveOfMembers(s, id);
    RemoveNotOfMembers(s, id);
    RemoveOfMembers(Merge(s, theirs), id);
    MergeMembers(RemoveOf(s, id), theirs);
    assert forall n | n in RemoveNotOf(s, id) :: n.name in NamesOf(RemoveNotOf(s, id));
    if NamesOf(RemoveNotOf(s, id)) !! NamesOf(theirs) {
      forall n
        ensures n in left <==> n in right
      {
        if n in theirs {
          assert n.name in NamesOf(theirs);
          if n.name in NamesOf(s) {
            var x :| x in s && x.name == n.name;
            assert x !in RemoveNotOf(s, id);
            assert x in RemoveOf(s, id);
          }
        }
      }
      SameMembers(left, right);
    } else {
      var x :| x in NamesOf(RemoveNotOf(s, id)) && x in NamesOf(theirs);
      var mine :| mine in RemoveNotOf(s, id) && mine.name == x;
      var n :| n in theirs && n.name == x;
      assert n !in left by { assert mine in s && n.name in NamesOf(s); NameDeterminesOwner(s, mine, n); }
      assert n in right by {
        if x in NamesOf(RemoveOf(s, id)) {
          var y :| y in RemoveOf(s, id) && y.name == x;
          NameDetermines(s, mine, y);
          assert false;
        }
      }
    }
  }

  lemma NameDeterminesOwner(s: Forest, a: Node, b: Node)
    requires Sorted(s) && a in s && a.name == b.name && a.hostId != b.hostId
    ensures b !in s
  {
    if b in s {
      NameDetermines(s, a, b);
      assert false;
    }
  }

  /** Membership changes, as the master applies them to its tree. */
  datatype Change = Joined(id: nat, forest: Forest) | Left(id: nat)

  function AfterChanges(s: Forest, changes: seq<Change>): Forest {
    if changes == [] then s
    else
      var before := AfterChanges(s, changes[..|changes| - 1]);
      match changes[|changes| - 1]
      case Joined(id, forest) => Merge(before, TagAll(forest, id))
      case Left(id) => RemoveOf(before, id)
  }

  ghost predicate Unrelated(changes: seq<Change>, id: nat, names: set<Name>) {
    forall c | c in changes ::
      c.id != id && (c.Joined? ==> Sorted(c.forest) && NamesOf(c.forest) !! names)
  }

  /** With any joins and leaves of other hosts in between, leaving still undoes
      joining, as long as the others bring none of the names it submitted. */
  lemma {:induction false} LeaveUndoesJoinLater(s: Forest, theirs: Forest, id: nat, changes: seq<Change>)
    requires Sorted(s) && Sorted(theirs)
    requires forall n | n in s :: n.hostId != id
    requires Unrelated(changes, id, NamesOf(theirs))
    ensures RemoveOf(AfterChanges(Merge(s, TagAll(theirs, id)), changes), id) == AfterChanges(s, changes)
    ensures Sorted(AfterChanges(Merge(s, TagAll(theirs, id)), changes))
    ensures NamesOf(RemoveNotOf(AfterChanges(Merge(s, TagAll(theirs, id)), changes), id)) <= NamesOf(theirs)
  {
    var joined := Merge(s, TagAll(theirs, id));
    TagAllMembers(theirs, id);
    MergeMembers(s, TagAll(theirs, id));
    if changes == [] {
      LeaveUndoesJoin(s, theirs, id);
      RemoveNotOfMembers(joined, id);
    } else {
      var k := |changes| - 1;
      LeaveUndoesJoinLater(s, theirs, id, changes[..k]);
      var now := AfterChanges(joined, changes[..k]);
      assert changes[k] in changes;
      match changes[k] {
        case Joined(other, forest) =>
          TagAllMembers(forest, other);
          MergeMembers(now, TagAll(forest, other));
          LeaveCommutesWithJoin(now, TagAll(forest, other), id);
          OthersUntouched(now, forest, other, id);
        case Left(other) =>
          RemoveOfMembers(now, other);
          OthersUntouched(now, [], other, id);
          RemovalsCommute(now, id, other);
      }
    }
  }

  lemma {:induction false} RemovalsCommute(s: Forest, a: nat, b: nat)
    ensures RemoveOf(RemoveOf(s, a), b) == RemoveOf(RemoveOf(s, b), a)
  {
    if s == [] {
    } else {
      RemovalsCommute(s[1..], a, b);
      var ra, rb := RemoveOf(s[1..], a), RemoveOf(s[1..], b);
      assert ([s[0]] + ra)[1..] == ra && ([s[0]] + rb)[1..] == rb;
      assert [] + ra == ra && [] + rb == rb;
    }
  }

  // ---------------------------------------------------------------------------
  // Path lookup

  /** Component by component, starting below the root. */
  function Walk(s: Forest, path: seq<Name>): Option<Node>
    requires path != []
    decreases |path|
  {
    match Child(s, path[0])
    case None => None
    case Some(n) => if |path| == 1 then Some(n) else Walk(n.children, path[1..])
  }

  /** The components that count: "." is skipped wherever it appears. */
  function Significant(components: seq<Name>): seq<Name> {
    if components == [] then []
    else Significant(components[..|components| - 1]) +
         (if components[|components| - 1] == "." then [] else [components[|components| - 1]])
  }

  function FirstSlash(path: seq<Name>): nat
    ensures FirstSlash(path) <= |path|
    ensures "/" !in path[..FirstSlash(path)]
    ensures FirstSlash(path) < |path| ==> path[FirstSlash(path)] == "/"
  {
    if path == [] || path[0] == "/" then 0
    else
      assert path == [path[0]] + path[1..];
      1 + FirstSlash(path[1..])
  }

  /** What a path denotes: nothing without a root component, the root itself when
      nothing follows it, and the walk below the root otherwise. */
  function Denotes(root: Node, components: seq<Name>): Option<Node> {
    var path := Significant(components);
    var k := FirstSlash(path);
    if k == |path| then None else Below(root, path, k)
  }

  /** The node denoted by the components after position `k`, where the root is. */
  function Below(root: Node, path: seq<Name>, k: nat): Option<Node>
    requires k < |path|
  {
    if k + 1 == |path| then Some(root) else Walk(root.children, path[k + 1..])
  }

  /** On a merged tree the first component decides which input answers. */
  lemma WalkMerged(ours: Forest, theirs: Forest, path: seq<Name>)
    requires Sorted(ours) && Sorted(theirs) && path != []
    ensures Walk(Merge(ours, theirs), path)
            == if path[0] in NamesOf(ours) then Walk(ours, path) else Walk(theirs, path)
  {
    var m := Merge(ours, theirs);
    MergeMembers(ours, theirs);
    MergeNames(ours, theirs);
    ChildMembers(m, path[0]);
    ChildMembers(ours, path[0]);
    ChildMembers(theirs, path[0]);
    if path[0] in NamesOf(ours) {
      ChildOf(m, Child(ours, path[0]).value);
    } else if path[0] in NamesOf(theirs) {
      ChildOf(m, Child(theirs, path[0]).value);
    }
  }

  /** The same for full paths: below the root of a merged tree, the input that has
      the first component answers. */
  lemma DenotesMerged(root: Node, ours: Forest, theirs: Forest, components: seq<Name>)
    requires Sorted(ours) && Sorted(theirs)
    requires FirstSlash(Significant(components)) + 1 < |Significant(components)|
    ensures var first := Significant(components)[FirstSlash(Significant(components)) + 1];
            Denotes(root.(children := Merge(ours, theirs)), components) ==
            Denotes(root.(children := if first in NamesOf(ours) then ours else theirs), components)
  {
    hide Sorted, Merge, NamesOf, Walk, Significant, FirstSlash;
    var path := Significant(components);
    WalkMerged(ours, theirs, path[FirstSlash(path) + 1..]);
  }

  /** A lookup below the root returns a node of the host that owns the first
      component, and so a node that the tree owns. */
  lemma {:induction false} WalkOwner(s: Forest, path: seq<Name>)
    requires path != [] && Walk(s, path).Some?
    requires SingleOwners(s)
    ensures Child(s, path[0]).Some? && Child(s, path[0]).value in s
    ensures Walk(s, path).value.hostId == Child(s, path[0]).value.hostId
    ensures Owns(s, Walk(s, path).value.hostId)
    decreases |path|
  {
    ChildMembers(s, path[0]);
    var n := Child(s, path[0]).value;
    assert n in s && Uniform(n, n.hostId);
    if |path| > 1 {
      WalkOwner(n.children, path[1..]);
    }
  }

  /** Once a host is removed no lookup returns one of its nodes. */
  lemma DepartedNotFound(s: Forest, id: nat, path: seq<Name>)
    requires SingleOwners(s) && path != []
    ensures Walk(RemoveOf(s, id), path).Some? ==> Walk(RemoveOf(s, id), path).value.hostId != id
  {
    RemoveOfMembers(s, id);
    RemovalIsDeep(s, id, id);
    if Walk(RemoveOf(s, id), path).Some? {
      WalkOwner(RemoveOf(s, id), path);
    }
  }
}
