/** The directory tree: nodes, the operations on the root's children, and the
    laws of those operations.  A `std::set<TreeNode>` is modelled by the sequence
    its iterator visits, which is strictly sorted by name. */
module Trees {
  import opened Names

  datatype Option<+T> = None | Some(value: T)

  datatype FileType =
    | Regular | Directory | CharDevice | BlockDevice | Fifo | Symlink | Socket | Unknown

  datatype Attributes = Attributes(
    kind: FileType, size: nat, uid: nat, gid: nat,
    atime: nat, mtime: nat, ctime: nat, numLinks: nat)

  datatype Node = Node(name: Name, attributes: Attributes, hostId: nat, children: Forest)

  /** The children of one node, in iteration order. */
  type Forest = seq<Node>

  ghost predicate Sorted(s: Forest) {
    forall i, j | 0 <= i < j < |s| :: Less(s[i].name, s[j].name)
  }

  /** Every set of children, at every depth, is strictly sorted by name. */
  ghost predicate WellFormed(s: Forest)
    decreases s
  {
    Sorted(s) && forall n | n in s :: WellFormed(n.children)
  }

  ghost function NamesOf(s: Forest): set<Name> {
    set n | n in s :: n.name
  }

  /** The node and all its descendants belong to `id`. */
  ghost predicate Uniform(n: Node, id: nat) {
    n.hostId == id && forall c | c in n.children :: Uniform(c, id)
  }

  // ---------------------------------------------------------------------------
  // Operations on the root's children

  function RemoveOf(s: Forest, id: nat): Forest {
    if s == [] then []
    else (if s[0].hostId == id then [] else [s[0]]) + RemoveOf(s[1..], id)
  }

  function RemoveNotOf(s: Forest, id: nat): Forest {
    if s == [] then []
    else (if s[0].hostId != id then [] else [s[0]]) + RemoveNotOf(s[1..], id)
  }

  /** Insertion into a set: a name already present stays as it is. */
  function Insert(s: Forest, n: Node): Forest {
    if s == [] then [n]
    else if n.name == s[0].name then s
    else if Less(n.name, s[0].name) then [n] + s
    else [s[0]] + Insert(s[1..], n)
  }

  function Merge(ours: Forest, theirs: Forest): Forest {
    if theirs == [] then ours
    else Insert(Merge(ours, theirs[..|theirs| - 1]), theirs[|theirs| - 1])
  }

  /** What `setHostID` makes of a set of children. */
  function TagAll(s: Forest, id: nat): Forest {
    if s == [] then []
    else [Node(s[0].name, s[0].attributes, id, TagAll(s[0].children, id))] + TagAll(s[1..], id)
  }

  function Child(s: Forest, name: Name): Option<Node> {
    if s == [] then None
    else if s[0].name == name then Some(s[0])
    else Child(s[1..], name)
  }

  /** Names of `theirs`, in order, that also name an entry of `ours`. */
  function Common(theirs: Forest, ours: Forest): seq<Name> {
    if theirs == [] then []
    else Common(theirs[..|theirs| - 1], ours) +
         (if Child(ours, theirs[|theirs| - 1].name).Some? then [theirs[|theirs| - 1].name] else [])
  }

  /** The children that are not named in `lost`. */
  function Without(s: Forest, lost: seq<Name>): Forest {
    if s == [] then []
    else (if s[0].name in lost then [] else [s[0]]) + Without(s[1..], lost)
  }

  // ---------------------------------------------------------------------------
  // Membership

  lemma {:induction false} RemoveOfMembers(s: Forest, id: nat)
    ensures forall n :: n in RemoveOf(s, id) <==> n in s && n.hostId != id
    ensures Sorted(s) ==> Sorted(RemoveOf(s, id))
  {
    if s == [] {
    } else {
      RemoveOfMembers(s[1..], id);
      assert s == [s[0]] + s[1..];
      if Sorted(s) && s[0].hostId != id {
        SortedCons(s[0], s[1..], RemoveOf(s[1..], id));
      }
    }
  }

  lemma {:induction false} RemoveNotOfMembers(s: Forest, id: nat)
    ensures forall n :: n in RemoveNotOf(s, id) <==> n in s && n.hostId == id
    ensures Sorted(s) ==> Sorted(RemoveNotOf(s, id))
  {
    if s == [] {
    } else {
      RemoveNotOfMembers(s[1..], id);
      assert s == [s[0]] + s[1..];
      if Sorted(s) && s[0].hostId == id {
        SortedCons(s[0], s[1..], RemoveNotOf(s[1..], id));
      }
    }
  }

  lemma {:induction false} WithoutMembers(s: Forest, lost: seq<Name>)
    ensures forall n :: n in Without(s, lost) <==> n in s && n.name !in lost
    ensures Sorted(s) ==> Sorted(Without(s, lost))
  {
    if s == [] {
    } else {
      WithoutMembers(s[1..], lost);
      assert s == [s[0]] + s[1..];
      if Sorted(s) && s[0].name !in lost {
        SortedCons(s[0], s[1..], Without(s[1..], lost));
      }
    }
  }

  /** Prepending the first of a sorted sequence to a sorted part of the rest. */
  lemma SortedCons(first: Node, rest: Forest, part: Forest)
    requires Sorted([first] + rest) && Sorted(part)
    requires forall n | n in part :: n in rest
    ensures Sorted([first] + part)
  {
    var all := [first] + rest;
    var s := [first] + part;
    forall i, j | 0 <= i < j < |s|
      ensures Less(s[i].name, s[j].name)
    {
      assert s[j] == part[j - 1] && part[j - 1] in rest;
      if i == 0 {
        var k :| 0 <= k < |rest| && rest[k] == part[j - 1];
        assert Less(all[0].name, all[k + 1].name);
      } else {
        assert s[i] == part[i - 1];
      }
    }
  }

  /** In a sorted sequence a name determines its entry. */
  lemma NameDetermines(s: Forest, a: Node, b: Node)
    requires Sorted(s) && a in s && b in s && a.name == b.name
    ensures a == b
  {
    NamesDistinct(s);
    var i :| 0 <= i < |s| && s[i] == a;
    var j :| 0 <= j < |s| && s[j] == b;
    assert i == j;
  }

  lemma NamesDistinct(s: Forest)
    requires Sorted(s)
    ensures forall i, j | 0 <= i < |s| && 0 <= j < |s| && s[i].name == s[j].name :: i == j
  {
    forall i, j | 0 <= i < j < |s|
      ensures s[i].name != s[j].name
    {
      assert Less(s[i].name, s[j].name);
      LessAsymmetric(s[i].name, s[j].name);
    }
  }

  /** A sorted sequence is determined by its members. */
  lemma {:induction false} SameMembers(s: Forest, t: Forest)
    requires Sorted(s) && Sorted(t)
    requires forall n :: n in s <==> n in t
    ensures s == t
  {
    assert s == [] || s[0] in s;
    assert t == [] || t[0] in t;
    if s == [] {
    } else {
      SameFirst(s, t);
      forall n
        ensures n in s[1..] <==> n in t[1..]
      {
        FirstNotInRest(s);
        FirstNotInRest(t);
        assert n in s <==> n == s[0] || n in s[1..] by { assert s == [s[0]] + s[1..]; }
        assert n in t <==> n == t[0] || n in t[1..] by { assert t == [t[0]] + t[1..]; }
      }
      SameMembers(s[1..], t[1..]);
      assert s == [s[0]] + s[1..] == [t[0]] + t[1..] == t;
    }
  }

  lemma FirstNotInRest(s: Forest)
    requires Sorted(s) && s != []
    ensures s[0] !in s[1..]
  {
    if s[0] in s[1..] {
      var j :| 0 <= j < |s| - 1 && s[1..][j] == s[0];
      assert Less(s[0].name, s[j + 1].name);
      LessIrreflexive(s[0].name);
    }
  }

  lemma SameFirst(s: Forest, t: Forest)
    requires Sorted(s) && Sorted(t) && s != [] && t != []
    requires forall n :: n in s <==> n in t
    ensures s[0] == t[0]
  {
    assert s[0] in t && t[0] in s;
    var i :| 0 <= i < |t| && t[i] == s[0];
    var j :| 0 <= j < |s| && s[j] == t[0];
    assert t[0] == s[0] || Less(t[0].name, s[0].name);
    assert s[0] == t[0] || Less(s[0].name, t[0].name);
    if Less(t[0].name, s[0].name) {
      LessAsymmetric(t[0].name, s[0].name);
    }
  }

  lemma {:induction false} ChildMembers(s: Forest, name: Name)
    ensures Child(s, name).Some? <==> name in NamesOf(s)
    ensures Child(s, name).Some? ==> Child(s, name).value in s && Child(s, name).value.name == name
  {
    if s == [] {
    } else {
      ChildMembers(s[1..], name);
      assert s == [s[0]] + s[1..];
      assert s[0] in s && s[0].name in NamesOf(s);
    }
  }

  lemma ChildOf(s: Forest, n: Node)
    requires Sorted(s) && n in s
    ensures Child(s, n.name) == Some(n)
  {
    ChildMembers(s, n.name);
    assert n.name in NamesOf(s);
    NameDetermines(s, n, Child(s, n.name).value);
  }

  lemma {:induction false} InsertMembers(s: Forest, n: Node)
    requires Sorted(s)
    ensures forall x :: x in Insert(s, n) <==> x in s || (x == n && n.name !in NamesOf(s))
    ensures Sorted(Insert(s, n))
  {
    if s == [] {
    } else if n.name == s[0].name {
      assert s[0] in s;
    } else if Less(n.name, s[0].name) {
      InsertFirst(s, n);
    } else {
      LessTotal(s[0].name, n.name);
      InsertMembers(s[1..], n);
      NamesCons(s);
      assert s == [s[0]] + s[1..];
      InsertLater(s, n, Insert(s[1..], n));
    }
  }

  lemma InsertLater(s: Forest, n: Node, r: Forest)
    requires Sorted(s) && s != [] && Sorted(r) && Less(s[0].name, n.name)
    requires forall x | x in r :: x in s[1..] || x == n
    ensures Sorted([s[0]] + r)
  {
    hide Less;
    var all := [s[0]] + r;
    forall i, j | 0 <= i < j < |all|
      ensures Less(all[i].name, all[j].name)
    {
      assert all[j] == r[j - 1] && r[j - 1] in r;
      if i > 0 {
        assert all[i] == r[i - 1];
      } else if all[j] != n {
        var k :| 0 <= k < |s| - 1 && s[1..][k] == all[j];
        assert Less(s[0].name, s[k + 1].name);
      }
    }
  }

  lemma NamesNone()
    ensures NamesOf([]) == {}
  {
  }

  lemma NamesCons(s: Forest)
    requires s != []
    ensures NamesOf(s) == NamesOf(s[1..]) + {s[0].name}
  {
    assert s == [s[0]] + s[1..];
    forall x | x in NamesOf(s[1..]) + {s[0].name}
      ensures x in NamesOf(s)
    {
      if x in NamesOf(s[1..]) {
        var n :| n in s[1..] && n.name == x;
        assert n in s;
      } else {
        assert s[0] in s;
      }
    }
  }

  lemma InsertFirst(s: Forest, n: Node)
    requires Sorted(s) && s != [] && Less(n.name, s[0].name)
    ensures Sorted([n] + s)
    ensures n.name !in NamesOf(s)
  {
    var all := [n] + s;
    forall j | 0 <= j < |s|
      ensures Less(n.name, s[j].name)
    {
      if j > 0 {
        assert Less(s[0].name, s[j].name);
        LessTransitive(n.name, s[0].name, s[j].name);
      }
    }
    forall i, j | 0 <= i < j < |all|
      ensures Less(all[i].name, all[j].name)
    {
      assert all[j] == s[j - 1];
      if i > 0 { assert all[i] == s[i - 1]; }
    }
    if n.name in NamesOf(s) {
      var x :| x in s && x.name == n.name;
      var j :| 0 <= j < |s| && s[j] == x;
      LessIrreflexive(n.name);
      assert false;
    }
  }

  lemma SortedPrefix(s: Forest, k: nat)
    requires Sorted(s) && k <= |s|
    ensures Sorted(s[..k])
  {
  }

  /** Everything `merge` does, in one statement: the entries that were there,
      and those newcomers whose name was free. */
  lemma {:induction false} MergeMembers(ours: Forest, theirs: Forest)
    requires Sorted(ours) && Sorted(theirs)
    ensures forall n :: n in Merge(ours, theirs) <==>
              n in ours || (n in theirs && n.name !in NamesOf(ours))
    ensures Sorted(Merge(ours, theirs))
  {
    if theirs == [] {
    } else {
      hide Less, Insert, Sorted, NamesOf;
      var k := |theirs| - 1;
      var init, last := theirs[..k], theirs[k];
      SortedPrefix(theirs, k);
      MergeMembers(ours, init);
      var m := Merge(ours, init);
      InsertMembers(m, last);
      MergeLast(ours, theirs, m);
      assert forall n :: n in theirs <==> n in init || n == last by {
        assert theirs == init + [last];
      }
    }
  }

  /** The last newcomer finds its name taken exactly if it was taken at the start. */
  lemma MergeLast(ours: Forest, theirs: Forest, m: Forest)
    requires Sorted(theirs) && theirs != []
    requires forall n :: n in m <==> n in ours || (n in theirs[..|theirs| - 1] && n.name !in NamesOf(ours))
    ensures var name := theirs[|theirs| - 1].name;
            name in NamesOf(m) <==> name in NamesOf(ours)
  {
    hide Less;
    var k := |theirs| - 1;
    var name := theirs[k].name;
    if name in NamesOf(ours) {
      var x :| x in ours && x.name == name;
      assert x in m;
    }
    NamesDistinct(theirs);
    forall x | x in theirs[..k]
      ensures x.name != name
    {
      var i :| 0 <= i < k && theirs[i] == x;
    }
  }

  lemma {:induction false} TagAllMembers(s: Forest, id: nat)
    ensures |TagAll(s, id)| == |s|
    ensures forall i | 0 <= i < |s| ::
              TagAll(s, id)[i] == Node(s[i].name, s[i].attributes, id, TagAll(s[i].children, id))
    ensures NamesOf(TagAll(s, id)) == NamesOf(s)
    ensures Sorted(s) ==> Sorted(TagAll(s, id))
    ensures forall n | n in TagAll(s, id) :: n.hostId == id
    decreases s
  {
    hide Less, NamesOf;
    NamesNone();
    if s == [] {
    } else {
      TagAllMembers(s[1..], id);
      var t := TagAll(s, id);
      assert t[0].name == s[0].name && t[1..] == TagAll(s[1..], id);
      NamesCons(s);
      NamesCons(t);
      assert forall i | 0 <= i < |s| :: t[i].name == s[i].name;
    }
  }
}
