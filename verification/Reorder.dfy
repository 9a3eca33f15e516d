/**
Reordering the children of a parent: the targets of a published model, the endpoints or the credentials of a site. The
submitted ids must name every child exactly once; otherwise, or when the parent's revision is stale, nothing changes.
*/
module Reorder {
  datatype Child = Child(parent: int, position: int, revision: int)

  datatype Outcome = Reordered | NotFound | RevisionConflict | WrongCount | Duplicate | Foreign

  /** The revisions of the parents and the child rows. */
  datatype Tables = Tables(parents: map<int, int>, children: map<int, Child>)

  function ChildrenOf(children: map<int, Child>, parent: int): set<int> {
    set id | id in children && children[id].parent == parent
  }

  function Ids(ids: seq<int>): set<int> { set i | 0 <= i < |ids| :: ids[i] }

  predicate Distinct(ids: seq<int>) {
    forall i, j :: 0 <= i < j < |ids| ==> ids[i] != ids[j]
  }

  /** The ids name every child of the parent exactly once. */
  predicate Permutes(ids: seq<int>, children: map<int, Child>, parent: int) {
    Distinct(ids) && Ids(ids) == ChildrenOf(children, parent)
  }

  /** The child rows after a reorder: the i-th id at position i. */
  function Renumber(children: map<int, Child>, ids: seq<int>): map<int, Child>
    requires forall i :: 0 <= i < |ids| ==> ids[i] in children
  {
    if ids == [] then children
    else
      var n := |ids| - 1;
      var rest := Renumber(children, ids[..n]);
      rest[ids[n] := Child(children[ids[n]].parent, n, children[ids[n]].revision + 1)]
  }

  /** The child at each listed id is renumbered; `before` has all but the last of them. */
  lemma NextRenumbered(children: map<int, Child>, ids: seq<int>, before: map<int, Child>)
    requires ids != [] && (forall i :: 0 <= i < |ids| ==> ids[i] in children) && Distinct(ids)
    requires before.Keys == children.Keys
    requires forall i :: 0 <= i < |ids| - 1 ==>
      before[ids[i]] == Child(children[ids[i]].parent, i, children[ids[i]].revision + 1)
    ensures var n := |ids| - 1;
      var after := before[ids[n] := Child(children[ids[n]].parent, n, children[ids[n]].revision + 1)];
      && after.Keys == children.Keys
      && forall i :: 0 <= i < |ids| ==>
           after[ids[i]] == Child(children[ids[i]].parent, i, children[ids[i]].revision + 1)
  {
  }

  lemma {:induction false} RenumberIs(children: map<int, Child>, ids: seq<int>)
    requires (forall i :: 0 <= i < |ids| ==> ids[i] in children) && Distinct(ids)
    ensures var after := Renumber(children, ids);
      && after.Keys == children.Keys
      && (forall i :: 0 <= i < |ids| ==>
           after[ids[i]] == Child(children[ids[i]].parent, i, children[ids[i]].revision + 1))
      && (forall id :: id in children && id !in Ids(ids) ==> after[id] == children[id])
  {
    if ids != [] {
      var n := |ids| - 1;
      RenumberIs(children, ids[..n]);
      NextRenumbered(children, ids, Renumber(children, ids[..n]));
      IdsGrow(ids, n);
      assert ids[..n + 1] == ids;
    }
  }

  class Store {
    var tables: Tables

    constructor (tables: Tables)
      ensures this.tables == tables
    {
      this.tables := tables;
    }

    /** One reorder transaction. It commits exactly when the parent is current and the ids permute its children; then
        every child is renumbered, its revision and the parent's grow by one, and nothing else changes. */
    method ReorderChildren(parent: int, expected: int, ids: seq<int>) returns (outcome: Outcome)
      modifies this
      ensures outcome == Reordered <==>
        parent in old(tables).parents && (expected <= 0 || old(tables).parents[parent] == expected) &&
        Permutes(ids, old(tables).children, parent)
      ensures outcome == Reordered ==>
        (forall i :: 0 <= i < |ids| ==> ids[i] in old(tables).children) &&
        tables == Tables(old(tables).parents[parent := old(tables).parents[parent] + 1],
                         Renumber(old(tables).children, ids))
      ensures outcome != Reordered ==> tables == old(tables)
      ensures outcome == NotFound <==> parent !in old(tables).parents
      ensures outcome == RevisionConflict <==>
        parent in old(tables).parents && expected > 0 && old(tables).parents[parent] != expected
    {
      if parent !in tables.parents {
        return NotFound;
      }
      if expected > 0 && tables.parents[parent] != expected {
        return RevisionConflict;
      }
      var next := tables.(parents := tables.parents[parent := tables.parents[parent] + 1]);
      if |ChildrenOf(tables.children, parent)| != |ids| {
        NotPermuted(ids, tables.children, parent);
        return WrongCount;
      }
      var seen: set<int> := {};
      for position := 0 to |ids|
        invariant tables == old(tables)
        invariant seen == Ids(ids[..position]) && Distinct(ids[..position])
        invariant seen <= ChildrenOf(tables.children, parent)
        invariant forall i :: 0 <= i < position ==> ids[i] in tables.children
        invariant next.parents == tables.parents[parent := tables.parents[parent] + 1]
        invariant next.children == Renumber(tables.children, ids[..position])
      {
        var id := ids[position];
        IdsGrow(ids, position);
        if id in seen {
          return Duplicate;
        }
        seen := seen + {id};
        if id !in tables.children || tables.children[id].parent != parent {
          assert ids[position] in Ids(ids);
          return Foreign;
        }
        assert ids[..position + 1][..position] == ids[..position];
        next := next.(children :=
          next.children[id := Child(tables.children[id].parent, position, tables.children[id].revision + 1)]);
      }
      assert ids[..|ids|] == ids;
      Pigeonhole(ids, ChildrenOf(tables.children, parent));
      tables := next;
      return Reordered;
    }
  }

  lemma IdsGrow(ids: seq<int>, n: nat)
    requires n < |ids|
    ensures Ids(ids[..n + 1]) == Ids(ids[..n]) + {ids[n]}
    ensures Distinct(ids[..n]) && ids[n] !in Ids(ids[..n]) ==> Distinct(ids[..n + 1])
    ensures ids[n] in Ids(ids[..n]) ==> !Distinct(ids)
  {
    var a, b := ids[..n], ids[..n + 1];
    assert forall i :: 0 <= i < n ==> a[i] == b[i] == ids[i];
    assert b[n] == ids[n];
    forall id | id in Ids(a) ensures id in Ids(b) {
      var i :| 0 <= i < n && a[i] == id;
      assert b[i] == id;
    }
    if Distinct(a) && ids[n] !in Ids(a) {
      assert forall i :: 0 <= i < n ==> a[i] in Ids(a);
    }
  }

  lemma {:induction false} Count(ids: seq<int>)
    requires Distinct(ids)
    ensures |Ids(ids)| == |ids|
  {
    if ids == [] {
      assert Ids(ids) == {};
    } else {
      var n := |ids| - 1;
      Count(ids[..n]);
      IdsGrow(ids, n);
      assert ids[..n + 1] == ids;
    }
  }

  lemma NotPermuted(ids: seq<int>, children: map<int, Child>, parent: int)
    requires |ChildrenOf(children, parent)| != |ids|
    ensures !Permutes(ids, children, parent)
  {
    if Distinct(ids) { Count(ids); }
  }

  /** As many distinct ids as there are children, all of them children: none is missing. */
  lemma Pigeonhole(ids: seq<int>, members: set<int>)
    requires Distinct(ids) && |ids| == |members| && Ids(ids) <= members
    ensures Ids(ids) == members
  {
    Count(ids);
    var missing := members - Ids(ids);
    assert members == Ids(ids) + missing;
    assert |members| == |Ids(ids)| + |missing|;
  }

  // ----- what a committed reorder means

  /** Each position from 0 to n - 1 belongs to exactly one child. */
  predicate Numbered(children: map<int, Child>, parent: int, n: nat) {
    && (forall id :: id in ChildrenOf(children, parent) ==> 0 <= children[id].position < n)
    && (forall a, b :: a in ChildrenOf(children, parent) && b in ChildrenOf(children, parent) ==>
         (children[a].position == children[b].position <==> a == b))
    && (forall p :: 0 <= p < n ==> Occupied(children, parent, p))
  }

  predicate Occupied(children: map<int, Child>, parent: int, p: int) {
    exists id :: id in ChildrenOf(children, parent) && children[id].position == p
  }

  /** The children read back in order of position, then id. */
  predicate ReadInOrder(s: seq<int>, children: map<int, Child>, parent: int) {
    && Ids(s) == ChildrenOf(children, parent)
    && forall i, j :: 0 <= i < j < |s| ==>
         s[i] in children && s[j] in children &&
         (children[s[i]].position < children[s[j]].position
          || (children[s[i]].position == children[s[j]].position && s[i] < s[j]))
  }

  lemma Kept(children: map<int, Child>, parent: int, ids: seq<int>)
    requires Permutes(ids, children, parent) && forall i :: 0 <= i < |ids| ==> ids[i] in children
    ensures ChildrenOf(Renumber(children, ids), parent) == ChildrenOf(children, parent)
    ensures forall i :: 0 <= i < |ids| ==>
      ids[i] in Renumber(children, ids) && Renumber(children, ids)[ids[i]].position == i
  {
    RenumberIs(children, ids);
    var after := Renumber(children, ids);
    forall id | id in children ensures after[id].parent == children[id].parent {
      if id in Ids(ids) {
        var i :| 0 <= i < |ids| && ids[i] == id;
      }
    }
  }

  /** After a committed reorder the positions of the children are a bijection onto 0..n-1, and reading them back in
      order gives exactly the submitted list. */
  lemma ReorderIsPermutation(children: map<int, Child>, parent: int, ids: seq<int>, s: seq<int>)
    requires Permutes(ids, children, parent) && forall i :: 0 <= i < |ids| ==> ids[i] in children
    ensures Numbered(Renumber(children, ids), parent, |ids|)
    ensures ReadInOrder(s, Renumber(children, ids), parent) <==> s == ids
  {
    Kept(children, parent, ids);
    var after := Renumber(children, ids);
    forall id | id in ChildrenOf(after, parent)
      ensures 0 <= after[id].position < |ids| && ids[after[id].position] == id
    {
      assert id in Ids(ids);
      var i :| 0 <= i < |ids| && ids[i] == id;
    }
    forall p | 0 <= p < |ids| ensures Occupied(after, parent, p) {
      assert ids[p] in Ids(ids);
    }
    if ReadInOrder(s, after, parent) {
      ReadBack(after, parent, ids, s);
    }
  }

  lemma ReadBack(after: map<int, Child>, parent: int, ids: seq<int>, s: seq<int>)
    requires Distinct(ids) && Ids(ids) == ChildrenOf(after, parent) && ReadInOrder(s, after, parent)
    requires forall i :: 0 <= i < |ids| ==> ids[i] in after && after[ids[i]].position == i
    ensures s == ids
  {
    Count(ids);
    assert Distinct(s);
    Count(s);
    forall i | 0 <= i < |s| ensures s[i] in Ids(ids) && s[i] in after && ids[after[s[i]].position] == s[i] {
      assert s[i] in Ids(s);
      var j :| 0 <= j < |ids| && ids[j] == s[i];
    }
    Rising(after, s, |s|);
  }

  /** Strictly rising positions below |s| are 0, 1, 2, ... */
  lemma {:induction false} Rising(after: map<int, Child>, s: seq<int>, n: nat)
    requires n <= |s| && forall i :: 0 <= i < |s| ==> s[i] in after && 0 <= after[s[i]].position < |s|
    requires forall i, j :: 0 <= i < j < |s| ==> after[s[i]].position < after[s[j]].position
    ensures forall i :: 0 <= i < n ==> after[s[i]].position == i
  {
    if n > 0 {
      Rising(after, s, n - 1);
      AtMost(after, s, n - 1);
    }
  }

  lemma {:induction false} AtMost(after: map<int, Child>, s: seq<int>, i: nat)
    requires i < |s| && forall k :: 0 <= k < |s| ==> s[k] in after && 0 <= after[s[k]].position < |s|
    requires forall k, l :: 0 <= k < l < |s| ==> after[s[k]].position < after[s[l]].position
    ensures i <= after[s[i]].position <= i
    decreases |s| - i
  {
    AtLeast(after, s, i);
    if i + 1 < |s| {
      AtMost(after, s, i + 1);
    }
  }

  lemma {:induction false} AtLeast(after: map<int, Child>, s: seq<int>, i: nat)
    requires i < |s| && forall k :: 0 <= k < |s| ==> s[k] in after && 0 <= after[s[k]].position < |s|
    requires forall k, l :: 0 <= k < l < |s| ==> after[s[k]].position < after[s[l]].position
    ensures i <= after[s[i]].position
  {
    if i > 0 {
      AtLeast(after, s, i - 1);
    }
  }
}
