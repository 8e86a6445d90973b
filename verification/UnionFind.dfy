/** The compact union-find of road_network.py: parent links, union by rank, two-pass path
    compression and class sizes kept at the roots. */
module UnionFind {
  import opened Wrappers

  function Pow2(n: nat): nat {
    if n == 0 then 1 else 2 * Pow2(n - 1)
  }

  lemma {:induction false} Pow2Monotone(a: nat, b: nat)
    requires a <= b
    ensures Pow2(a) <= Pow2(b)
  {
    if a < b { Pow2Monotone(a, b - 1); }
  }

  /** The three lists of the structure, as one value. */
  datatype Forest = Forest(parent: seq<nat>, rank: seq<nat>, size: seq<nat>)

  /** The members of the class whose root is r. */
  function Class(root: seq<nat>, r: nat): set<nat> {
    set i: nat | i < |root| && root[i] == r
  }

  /** `root` is the partition the forest stands for: it names each element's root. */
  ghost predicate Represents(f: Forest, root: seq<nat>) {
    && |f.parent| == |f.rank| == |f.size| == |root|
    && (forall i :: 0 <= i < |root| ==> Linked(f, root, i))
    && (forall r :: 0 <= r < |root| && root[r] == r ==> Weighed(f, root, r))
  }

  /** Ranks strictly increase along parents, and an element and its parent have one root. */
  ghost predicate Linked(f: Forest, root: seq<nat>, i: nat)
    requires |f.parent| == |f.rank| == |f.size| == |root| && i < |root|
  {
    var p := f.parent[i];
    && p < |root| && root[i] < |root|
    && root[p] == root[i]
    && (p == i <==> root[i] == i)
    && (p != i ==> f.rank[i] < f.rank[p])
  }

  /** A root's size is exactly the size of its class, which holds at least 2^rank elements. */
  ghost predicate Weighed(f: Forest, root: seq<nat>, r: nat)
    requires |f.parent| == |f.rank| == |f.size| == |root| && r < |root|
  {
    f.size[r] == |Class(root, r)| && Pow2(f.rank[r]) <= f.size[r]
  }

  function Highest(s: seq<nat>): (h: nat)
    ensures forall i :: 0 <= i < |s| ==> s[i] <= h
  {
    if s == [] then 0
    else
      var h := Highest(s[..|s| - 1]);
      if s[|s| - 1] > h then s[|s| - 1] else h
  }

  /** The number of links from i up to its root. */
  function Depth(f: Forest, root: seq<nat>, i: nat): nat
    requires Represents(f, root) && i < |root|
    decreases Highest(f.rank) - f.rank[i]
  {
    assert Linked(f, root, i);
    if f.parent[i] == i then 0 else 1 + Depth(f, root, f.parent[i])
  }

  lemma {:induction false} DepthBelowRank(f: Forest, root: seq<nat>, i: nat)
    requires Represents(f, root) && i < |root|
    ensures root[i] < |root| && root[root[i]] == root[i]
    ensures Depth(f, root, i) + f.rank[i] <= f.rank[root[i]]
    ensures root[i] != i ==> f.rank[i] < f.rank[root[i]]
    decreases Highest(f.rank) - f.rank[i]
  {
    assert Linked(f, root, i);
    if f.parent[i] != i {
      DepthBelowRank(f, root, f.parent[i]);
    }
  }

  lemma ClassFitsIn(root: seq<nat>, r: nat)
    ensures |Class(root, r)| <= |root|
  {
    SetFits(Class(root, r), |root|);
  }

  /** No element is more than log2(n) links from its root. */
  lemma FindIsLogarithmic(f: Forest, root: seq<nat>, i: nat)
    requires Represents(f, root) && i < |root|
    ensures Pow2(Depth(f, root, i)) <= |root|
  {
    DepthBelowRank(f, root, i);
    var r := root[i];
    assert Weighed(f, root, r);
    Pow2Monotone(Depth(f, root, i), f.rank[r]);
    ClassFitsIn(root, r);
  }

  /** Pointing an element straight at its root changes no class. */
  lemma CompressionKeepsRoots(f: Forest, root: seq<nat>, x: nat)
    requires Represents(f, root) && x < |root| && root[x] != x
    ensures root[x] < |root| && Represents(f.(parent := f.parent[x := root[x]]), root)
  {
    DepthBelowRank(f, root, x);
    var f' := f.(parent := f.parent[x := root[x]]);
    forall i | 0 <= i < |root| ensures Linked(f', root, i) {
      assert Linked(f, root, i);
    }
    forall r | 0 <= r < |root| && root[r] == r ensures Weighed(f', root, r) {
      assert Weighed(f, root, r);
    }
  }

  /** The partition in which the class of `loser` has joined that of `winner`. */
  function Merged(root: seq<nat>, loser: nat, winner: nat): (r: seq<nat>)
    ensures |r| == |root|
  {
    seq(|root|, i requires 0 <= i < |root| => if root[i] == loser then winner else root[i])
  }

  function Hang(f: Forest, loser: nat, winner: nat, rank: nat): Forest
    requires |f.parent| == |f.rank| == |f.size| && loser < |f.parent| && winner < |f.parent|
  {
    Forest(f.parent[loser := winner], f.rank[winner := rank], f.size[winner := f.size[winner] + f.size[loser]])
  }

  /** Hanging the loser's root below the winner's. */
  ghost predicate Hangs(f: Forest, root: seq<nat>, loser: nat, winner: nat, rank: nat) {
    && Represents(f, root) && loser < |root| && winner < |root| && loser != winner
    && root[loser] == loser && root[winner] == winner
    && f.rank[loser] < rank && f.rank[winner] <= rank
    && (rank == f.rank[winner] || (rank == f.rank[winner] + 1 && f.rank[loser] == f.rank[winner]))
  }

  lemma HangingKeepsLinks(f: Forest, root: seq<nat>, loser: nat, winner: nat, rank: nat, i: nat)
    requires Hangs(f, root, loser, winner, rank) && i < |root|
    ensures Linked(Hang(f, loser, winner, rank), Merged(root, loser, winner), i)
  {
    assert Linked(f, root, i);
  }

  lemma HangingKeepsWeights(f: Forest, root: seq<nat>, loser: nat, winner: nat, rank: nat, r: nat)
    requires Hangs(f, root, loser, winner, rank) && r < |root| && Merged(root, loser, winner)[r] == r
    ensures Weighed(Hang(f, loser, winner, rank), Merged(root, loser, winner), r)
  {
    var root' := Merged(root, loser, winner);
    if r == winner {
      assert Weighed(f, root, loser) && Weighed(f, root, winner);
      assert Class(root', winner) == Class(root, winner) + Class(root, loser);
      assert Class(root, winner) !! Class(root, loser);
      assert Pow2(f.rank[winner] + 1) == 2 * Pow2(f.rank[winner]);
    } else {
      assert Weighed(f, root, r);
      assert Class(root', r) == Class(root, r);
    }
  }

  lemma HangingMergesClasses(f: Forest, root: seq<nat>, loser: nat, winner: nat, rank: nat)
    requires Hangs(f, root, loser, winner, rank)
    ensures Represents(Hang(f, loser, winner, rank), Merged(root, loser, winner))
  {
    var f', root' := Hang(f, loser, winner, rank), Merged(root, loser, winner);
    forall i | 0 <= i < |root'| ensures Linked(f', root', i) {
      HangingKeepsLinks(f, root, loser, winner, rank, i);
    }
    forall r | 0 <= r < |root'| && root'[r] == r ensures Weighed(f', root', r) {
      HangingKeepsWeights(f, root, loser, winner, rank, r);
    }
    hide Linked, Weighed;
  }

  lemma UpOneLink(f: Forest, root: seq<nat>, i: nat)
    requires Represents(f, root) && i < |root|
    ensures f.parent[i] < |root| && root[f.parent[i]] == root[i] < |root|
    ensures f.parent[i] == i <==> root[i] == i
    ensures f.parent[i] != i ==>
              f.rank[i] < f.rank[f.parent[i]] <= Highest(f.rank)
              && Depth(f, root, i) == 1 + Depth(f, root, f.parent[i])
  {
    assert Linked(f, root, i);
  }

  class UnionFind {
    const parent: array<nat>
    const rank: array<nat>
    const size: array<nat>
    ghost var root: seq<nat>

    ghost const Repr: set<object> := {this, parent, rank, size}

    ghost function View(): Forest
      reads parent, rank, size
    {
      Forest(parent[..], rank[..], size[..])
    }

    ghost predicate Valid()
      reads this, parent, rank, size
    {
      parent != rank && parent != size && rank != size && Represents(View(), root)
    }

    constructor (n: nat)
      ensures Valid() && fresh(Repr)
      ensures |root| == n && forall i :: 0 <= i < n ==> root[i] == i
    {
      parent := new nat[n](i => i);
      rank := new nat[n](i => 0);
      size := new nat[n](i => 1);
      root := seq(n, i => i);
      new;
      var f := View();
      forall i | 0 <= i < n ensures Linked(f, root, i) {}
      forall r | 0 <= r < n && root[r] == r ensures Weighed(f, root, r) {
        assert Class(root, r) == {r};
      }
    }

    /** Returns the root and points everything on the way straight at it; `links` counts the
        links walked. */
    method Find(x0: nat) returns (r: nat, ghost links: nat)
      requires Valid() && x0 < |root|
      modifies parent
      ensures Valid() && root == old(root)
      ensures r == root[x0] && r < |root|
      ensures links == old(Depth(View(), root, x0)) && Pow2(links) <= |root|
    {
      FindIsLogarithmic(View(), root, x0);
      ghost var f, top := View(), Highest(rank[..]);
      r, links := x0, 0;
      while parent[r] != r
        invariant View() == f && Valid() && r < |root| && root[r] == root[x0]
        invariant links + Depth(f, root, r) == Depth(f, root, x0)
        decreases top - rank[r]
      {
        UpOneLink(f, root, r);
        r := parent[r];
        links := links + 1;
      }
      assert Linked(f, root, r);
      var x: nat := x0;
      while parent[x] != r
        invariant Valid() && parent.Length == rank.Length == |root| && View().rank == f.rank
        invariant root == old(root) && x < |root| && root[x] == r < |root| && root[r] == r
        decreases top - rank[x]
      {
        UpOneLink(View(), root, x);
        UpOneLink(View(), root, r);
        var next := parent[x];
        CompressionKeepsRoots(View(), root, x);
        ghost var before := View();
        parent[x] := r;
        assert View() == before.(parent := before.parent[x := r]);
        x := next;
      }
    }

    /** Merges the two classes; reports whether they were different. */
    method Union(a: nat, b: nat) returns (merged: bool)
      requires Valid() && a < |root| && b < |root|
      modifies Repr
      ensures Valid()
      ensures merged <==> old(root[a] != root[b])
      ensures !merged ==> root == old(root)
      ensures merged ==> (root == Merged(old(root), old(root[a]), old(root[b]))
                       || root == Merged(old(root), old(root[b]), old(root[a])))
    {
      var ra, _ := Find(a);
      var rb, _ := Find(b);
      if ra == rb {
        return false;
      }
      DepthBelowRank(View(), root, a);
      DepthBelowRank(View(), root, b);
      ghost var f := View();
      assert parent.Length == rank.Length == size.Length == |root|;
      hide Represents, Linked, Weighed, Merged;
      if rank[ra] < rank[rb] {
        HangingMergesClasses(f, root, ra, rb, rank[rb]);
        Attach(ra, rb, rank[rb]);
        root := Merged(root, ra, rb);
      } else if rank[ra] > rank[rb] {
        HangingMergesClasses(f, root, rb, ra, rank[ra]);
        Attach(rb, ra, rank[ra]);
        root := Merged(root, rb, ra);
      } else {
        HangingMergesClasses(f, root, rb, ra, rank[ra] + 1);
        Attach(rb, ra, rank[ra] + 1);
        root := Merged(root, rb, ra);
      }
      return true;
    }

    /** The writes of one branch of the union: link, size and rank. */
    method Attach(loser: nat, winner: nat, newRank: nat)
      requires parent != rank && parent != size && rank != size
      requires parent.Length == rank.Length == size.Length && loser < parent.Length && winner < parent.Length
      modifies parent, rank, size
      ensures View() == old(Hang(View(), loser, winner, newRank))
    {
      parent[loser] := winner;
      size[winner] := size[winner] + size[loser];
      rank[winner] := newRank;
    }

    method Connected(a: nat, b: nat) returns (yes: bool)
      requires Valid() && a < |root| && b < |root|
      modifies parent
      ensures Valid() && root == old(root)
      ensures yes <==> root[a] == root[b]
    {
      var ra, _ := Find(a);
      var rb, _ := Find(b);
      return ra == rb;
    }

    method ComponentSize(x: nat) returns (n: nat)
      requires Valid() && x < |root|
      modifies parent
      ensures Valid() && root == old(root)
      ensures n == |Class(root, root[x])|
    {
      var r, _ := Find(x);
      DepthBelowRank(View(), root, x);
      assert Weighed(View(), root, r);
      return size[r];
    }
  }
}
