/** The adaptive radix tree as a map from keys to values. */
module ArtTree {

  import opened Octets
  import opened ArtLayout
  import opened ArtPaths
  import opened Options
  import opened ArtOps
  import opened ArtInsert
  import opened ArtDelete
  import opened ArtOrder

  /** The tree holds the map. */
  ghost predicate Holds(n: Node, m: map<Key, nat>) {
    forall k: Key, v: nat {:trigger Has(n, k, v)} :: Has(n, k, v) <==> k in m && m[k] == v
  }

  /** No key of the map is a proper prefix of k, or has k as one. */
  ghost predicate PrefixFree(m: map<Key, nat>, k: Key) {
    forall j: Key :: j in m && j != k ==> !(j <= k) && !(k <= j)
  }

  class Tree {
    var root: Node
    var size: nat
    ghost var contents: map<Key, nat>

    ghost predicate Valid()
      reads this
    {
      IsNode(root, []) && Holds(root, contents) && size == |contents|
    }

    /** art_tree_init. */
    constructor ()
      ensures Valid() && contents == map[]
    {
      root, size, contents := Nil, 0, map[];
    }

    /** art_search, whatever lies in memory behind the key. */
    method Search(k: Key, beyond: nat -> Byte) returns (r: Option<nat>)
      requires Valid()
      ensures r == if k in contents then Some(contents[k]) else None
    {
      r := ArtOps.Search(root, k, beyond);
      assert r.Some? ==> Has(root, k, r.value);
      assert k in contents ==> Has(root, k, contents[k]);
    }

    /** art_insert: the old value is returned. */
    method Insert(k: Key, v: nat) returns (was: Option<nat>)
      requires Valid() && PrefixFree(contents, k)
      modifies this
      ensures Valid() && contents == old(contents)[k := v]
      ensures was == if k in old(contents) then Some(old(contents)[k]) else None
    {
      var n;
      assert [] <= k;
      n, was := ArtInsert.Insert(root, k, v, 0, []);
      assert was.Some? ==> Has(root, k, was.value);
      assert k in contents ==> Has(root, k, contents[k]);
      if was.None? {
        size := size + 1;
      }
      assert contents[k := v].Keys == contents.Keys + {k};
      root, contents := n, contents[k := v];
    }

    /** art_delete: the value is returned, if there was one. */
    method Delete(k: Key, beyond: nat -> Byte) returns (gone: Option<nat>)
      requires Valid()
      modifies this
      ensures Valid() && contents == old(contents) - {k}
      ensures gone == if k in old(contents) then Some(old(contents)[k]) else None
    {
      var n;
      n, gone := ArtDelete.Delete(root, k, beyond, 0, []);
      assert gone.Some? ==> Has(root, k, gone.value);
      assert k in contents ==> Has(root, k, contents[k]);
      assert (contents - {k}).Keys == contents.Keys - {k};
      if gone.Some? {
        size := size - 1;
      } else {
        assert contents - {k} == contents;
      }
      root, contents := n, contents - {k};
    }

    /** art_iter: every key of the map once, in lexicographic order. */
    method Iter() returns (s: seq<Entry>)
      requires Valid()
      ensures Ascending(s) && |s| == |contents| && forall k: Key, v: nat :: (k, v) in s <==>
          k in contents && contents[k] == v
    {
      s := Iterate(root, []);
      ListedSize(s, contents);
    }

    /** art_minimum. */
    method Minimum() returns (l: Node)
      requires Valid()
      ensures if contents == map[] then l == Nil
              else l.Leaf? && l.key in contents && contents[l.key] == l.val && forall k: Key ::
                  k in contents && k != l.key ==> Precedes(l.key, k)
    {
      EmptyIsNil(root, contents);
      l := Nil;
      if root != Nil {
        l := ArtOps.Minimum(root, []);
        forall k: Key | k in contents && k != l.key ensures Precedes(l.key, k) { assert Has(root, k, contents[k]); }
      }
    }

    /** art_maximum. */
    method Maximum() returns (l: Node)
      requires Valid()
      ensures if contents == map[] then l == Nil
              else l.Leaf? && l.key in contents && contents[l.key] == l.val && forall k: Key ::
                  k in contents && k != l.key ==> Precedes(k, l.key)
    {
      EmptyIsNil(root, contents);
      l := Nil;
      if root != Nil {
        l := Last(root, []);
        forall k: Key | k in contents && k != l.key ensures Precedes(k, l.key) { assert Has(root, k, contents[k]); }
      }
    }
  }

  lemma EmptyIsNil(n: Node, m: map<Key, nat>)
    requires IsNode(n, []) && Holds(n, m)
    ensures n == Nil <==> m == map[]
  {
    if n != Nil {
      var k, v := AnyLeaf(n, []);
      assert k in m;
    } else {
      forall k: Key ensures k !in m { assert k in m ==> Has(n, k, m[k]); }
    }
  }

  /** The entries of the map are the elements of the list. */
  ghost predicate ListOf(s: seq<Entry>, m: map<Key, nat>) {
    forall k: Key, v: nat :: (k, v) in s <==> k in m && m[k] == v
  }

  lemma InList(s: seq<Entry>, m: map<Key, nat>, k: Key)
    requires ListOf(s, m) && k in m
    ensures (k, m[k]) in s
  {}

  lemma SomeListed(s: seq<Entry>, m: map<Key, nat>)
    requires ListOf(s, m) && m != map[]
    ensures s != []
  {
    var k :| k in m;
    InList(s, m, k);
  }

  lemma ShorterList(s: seq<Entry>, m: map<Key, nat>, l: nat)
    requires Ascending(s) && ListOf(s, m) && |s| == l + 1
    ensures s[l].0 in m && ListOf(s[..l], m - {s[l].0})
  {
    var t := s[..l];
    var (a, x) := s[l];
    assert s == t + [(a, x)] && (a, x) in s;
    var m' := m - {a};
    forall k: Key, v: nat ensures (k, v) in t <==> k in m' && m'[k] == v {
      if (k, v) in t {
        var i :| 0 <= i < l && t[i] == (k, v);
        PrecedesNot(s[i].0, s[l].0);
        assert (k, v) in s;
      }
      if k in m' && m'[k] == v { InList(s, m, k); }
    }
  }

  /** A list of distinct keys is as long as the map it lists. */
  lemma {:induction false} ListedSize(s: seq<Entry>, m: map<Key, nat>)
    requires Ascending(s) && ListOf(s, m)
    ensures |s| == |m|
    decreases |s|
  {
    if s == [] {
      if m != map[] { SomeListed(s, m); }
    } else {
      var l := |s| - 1;
      ShorterList(s, m, l);
      ListedSize(s[..l], m - {s[l].0});
      assert m.Keys == (m - {s[l].0}).Keys + {s[l].0};
    }
  }
}
