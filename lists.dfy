/** The lodash list helpers saveTags relies on: `_.union`, which joins lists
    keeping the first occurrence of every value, in order. */
module Lists {

  predicate NoDuplicates<T(==)>(s: seq<T>) {
    forall i, j :: 0 <= i < j < |s| ==> s[i] != s[j]
  }

  /** The values of `s` with every repeat after the first occurrence dropped. */
  function Dedup<T(==, !new)>(s: seq<T>): (r: seq<T>)
    ensures NoDuplicates(r)
    ensures forall x :: x in r <==> x in s
    ensures |r| <= |s|
    decreases |s|
  {
    if s == [] then []
    else
      var init := s[..|s| - 1];
      var last := s[|s| - 1];
      assert forall x :: x in s <==> x in init || x == last by {
        assert s == init + [last];
      }
      if last in init then Dedup(init) else Dedup(init) + [last]
  }

  /** A list without repeats is its own deduplication. */
  lemma {:induction false} DedupNoDuplicates<T(!new)>(s: seq<T>)
    requires NoDuplicates(s)
    ensures Dedup(s) == s
    decreases |s|
  {
    if s != [] {
      var init := s[..|s| - 1];
      assert NoDuplicates(init);
      DedupNoDuplicates(init);
      assert s[|s| - 1] !in init;
      assert s == init + [s[|s| - 1]];
    }
  }

  /** Deduplicating a longer list keeps the deduplication of its prefix as a prefix. */
  lemma {:induction false} DedupPrefix<T(!new)>(a: seq<T>, b: seq<T>)
    ensures Dedup(a) <= Dedup(a + b)
    decreases |b|
  {
    if b == [] {
      assert a + b == a;
    } else {
      var init := b[..|b| - 1];
      DedupPrefix(a, init);
      assert (a + b)[..|a + b| - 1] == a + init;
    }
  }

  /** `_.union(a, b)`: the values of both lists, each once, in order of first occurrence. */
  function Union<T(==, !new)>(a: seq<T>, b: seq<T>): (r: seq<T>)
    ensures NoDuplicates(r)
    ensures forall x :: x in r <==> x in a || x in b
  {
    Dedup(a + b)
  }

  /** When the first list has no repeats, the union starts with it unchanged. */
  lemma UnionKeepsFirst<T(!new)>(a: seq<T>, b: seq<T>)
    requires NoDuplicates(a)
    ensures a <= Union(a, b)
    ensures |Union(a, b)| <= |a| + |b|
  {
    DedupNoDuplicates(a);
    DedupPrefix(a, b);
  }

  /** Two lists without repeats and without a common value are simply concatenated. */
  lemma UnionDisjoint<T(!new)>(a: seq<T>, b: seq<T>)
    requires NoDuplicates(a) && NoDuplicates(b)
    requires forall x :: x in a ==> x !in b
    ensures Union(a, b) == a + b
  {
    assert NoDuplicates(a + b) by {
      forall i, j | 0 <= i < j < |a + b|
        ensures (a + b)[i] != (a + b)[j]
      {
        if j >= |a| && i < |a| {
          assert (a + b)[i] in a && (a + b)[j] in b;
        }
      }
    }
    DedupNoDuplicates(a + b);
  }
}
