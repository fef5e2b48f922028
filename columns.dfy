/** Column discovery: which keys of a record become columns, and what a discovered column order is. */
module Columns {
  import opened Types
  import opened Folding

  /** `stringInSlice(s, p)`: some element of `p` equals `s` up to case folding. */
  function StringInSlice(s: string, p: seq<string>): (r: bool)
    ensures r <==> exists i :: 0 <= i < |p| && EqualFold(s, p[i])
  {
    if p == [] then false
    else EqualFold(s, p[0]) || StringInSlice(s, p[1..])
  }

  /** The keys the remote client adds to every record for its own use. */
  const Metadata: seq<string> := ["__client__", "attributes"]

  predicate IsMetadata(key: string)
  {
    StringInSlice(key, Metadata)
  }

  /** The keys of `r` that become columns. */
  function FilteredKeys(r: Record): set<string>
  {
    set k | k in r && !IsMetadata(k)
  }

  predicate NoDuplicates(s: seq<string>)
  {
    forall i, j :: 0 <= i < j < |s| ==> s[i] != s[j]
  }

  /** `columns` is an order in which the map iteration over `r` may list its non-metadata keys:
      every such key exactly once, and nothing else. */
  predicate IsColumnOrder(columns: seq<string>, r: Record)
  {
    && NoDuplicates(columns)
    && (forall k :: k in columns ==> k in FilteredKeys(r))
    && (forall k :: k in FilteredKeys(r) ==> k in columns)
  }

  /** A key is metadata exactly when folding its case gives one of the metadata names: the names are
      already in folded form, so the case-insensitive match is a match on the folded key. */
  lemma MetadataByFolding(key: string)
    ensures IsMetadata(key) <==> FoldAll(key) in Metadata
  {
    forall m | m in Metadata ensures FoldAll(m) == m {
      assert forall i :: 0 <= i < |m| ==> Fold(m[i]) == m[i];
    }
    forall m | m in Metadata ensures EqualFold(key, m) <==> FoldAll(key) == m {
      assert FoldAll(m) == m;
      if FoldAll(key) == m {
        assert forall i :: 0 <= i < |key| ==> Fold(key[i]) == FoldAll(key)[i] == Fold(m[i]);
      }
    }
    assert Metadata[0] == "__client__" && Metadata[1] == "attributes";
  }

  /** The value of field `key` in `r`; an absent key reads as nil. */
  function Lookup(r: Record, key: string): Value
  {
    if key in r then r[key] else Nil
  }

  lemma {:induction false} NoDuplicatesCardinality(s: seq<string>)
    requires NoDuplicates(s)
    ensures |set x | x in s| == |s|
  {
    if s != [] {
      NoDuplicatesCardinality(s[1..]);
      assert (set x | x in s) == {s[0]} + (set x | x in s[1..]);
      assert s[0] !in s[1..];
    }
  }

  lemma {:induction false} NoDuplicatesMultiplicity(s: seq<string>, x: string)
    requires NoDuplicates(s)
    ensures multiset(s)[x] == if x in s then 1 else 0
  {
    if s != [] {
      assert s == [s[0]] + s[1..];
      NoDuplicatesMultiplicity(s[1..], x);
      assert s[0] !in s[1..];
    }
  }

  /** Every order of the same record has the same number of columns: the number of its non-metadata keys. */
  lemma ColumnOrderWidth(columns: seq<string>, r: Record)
    requires IsColumnOrder(columns, r)
    ensures |columns| == |FilteredKeys(r)|
  {
    NoDuplicatesCardinality(columns);
    assert (set x | x in columns) == FilteredKeys(r);
  }

  /** Two orders discovered from the same record differ only by a permutation. */
  lemma ColumnOrdersArePermutations(a: seq<string>, b: seq<string>, r: Record)
    requires IsColumnOrder(a, r) && IsColumnOrder(b, r)
    ensures multiset(a) == multiset(b)
  {
    forall x ensures multiset(a)[x] == multiset(b)[x] {
      NoDuplicatesMultiplicity(a, x);
      NoDuplicatesMultiplicity(b, x);
    }
  }
}
