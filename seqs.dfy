/** Small sequence vocabulary shared by the pipeline stages: an optional value
    (a pandas cell that may be missing) and the order-preserving row filter
    that boolean-mask indexing and `dropna` perform on a table. */
module Seqs {

  /** A value that may be absent (NaN in a pandas column). */
  datatype Option<T> = None | Some(value: T)

  /** The rows of `s` satisfying `p`, in their original order. */
  function Filter<T>(s: seq<T>, p: T -> bool): (r: seq<T>)
    ensures |r| <= |s|
    ensures forall i :: 0 <= i < |r| ==> r[i] in s && p(r[i])
    ensures forall i :: 0 <= i < |s| && p(s[i]) ==> s[i] in r
  {
    if s == [] then []
    else (if p(s[0]) then [s[0]] else []) + Filter(s[1..], p)
  }

  /** Filtering splits over concatenation: survivors of an earlier part come
      before survivors of a later part, i.e. relative order is preserved. */
  lemma {:induction false} FilterConcat<T>(a: seq<T>, b: seq<T>, p: T -> bool)
    ensures Filter(a + b, p) == Filter(a, p) + Filter(b, p)
  {
    if a == [] {
      assert a + b == b;
    } else {
      assert (a + b)[0] == a[0];
      assert (a + b)[1..] == a[1..] + b;
      FilterConcat(a[1..], b, p);
    }
  }

  /** A filter whose predicate every row already satisfies removes nothing. */
  lemma {:induction false} FilterKeepsAll<T>(s: seq<T>, p: T -> bool)
    requires forall x :: x in s ==> p(x)
    ensures Filter(s, p) == s
  {
    if s != [] {
      assert s[0] in s;
      assert forall x :: x in s[1..] ==> x in s;
      FilterKeepsAll(s[1..], p);
    }
  }

  /** The number of rows of `s` that `p` rejects. */
  function CountRejected<T>(s: seq<T>, p: T -> bool): nat
  {
    if s == [] then 0 else (if p(s[0]) then 0 else 1) + CountRejected(s[1..], p)
  }

  /** Exactly the rejected rows are dropped. */
  lemma {:induction false} FilterLength<T>(s: seq<T>, p: T -> bool)
    ensures |Filter(s, p)| + CountRejected(s, p) == |s|
  {
    if s != [] {
      FilterLength(s[1..], p);
    }
  }

  /** A row that passes sits in the filtered table right after the survivors
      of the rows before it, and the filtered table up to it is the filtered
      prefix of the input up to it. */
  lemma {:induction false} FilterSplitAt<T>(s: seq<T>, p: nat, f: T -> bool)
    requires p < |s| && f(s[p])
    ensures var q := |Filter(s[..p], f)|;
            q < |Filter(s, f)| && Filter(s, f)[q] == s[p] &&
            Filter(s, f)[..q + 1] == Filter(s[..p + 1], f)
  {
    var a := Filter(s[..p], f);
    assert s[..p + 1] == s[..p] + [s[p]];
    assert [s[p]][1..] == [];
    FilterConcat(s[..p], [s[p]], f);
    assert s[..p + 1] + s[p + 1..] == s;
    FilterConcat(s[..p + 1], s[p + 1..], f);
    assert Filter(s[..p + 1], f) == a + [s[p]];
    assert Filter(s, f)[..|a| + 1] == a + [s[p]];
  }
}
