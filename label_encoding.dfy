/** The categorical label encoder used for team and venue names: fitted once
    on a list of labels, after which its classes are the distinct labels in
    sorted order and a label's code is its position among them. */
module LabelEncoding {
  import opened Seqs

  // ---------------------------------------------------------------------
  // Sorted order of the classes
  // ---------------------------------------------------------------------

  /** Lexicographic order on strings by character code point, the order in
      which the classes are sorted. */
  predicate Less(a: string, b: string)
    decreases |a|
  {
    if a == [] then b != []
    else if b == [] then false
    else if a[0] != b[0] then a[0] < b[0]
    else Less(a[1..], b[1..])
  }

  lemma {:induction false} LessIrreflexive(a: string)
    ensures !Less(a, a)
    decreases |a|
  {
    if a != [] {
      LessIrreflexive(a[1..]);
    }
  }

  lemma {:induction false} LessTransitive(a: string, b: string, c: string)
    requires Less(a, b) && Less(b, c)
    ensures Less(a, c)
    decreases |a|
  {
    if a != [] && b != [] && c != [] && a[0] == b[0] && b[0] == c[0] {
      LessTransitive(a[1..], b[1..], c[1..]);
    }
  }

  lemma {:induction false} LessTotal(a: string, b: string)
    requires a != b
    ensures Less(a, b) || Less(b, a)
    decreases |a|
  {
    if a != [] && b != [] && a[0] == b[0] {
      assert a == [a[0]] + a[1..] && b == [b[0]] + b[1..];
      LessTotal(a[1..], b[1..]);
    }
  }

  /** Each element is strictly below every later one. */
  predicate StrictlySorted(s: seq<string>)
  {
    forall i, j :: 0 <= i < j < |s| ==> Less(s[i], s[j])
  }

  /** No element occurs twice. */
  predicate Distinct(s: seq<string>)
  {
    forall i, j :: 0 <= i < j < |s| ==> s[i] != s[j]
  }

  lemma {:induction false} SortedIsDistinct(s: seq<string>)
    requires StrictlySorted(s)
    ensures Distinct(s)
  {
    forall i, j | 0 <= i < j < |s| ensures s[i] != s[j] {
      if s[i] == s[j] {
        LessIrreflexive(s[i]);
      }
    }
  }

  /** Something below the head of a sorted list is below all of it. */
  lemma {:induction false} BelowHead(x: string, s: seq<string>)
    requires StrictlySorted(s) && s != [] && Less(x, s[0])
    ensures forall j :: 0 <= j < |s| ==> Less(x, s[j])
  {
    forall j | 0 < j < |s| ensures Less(x, s[j]) {
      LessTransitive(x, s[0], s[j]);
    }
  }

  /** `x` added to a strictly sorted list at its place, unless already present. */
  function Insert(x: string, s: seq<string>): (r: seq<string>)
    requires StrictlySorted(s)
    ensures StrictlySorted(r)
    ensures forall y :: y in r <==> y in s || y == x
  {
    if s == [] then [x]
    else if x == s[0] then s
    else if Less(x, s[0]) then
      BelowHead(x, s);
      [x] + s
    else
      LessTotal(x, s[0]);
      var t := Insert(x, s[1..]);
      assert forall y :: y in t ==> Less(s[0], y) by {
        forall y | y in t ensures Less(s[0], y) {
          if y != x {
            var j :| 0 <= j < |s[1..]| && s[1..][j] == y;
            assert s[j + 1] == y;
          }
        }
      }
      assert forall j :: 0 < j < |[s[0]] + t| ==> ([s[0]] + t)[j] in t;
      [s[0]] + t
  }

  /** The distinct labels of `xs`, sorted (the fitted classes). */
  function SortedUnique(xs: seq<string>): (r: seq<string>)
    ensures StrictlySorted(r)
    ensures forall y :: y in r <==> y in xs
  {
    if xs == [] then [] else Insert(xs[0], SortedUnique(xs[1..]))
  }

  function Elements(s: seq<string>): set<string>
  {
    set y | y in s
  }

  lemma {:induction false} DistinctCard(s: seq<string>)
    requires Distinct(s)
    ensures |Elements(s)| == |s|
  {
    if s != [] {
      var t := s[1..];
      assert Distinct(t) by {
        forall i, j | 0 <= i < j < |t| ensures t[i] != t[j] {
          assert t[i] == s[i + 1] && t[j] == s[j + 1];
        }
      }
      DistinctCard(t);
      assert s[0] !in Elements(t) by {
        forall j | 0 <= j < |t| ensures t[j] != s[0] {
          assert t[j] == s[j + 1];
        }
      }
      assert Elements(s) == {s[0]} + Elements(t) by {
        assert s == [s[0]] + t;
      }
    }
  }

  /** `classes` is what fitting on `labels` yields: the labels' distinct
      values, each once, in strictly increasing order. */
  predicate SortedClassesOf(classes: seq<string>, labels: seq<string>)
  {
    StrictlySorted(classes) &&
    (forall y :: y in classes ==> y in labels) &&
    (forall y :: y in labels ==> y in classes)
  }

  lemma {:induction false} LessAsymmetric(a: string, b: string)
    ensures !(Less(a, b) && Less(b, a))
  {
    if Less(a, b) && Less(b, a) {
      LessTransitive(a, b, a);
      LessIrreflexive(a);
    }
  }

  /** Two strictly sorted lists with the same elements are equal: the
      fitted classes are determined by the labels alone. */
  lemma {:induction false} SortedByElements(a: seq<string>, b: seq<string>)
    requires StrictlySorted(a) && StrictlySorted(b)
    requires forall y :: y in a <==> y in b
    ensures a == b
  {
    if a != [] {
      assert a[0] in b;
      var k :| 0 <= k < |b| && b[k] == a[0];
      assert b[0] in a;
      var m :| 0 <= m < |a| && a[m] == b[0];
      LessAsymmetric(a[0], b[0]);
      LessIrreflexive(a[0]);
      assert a[0] == b[0];
      forall y | y in a[1..] ensures y in b[1..] {
        var i :| 0 <= i < |a[1..]| && a[1..][i] == y;
        assert Less(a[0], a[i + 1]);
        assert y in a && y in b;
        var j :| 0 <= j < |b| && b[j] == y;
        assert j != 0;
        assert b[1..][j - 1] == y;
      }
      forall y | y in b[1..] ensures y in a[1..] {
        var i :| 0 <= i < |b[1..]| && b[1..][i] == y;
        assert Less(b[0], b[i + 1]);
        assert y in b && y in a;
        var j :| 0 <= j < |a| && a[j] == y;
        assert j != 0;
        assert a[1..][j - 1] == y;
      }
      SortedByElements(a[1..], b[1..]);
      assert a == [a[0]] + a[1..] && b == [b[0]] + b[1..];
    } else {
      SortedIsDistinct(b);
      DistinctCard(b);
      assert Elements(b) == {};
    }
  }

  /** The insertion sort computes the fitted classes. */
  lemma {:induction false} SortedUniqueIsSortedClasses(labels: seq<string>)
    ensures SortedClassesOf(SortedUnique(labels), labels)
    ensures forall c :: SortedClassesOf(c, labels) ==> c == SortedUnique(labels)
  {
    forall c | SortedClassesOf(c, labels) ensures c == SortedUnique(labels) {
      SortedByElements(c, SortedUnique(labels));
    }
  }

  /** Fitting on a list of distinct labels yields exactly that many classes. */
  lemma {:induction false} SortedClassesLength(classes: seq<string>, labels: seq<string>)
    requires SortedClassesOf(classes, labels) && Distinct(labels)
    ensures |classes| == |labels|
  {
    SortedIsDistinct(classes);
    DistinctCard(classes);
    DistinctCard(labels);
    assert Elements(classes) == Elements(labels);
  }

  // ---------------------------------------------------------------------
  // Lookup of a label's position
  // ---------------------------------------------------------------------

  /** The position of `x` in `s`, if it occurs. */
  function IndexOf(s: seq<string>, x: string): (r: Option<nat>)
    ensures r.Some? <==> x in s
    ensures r.Some? ==> r.value < |s| && s[r.value] == x
  {
    if s == [] then None
    else if s[0] == x then Some(0)
    else match IndexOf(s[1..], x)
      case None => None
      case Some(k) => Some(k + 1)
  }

  // ---------------------------------------------------------------------
  // The encoder object
  // ---------------------------------------------------------------------

  class LabelEncoder {
    /** The known labels, sorted; empty before fitting. */
    var classes: seq<string>

    constructor ()
      ensures classes == []
    {
      classes := [];
    }

    /** Learn the classes from `labels`: their distinct values, sorted. */
    method Fit(labels: seq<string>)
      modifies this
      ensures SortedClassesOf(classes, labels)
    {
      classes := SortedUnique(labels);
    }

    /** The code of one name: its position among the classes; None for a
        name the encoder was not fitted on. */
    function Encode(name: string): (r: Option<nat>)
      reads this
      ensures r.Some? <==> name in classes
      ensures r.Some? ==> r.value < |classes| && classes[r.value] == name
    {
      IndexOf(classes, name)
    }

    /** The name of a code; None for a code outside the class range. */
    function Decode(code: int): (r: Option<string>)
      reads this
      ensures r.Some? <==> 0 <= code < |classes|
      ensures r.Some? ==> r.value in classes
    {
      if 0 <= code < |classes| then Some(classes[code]) else None
    }

    /** Encode a whole column; fails (None) exactly when some name is unknown. */
    method Transform(labels: seq<string>) returns (codes: Option<seq<nat>>)
      ensures codes.Some? <==> forall i :: 0 <= i < |labels| ==> labels[i] in classes
      ensures codes.Some? ==> |codes.value| == |labels|
      ensures codes.Some? ==> forall i :: 0 <= i < |labels| ==> Encode(labels[i]) == Some(codes.value[i])
    {
      var out: seq<nat> := [];
      var i := 0;
      while i < |labels|
        invariant 0 <= i <= |labels|
        invariant |out| == i
        invariant forall j :: 0 <= j < i ==> labels[j] in classes && Encode(labels[j]) == Some(out[j])
      {
        var c := IndexOf(classes, labels[i]);
        if c.None? {
          return None;
        }
        out := out + [c.value];
        i := i + 1;
      }
      codes := Some(out);
    }
  }

  /** Decoding the code of a known name gives the name back. */
  lemma {:induction false} DecodeEncode(e: LabelEncoder, name: string)
    requires name in e.classes
    ensures e.Encode(name).Some? && e.Decode(e.Encode(name).value) == Some(name)
  {
  }

  /** With distinct classes, encoding the name of a code gives the code back. */
  lemma {:induction false} EncodeDecode(e: LabelEncoder, code: int)
    requires StrictlySorted(e.classes)
    requires 0 <= code < |e.classes|
    ensures e.Decode(code).Some? && e.Encode(e.Decode(code).value) == Some(code)
  {
    SortedIsDistinct(e.classes);
  }

  /** An encoder fitted on a list of distinct labels gives each of them a
      different code in 0 .. |vocab| - 1, and decoding returns the name. */
  lemma {:induction false} FittedOnVocabulary(e: LabelEncoder, vocab: seq<string>)
    requires Distinct(vocab)
    requires SortedClassesOf(e.classes, vocab)
    ensures |e.classes| == |vocab|
    ensures forall v :: v in vocab ==>
              e.Encode(v).Some? && e.Encode(v).value < |vocab| && e.Decode(e.Encode(v).value) == Some(v)
    ensures forall v, w :: v in vocab && w in vocab && v != w ==> e.Encode(v) != e.Encode(w)
  {
    SortedClassesLength(e.classes, vocab);
  }
}
