/** Sorted lists of column names without repetition, as `Vec::sort` orders a `HashSet`'s elements. */
module Names {

  /** The strict lexicographic order of strings. */
  predicate Before(a: string, b: string) {
    b != "" && (a == "" || a[0] < b[0] || (a[0] == b[0] && Before(a[1..], b[1..])))
  }

  lemma {:induction false} Irreflexive(a: string)
    ensures !Before(a, a)
  {
    if a != "" {
      Irreflexive(a[1..]);
    }
  }

  lemma {:induction false} Transitive(a: string, b: string, c: string)
    requires Before(a, b) && Before(b, c)
    ensures Before(a, c)
  {
    if a != "" && a[0] == b[0] == c[0] {
      Transitive(a[1..], b[1..], c[1..]);
    }
  }

  lemma {:induction false} Total(a: string, b: string)
    ensures a == b || Before(a, b) || Before(b, a)
  {
    if a != "" && b != "" && a[0] == b[0] {
      Total(a[1..], b[1..]);
      assert a == [a[0]] + a[1..] && b == [b[0]] + b[1..];
    }
  }

  predicate Ascending(v: seq<string>) {
    forall i, j | 0 <= i < j < |v| :: Before(v[i], v[j])
  }

  function Elements(v: seq<string>): set<string> {
    set x | x in v
  }

  lemma HasElements(v: seq<string>)
    ensures v != [] ==> Elements(v) != {}
  {
    if v != [] {
      assert v[0] in Elements(v);
    }
  }

  lemma ElementsSnoc(v: seq<string>, x: string)
    ensures Elements(v + [x]) == Elements(v) + {x}
  {
  }

  /** Two ascending lists of the same names are the same list. */
  lemma {:induction false} AscendingUnique(v: seq<string>, w: seq<string>)
    requires Ascending(v) && Ascending(w) && Elements(v) == Elements(w)
    ensures v == w
    decreases |v|
  {
    if v == [] {
      HasElements(w);
    } else {
      assert v[0] in Elements(w);
      FirstIsLeast(v, w);
      FirstIsLeast(w, v);
      Total(v[0], w[0]);
      RestElements(v);
      RestElements(w);
      AscendingUnique(v[1..], w[1..]);
      assert v == [v[0]] + v[1..] && w == [w[0]] + w[1..];
    }
  }

  lemma RestElements(v: seq<string>)
    requires v != [] && Ascending(v)
    ensures Ascending(v[1..]) && Elements(v[1..]) == Elements(v) - {v[0]}
  {
    assert forall j | 0 <= j < |v| - 1 :: v[1..][j] == v[j + 1];
    Irreflexive(v[0]);
    assert v == [v[0]] + v[1..];
    assert v[0] !in v[1..];
    forall x ensures x in Elements(v[1..]) <==> x in Elements(v) - {v[0]} {
    }
  }

  /** Nothing in a list of the same names comes before its first. */
  lemma FirstIsLeast(v: seq<string>, w: seq<string>)
    requires v != [] && w != [] && Ascending(v) && Elements(v) == Elements(w)
    ensures !Before(w[0], v[0])
  {
    assert w[0] in Elements(v);
    var k :| 0 <= k < |v| && v[k] == w[0];
    Irreflexive(v[0]);
    if Before(w[0], v[0]) && k > 0 {
      Transitive(v[0], v[k], v[0]);
    }
  }

  function InsertName(v: seq<string>, x: string): seq<string> {
    if v == [] then [x]
    else if x == v[0] then v
    else if Before(x, v[0]) then [x] + v
    else [v[0]] + InsertName(v[1..], x)
  }

  lemma {:induction false} InsertNameElements(v: seq<string>, x: string)
    ensures forall y :: y in InsertName(v, x) <==> y == x || y in v
  {
    if v != [] {
      InsertNameElements(v[1..], x);
      assert v == [v[0]] + v[1..];
    }
  }

  lemma {:induction false} InsertNameAscending(v: seq<string>, x: string)
    requires Ascending(v)
    ensures Ascending(InsertName(v, x))
  {
    if v != [] && x != v[0] {
      Total(x, v[0]);
      if Before(x, v[0]) {
        forall j | 0 <= j < |v| ensures Before(x, v[j]) {
          if j > 0 {
            Transitive(x, v[0], v[j]);
          }
        }
      } else {
        RestElements(v);
        var w := InsertName(v[1..], x);
        InsertNameElements(v[1..], x);
        InsertNameAscending(v[1..], x);
        forall j | 0 <= j < |w| ensures Before(v[0], w[j]) {
          assert w[j] in w;
          if w[j] != x {
            assert w[j] in v[1..];
            var k :| 0 <= k < |v[1..]| && v[1..][k] == w[j];
            assert v[k + 1] == w[j];
          }
        }
      }
    }
  }

  /** The names of a list, sorted, each once. */
  function SortedNames(ks: seq<string>): (v: seq<string>)
    ensures Ascending(v)
    ensures forall y :: y in v <==> y in ks
  {
    if ks == [] then []
    else
      var v, x := SortedNames(ks[..|ks| - 1]), ks[|ks| - 1];
      assert ks == ks[..|ks| - 1] + [x];
      InsertNameAscending(v, x);
      InsertNameElements(v, x);
      InsertName(v, x)
  }

  /** `set.into_iter().collect()` and `v.sort()`, whatever order the set is enumerated in. */
  method Sort(names: set<string>) returns (v: seq<string>)
    ensures Ascending(v) && Elements(v) == names
  {
    v := [];
    var rest := names;
    while rest != {}
      invariant rest <= names && Ascending(v)
      invariant forall y :: y in v <==> y in names && y !in rest
      decreases |rest|
    {
      var x :| x in rest;
      InsertNameAscending(v, x);
      InsertNameElements(v, x);
      v, rest := InsertName(v, x), rest - {x};
    }
  }
}
