/** Parameter names and the order they are processed in.

    The fit widget reads its parameter dictionary in ascending key order,
    taking the keys and sorting them in place, both when it builds the
    initial parameter vector and when it writes fitted values back, so the
    numeric vector handed to the solver lines up positionally with the names.
    Python compares strings character by character, a proper prefix coming
    first; `StrLe` below is that order. */
module Names {

  /** Lexicographic order on strings by character code, as Python's `<=` on `str`. */
  predicate StrLe(a: string, b: string)
    decreases |a|
  {
    |a| == 0 || (|b| > 0 && (a[0] < b[0] || (a[0] == b[0] && StrLe(a[1..], b[1..]))))
  }

  lemma {:induction false} StrLeReflexive(a: string)
    ensures StrLe(a, a)
    decreases |a|
  {
    if |a| > 0 { StrLeReflexive(a[1..]); }
  }

  lemma {:induction false} StrLeAntisymmetric(a: string, b: string)
    requires StrLe(a, b) && StrLe(b, a)
    ensures a == b
    decreases |a|
  {
    if |a| > 0 {
      StrLeAntisymmetric(a[1..], b[1..]);
      assert a == [a[0]] + a[1..] && b == [b[0]] + b[1..];
    }
  }

  lemma {:induction false} StrLeTransitive(a: string, b: string, c: string)
    requires StrLe(a, b) && StrLe(b, c)
    ensures StrLe(a, c)
    decreases |a|
  {
    if |a| > 0 && a[0] == b[0] && b[0] == c[0] {
      StrLeTransitive(a[1..], b[1..], c[1..]);
    }
  }

  lemma {:induction false} StrLeTotal(a: string, b: string)
    ensures StrLe(a, b) || StrLe(b, a)
    decreases |a|
  {
    if |a| > 0 && |b| > 0 && a[0] == b[0] {
      StrLeTotal(a[1..], b[1..]);
    }
  }

  /** Every element strictly precedes every later one: sorted, without duplicates. */
  predicate StrictlySorted(s: seq<string>)
  {
    forall i, j :: 0 <= i < j < |s| ==> StrLe(s[i], s[j]) && s[i] != s[j]
  }

  /** `m` is the smallest member of `s`. */
  predicate IsLeast(m: string, s: set<string>)
  {
    m in s && forall y :: y in s ==> StrLe(m, y)
  }

  /** Every non-empty finite set of names has a smallest member. */
  lemma {:induction false} LeastExists(s: set<string>)
    requires s != {}
    ensures exists m :: IsLeast(m, s)
    decreases |s|
  {
    var x :| x in s;
    if s == {x} {
      StrLeReflexive(x);
      assert IsLeast(x, s);
    } else {
      LeastExists(s - {x});
      var m :| IsLeast(m, s - {x});
      StrLeTotal(m, x);
      if StrLe(m, x) {
        assert IsLeast(m, s);
      } else {
        forall y | y in s ensures StrLe(x, y) {
          if y == x { StrLeReflexive(x); } else { StrLeTransitive(x, m, y); }
        }
        assert IsLeast(x, s);
      }
    }
  }

  lemma LeastUnique(m: string, n: string, s: set<string>)
    requires IsLeast(m, s) && IsLeast(n, s)
    ensures m == n
  {
    StrLeAntisymmetric(m, n);
  }

  ghost function Least(s: set<string>): (m: string)
    requires s != {}
    ensures IsLeast(m, s)
  {
    LeastExists(s);
    var m :| IsLeast(m, s); m
  }

  /** The names of `s` in ascending order: what `sorted(s)` returns. */
  ghost function SortedSeq(s: set<string>): seq<string>
    decreases |s|
  {
    if s == {} then [] else
      var m := Least(s);
      [m] + SortedSeq(s - {m})
  }

  /** `SortedSeq` lists each name of the set exactly once, in ascending order. */
  lemma {:induction false} SortedSeqSpec(s: set<string>)
    ensures StrictlySorted(SortedSeq(s))
    ensures forall x :: x in SortedSeq(s) <==> x in s
    ensures |SortedSeq(s)| == |s|
    decreases |s|
  {
    if s != {} {
      var m := Least(s);
      var r := SortedSeq(s - {m});
      SortedSeqSpec(s - {m});
      assert SortedSeq(s) == [m] + r;
      forall i, j | 0 <= i < j < |[m] + r|
        ensures StrLe(([m] + r)[i], ([m] + r)[j]) && ([m] + r)[i] != ([m] + r)[j]
      {
        if i > 0 {
          assert ([m] + r)[i] == r[i - 1] && ([m] + r)[j] == r[j - 1];
        } else {
          assert ([m] + r)[j] == r[j - 1];
          assert r[j - 1] in s - {m};
        }
      }
    }
  }

  /** The ascending order is the only duplicate-free sorted listing of a set of
      names, so the order in which the widget reads its parameters is a
      function of the key set alone. */
  lemma {:induction false} SortedUnique(a: seq<string>, b: seq<string>)
    requires StrictlySorted(a) && StrictlySorted(b)
    requires forall x :: x in a <==> x in b
    ensures a == b
    decreases |a|
  {
    if |a| > 0 { assert a[0] in a; }
    if |b| > 0 { assert b[0] in b; }
    if |a| > 0 && |b| > 0 {
      assert a[0] in b && b[0] in a;
      var i :| 0 <= i < |b| && b[i] == a[0];
      var j :| 0 <= j < |a| && a[j] == b[0];
      if a[0] != b[0] {
        assert i > 0 && j > 0;
        StrLeAntisymmetric(a[0], b[0]);
      }
      forall x ensures x in a[1..] <==> x in b[1..] {
        if x in a[1..] {
          var k :| 1 <= k < |a| && a[k] == x;
          assert x != b[0] && x in a;
          assert x in b;
          var l :| 0 <= l < |b| && b[l] == x;
          assert b[1..][l - 1] == x;
        }
        if x in b[1..] {
          var k :| 1 <= k < |b| && b[k] == x;
          assert x != a[0] && x in b;
          assert x in a;
          var l :| 0 <= l < |a| && a[l] == x;
          assert a[1..][l - 1] == x;
        }
      }
      SortedUnique(a[1..], b[1..]);
      assert a == [a[0]] + a[1..] && b == [b[0]] + b[1..];
    }
  }

  /** The sorted key list: lists the keys in ascending order by repeatedly
      taking the smallest one not yet listed. */
  method SortedNames(keys: set<string>) returns (names: seq<string>)
    ensures StrictlySorted(names)
    ensures forall x :: x in names <==> x in keys
    ensures names == SortedSeq(keys)
  {
    names := [];
    var rest := keys;
    while rest != {}
      invariant rest <= keys
      invariant names + SortedSeq(rest) == SortedSeq(keys)
      decreases |rest|
    {
      LeastExists(rest);
      var m :| IsLeast(m, rest);
      LeastUnique(m, Least(rest), rest);
      assert SortedSeq(rest) == [m] + SortedSeq(rest - {m});
      names := names + [m];
      rest := rest - {m};
    }
    assert SortedSeq(rest) == [] && names + [] == names;
    SortedSeqSpec(keys);
  }

  /** No name occurs twice. */
  predicate Distinct(s: seq<string>)
  {
    forall i, j :: 0 <= i < j < |s| ==> s[i] != s[j]
  }

  lemma SortedIsDistinct(s: seq<string>)
    requires StrictlySorted(s)
    ensures Distinct(s)
  {
  }

  function Min(a: int, b: int): int
  {
    if a < b then a else b
  }

  /** The dictionary a zip loop builds from an empty one, storing each value
      under the name at its position: pairs are taken in order and the
      longer sequence is cut to the length of the shorter. */
  function ZipMap<V>(names: seq<string>, vals: seq<V>): map<string, V>
    decreases |names|
  {
    var m := Min(|names|, |vals|);
    if m == 0 then map[] else ZipMap(names[..m - 1], vals[..m - 1])[names[m - 1] := vals[m - 1]]
  }

  /** Zipping the first `i + 1` pairs is zipping the first `i` and then
      storing pair `i`: one step of the zip loop. */
  lemma ZipMapStep<V>(names: seq<string>, vals: seq<V>, i: nat)
    requires i < |names| && i < |vals|
    ensures ZipMap(names[..i + 1], vals[..i + 1]) == ZipMap(names[..i], vals[..i])[names[i] := vals[i]]
  {
    assert names[..i + 1][..i] == names[..i] && vals[..i + 1][..i] == vals[..i];
  }

  /** Only the pairs zip takes matter. */
  lemma ZipMapTruncated<V>(names: seq<string>, vals: seq<V>)
    ensures ZipMap(names, vals) == ZipMap(names[..Min(|names|, |vals|)], vals[..Min(|names|, |vals|)])
  {
    var m := Min(|names|, |vals|);
    if m > 0 {
      assert names[..m][..m - 1] == names[..m - 1] && vals[..m][..m - 1] == vals[..m - 1];
    }
  }

  /** With distinct names the zipped dictionary has exactly the names that were
      paired as keys, and maps each to the value at its own position. */
  lemma {:induction false} ZipMapSpec<V>(names: seq<string>, vals: seq<V>)
    requires Distinct(names)
    ensures forall k :: k in ZipMap(names, vals) <==> k in names[..Min(|names|, |vals|)]
    ensures forall i :: 0 <= i < Min(|names|, |vals|) ==> ZipMap(names, vals)[names[i]] == vals[i]
    decreases |names|
  {
    var m := Min(|names|, |vals|);
    if m > 0 {
      var ns, vs := names[..m - 1], vals[..m - 1];
      assert Distinct(ns);
      ZipMapSpec(ns, vs);
      assert Min(|ns|, |vs|) == m - 1;
      assert ns[..m - 1] == ns;
      assert names[..m] == ns + [names[m - 1]];
      forall i | 0 <= i < m ensures ZipMap(names, vals)[names[i]] == vals[i] {
        if i < m - 1 {
          assert names[i] == ns[i] && names[i] != names[m - 1];
        }
      }
    }
  }
}
