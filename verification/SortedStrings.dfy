/** `sort.Strings` on distinct names: the result depends on the set of names alone. */
module SortedStrings {
  import opened Sequences

  /** Go's string order: lexicographic by code point. */
  predicate AtMost(a: string, b: string) {
    if a == [] then true
    else if b == [] then false
    else if a[0] == b[0] then AtMost(a[1..], b[1..])
    else a[0] < b[0]
  }

  /** Go's string order: the shorter of two strings that agree so far comes first, else the smaller first difference. */
  lemma {:induction false} AtMostIff(a: string, b: string)
    ensures AtMost(a, b) <==> exists k :: DecidesAt(a, b, k)
  {
    if a != [] && b != [] && a[0] == b[0] {
      AtMostIff(a[1..], b[1..]);
      assert a == [a[0]] + a[1..] && b == [b[0]] + b[1..];
      if k :| DecidesAt(a[1..], b[1..], k) {
        forall i | 0 <= i < k + 1 ensures a[i] == b[i] { if i > 0 { assert a[1..][i - 1] == b[1..][i - 1]; } }
        assert DecidesAt(a, b, k + 1);
      }
      if k :| DecidesAt(a, b, k) {
        assert k > 0;
        forall i | 0 <= i < k - 1 ensures a[1..][i] == b[1..][i] { assert a[i + 1] == b[i + 1]; }
        assert DecidesAt(a[1..], b[1..], k - 1);
      }
    } else if AtMost(a, b) {
      assert DecidesAt(a, b, 0);
    }
  }

  /** They agree before `k`, where the first one ends or has the smaller character. */
  ghost predicate DecidesAt(a: string, b: string, k: int) {
    && 0 <= k <= |a| && k <= |b| && (forall i | 0 <= i < k :: a[i] == b[i])
    && (k == |a| || (k < |b| && a[k] < b[k]))
  }

  lemma {:induction false} AtMostTotal(a: string, b: string)
    ensures AtMost(a, b) || AtMost(b, a)
  {
    if a != [] && b != [] && a[0] == b[0] {
      AtMostTotal(a[1..], b[1..]);
    }
  }

  lemma {:induction false} AtMostAntisymmetric(a: string, b: string)
    requires AtMost(a, b) && AtMost(b, a)
    ensures a == b
  {
    if a != [] {
      AtMostAntisymmetric(a[1..], b[1..]);
      assert a == [a[0]] + a[1..] && b == [b[0]] + b[1..];
    }
  }

  lemma {:induction false} AtMostTransitive(a: string, b: string, c: string)
    requires AtMost(a, b) && AtMost(b, c)
    ensures AtMost(a, c)
  {
    if a != [] && a[0] == b[0] == c[0] {
      AtMostTransitive(a[1..], b[1..], c[1..]);
    }
  }

  ghost predicate Ascending(s: seq<string>) {
    forall i, j | 0 <= i < j < |s| :: AtMost(s[i], s[j])
  }

  function Insert(x: string, s: seq<string>): seq<string> {
    if s == [] || AtMost(x, s[0]) then [x] + s else [s[0]] + Insert(x, s[1..])
  }

  function Sort(s: seq<string>): seq<string> {
    if s == [] then [] else Insert(s[0], Sort(s[1..]))
  }

  lemma {:induction false} InsertKeeps(x: string, s: seq<string>)
    requires Ascending(s) && Distinct(s) && x !in s
    ensures Ascending(Insert(x, s)) && Distinct(Insert(x, s))
    ensures Elements(Insert(x, s)) == Elements(s) + {x}
  {
    if s != [] {
      if AtMost(x, s[0]) {
        forall j | 1 <= j < |s| ensures AtMost(x, s[j]) { AtMostTransitive(x, s[0], s[j]); }
      } else {
        InsertKeeps(x, s[1..]);
        AtMostTotal(x, s[0]);
        var r := Insert(x, s[1..]);
        assert Elements(s) == Elements(s[1..]) + {s[0]};
        forall j | 0 <= j < |r| ensures AtMost(s[0], r[j]) && s[0] != r[j] {
          assert r[j] in Elements(r);
        }
        assert forall y :: y in Insert(x, s) <==> y == s[0] || y in r;
        assert forall y :: y in r <==> y in Elements(r);
      }
    }
  }

  lemma {:induction false} SortSorts(s: seq<string>)
    requires Distinct(s)
    ensures Ascending(Sort(s)) && Distinct(Sort(s)) && Elements(Sort(s)) == Elements(s)
  {
    if s != [] {
      SortSorts(s[1..]);
      assert s[0] !in Elements(s[1..]);
      assert forall y :: y in Sort(s[1..]) <==> y in Elements(Sort(s[1..]));
      InsertKeeps(s[0], Sort(s[1..]));
      assert Elements(s) == Elements(s[1..]) + {s[0]};
    }
  }

  lemma {:induction false} AscendingUnique(s: seq<string>, t: seq<string>)
    requires Ascending(s) && Distinct(s) && Ascending(t) && Distinct(t) && Elements(s) == Elements(t)
    ensures s == t
  {
    EmptyOrNot(t);
    if s != [] {
      assert s[0] in Elements(t);
      assert t[0] in Elements(s);
      AtMostTotal(s[0], s[0]);
      assert AtMost(s[0], t[0]) && AtMost(t[0], s[0]);
      AtMostAntisymmetric(s[0], t[0]);
      forall x ensures x in Elements(s[1..]) <==> x in Elements(t[1..]) {
        assert x in Elements(s[1..]) <==> x in Elements(s) && x != s[0];
        assert x in Elements(t[1..]) <==> x in Elements(t) && x != t[0];
      }
      AscendingUnique(s[1..], t[1..]);
      assert s == [s[0]] + s[1..] && t == [t[0]] + t[1..];
    }
  }

  /** Whatever order a map iteration delivers the names in, sorting them gives one sequence. */
  lemma SortCanonical(s: seq<string>, t: seq<string>)
    requires Distinct(s) && Distinct(t) && Elements(s) == Elements(t)
    ensures Sort(s) == Sort(t)
  {
    SortSorts(s);
    SortSorts(t);
    AscendingUnique(Sort(s), Sort(t));
  }
}
