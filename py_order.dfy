/**
  Python's ordering of strings and of lists of strings, as `<` computes it:
  strings compare code point by code point and lists element by element,
  and in both a proper prefix comes first. Both are strict total orders.
*/
module PyOrder {

  /** `a < b` on Python strings. */
  predicate StrLt(a: string, b: string)
    decreases |a|
  {
    if |a| == 0 then |b| > 0
    else if |b| == 0 then false
    else if a[0] != b[0] then a[0] < b[0]
    else StrLt(a[1..], b[1..])
  }

  lemma {:induction false} StrLtIrreflexive(a: string)
    ensures !StrLt(a, a)
    decreases |a|
  {
    if |a| > 0 {
      StrLtIrreflexive(a[1..]);
    }
  }

  lemma {:induction false} StrLtAsymmetric(a: string, b: string)
    requires StrLt(a, b)
    ensures !StrLt(b, a)
    decreases |a|
  {
    if |a| > 0 && a[0] == b[0] {
      StrLtAsymmetric(a[1..], b[1..]);
    }
  }

  lemma {:induction false} StrLtTransitive(a: string, b: string, c: string)
    requires StrLt(a, b) && StrLt(b, c)
    ensures StrLt(a, c)
    decreases |a|
  {
    if |a| > 0 && a[0] == b[0] && b[0] == c[0] {
      StrLtTransitive(a[1..], b[1..], c[1..]);
    }
  }

  /** Two different strings are ordered one way or the other. */
  lemma {:induction false} StrLtTotal(a: string, b: string)
    ensures a == b || StrLt(a, b) || StrLt(b, a)
    decreases |a|
  {
    if |a| > 0 && |b| > 0 && a[0] == b[0] {
      StrLtTotal(a[1..], b[1..]);
      if a[1..] == b[1..] {
        assert a == [a[0]] + a[1..] && b == [b[0]] + b[1..];
      }
    }
  }

  /** `a < b` on Python lists of strings: the first differing elements decide. */
  predicate ListLt(a: seq<string>, b: seq<string>)
    decreases |a|
  {
    if |a| == 0 then |b| > 0
    else if |b| == 0 then false
    else if a[0] != b[0] then StrLt(a[0], b[0])
    else ListLt(a[1..], b[1..])
  }

  lemma {:induction false} ListLtIrreflexive(a: seq<string>)
    ensures !ListLt(a, a)
    decreases |a|
  {
    if |a| > 0 {
      ListLtIrreflexive(a[1..]);
    }
  }

  lemma {:induction false} ListLtAsymmetric(a: seq<string>, b: seq<string>)
    requires ListLt(a, b)
    ensures !ListLt(b, a)
    decreases |a|
  {
    if |a| > 0 && |b| > 0 {
      if a[0] == b[0] {
        ListLtAsymmetric(a[1..], b[1..]);
      } else {
        StrLtAsymmetric(a[0], b[0]);
      }
    }
  }

  lemma {:induction false} ListLtTransitive(a: seq<string>, b: seq<string>, c: seq<string>)
    requires ListLt(a, b) && ListLt(b, c)
    ensures ListLt(a, c)
    decreases |a|
  {
    if |a| > 0 && |c| > 0 {
      if a[0] == b[0] && b[0] == c[0] {
        ListLtTransitive(a[1..], b[1..], c[1..]);
      } else if a[0] != b[0] && b[0] != c[0] {
        StrLtTransitive(a[0], b[0], c[0]);
        if a[0] == c[0] {
          StrLtIrreflexive(a[0]);
        }
      }
    }
  }

  /** Two different lists are ordered one way or the other. */
  lemma {:induction false} ListLtTotal(a: seq<string>, b: seq<string>)
    ensures a == b || ListLt(a, b) || ListLt(b, a)
    decreases |a|
  {
    if |a| > 0 && |b| > 0 {
      if a[0] == b[0] {
        ListLtTotal(a[1..], b[1..]);
        if a[1..] == b[1..] {
          assert a == [a[0]] + a[1..] && b == [b[0]] + b[1..];
        }
      } else {
        StrLtTotal(a[0], b[0]);
      }
    }
  }
}
