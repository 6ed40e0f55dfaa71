/** Values and sequence facts shared by every component. */
module Prelude {

  datatype Option<+T> = None | Some(value: T)

  /** A call that returns a value or raises. */
  datatype Result<+T, +E> = Ok(value: T) | Err(error: E)

  function Max(a: real, b: real): real { if a >= b then a else b }

  function Min(a: real, b: real): real { if a <= b then a else b }

  function Abs(a: real): real { if a >= 0.0 then a else -a }

  /** The total of a list, added from the left. */
  function Sum(s: seq<real>): real
  {
    if s == [] then 0.0 else Sum(s[..|s| - 1]) + s[|s| - 1]
  }

  /** The slice s[-n:]: the last n elements, or all of them when there are fewer. */
  function Last<T>(s: seq<T>, n: nat): (r: seq<T>)
    ensures |r| == if |s| <= n then |s| else n
  {
    if |s| <= n then s else s[|s| - n..]
  }

  function Map<T, U>(f: T -> U, s: seq<T>): (r: seq<U>)
    ensures |r| == |s|
    ensures forall i :: 0 <= i < |s| ==> r[i] == f(s[i])
  {
    seq(|s|, i requires 0 <= i < |s| => f(s[i]))
  }

  function Upper(c: char): char { if 'a' <= c <= 'z' then c - 'a' + 'A' else c }

  function Uppercase(s: string): (r: string)
    ensures |r| == |s|
  {
    seq(|s|, i requires 0 <= i < |s| => Upper(s[i]))
  }

  /** The same character, or the two cases of one letter. */
  predicate SameLetter(c: char, d: char)
  {
    || c == d
    || ('a' <= c <= 'z' && d as int == c as int - 32)
    || ('a' <= d <= 'z' && c as int == d as int - 32)
  }

  /** The same text but for letter case. */
  predicate SameName(a: string, b: string)
  {
    |a| == |b| && forall i :: 0 <= i < |a| ==> SameLetter(a[i], b[i])
  }

  lemma FoldsCase(a: string, b: string)
    ensures Uppercase(a) == Uppercase(b) <==> SameName(a, b)
  {
    if Uppercase(a) == Uppercase(b) {
      forall i | 0 <= i < |a| ensures SameLetter(a[i], b[i]) {
        assert Uppercase(a)[i] == Uppercase(b)[i];
      }
    }
  }

  /** Nothing is left of the text once its white space is stripped. */
  predicate Blank(s: string)
  {
    forall i :: 0 <= i < |s| ==> s[i] in " \t\r\n"
  }

  lemma SumSnoc(s: seq<real>, x: real)
    ensures Sum(s + [x]) == Sum(s) + x
  {
    assert (s + [x])[..|s|] == s;
  }

  lemma {:induction false} SumConcat(s: seq<real>, t: seq<real>)
    ensures Sum(s + t) == Sum(s) + Sum(t)
  {
    if t == [] {
      assert s + t == s;
    } else {
      SumConcat(s, t[..|t| - 1]);
      assert (s + t)[..|s + t| - 1] == s + t[..|t| - 1];
    }
  }

  lemma LastOfLast<T>(s: seq<T>, n: nat, k: nat)
    requires k <= n
    ensures Last(Last(s, n), k) == Last(s, k)
  {
  }

  /** Appending to a bounded window keeps it the window of the extended list. */
  lemma LastSnoc<T>(s: seq<T>, x: T, n: nat)
    requires n > 0
    ensures Last(Last(s, n) + [x], n) == Last(s + [x], n)
  {
  }

  /** What comes before and after one occurrence of an element. */
  ghost function Around<T>(s: seq<T>, e: T): (r: (seq<T>, seq<T>))
    requires e in multiset(s)
    ensures s == r.0 + [e] + r.1 && multiset(r.0 + r.1) == multiset(s) - multiset{e}
    ensures multiset(r.0) + multiset{e} + multiset(r.1) == multiset(s)
  {
    var last := s[|s| - 1];
    assert s == s[..|s| - 1] + [last];
    if last == e then
      assert s[..|s| - 1] + [] == s[..|s| - 1];
      (s[..|s| - 1], [])
    else
      var (x, y) := Around(s[..|s| - 1], e);
      assert x + y + [last] == x + (y + [last]);
      (x, y + [last])
  }

  lemma TimesMonotone(d: nat, a: int, b: int)
    requires a <= b
    ensures d * a <= d * b
  {
    assert d * (b - a) >= 0;
  }

  lemma QuotientUnique(d: nat, p: int, m: int, q: int, r: int)
    requires d * p + m == d * q + r && 0 <= m < d && 0 <= r < d
    ensures p == q && m == r
  {
    if p > q { TimesMonotone(d, q + 1, p); }
    if p < q { TimesMonotone(d, p + 1, q); }
  }
}
