// Small datatypes and sequence facts shared by the other modules.
module Common {

  datatype Option<+T> = None | Some(value: T)

  type pos = n: nat | n > 0 witness 1

  // Every element occurs at one position only.
  ghost predicate NoDuplicates<T>(s: seq<T>) {
    forall i, j :: 0 <= i < j < |s| ==> s[i] != s[j]
  }

  lemma {:induction false} NoDuplicatesConcat<T>(a: seq<T>, b: seq<T>)
    requires NoDuplicates(a) && NoDuplicates(b)
    requires forall x :: x in a ==> x !in b
    ensures NoDuplicates(a + b)
  {
    var s := a + b;
    forall i, j | 0 <= i < j < |s| ensures s[i] != s[j] {
      if i < |a| <= j {
        assert s[i] in a && s[j] in b;
      }
    }
  }

  lemma {:induction false} ConcatAssociative<T>(a: seq<T>, b: seq<T>, c: seq<T>)
    ensures (a + b) + c == a + (b + c)
  {
  }

  predicate StartsWith(s: string, p: string) {
    p <= s
  }

  // p is a substring of s
  predicate Contains(s: string, p: string) {
    exists i :: 0 <= i <= |s| - |p| && p <= s[i..]
  }

  function SetOf<T(==)>(s: seq<T>): set<T> {
    set x | x in s
  }

  function Lookup<T>(m: map<string, seq<T>>, key: string): seq<T> {
    if key in m then m[key] else []
  }

  lemma {:induction false} CancelOne<T(!new)>(p: multiset<T>, q: multiset<T>, x: T)
    requires p + multiset{x} == q + multiset{x}
    ensures p == q
  {
    forall y ensures p[y] == q[y] {
      assert (p + multiset{x})[y] == (q + multiset{x})[y];
    }
  }

  function Max(a: real, b: real): real {
    if a >= b then a else b
  }

  function Min(a: real, b: real): real {
    if a <= b then a else b
  }

  function Abs(a: real): real {
    if a >= 0.0 then a else -a
  }

  // numpy's clip for lo <= hi
  function Clip(x: real, lo: real, hi: real): real {
    Min(Max(x, lo), hi)
  }

  lemma {:induction false} QuotientTimes(a: real, b: real)
    requires b != 0.0
    ensures (a / b) * b == a
  {
  }

  lemma {:induction false} ScaleOrder(a: real, b: real, c: real)
    requires a <= b && c >= 0.0
    ensures a * c <= b * c
  {
  }

  lemma {:induction false} Distribute(rate: real, a: real, b: real)
    ensures rate * (b - a) == rate * b - rate * a
  {
  }

  lemma {:induction false} PositiveProduct(a: real, b: real)
    requires a > 0.0 && b > 0.0
    ensures a * b > 0.0
  {
  }

  lemma {:induction false} PositiveFactor(x: real, b: real)
    requires b > 0.0
    ensures x * b > 0.0 ==> x > 0.0
    ensures x * b >= 0.0 ==> x >= 0.0
  {
  }

  lemma {:induction false} QuotientBelow(a: real, b: real, c: real)
    requires b > 0.0
    ensures a < c * b ==> a / b < c
    ensures a <= c * b ==> a / b <= c
    ensures a > c * b ==> a / b > c
    ensures a >= c * b ==> a / b >= c
  {
    QuotientTimes(a, b);
    assert (c - a / b) * b == c * b - a;
    assert (a / b - c) * b == a - c * b;
    PositiveFactor(c - a / b, b);
    PositiveFactor(a / b - c, b);
  }

  // Python's round: to the nearest integer, ties to the even one
  function HalfEven(y: real): (r: int)
    ensures -0.5 <= y - r as real <= 0.5
  {
    var f := y.Floor;
    var d := y - f as real;
    if d < 0.5 then f else if d > 0.5 then f + 1 else if f % 2 == 0 then f else f + 1
  }

  lemma {:induction false} HalfEvenIff(y: real, r: int)
    ensures HalfEven(y) == r <==> Abs(y - r as real) < 0.5 || (Abs(y - r as real) == 0.5 && r % 2 == 0)
  {
    var h := HalfEven(y);
    assert Abs(y - r as real) <= 0.5 ==> -1 <= h - r <= 1;
  }

  lemma {:induction false} HalfEvenMonotone(x: real, y: real)
    requires x <= y
    ensures HalfEven(x) <= HalfEven(y)
  {
    if x.Floor < y.Floor {
      assert HalfEven(x) <= x.Floor + 1 <= y.Floor <= HalfEven(y);
    }
  }

  function Round2(x: real): real {
    HalfEven(x * 100.0) as real / 100.0
  }

  lemma {:induction false} Round2Near(x: real)
    ensures Abs(Round2(x) - x) <= 0.005
  {
    var r := HalfEven(x * 100.0) as real;
    assert Round2(x) * 100.0 == r;
  }

  function Round4(x: real): real {
    HalfEven(x * 10000.0) as real / 10000.0
  }

  lemma {:induction false} Round4Near(x: real)
    ensures Abs(Round4(x) - x) <= 0.00005
  {
    var r := HalfEven(x * 10000.0) as real;
    assert Round4(x) * 10000.0 == r;
  }
}
