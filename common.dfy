/** Small shared vocabulary: an optional value, injected random draws, and the
    real-valued clamps that the simulation uses everywhere. */
module Common {

  datatype Option<+T> = None | Some(value: T)

  /** One value of `Math.random()`: a real in [0, 1). Every random choice of the
      system is passed in as a Draw, so that each outcome is a parameter. */
  type Draw = r: real | 0.0 <= r < 1.0 witness 0.0

  function Min(a: real, b: real): real { if a <= b then a else b }

  function Max(a: real, b: real): real { if a >= b then a else b }

  /** `Math.max(lo, Math.min(hi, x))` */
  function Clamp(x: real, lo: real, hi: real): (r: real)
    requires lo <= hi
    ensures lo <= r <= hi
    ensures lo <= x <= hi ==> r == x
    ensures x < lo ==> r == lo
    ensures x > hi ==> r == hi
  {
    Max(lo, Min(hi, x))
  }

  /** `list[Math.floor(d * n)]`: the index a draw selects in a list of n items. */
  function Pick(d: Draw, n: nat): (k: nat)
    requires n > 0
    ensures k < n
    ensures k as real <= d * n as real < k as real + 1.0
  {
    var x := d * n as real;
    BelowOne(d, n as real);
    x.Floor
  }

  lemma BelowOne(d: real, y: real)
    requires 0.0 <= d < 1.0 && y > 0.0
    ensures 0.0 <= d * y < y
  {
    assert y - d * y == (1.0 - d) * y;
    assert (1.0 - d) * y > 0.0;
  }

  /** No element occurs twice. */
  predicate Distinct<T(==)>(s: seq<T>)
  {
    forall i, j :: 0 <= i < j < |s| ==> s[i] != s[j]
  }

  /** Regrouping appends, stated once so that log proofs do not rediscover it. */
  lemma ConcatAssoc<T>(a: seq<T>, b: seq<T>, c: seq<T>)
    ensures a + b + c == a + (b + c)
  {
  }

  lemma ConcatAssoc5<T>(a: seq<T>, b: seq<T>, c: seq<T>, d: seq<T>, e: seq<T>, f: seq<T>)
    ensures a + b + c + d + e + f == a + (b + c + d + e + f)
  {
  }

  /** Moving one element from one part of a split to the other keeps it a split. */
  lemma MoveKey<T>(todo: set<T>, done: set<T>, k: T)
    requires k in todo && todo !! done
    ensures (todo - {k}) + (done + {k}) == todo + done
    ensures (todo - {k}) !! (done + {k})
  {
  }

  lemma TakeSnoc<T>(s: seq<T>, i: int)
    requires 0 <= i < |s|
    ensures s[..i + 1] == s[..i] + [s[i]]
  {
  }

  /** `s.indexOf(x)`: the position of the first occurrence of x in s. */
  function IndexOf<T(==)>(s: seq<T>, x: T): (k: nat)
    requires x in s
    ensures k < |s| && s[k] == x && x !in s[..k]
  {
    if s[0] == x then 0 else 1 + IndexOf(s[1..], x)
  }
}
