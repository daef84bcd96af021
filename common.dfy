/** Values shared by every part of the scheduler model: optional values, the
    Python exceptions the core raises, Python's integer division, and the
    ordered dictionaries (association lists) whose iteration order the
    scheduler depends on. */
module Common {

  datatype Option<T> = None | Some(value: T)

  /** `d.get(key, default)` for an optional field. */
  function UnwrapOr<T>(o: Option<T>, d: T): T
  {
    if o.Some? then o.value else d
  }

  /** The Python exceptions raised by the modelled code. */
  datatype Error = ValueError | AssertionError | KeyError | ZeroDivisionError

  datatype Result<T> = Ok(value: T) | Err(error: Error)

  function Max(a: int, b: int): int { if a >= b then a else b }
  function Min(a: int, b: int): int { if a <= b then a else b }

  /** `m.get(k, d)` on a Python dict. */
  function Get<K, V>(m: map<K, V>, k: K, d: V): V
  {
    if k in m then m[k] else d
  }

  /** Python's `a // b`: the quotient rounded towards minus infinity. */
  function FloorDiv(a: int, b: int): (q: int)
    requires b != 0
    ensures b > 0 ==> b * q <= a < b * q + b
    ensures b < 0 ==> b * q + b < a <= b * q
  {
    if b > 0 then a / b else (-a) / (-b)
  }

  /** `math.ceil(a / b)` for integers, without the float rounding. */
  function CeilDiv(a: int, b: int): (q: int)
    requires b != 0
    ensures b > 0 ==> b * q - b < a <= b * q
    ensures b < 0 ==> b * q <= a < b * q - b
  {
    -FloorDiv(-a, b)
  }

  /** `[x] * n` in Python: n copies of x (none when n <= 0). */
  function Repeat<T>(x: T, n: int): (r: seq<T>)
    ensures |r| == Max(n, 0)
    ensures forall i :: 0 <= i < |r| ==> r[i] == x
  {
    if n <= 0 then [] else Repeat(x, n - 1) + [x]
  }

  /** Number of occurrences of x in s (`s.count(x)`). */
  function Count<T(==)>(x: T, s: seq<T>): nat
  {
    if s == [] then 0 else Count(x, s[..|s| - 1]) + (if s[|s| - 1] == x then 1 else 0)
  }

  lemma {:induction false} CountAppend<T>(x: T, s: seq<T>, t: seq<T>)
    ensures Count(x, s + t) == Count(x, s) + Count(x, t)
    decreases |t|
  {
    if t == [] {
      assert s + t == s;
    } else {
      var t' := t[..|t| - 1];
      assert (s + t)[..|s + t| - 1] == s + t';
      CountAppend(x, s, t');
    }
  }

  lemma {:induction false} CountPositive<T>(x: T, s: seq<T>)
    ensures Count(x, s) > 0 <==> x in s
  {
    if s != [] {
      var s' := s[..|s| - 1];
      CountPositive(x, s');
      assert s == s' + [s[|s| - 1]];
      assert x in s <==> x in s' || x == s[|s| - 1];
    }
  }

  lemma CountRepeat<T>(x: T, y: T, n: int)
    ensures Count(x, Repeat(y, n)) == if x == y then Max(n, 0) else 0
    decreases n
  {
    if n > 0 {
      CountRepeat(x, y, n - 1);
      assert Repeat(y, n)[..|Repeat(y, n)| - 1] == Repeat(y, n - 1);
    }
  }

  /** No element occurs twice. */
  predicate Distinct<T(==)>(s: seq<T>)
  {
    forall i, j :: 0 <= i < j < |s| ==> s[i] != s[j]
  }

  /** The sum of f over the elements of s. */
  function SumOf<T>(f: T -> int, s: seq<T>): int
  {
    if s == [] then 0 else SumOf(f, s[..|s| - 1]) + f(s[|s| - 1])
  }

  lemma {:induction false} SumOfAppend<T>(f: T -> int, s: seq<T>, t: seq<T>)
    ensures SumOf(f, s + t) == SumOf(f, s) + SumOf(f, t)
    decreases |t|
  {
    if t == [] {
      assert s + t == s;
    } else {
      assert (s + t)[..|s + t| - 1] == s + t[..|t| - 1];
      SumOfAppend(f, s, t[..|t| - 1]);
    }
  }

  lemma SumOfSplit<T>(f: T -> int, t: seq<T>, j: nat)
    requires j <= |t|
    ensures SumOf(f, t) == SumOf(f, t[..j]) + SumOf(f, t[j..])
  {
    assert t == t[..j] + t[j..];
    SumOfAppend(f, t[..j], t[j..]);
  }

  lemma SumOfRemove<T>(f: T -> int, t: seq<T>, j: nat)
    requires j < |t|
    ensures SumOf(f, t) == SumOf(f, t[..j] + t[j + 1..]) + f(t[j])
  {
    SumOfSplit(f, t, j + 1);
    assert t[..j + 1][..j] == t[..j];
    SumOfAppend(f, t[..j], t[j + 1..]);
  }

  lemma DistinctRemove<T>(t: seq<T>, j: nat)
    requires Distinct(t) && j < |t|
    ensures Distinct(t[..j] + t[j + 1..])
    ensures forall y :: y in t[..j] + t[j + 1..] <==> y in t && y != t[j]
  {
    var t' := t[..j] + t[j + 1..];
    forall a, b | 0 <= a < b < |t'| ensures t'[a] != t'[b] {
      var a' := if a < j then a else a + 1;
      var b' := if b < j then b else b + 1;
      assert t'[a] == t[a'] && t'[b] == t[b'];
    }
    forall y ensures y in t' <==> y in t && y != t[j] {
      if y in t && y != t[j] {
        var b :| 0 <= b < |t| && t[b] == y;
        if b < j { assert t'[b] == y; } else { assert t'[b - 1] == y; }
      }
      if y in t' {
        var b :| 0 <= b < |t'| && t'[b] == y;
        var b' := if b < j then b else b + 1;
        assert t[b'] == y;
      }
    }
  }

  /** The sum does not depend on the order of the elements. */
  lemma {:induction false} SumOfSameSet<T>(f: T -> int, s: seq<T>, t: seq<T>)
    requires Distinct(s) && Distinct(t)
    requires forall x :: x in s <==> x in t
    ensures SumOf(f, s) == SumOf(f, t)
    decreases |s|
  {
    if s == [] {
      assert forall i :: 0 <= i < |t| ==> t[i] in s;
    } else {
      var s', x := s[..|s| - 1], s[|s| - 1];
      assert x in s;
      var j :| 0 <= j < |t| && t[j] == x;
      SumOfRemove(f, t, j);
      DistinctRemove(t, j);
      DistinctRemove(s, |s| - 1);
      assert s[..|s| - 1] + s[|s|..] == s';
      var t' := t[..j] + t[j + 1..];
      forall y ensures y in s' <==> y in t' {
        assert y in s' <==> y in s && y != x;
        assert y in t' <==> y in t && y != x;
      }
      SumOfSameSet(f, s', t[..j] + t[j + 1..]);
    }
  }

  /* ---------- Ordered dictionaries as association lists ---------- */

  /** The keys of an association list, in insertion order. */
  function Keys<K, V>(s: seq<(K, V)>): (ks: seq<K>)
    ensures |ks| == |s|
    ensures forall i :: 0 <= i < |s| ==> ks[i] == s[i].0
  {
    if s == [] then [] else Keys(s[..|s| - 1]) + [s[|s| - 1].0]
  }

  lemma KeysFacts<K, V>(s: seq<(K, V)>)
    ensures Distinct(Keys(s)) <==> DistinctKeys(s)
    ensures forall k :: k in Keys(s) <==> HasKey(s, k)
  {
    forall k ensures k in Keys(s) <==> HasKey(s, k) {
      if k in Keys(s) {
        var i :| 0 <= i < |Keys(s)| && Keys(s)[i] == k;
        assert s[i].0 == k;
      }
      if HasKey(s, k) {
        var i :| 0 <= i < |s| && s[i].0 == k;
        assert Keys(s)[i] == k;
      }
    }
  }

  predicate HasKey<K(==), V>(s: seq<(K, V)>, k: K)
  {
    exists i :: 0 <= i < |s| && s[i].0 == k
  }

  /** A Python dict has each key once. */
  predicate DistinctKeys<K(==), V>(s: seq<(K, V)>)
  {
    forall i, j :: 0 <= i < j < |s| ==> s[i].0 != s[j].0
  }

  /** `d[k]` for a key that is present. */
  function Lookup<K(==), V>(s: seq<(K, V)>, k: K): (v: V)
    requires HasKey(s, k)
    ensures exists i :: 0 <= i < |s| && s[i] == (k, v)
  {
    if s[|s| - 1].0 == k then s[|s| - 1].1
    else
      assert HasKey(s[..|s| - 1], k) by {
        var i :| 0 <= i < |s| && s[i].0 == k;
        assert s[..|s| - 1][i].0 == k;
      }
      Lookup(s[..|s| - 1], k)
  }

  lemma LookupAt<K, V>(s: seq<(K, V)>, i: nat)
    requires DistinctKeys(s) && i < |s|
    ensures HasKey(s, s[i].0) && Lookup(s, s[i].0) == s[i].1
  {
    assert HasKey(s, s[i].0);
    var v := Lookup(s, s[i].0);
    var j :| 0 <= j < |s| && s[j] == (s[i].0, v);
    assert i == j;
  }

  lemma HasKeyAppend<K, V>(s: seq<(K, V)>, e: (K, V), k: K)
    ensures HasKey(s + [e], k) <==> HasKey(s, k) || e.0 == k
  {
    if HasKey(s + [e], k) {
      var i :| 0 <= i < |s + [e]| && (s + [e])[i].0 == k;
      if i < |s| { assert s[i].0 == k; }
    }
    if HasKey(s, k) {
      var i :| 0 <= i < |s| && s[i].0 == k;
      assert (s + [e])[i].0 == k;
    }
    if e.0 == k { assert (s + [e])[|s|].0 == k; }
  }

  /** The set of keys of an association list. */
  function KeySet<K(==,!new), V>(s: seq<(K, V)>): (ks: set<K>)
    ensures forall k :: k in ks <==> HasKey(s, k)
  {
    set i | 0 <= i < |s| :: s[i].0
  }
}
