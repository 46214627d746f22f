/** Python semantics the backtester relies on: exceptions as a result type,
    negative-index lookup, slicing, the builtins sum/min/max over prices,
    int() of a float, and search for the first matching name. */
module Py {

  datatype Option<T> = None | Some(value: T)

  /** The exceptions the modelled code can raise. `Exception` is Python's
      base class raised with a message by the source itself. */
  datatype Error =
    | IndexError
    | KeyError
    | ValueError
    | ZeroDivisionError
    | TypeError
    | AttributeError
    | Exception(message: string)

  datatype Result<T> = Ok(value: T) | Err(error: Error)

  /** Where Python's `s[i]` lands in a list of length n: negative indices count
      from the end; anything outside -n..n-1 is an IndexError. */
  function Index(n: nat, i: int): (r: Option<nat>)
    ensures r.Some? <==> -(n as int) <= i < n
    ensures r.Some? ==> r.value < n
    ensures r.Some? && i >= 0 ==> r.value == i
    ensures r.Some? && i < 0 ==> r.value == n + i
  {
    if 0 <= i < n then Some(i) else if -(n as int) <= i < 0 then Some(n + i) else None
  }

  /** Python's `s[i]`. */
  function Get<T>(s: seq<T>, i: int): (r: Result<T>)
    ensures r.Err? <==> !(-|s| <= i < |s|)
    ensures r.Err? ==> r.error == IndexError
    ensures r.Ok? && i >= 0 ==> r.value == s[i]
    ensures r.Ok? && i < 0 ==> r.value == s[|s| + i]
  {
    match Index(|s|, i)
    case None => Err(IndexError)
    case Some(k) => Ok(s[k])
  }

  /** How Python normalises one bound of `s[a:b]` for a list of length n. */
  function SliceBound(n: nat, i: int): (r: nat)
    ensures r <= n
    ensures 0 <= i <= n ==> r == i
    ensures -(n as int) <= i < 0 ==> r == n + i
    ensures i < -(n as int) ==> r == 0
    ensures i > n ==> r == n
  {
    if i < 0 then (if n + i < 0 then 0 else n + i) else if i > n then n else i
  }

  /** Python's `s[a:b]`: never raises, clamps both bounds, empty when they cross. */
  function Slice<T>(s: seq<T>, a: int, b: int): (r: seq<T>)
    ensures |r| <= |s|
    ensures SliceBound(|s|, a) < SliceBound(|s|, b) ==> r == s[SliceBound(|s|, a)..SliceBound(|s|, b)]
    ensures SliceBound(|s|, a) >= SliceBound(|s|, b) ==> r == []
  {
    var lo, hi := SliceBound(|s|, a), SliceBound(|s|, b);
    if lo < hi then s[lo..hi] else []
  }

  /** Python's `int(x)` of a float: truncation toward zero. */
  function Trunc(x: real): (r: int)
    ensures x >= 0.0 ==> r as real <= x < r as real + 1.0
    ensures x < 0.0 ==> r as real - 1.0 < x <= r as real
  {
    if x >= 0.0 then x.Floor else -((-x).Floor)
  }

  function Sum(s: seq<real>): real
  {
    if s == [] then 0.0 else s[0] + Sum(s[1..])
  }

  function Min(s: seq<real>): real
    requires s != []
  {
    if |s| == 1 then s[0] else
    var m := Min(s[1..]);
    if s[0] <= m then s[0] else m
  }

  function Max(s: seq<real>): real
    requires s != []
  {
    if |s| == 1 then s[0] else
    var m := Max(s[1..]);
    if s[0] >= m then s[0] else m
  }

  /** The minimum is an element of the list and below every element. */
  lemma {:induction false} MinIsLeast(s: seq<real>)
    requires s != []
    ensures Min(s) in s
    ensures forall i :: 0 <= i < |s| ==> Min(s) <= s[i]
  {
    if |s| > 1 {
      MinIsLeast(s[1..]);
      assert forall i :: 1 <= i < |s| ==> s[i] == s[1..][i - 1];
    }
  }

  /** The maximum is an element of the list and above every element. */
  lemma {:induction false} MaxIsGreatest(s: seq<real>)
    requires s != []
    ensures Max(s) in s
    ensures forall i :: 0 <= i < |s| ==> s[i] <= Max(s)
  {
    if |s| > 1 {
      MaxIsGreatest(s[1..]);
      assert forall i :: 1 <= i < |s| ==> s[i] == s[1..][i - 1];
    }
  }

  /** n copies of x added up. */
  function Times(n: nat, x: real): real
  {
    if n == 0 then 0.0 else Times(n - 1, x) + x
  }

  lemma {:induction false} TimesIsProduct(n: nat, x: real)
    ensures Times(n, x) == n as real * x
  {
    if n > 0 {
      TimesIsProduct(n - 1, x);
      MulSuccReal((n - 1) as real, x);
    }
  }

  lemma {:induction false} TimesMono(n: nat, x: real, y: real)
    requires x <= y
    ensures Times(n, x) <= Times(n, y)
  {
    if n > 0 {
      TimesMono(n - 1, x, y);
    }
  }

  /** A sum of n prices lies between n times their minimum and n times their maximum. */
  lemma {:induction false} SumBetween(s: seq<real>)
    requires s != []
    ensures |s| as real * Min(s) <= Sum(s) <= |s| as real * Max(s)
  {
    SumTimes(s);
    TimesIsProduct(|s|, Min(s));
    TimesIsProduct(|s|, Max(s));
  }

  lemma {:induction false} SumTimes(s: seq<real>)
    requires s != []
    ensures Times(|s|, Min(s)) <= Sum(s) <= Times(|s|, Max(s))
  {
    if |s| > 1 {
      var t := s[1..];
      SumTimes(t);
      TimesMono(|t|, Min(s), Min(t));
      TimesMono(|t|, Max(t), Max(s));
    } else {
      assert s[1..] == [];
    }
  }

  lemma MulSuccReal(k: real, x: real)
    ensures (k + 1.0) * x == k * x + x
  {
  }

  /** A positive factor cancels from both sides of an inequality. */
  lemma CancelFactor(k: real, a: real, b: real)
    requires k > 0.0 && k * a <= k * b
    ensures a <= b
  {
  }

  /** The position of the first occurrence of x in s, if any. */
  function FirstIndex<T(==)>(s: seq<T>, x: T): (r: Option<nat>)
    ensures r.None? <==> x !in s
    ensures r.Some? ==> r.value < |s| && s[r.value] == x && x !in s[..r.value]
  {
    if s == [] then None
    else if s[0] == x then Some(0)
    else match FirstIndex(s[1..], x)
      case None => None
      case Some(k) =>
        assert s[..k + 1] == [s[0]] + s[1..][..k];
        Some(k + 1)
  }

  /** The elements of s in order of first occurrence, each once: the keys of a
      Python dict built from s, in insertion order. */
  function Distinct<T(==)>(s: seq<T>): (r: seq<T>)
    ensures forall i :: 0 <= i < |r| ==> r[i] in s
    ensures forall i :: 0 <= i < |s| ==> s[i] in r
    ensures forall i, j :: 0 <= i < j < |r| ==> r[i] != r[j]
  {
    if s == [] then []
    else
      var d := Distinct(s[..|s| - 1]);
      var x := s[|s| - 1];
      assert s == s[..|s| - 1] + [x];
      if x in d then d else d + [x]
  }

  /** An element of p is found first inside p, whatever follows it. */
  lemma {:induction false} FirstIndexPrefix<T>(p: seq<T>, q: seq<T>, x: T)
    requires x in p
    ensures FirstIndex(p + q, x) == FirstIndex(p, x)
  {
    if p[0] != x {
      assert (p + q)[1..] == p[1..] + q;
      FirstIndexPrefix(p[1..], q, x);
    }
  }

  /** Distinct lists the elements in the order of their first occurrence. */
  lemma {:induction false} DistinctOrder<T>(s: seq<T>)
    ensures forall i, j :: 0 <= i < j < |Distinct(s)| ==>
              FirstIndex(s, Distinct(s)[i]).value < FirstIndex(s, Distinct(s)[j]).value
  {
    if s != [] {
      var p, x := s[..|s| - 1], s[|s| - 1];
      assert s == p + [x];
      var d := Distinct(p);
      DistinctOrder(p);
      forall i | 0 <= i < |d|
        ensures FirstIndex(s, d[i]) == FirstIndex(p, d[i])
      {
        FirstIndexPrefix(p, [x], d[i]);
      }
      var r := Distinct(s);
      assert r == if x in d then d else d + [x];
      forall i, j | 0 <= i < j < |r|
        ensures FirstIndex(s, r[i]).value < FirstIndex(s, r[j]).value
      {
        assert r[i] == d[i];
        if j < |d| {
          assert r[j] == d[j];
          assert FirstIndex(p, d[i]).value < FirstIndex(p, d[j]).value;
        } else {
          assert r[j] == x && x !in p;
          assert s[..|p|] == p;
          assert FirstIndex(s, x).value == |p|;
        }
      }
    }
  }
}
