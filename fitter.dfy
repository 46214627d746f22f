/** The exhaustive parameter search of alg_best_fitter.py, evaluated
    sequentially: Cartesian enumeration of the candidate vectors, chunking
    by integer division, the local best of each chunk and the final
    reduction. A candidate's score is supplied by the caller. */
module BestFitter {
  import opened Py

  /** numpy.linspace(lo, hi, n) over the reals: n evenly spaced samples from
      lo to hi, both ends included; [lo] for a single sample. */
  function Linspace(lo: real, hi: real, n: nat): (r: seq<real>)
    ensures |r| == n
    ensures n >= 1 ==> r[0] == lo
    ensures n >= 2 ==> r[n - 1] == hi
  {
    if n == 1 then [lo]
    else
      var step := (hi - lo) / (n as real - 1.0);
      var r := seq(n, i => lo + i as real * step);
      assert n >= 2 ==> r[n - 1] == lo + (n as real - 1.0) * step;
      r
  }

  /** `p + v` for every v in vs, in order. */
  function Extend(p: seq<real>, vs: seq<seq<real>>): (r: seq<seq<real>>)
    ensures |r| == |vs|
    ensures forall i :: 0 <= i < |vs| ==> r[i] == p + vs[i]
  {
    seq(|vs|, i requires 0 <= i < |vs| => p + vs[i])
  }

  /** For each x of xs in order, `[x] + v` for every v in rest: one level of
      the nested loops, x outermost. */
  function Expand(xs: seq<real>, rest: seq<seq<real>>): seq<seq<real>>
  {
    if xs == [] then [] else Extend([xs[0]], rest) + Expand(xs[1..], rest)
  }

  /** A level holds one vector per pair of a sample and a tail. */
  lemma {:induction false} ExpandLength(xs: seq<real>, rest: seq<seq<real>>)
    ensures |Expand(xs, rest)| == |xs| * |rest|
    decreases |xs|
  {
    if xs != [] {
      ExpandLength(xs[1..], rest);
      assert |xs| * |rest| == |rest| + (|xs| - 1) * |rest|;
    }
  }

  /** The Cartesian product of the sample lists, dimension 0 outermost. */
  function Product(ds: seq<seq<real>>): seq<seq<real>>
  {
    if ds == [] then [[]] else Expand(ds[0], Product(ds[1..]))
  }

  function Prod(ns: seq<nat>): nat
  {
    if ns == [] then 1 else ns[0] * Prod(ns[1..])
  }

  /** The sample list of every dimension. */
  function Grid(bounds: seq<(real, real)>, iterations: seq<nat>): (r: seq<seq<real>>)
    requires |iterations| >= |bounds|
    ensures |r| == |bounds|
    ensures forall d :: 0 <= d < |bounds| ==> r[d] == Linspace(bounds[d].0, bounds[d].1, iterations[d])
  {
    seq(|bounds|, d requires 0 <= d < |bounds| => Linspace(bounds[d].0, bounds[d].1, iterations[d]))
  }

  /** iterations[k:], as far as it exists. */
  function Drop(iterations: seq<nat>, k: nat): seq<nat>
  {
    if k <= |iterations| then iterations[k..] else []
  }

  /** What the recursion below dimension 0 of `bounds` appends, in order:
      IndexError when it reaches a dimension with no iteration count, no
      deeper dimension when a sample list is empty. */
  function Cartesian(bounds: seq<(real, real)>, iterations: seq<nat>): Result<seq<seq<real>>>
    requires bounds != []
    decreases |bounds|
  {
    if iterations == [] then Err(IndexError)
    else
      var xs := Linspace(bounds[0].0, bounds[0].1, iterations[0]);
      if |bounds| == 1 then Ok(Expand(xs, [[]]))
      else if xs == [] then Ok([])
      else
        match Cartesian(bounds[1..], iterations[1..])
        case Err(e) => Err(e)
        case Ok(rest) => Ok(Expand(xs, rest))
  }

  /** The candidate list all_params that the search builds: nothing for no
      dimensions (the top call returns its empty vector without appending). */
  function Candidates(bounds: seq<(real, real)>, iterations: seq<nat>): Result<seq<seq<real>>>
  {
    if bounds == [] then Ok([]) else Cartesian(bounds, iterations)
  }

  /** The global list after a call with the vector so far, when the call appends. */
  function Appended(all: seq<seq<real>>, params: seq<real>, c: Result<seq<seq<real>>>): Result<seq<seq<real>>>
  {
    match c
    case Err(e) => Err(e)
    case Ok(vs) => Ok(all + Extend(params, vs))
  }

  lemma ExtendEmpty(vs: seq<seq<real>>)
    ensures Extend([], vs) == vs
  {
    assert forall i :: 0 <= i < |vs| ==> [] + vs[i] == vs[i];
  }

  lemma {:induction false} ExpandAppend(xs: seq<real>, x: real, rest: seq<seq<real>>)
    ensures Expand(xs + [x], rest) == Expand(xs, rest) + Extend([x], rest)
    decreases |xs|
  {
    if xs == [] {
      assert [x][1..] == [];
    } else {
      assert (xs + [x])[1..] == xs[1..] + [x];
      ExpandAppend(xs[1..], x, rest);
    }
  }

  /** The list after one more sample of the outer loop: what the inner call
      appends for `params + [x]` follows what was there. */
  lemma AppendStep(all: seq<seq<real>>, params: seq<real>, xs: seq<real>, j: nat, rest: seq<seq<real>>)
    requires j < |xs|
    ensures all + Extend(params, Expand(xs[..j + 1], rest))
            == all + Extend(params, Expand(xs[..j], rest)) + Extend(params + [xs[j]], rest)
  {
    assert xs[..j + 1] == xs[..j] + [xs[j]];
    ExpandAppend(xs[..j], xs[j], rest);
    var a, b := Expand(xs[..j], rest), Extend([xs[j]], rest);
    assert Extend(params, a + b) == Extend(params, a) + Extend(params, b);
    assert forall i :: 0 <= i < |rest| ==> params + ([xs[j]] + rest[i]) == (params + [xs[j]]) + rest[i];
    assert Extend(params, b) == Extend(params + [xs[j]], rest);
  }

  /** One level of the recursion, at dimension k. */
  lemma CartesianStep(bounds: seq<(real, real)>, iterations: seq<nat>, k: nat)
    requires k < |bounds| && k < |iterations|
    ensures var xs := Linspace(bounds[k].0, bounds[k].1, iterations[k]);
            Cartesian(bounds[k..], Drop(iterations, k))
            == if k + 1 == |bounds| then Ok(Expand(xs, [[]]))
               else if xs == [] then Ok([])
               else match Cartesian(bounds[k + 1..], Drop(iterations, k + 1))
                    case Err(e) => Err(e)
                    case Ok(rest) => Ok(Expand(xs, rest))
  {
    var sub := bounds[k..];
    assert sub[0] == bounds[k] && sub[1..] == bounds[k + 1..];
    assert Drop(iterations, k)[0] == iterations[k] && Drop(iterations, k)[1..] == Drop(iterations, k + 1);
  }

  /** What the call for one more component appends per sample of dimension
      k: the vectors of the deeper dimensions, or one empty tail at the last. */
  function Inner(bounds: seq<(real, real)>, iterations: seq<nat>, k: nat): seq<seq<real>>
    requires k < |bounds|
  {
    if k + 1 == |bounds| then [[]]
    else match Cartesian(bounds[k + 1..], Drop(iterations, k + 1)) case Ok(v) => v case Err(_) => []
  }

  lemma LevelDone(bounds: seq<(real, real)>, iterations: seq<nat>, params: seq<real>, all: seq<seq<real>>, k: nat)
    requires k < |bounds| && k < |iterations|
    requires var xs := Linspace(bounds[k].0, bounds[k].1, iterations[k]);
             xs != [] && k + 1 < |bounds| ==> Cartesian(bounds[k + 1..], Drop(iterations, k + 1)).Ok?
    ensures var xs := Linspace(bounds[k].0, bounds[k].1, iterations[k]);
            Ok(all + Extend(params, Expand(xs, Inner(bounds, iterations, k))))
            == Appended(all, params, Cartesian(bounds[k..], Drop(iterations, k)))
  {
    CartesianStep(bounds, iterations, k);
    var xs := Linspace(bounds[k].0, bounds[k].1, iterations[k]);
    if xs == [] {
      assert all + Extend(params, []) == all;
    }
  }

  lemma LevelFails(bounds: seq<(real, real)>, iterations: seq<nat>, params: seq<real>, all: seq<seq<real>>, k: nat)
    requires k + 1 < |bounds| && k < |iterations|
    requires Linspace(bounds[k].0, bounds[k].1, iterations[k]) != []
    requires Cartesian(bounds[k + 1..], Drop(iterations, k + 1)).Err?
    ensures Appended(all, params, Cartesian(bounds[k..], Drop(iterations, k)))
            == Cartesian(bounds[k + 1..], Drop(iterations, k + 1))
  {
    CartesianStep(bounds, iterations, k);
  }

  /** One turn of the sample loop at dimension k: what the call for sample j
      leaves behind extends the list by that sample's vectors. */
  lemma SampleAppends(bounds: seq<(real, real)>, iterations: seq<nat>, params: seq<real>, all: seq<seq<real>>,
                      k: nat, xs: seq<real>, rest: seq<seq<real>>, j: nat,
                      acc: seq<seq<real>>, r: Result<seq<seq<real>>>, p: Option<seq<real>>)
    requires k == |params| < |bounds| && k < |iterations|
    requires xs == Linspace(bounds[k].0, bounds[k].1, iterations[k]) && rest == Inner(bounds, iterations, k)
    requires j < |xs|
    requires acc == all + Extend(params, Expand(xs[..j], rest))
    requires k + 1 == |bounds| ==> r == Ok(acc) && p == Some(params + [xs[j]])
    requires k + 1 < |bounds| ==> p.None? && r == Appended(acc, params + [xs[j]], Cartesian(bounds[k + 1..], Drop(iterations, k + 1)))
    requires r.Ok?
    ensures k + 1 < |bounds| ==> Cartesian(bounds[k + 1..], Drop(iterations, k + 1)).Ok?
    ensures (if p.Some? then r.value + [p.value] else r.value) == all + Extend(params, Expand(xs[..j + 1], rest))
  {
    AppendStep(all, params, xs, j, rest);
    if p.Some? {
      assert params + [xs[j]] + [] == params + [xs[j]];
      assert Extend(params + [xs[j]], rest) == [p.value];
    }
  }

  /** recursive_params(bounds, iterations, params) with the global list
      all_params passed in and returned; `index`, the dimension filled
      next, always equals len(params). Returns the vector when it is
      complete, None otherwise, as the source does. */
  method RecursiveParams(bounds: seq<(real, real)>, iterations: seq<nat>, params: seq<real>, index: nat, all: seq<seq<real>>)
    returns (res: Result<seq<seq<real>>>, ret: Option<seq<real>>)
    requires index == |params| <= |bounds|
    ensures index == |bounds| ==> res == Ok(all) && ret == Some(params)
    ensures index < |bounds| ==> ret.None? && res == Appended(all, params, Cartesian(bounds[index..], Drop(iterations, index)))
    decreases |bounds| - index
  {
    var k := index;
    if k == |bounds| {
      return Ok(all), Some(params);
    }
    ret := None;
    if k >= |iterations| {
      assert Drop(iterations, k) == [];
      return Err(IndexError), None;
    }
    var xs := Linspace(bounds[k].0, bounds[k].1, iterations[k]);
    ghost var rest := Inner(bounds, iterations, k);
    var acc := all;
    var j := 0;
    while j < |xs|
      invariant 0 <= j <= |xs|
      invariant j > 0 && k + 1 < |bounds| ==> Cartesian(bounds[k + 1..], Drop(iterations, k + 1)).Ok?
      invariant acc == all + Extend(params, Expand(xs[..j], rest))
    {
      var r, p := RecursiveParams(bounds, iterations, params + [xs[j]], k + 1, acc);
      if r.Err? {
        LevelFails(bounds, iterations, params, all, k);
        return r, None;
      }
      SampleAppends(bounds, iterations, params, all, k, xs, rest, j, acc, r, p);
      if p.Some? {
        acc := r.value + [p.value];
      } else {
        acc := r.value;
      }
      j := j + 1;
    }
    assert xs[..j] == xs;
    LevelDone(bounds, iterations, params, all, k);
    return Ok(acc), None;
  }

  /** best_fitting_params_fun's first step: all_params = [];
      recursive_params(bounds, iterations, []). */
  method AllParams(bounds: seq<(real, real)>, iterations: seq<nat>) returns (r: Result<seq<seq<real>>>)
    ensures r == Candidates(bounds, iterations)
  {
    var res, _ := RecursiveParams(bounds, iterations, [], 0, []);
    if bounds != [] {
      assert bounds[0..] == bounds && Drop(iterations, 0) == iterations;
      if Cartesian(bounds, iterations).Ok? {
        var v := Cartesian(bounds, iterations).value;
        ExtendEmpty(v);
        assert [] + Extend([], v) == v;
      }
    }
    return res;
  }

  /** The number of samples of each dimension. */
  function Lengths(ds: seq<seq<real>>): (r: seq<nat>)
    ensures |r| == |ds|
    ensures forall d :: 0 <= d < |ds| ==> r[d] == |ds[d]|
  {
    seq(|ds|, d requires 0 <= d < |ds| => |ds[d]|)
  }

  /** With an iteration count for every dimension, the recursion enumerates
      the Cartesian product of the linspace samples. */
  lemma {:induction false} CartesianIsProduct(bounds: seq<(real, real)>, iterations: seq<nat>)
    requires bounds != [] && |iterations| >= |bounds|
    ensures Cartesian(bounds, iterations) == Ok(Product(Grid(bounds, iterations)))
    decreases |bounds|
  {
    var g := Grid(bounds, iterations);
    if |bounds| > 1 {
      assert g[1..] == Grid(bounds[1..], iterations[1..]);
      CartesianIsProduct(bounds[1..], iterations[1..]);
    } else {
      assert g[1..] == [];
    }
  }

  /** The product holds one vector per combination of samples. */
  lemma {:induction false} ProductCount(ds: seq<seq<real>>)
    ensures |Product(ds)| == Prod(Lengths(ds))
    decreases |ds|
  {
    if ds != [] {
      ProductCount(ds[1..]);
      ExpandLength(ds[0], Product(ds[1..]));
      assert Lengths(ds)[1..] == Lengths(ds[1..]);
    }
  }

  /** Entry i * |rest| + j of a level is sample i followed by tail j. */
  lemma {:induction false} ExpandIndex(xs: seq<real>, rest: seq<seq<real>>, i: nat, j: nat)
    requires i < |xs| && j < |rest|
    ensures i * |rest| + j < |Expand(xs, rest)|
    ensures Expand(xs, rest)[i * |rest| + j] == [xs[i]] + rest[j]
    decreases i
  {
    var n := |rest|;
    ExpandLength(xs, rest);
    MulSucc(i, n);
    MulMono(i + 1, |xs|, n);
    if i > 0 {
      ExpandIndex(xs[1..], rest, i - 1, j);
      MulSucc(i - 1, n);
    }
  }

  /** Every entry of a level is a sample of xs followed by an entry of rest. */
  lemma {:induction false} ExpandShape(xs: seq<real>, rest: seq<seq<real>>)
    ensures forall k :: 0 <= k < |Expand(xs, rest)| ==>
              |Expand(xs, rest)[k]| >= 1 && Expand(xs, rest)[k][0] in xs && Expand(xs, rest)[k][1..] in rest
    decreases |xs|
  {
    if xs != [] {
      ExpandShape(xs[1..], rest);
      var e := Expand(xs, rest);
      forall k | 0 <= k < |e|
        ensures |e[k]| >= 1 && e[k][0] in xs && e[k][1..] in rest
      {
        if k < |rest| {
          assert e[k] == [xs[0]] + rest[k];
          assert e[k][1..] == rest[k];
        } else {
          assert e[k] == Expand(xs[1..], rest)[k - |rest|];
        }
      }
    }
  }

  /** Every candidate has one component per dimension, component d being a
      sample of dimension d. */
  lemma {:induction false} ProductShape(ds: seq<seq<real>>)
    ensures forall k :: 0 <= k < |Product(ds)| ==> |Product(ds)[k]| == |ds|
    ensures forall k, d :: 0 <= k < |Product(ds)| && 0 <= d < |ds| ==> Product(ds)[k][d] in ds[d]
    decreases |ds|
  {
    if ds != [] {
      ProductShape(ds[1..]);
      var rest := Product(ds[1..]);
      ExpandShape(ds[0], rest);
      var p := Product(ds);
      forall k | 0 <= k < |p|
        ensures |p[k]| == |ds|
        ensures forall d :: 0 <= d < |ds| ==> p[k][d] in ds[d]
      {
        var t := p[k][1..];
        assert t in rest;
        forall d | 0 <= d < |ds|
          ensures p[k][d] in ds[d]
        {
          if d > 0 {
            assert p[k][d] == t[d - 1];
            assert ds[1..][d - 1] == ds[d];
          }
        }
      }
    }
  }

  /** Lexicographic order, dimension 0 outermost: entry i * |tails| + j is
      sample i of dimension 0 followed by tail j. */
  lemma ProductOrder(ds: seq<seq<real>>, i: nat, j: nat)
    requires ds != [] && i < |ds[0]| && j < |Product(ds[1..])|
    ensures i * |Product(ds[1..])| + j < |Product(ds)|
    ensures Product(ds)[i * |Product(ds[1..])| + j] == [ds[0][i]] + Product(ds[1..])[j]
  {
    ExpandIndex(ds[0], Product(ds[1..]), i, j);
  }

  /** The candidate list: empty for no dimensions; with an iteration count for
      every dimension, all Π iterations[d] vectors of the grid, each of length
      |bounds| with component d a linspace sample of bounds[d]. */
  lemma CandidatesComplete(bounds: seq<(real, real)>, iterations: seq<nat>)
    requires |iterations| >= |bounds|
    ensures bounds == [] ==> Candidates(bounds, iterations) == Ok([])
    ensures bounds != [] ==> Candidates(bounds, iterations) == Ok(Product(Grid(bounds, iterations)))
    ensures bounds != [] ==> |Candidates(bounds, iterations).value| == Prod(iterations[..|bounds|])
    ensures forall k :: 0 <= k < |Candidates(bounds, iterations).value| ==>
              |Candidates(bounds, iterations).value[k]| == |bounds| &&
              forall d :: 0 <= d < |bounds| ==>
                Candidates(bounds, iterations).value[k][d] in Linspace(bounds[d].0, bounds[d].1, iterations[d])
  {
    if bounds != [] {
      CartesianIsProduct(bounds, iterations);
      var g := Grid(bounds, iterations);
      ProductCount(g);
      assert Lengths(g) == iterations[..|bounds|];
      ProductShape(g);
    }
  }

  /** An iteration count missing for some dimension raises IndexError exactly
      when the recursion gets that deep, that is when every earlier
      dimension has samples; otherwise nothing is enumerated. */
  lemma {:induction false} CartesianShort(bounds: seq<(real, real)>, iterations: seq<nat>)
    requires |iterations| < |bounds|
    ensures Product(Grid(bounds[..|iterations|], iterations)) != [] ==> Cartesian(bounds, iterations) == Err(IndexError)
    ensures Product(Grid(bounds[..|iterations|], iterations)) == [] ==> Cartesian(bounds, iterations) == Ok([])
    decreases |iterations|
  {
    var m := |iterations|;
    var g := Grid(bounds[..m], iterations);
    if m > 0 {
      var xs := Linspace(bounds[0].0, bounds[0].1, iterations[0]);
      assert g[0] == xs;
      assert bounds[1..][..m - 1] == bounds[..m][1..];
      assert g[1..] == Grid(bounds[1..][..m - 1], iterations[1..]);
      CartesianShort(bounds[1..], iterations[1..]);
      if xs == [] {
        assert Product(g) == [];
      } else {
        var t := Product(g[1..]);
        assert Product(g) == Expand(xs, t);
        ExpandLength(xs, t);
        if t == [] {
          assert Product(g) == [];
        } else {
          assert |xs| * |t| > 0;
        }
      }
    }
  }

  /** int(combinations / threading_scale) for a positive scale is the integer
      quotient (Python's true division, then truncation toward zero). */
  lemma TruncQuotient(c: nat, scale: nat)
    requires scale > 0
    ensures Trunc(c as real / scale as real) == c / scale
  {
    var q, m := c / scale, c % scale;
    var sr := scale as real;
    var x := c as real / sr;
    assert c == q * scale + m && 0 <= m < scale;
    CastMul(q, scale);
    assert c as real == q as real * sr + m as real;
    var f := m as real / sr;
    assert 0.0 <= f < 1.0;
    assert x == q as real + f;
    var r := Trunc(x);
    assert r as real <= x < r as real + 1.0;
    assert q as real <= x < q as real + 1.0;
  }

  lemma CastMul(a: int, b: int)
    ensures (a * b) as real == a as real * b as real
  {
  }

  lemma MulSucc(i: int, k: int)
    ensures (i + 1) * k == i * k + k
  {
  }

  lemma QuotientParts(c: nat, scale: nat)
    requires scale > 0
    ensures scale * (c / scale) + c % scale == c
    ensures 0 <= c % scale < scale
  {
  }

  lemma MulMono(a: int, b: int, k: nat)
    requires a <= b
    ensures a * k <= b * k
  {
  }

  /** end_i after n turns of the chunk loop, each adding step. */
  function Cursor(step: int, n: nat): (r: int)
    ensures step >= 0 ==> r >= 0
  {
    if n == 0 then 0 else Cursor(step, n - 1) + step
  }

  lemma {:induction false} CursorIsProduct(step: int, n: nat)
    ensures Cursor(step, n) == n * step
  {
    if n > 0 {
      CursorIsProduct(step, n - 1);
      MulSucc(n - 1, step);
    }
  }

  lemma {:induction false} CursorMono(step: nat, i: nat, j: nat)
    requires i <= j
    ensures Cursor(step, i) <= Cursor(step, j)
  {
    if i < j {
      CursorMono(step, i, j - 1);
    }
  }

  /** The first n slices of the chunk loop: all[0:step], all[step:2*step], ... */
  function Slices<T>(all: seq<T>, step: int, n: nat): (r: seq<seq<T>>)
    ensures |r| == n
  {
    if n == 0 then [] else Slices(all, step, n - 1) + [Slice(all, Cursor(step, n - 1), Cursor(step, n))]
  }

  /** The chunks best_fitting_params_fun hands to its workers: threading_scale
      slices of width combinations / threading_scale (none for a negative
      scale), then, when the cursor stopped before the guard (combinations - 1
      in the source), the rest of the list. */
  function ChunkSpec<T>(all: seq<T>, scale: int, tailGuard: int): seq<seq<T>>
    requires scale != 0
  {
    if scale > 0 then Cut(all, |all| / scale, scale, tailGuard) else Cut(all, 0, 0, tailGuard)
  }

  /** n slices of width step, and the rest of the list when the cursor
      stopped before the guard. */
  function Cut<T>(all: seq<T>, step: int, n: nat, tailGuard: int): seq<seq<T>>
  {
    var e := Cursor(step, n);
    if e < tailGuard then Slices(all, step, n) + [Slice(all, e, |all|)] else Slices(all, step, n)
  }

  /** The chunking loop of best_fitting_params_fun; ZeroDivisionError for a
      zero scale. */
  method Chunks<T>(all: seq<T>, scale: int) returns (r: Result<seq<seq<T>>>)
    ensures r.Err? <==> scale == 0
    ensures r.Err? ==> r.error == ZeroDivisionError
    ensures r.Ok? ==> r.value == ChunkSpec(all, scale, |all| - 1)
  {
    if scale == 0 {
      return Err(ZeroDivisionError);
    }
    var c := |all|;
    var step := Trunc(c as real / scale as real);
    if scale > 0 {
      TruncQuotient(c, scale);
    }
    var chunks: seq<seq<T>> := [];
    var endI := 0;
    var i := 0;
    while i < scale
      invariant 0 <= i && (scale > 0 ==> i <= scale) && (scale < 0 ==> i == 0)
      invariant endI == Cursor(step, i)
      invariant chunks == Slices(all, step, i)
    {
      var startI := endI;
      endI := endI + step;
      chunks := chunks + [Slice(all, startI, endI)];
      i := i + 1;
    }
    if endI < c - 1 {
      chunks := chunks + [Slice(all, endI, c)];
    }
    return Ok(chunks);
  }

  /** The chunks one after the other. */
  function Flatten<T>(ss: seq<seq<T>>): seq<T>
  {
    if ss == [] then [] else Flatten(ss[..|ss| - 1]) + ss[|ss| - 1]
  }

  /** The first n slices, one after the other, are the prefix up to the
      cursor. */
  lemma {:induction false} FlattenSlices<T>(all: seq<T>, step: nat, n: nat)
    requires Cursor(step, n) <= |all|
    ensures Flatten(Slices(all, step, n)) == all[..Cursor(step, n)]
  {
    if n > 0 {
      var lo, hi := Cursor(step, n - 1), Cursor(step, n);
      FlattenSlices(all, step, n - 1);
      assert Slices(all, step, n)[..n - 1] == Slices(all, step, n - 1);
      assert Slice(all, lo, hi) == all[lo..hi];
      assert all[..lo] + all[lo..hi] == all[..hi];
    }
  }

  lemma FlattenSnoc<T>(ss: seq<seq<T>>, x: seq<T>)
    ensures Flatten(ss + [x]) == Flatten(ss) + x
  {
    assert (ss + [x])[..|ss|] == ss;
  }

  /** Flattened, the chunks are the list up to the cursor, or all of it
      when the tail chunk is added. */
  lemma CoverWith<T>(all: seq<T>, step: nat, n: nat, guard: int)
    requires Cursor(step, n) <= |all|
    ensures Flatten(Cut(all, step, n, guard)) == if Cursor(step, n) < guard then all else all[..Cursor(step, n)]
  {
    if Cursor(step, n) < guard {
      var e := Cursor(step, n);
      TailSlice(all, e);
      CutTail(all, step, n, guard);
      FlattenSlices(all, step, n);
      FlattenSnoc(Slices(all, step, n), Slice(all, e, |all|));
      AppendSplit(all, e);
    } else {
      FlattenSlices(all, step, n);
    }
  }

  lemma AppendSplit<T>(s: seq<T>, e: nat)
    requires e <= |s|
    ensures s[..e] + s[e..] == s
  {
  }

  lemma TailSlice<T>(s: seq<T>, e: nat)
    requires e <= |s|
    ensures Slice(s, e, |s|) == s[e..]
  {
  }

  lemma CutTail<T>(all: seq<T>, step: nat, n: nat, guard: int)
    requires Cursor(step, n) < guard
    ensures Cut(all, step, n, guard) == Slices(all, step, n) + [Slice(all, Cursor(step, n), |all|)]
  {
  }

  /** With a positive scale, the chunks as the source cuts them cover the
      candidate list in order, except that the last candidate is left out
      when exactly one candidate remains after the equal-width chunks. */
  lemma ChunksCover<T>(all: seq<T>, scale: nat)
    requires scale > 0
    ensures |all| % scale != 1 ==> Flatten(ChunkSpec(all, scale, |all| - 1)) == all
    ensures |all| % scale == 1 ==> Flatten(ChunkSpec(all, scale, |all| - 1)) == all[..|all| - 1]
  {
    QuotientParts(|all|, scale);
    CursorIsProduct(|all| / scale, scale);
    CoverWith(all, |all| / scale, scale, |all| - 1);
  }

  /** The evidently intended tail guard, end < combinations: the chunks
      always cover the whole list, in order. */
  lemma ChunksCoverFixed<T>(all: seq<T>, scale: nat)
    requires scale > 0
    ensures Flatten(ChunkSpec(all, scale, |all|)) == all
  {
    QuotientParts(|all|, scale);
    CursorIsProduct(|all| / scale, scale);
    CoverWith(all, |all| / scale, scale, |all|);
    var e := scale * (|all| / scale);
    if e >= |all| {
      assert all[..e] == all;
    }
  }

  /** Nine candidates over four workers: widths of two, and the ninth
      candidate is in no chunk. */
  lemma NineOverFourDropsLast()
    ensures ChunkSpec([0, 1, 2, 3, 4, 5, 6, 7, 8], 4, 8) == [[0, 1], [2, 3], [4, 5], [6, 7]]
  {
    var all := [0, 1, 2, 3, 4, 5, 6, 7, 8];
    assert Cursor(2, 1) == 2 && Cursor(2, 2) == 4 && Cursor(2, 3) == 6 && Cursor(2, 4) == 8;
    assert Slice(all, 0, 2) == [0, 1];
    assert Slice(all, 2, 4) == [2, 3];
    assert Slice(all, 4, 6) == [4, 5];
    assert Slice(all, 6, 8) == [6, 7];
    assert Slices(all, 2, 1) == [[0, 1]];
    assert Slices(all, 2, 2) == [[0, 1], [2, 3]];
    assert Slices(all, 2, 3) == [[0, 1], [2, 3], [4, 5]];
    assert Slices(all, 2, 4) == [[0, 1], [2, 3], [4, 5], [6, 7]];
  }

  /** Chunk i of the equal-width ones is all[i*step:(i+1)*step]. */
  lemma {:induction false} SliceAt<T>(all: seq<T>, step: int, n: nat, i: nat)
    requires i < n
    ensures Slices(all, step, n)[i] == Slice(all, Cursor(step, i), Cursor(step, i + 1))
    ensures Slices(all, step, n)[i] == Slice(all, i * step, (i + 1) * step)
  {
    if i < n - 1 {
      SliceAt(all, step, n - 1, i);
    }
    CursorIsProduct(step, i);
    CursorIsProduct(step, i + 1);
  }

  // ---------------------------------------------------------------------
  // Worker-local best, reduction and the whole search.

  /** The first of the best-scoring pairs: the scan seeded with the first
      pair that replaces its pick only on a strictly greater score. */
  function Best<P>(ps: seq<(P, real)>): (b: (P, real))
    requires |ps| > 0
    ensures b in ps
  {
    if |ps| == 1 then ps[0]
    else
      var b := Best(ps[..|ps| - 1]);
      if ps[|ps| - 1].1 > b.1 then ps[|ps| - 1] else b
  }

  /** Best picks a maximum score, and the earliest pair carrying it. */
  lemma {:induction false} BestIsFirstMax<P>(ps: seq<(P, real)>) returns (i: nat)
    requires |ps| > 0
    ensures i < |ps| && ps[i] == Best(ps)
    ensures forall k :: 0 <= k < |ps| ==> ps[k].1 <= Best(ps).1
    ensures forall k :: 0 <= k < i ==> ps[k].1 < Best(ps).1
  {
    if |ps| == 1 {
      i := 0;
    } else {
      var init := ps[..|ps| - 1];
      var j := BestIsFirstMax(init);
      assert forall k :: 0 <= k < |init| ==> init[k] == ps[k];
      if ps[|ps| - 1].1 > Best(init).1 {
        i := |ps| - 1;
      } else {
        i := j;
      }
    }
  }

  function Combine<P>(a: (P, real), b: (P, real)): (P, real)
  {
    if b.1 > a.1 then b else a
  }

  /** The best of a concatenation is the better of the two parts' bests,
      the left one winning a tie. */
  lemma {:induction false} BestConcat<P>(xs: seq<(P, real)>, ys: seq<(P, real)>)
    requires |xs| > 0 && |ys| > 0
    ensures Best(xs + ys) == Combine(Best(xs), Best(ys))
    decreases |ys|
  {
    var zs := xs + ys;
    if |ys| == 1 {
      assert zs[..|zs| - 1] == xs;
    } else {
      var ys' := ys[..|ys| - 1];
      assert zs[..|zs| - 1] == xs + ys';
      BestConcat(xs, ys');
    }
  }

  /** Each score of a candidate list, in order; the first failing score is
      the error. */
  function Evaluate<P>(list: seq<P>, score: P -> Result<real>): Result<seq<(P, real)>>
  {
    if list == [] then Ok([])
    else
      match Evaluate(list[..|list| - 1], score)
      case Err(e) => Err(e)
      case Ok(ps) =>
        match score(list[|list| - 1])
        case Err(e) => Err(e)
        case Ok(v) => Ok(ps + [(list[|list| - 1], v)])
  }

  /** Scoring stops at the first failure: the error of a prefix is the
      error of the whole list. */
  lemma {:induction false} EvaluateStops<P>(list: seq<P>, k: nat, score: P -> Result<real>)
    requires k <= |list| && Evaluate(list[..k], score).Err?
    ensures Evaluate(list, score) == Evaluate(list[..k], score)
    decreases |list| - k
  {
    if k < |list| {
      assert list[..k + 1][..k] == list[..k];
      EvaluateStops(list, k + 1, score);
    } else {
      assert list[..k] == list;
    }
  }

  /** Every candidate of the list has a score. */
  predicate AllScored<P>(list: seq<P>, score: P -> Result<real>)
  {
    forall k :: 0 <= k < |list| ==> score(list[k]).Ok?
  }

  /** Each candidate paired with its score. */
  function Scored<P>(list: seq<P>, score: P -> Result<real>): (r: seq<(P, real)>)
    requires AllScored(list, score)
    ensures |r| == |list|
  {
    seq(|list|, k requires 0 <= k < |list| => (list[k], score(list[k]).value))
  }

  /** The evaluation succeeds exactly when every score does, and then pairs
      each candidate with its score, in order. */
  lemma {:induction false} EvaluateOk<P>(list: seq<P>, score: P -> Result<real>)
    ensures Evaluate(list, score).Ok? <==> AllScored(list, score)
    ensures AllScored(list, score) ==> Evaluate(list, score).value == Scored(list, score)
  {
    if list != [] {
      var init, x := list[..|list| - 1], list[|list| - 1];
      EvaluateOk(init, score);
      assert forall k :: 0 <= k < |init| ==> init[k] == list[k];
      if AllScored(list, score) {
        assert AllScored(init, score);
        assert Scored(list, score) == Scored(init, score) + [(x, score(x).value)];
      }
    }
  }

  /** Scoring splits over a concatenation. */
  lemma ScoredConcat<P>(xs: seq<P>, ys: seq<P>, score: P -> Result<real>)
    requires AllScored(xs + ys, score)
    ensures AllScored(xs, score) && AllScored(ys, score)
    ensures Scored(xs + ys, score) == Scored(xs, score) + Scored(ys, score)
  {
    var zs := xs + ys;
    assert forall k :: 0 <= k < |xs| ==> zs[k] == xs[k];
    assert forall k :: 0 <= k < |ys| ==> zs[|xs| + k] == ys[k];
  }

  /** What one worker reports for its chunk: ([], None) for an empty chunk;
      the error of the first candidate's evaluation; KeyError right after
      the first evaluation under result type 1, whose score reads a 'liquid'
      entry that statistics never carry; otherwise the first error or the
      first best-scoring candidate. */
  function LocalBestSpec(list: seq<seq<real>>, score: seq<real> -> Result<real>, resultType: int): Result<(seq<real>, Option<real>)>
  {
    if list == [] then Ok(([], None))
    else if score(list[0]).Err? then Err(score(list[0]).error)
    else if resultType == 1 then Err(KeyError)
    else
      match Evaluate(list, score)
      case Err(e) => Err(e)
      case Ok(ps) => Ok((Best(ps).0, Some(Best(ps).1)))
  }

  /** threading_combinations: the local-best loop of one worker. */
  method LocalBest(list: seq<seq<real>>, score: seq<real> -> Result<real>, resultType: int)
    returns (r: Result<(seq<real>, Option<real>)>)
    ensures r == LocalBestSpec(list, score, resultType)
  {
    var bestResult: Option<real> := None;
    var bestParams: seq<real> := [];
    ghost var ps: seq<(seq<real>, real)> := [];
    var k := 0;
    while k < |list|
      invariant 0 <= k <= |list|
      invariant Evaluate(list[..k], score) == Ok(ps)
      invariant k == 0 ==> bestResult.None? && bestParams == []
      invariant k > 0 ==> resultType != 1 && score(list[0]).Ok?
      invariant k > 0 ==> |ps| == k && bestResult == Some(Best(ps).1) && bestParams == Best(ps).0
    {
      var params := list[k];
      var stats := score(params);
      assert list[..k + 1][..k] == list[..k];
      if stats.Err? {
        EvaluateStops(list, k + 1, score);
        return Err(stats.error);
      }
      if resultType == 1 {
        return Err(KeyError);
      }
      var result := stats.value;
      var ps' := ps + [(params, result)];
      assert ps'[..|ps'| - 1] == ps;
      if bestResult.None? {
        bestResult := Some(result);
        bestParams := params;
      }
      if result > bestResult.value {
        bestResult := Some(result);
        bestParams := params;
      }
      ps := ps';
      k := k + 1;
    }
    assert list[..k] == list;
    return Ok((bestParams, bestResult));
  }

  /** The worker results with their scores known. */
  function Known(results: seq<(seq<real>, Option<real>)>): (r: seq<(seq<real>, real)>)
    requires forall j :: 0 <= j < |results| ==> results[j].1.Some?
    ensures |r| == |results|
    ensures forall j :: 0 <= j < |results| ==> r[j] == (results[j].0, results[j].1.value)
  {
    seq(|results|, j requires 0 <= j < |results| => (results[j].0, results[j].1.value))
  }

  /** The final reduction: IndexError on no results; TypeError once a
      comparison meets a worker that saw an empty chunk; otherwise the first
      best result. */
  function ReduceSpec(results: seq<(seq<real>, Option<real>)>): Result<(seq<real>, real)>
  {
    if results == [] then Err(IndexError)
    else if exists j :: 0 <= j < |results| && results[j].1.None? then Err(TypeError)
    else Ok(Best(Known(results)))
  }

  method Reduce(results: seq<(seq<real>, Option<real>)>) returns (r: Result<(seq<real>, real)>)
    ensures r == ReduceSpec(results)
  {
    if results == [] {
      return Err(IndexError);
    }
    var br := results[0].1;
    var bp := results[0].0;
    var j := 0;
    while j < |results|
      invariant 0 <= j <= |results|
      invariant forall i :: 0 <= i < j ==> results[i].1.Some?
      invariant j == 0 ==> br == results[0].1 && bp == results[0].0
      invariant j > 0 ==> br.Some? && (bp, br.value) == Best(Known(results[..j]))
    {
      var (par, res) := results[j];
      if res.None? || br.None? {
        return Err(TypeError);
      }
      var ks := Known(results[..j + 1]);
      if j > 0 {
        assert ks[..j] == Known(results[..j]);
      }
      if res.value > br.value {
        br := res;
        bp := par;
      }
      j := j + 1;
    }
    assert results[..j] == results;
    return Ok((bp, br.value));
  }

  /** The worker results in chunk order; a worker that raises reports
      nothing. */
  function Survivors(chunks: seq<seq<seq<real>>>, score: seq<real> -> Result<real>, resultType: int): (r: seq<(seq<real>, Option<real>)>)
    ensures |r| <= |chunks|
  {
    if chunks == [] then []
    else
      var rest := Survivors(chunks[..|chunks| - 1], score, resultType);
      match LocalBestSpec(chunks[|chunks| - 1], score, resultType)
      case Err(_) => rest
      case Ok(v) => rest + [v]
  }

  /** best_fitting_params_fun without the processes: enumerate, cut into
      chunks, reduce what the workers report. */
  function SearchSpec(bounds: seq<(real, real)>, iterations: seq<nat>, scale: int,
                      score: seq<real> -> Result<real>, resultType: int): Result<(seq<real>, real)>
  {
    match Candidates(bounds, iterations)
    case Err(e) => Err(e)
    case Ok(all) =>
      if scale == 0 then Err(ZeroDivisionError)
      else ReduceSpec(Survivors(ChunkSpec(all, scale, |all| - 1), score, resultType))
  }

  method BestFittingParams(bounds: seq<(real, real)>, iterations: seq<nat>, scale: int,
                           score: seq<real> -> Result<real>, resultType: int)
    returns (r: Result<(seq<real>, real)>)
    ensures r == SearchSpec(bounds, iterations, scale, score, resultType)
  {
    var all := AllParams(bounds, iterations);
    if all.Err? {
      return Err(all.error);
    }
    var chunks := Chunks(all.value, scale);
    if chunks.Err? {
      return Err(chunks.error);
    }
    var cs := chunks.value;
    var results: seq<(seq<real>, Option<real>)> := [];
    var i := 0;
    while i < |cs|
      invariant 0 <= i <= |cs|
      invariant results == Survivors(cs[..i], score, resultType)
    {
      var local := LocalBest(cs[i], score, resultType);
      assert cs[..i + 1][..i] == cs[..i];
      if local.Ok? {
        results := results + [local.value];
      }
      i := i + 1;
    }
    assert cs[..i] == cs;
    r := Reduce(results);
  }

  lemma KnownSnoc(rs: seq<(seq<real>, Option<real>)>, x: (seq<real>, Option<real>))
    requires forall j :: 0 <= j < |rs| ==> rs[j].1.Some?
    requires x.1.Some?
    ensures Known(rs + [x]) == Known(rs) + [(x.0, x.1.value)]
  {
  }

  /** A worker whose chunk is non-empty and fully scored reports the
      chunk's first best. */
  lemma LocalBestOk(list: seq<seq<real>>, score: seq<real> -> Result<real>, resultType: int)
    requires list != [] && resultType != 1 && AllScored(list, score)
    ensures LocalBestSpec(list, score, resultType)
            == Ok((Best(Scored(list, score)).0, Some(Best(Scored(list, score)).1)))
  {
    EvaluateOk(list, score);
  }

  /** When every chunk is non-empty and every score succeeds (result type
      other than 1), each worker reports its chunk's first best and the
      reduction of those equals the first best over all chunks together. */
  lemma {:induction false} SurvivorsBest(chunks: seq<seq<seq<real>>>, score: seq<real> -> Result<real>, resultType: int)
    requires chunks != [] && resultType != 1
    requires forall j :: 0 <= j < |chunks| ==> chunks[j] != []
    requires AllScored(Flatten(chunks), score)
    ensures |Survivors(chunks, score, resultType)| == |chunks|
    ensures forall j :: 0 <= j < |chunks| ==> Survivors(chunks, score, resultType)[j].1.Some?
    ensures Flatten(chunks) != []
    ensures Best(Known(Survivors(chunks, score, resultType))) == Best(Scored(Flatten(chunks), score))
  {
    var init, last := chunks[..|chunks| - 1], chunks[|chunks| - 1];
    var flat := Flatten(init);
    assert Flatten(chunks) == flat + last;
    ScoredConcat(flat, last, score);
    var el := Scored(last, score);
    LocalBestOk(last, score, resultType);
    var y := (Best(el).0, Some(Best(el).1));
    var rest := Survivors(init, score, resultType);
    assert Survivors(chunks, score, resultType) == rest + [y];
    if init == [] {
      assert Scored(Flatten(chunks), score) == el;
      assert Known([y]) == [Best(el)];
    } else {
      assert forall j :: 0 <= j < |init| ==> init[j] == chunks[j];
      SurvivorsBest(init, score, resultType);
      var all := rest + [y];
      forall j | 0 <= j < |chunks|
        ensures all[j].1.Some?
      {
        if j < |rest| {
          assert all[j] == rest[j];
        }
      }
      KnownSnoc(rest, y);
      BestConcat(Known(rest), [Best(el)]);
      BestConcat(Scored(flat, score), el);
    }
  }

  /** An empty chunk makes its worker report None, which the reduction
      cannot compare. */
  lemma {:induction false} EmptyChunkSurvives(chunks: seq<seq<seq<real>>>, score: seq<real> -> Result<real>, resultType: int, j: nat)
    requires j < |chunks| && chunks[j] == []
    ensures exists i :: 0 <= i < |Survivors(chunks, score, resultType)| && Survivors(chunks, score, resultType)[i].1.None?
  {
    var init := chunks[..|chunks| - 1];
    var rest := Survivors(init, score, resultType);
    if j == |chunks| - 1 {
      assert LocalBestSpec(chunks[j], score, resultType) == Ok(([], None));
      assert Survivors(chunks, score, resultType)[|rest|].1.None?;
    } else {
      EmptyChunkSurvives(init, score, resultType, j);
      var i :| 0 <= i < |rest| && rest[i].1.None?;
      assert Survivors(chunks, score, resultType)[i] == rest[i];
    }
  }

  lemma SliceNonEmpty<T>(all: seq<T>, step: nat, n: nat, j: nat)
    requires step > 0 && Cursor(step, n) <= |all| && j < n
    ensures Slices(all, step, n)[j] != []
  {
    SliceAt(all, step, n, j);
    CursorMono(step, j + 1, n);
  }

  /** With at least as many candidates as workers, every chunk holds at
      least one candidate. */
  lemma ChunksNonEmpty<T>(all: seq<T>, scale: nat, guard: int)
    requires 0 < scale <= |all| && guard <= |all|
    ensures forall j :: 0 <= j < |ChunkSpec(all, scale, guard)| ==> ChunkSpec(all, scale, guard)[j] != []
  {
    var step := |all| / scale;
    QuotientParts(|all|, scale);
    QuotientPositive(|all|, scale);
    CursorIsProduct(step, scale);
    var e := Cursor(step, scale);
    forall j | 0 <= j < scale
      ensures Slices(all, step, scale)[j] != []
    {
      SliceNonEmpty(all, step, scale, j);
    }
    if e < guard {
      assert ChunkSpec(all, scale, guard)[scale] == Slice(all, e, |all|);
    }
  }

  lemma QuotientPositive(c: nat, scale: nat)
    requires 0 < scale <= c
    ensures c / scale > 0
  {
  }

  lemma QuotientZero(c: nat, scale: nat)
    requires c < scale
    ensures c / scale == 0
  {
  }

  /** Cutting a fully scored list of at least `scale` candidates and reducing
      what the workers report (result type other than 1) gives the first
      best of the candidates the chunks cover. */
  lemma ChunkedBest(all: seq<seq<real>>, scale: nat, score: seq<real> -> Result<real>, resultType: int)
    requires 0 < scale <= |all| && resultType != 1
    requires AllScored(all, score)
    ensures var covered := if |all| % scale == 1 then all[..|all| - 1] else all;
            covered != [] && AllScored(covered, score) &&
            ReduceSpec(Survivors(ChunkSpec(all, scale, |all| - 1), score, resultType)) == Ok(Best(Scored(covered, score)))
  {
    var chunks := ChunkSpec(all, scale, |all| - 1);
    ChunksCover(all, scale);
    ChunksNonEmpty(all, scale, |all| - 1);
    var covered := Flatten(chunks);
    assert forall k :: 0 <= k < |covered| ==> covered[k] == all[k];
    SurvivorsBest(chunks, score, resultType);
  }

  /** With the intended tail guard, end < combinations, cutting and reducing
      a fully scored list returns the first best of all its candidates. */
  lemma ChunkedBestFixed(all: seq<seq<real>>, scale: nat, score: seq<real> -> Result<real>, resultType: int)
    requires 0 < scale <= |all| && resultType != 1
    requires AllScored(all, score)
    ensures ReduceSpec(Survivors(ChunkSpec(all, scale, |all|), score, resultType)) == Ok(Best(Scored(all, score)))
  {
    var chunks := ChunkSpec(all, scale, |all|);
    ChunksCoverFixed(all, scale);
    ChunksNonEmpty(all, scale, |all|);
    SurvivorsBest(chunks, score, resultType);
  }

  /** The search over a grid with all scores available (result type other
      than 1) and at least as many candidates as workers returns the first
      best-scoring candidate among all of them, except that the last is
      never looked at when exactly one is left after the equal chunks. */
  lemma SearchFindsBest(bounds: seq<(real, real)>, iterations: seq<nat>, scale: nat,
                        score: seq<real> -> Result<real>, resultType: int)
    requires Candidates(bounds, iterations).Ok?
    requires 0 < scale <= |Candidates(bounds, iterations).value| && resultType != 1
    requires forall p :: p in Candidates(bounds, iterations).value ==> score(p).Ok?
    ensures var all := Candidates(bounds, iterations).value;
            var covered := if |all| % scale == 1 then all[..|all| - 1] else all;
            covered != [] && AllScored(covered, score) &&
            SearchSpec(bounds, iterations, scale, score, resultType) == Ok(Best(Scored(covered, score)))
  {
    var all := Candidates(bounds, iterations).value;
    assert AllScored(all, score);
    ChunkedBest(all, scale, score, resultType);
  }

  /** With fewer candidates than workers every equal chunk is empty and the
      search ends in TypeError, whatever the scores. */
  lemma SmallGridFails(bounds: seq<(real, real)>, iterations: seq<nat>, scale: nat,
                       score: seq<real> -> Result<real>, resultType: int)
    requires Candidates(bounds, iterations).Ok?
    requires |Candidates(bounds, iterations).value| < scale
    ensures SearchSpec(bounds, iterations, scale, score, resultType) == Err(TypeError)
  {
    var all := Candidates(bounds, iterations).value;
    QuotientZero(|all|, scale);
    var chunks := ChunkSpec(all, scale, |all| - 1);
    SliceAt(all, 0, scale, 0);
    assert chunks[0] == [];
    EmptyChunkSurvives(chunks, score, resultType, 0);
  }
}
