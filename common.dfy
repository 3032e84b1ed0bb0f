/** Shared vocabulary: the exceptions the modelled Python code can raise,
    a failure-compatible Result, and a few numeric helpers. */
module Common {

  /** The Python exceptions the modelled code raises on its error paths. */
  datatype Error =
    | IndexError         // indexing past the end of a list, `[][0]`
    | TypeError          // an operation applied to a value of the wrong kind
    | ValueError         // `list.index` of a missing element
    | ZeroDivisionError  // division of a Python float by zero
    | AssertionError     // a failed `assert`
    | AttributeError     // reading `.data` of a plain number

  datatype Result<+T> = Ok(value: T) | Err(error: Error) {
    predicate IsFailure() { Err? }

    function PropagateFailure<U>(): Result<U>
      requires Err?
    {
      Err(error)
    }

    function Extract(): T
      requires Ok?
    {
      value
    }
  }

  datatype Option<+T> = None | Some(value: T)

  /** Python's `sum` over plain numbers, folded from the left. */
  function Sum(xs: seq<real>): real
  {
    if xs == [] then 0.0 else Sum(xs[..|xs| - 1]) + xs[|xs| - 1]
  }

  lemma SumAppend(xs: seq<real>, x: real)
    ensures Sum(xs + [x]) == Sum(xs) + x
  {
    assert (xs + [x])[..|xs|] == xs;
  }

  /** Multiplication as a named function: equal factors are then seen to
      give equal products inside results and sequences. */
  function Times(a: real, b: real): real
  {
    a * b
  }

  /** `b ** n` for a natural exponent. */
  function Power(b: real, n: nat): real
  {
    if n == 0 then 1.0 else Power(b, n - 1) * b
  }

  function Min(a: int, b: int): int { if a <= b then a else b }

  /** The sequence of the first `n` naturals, `range(n)`. */
  function Range(n: nat): (r: seq<nat>)
    ensures |r| == n && forall i :: 0 <= i < n ==> r[i] == i
  {
    if n == 0 then [] else Range(n - 1) + [n - 1]
  }

  /** No element occurs twice. */
  predicate Distinct<T(==)>(s: seq<T>)
  {
    forall i, j :: 0 <= i < j < |s| ==> s[i] != s[j]
  }

  /** `s` lists every natural below `n` exactly once. */
  predicate IsPermutation(s: seq<nat>, n: nat)
  {
    |s| == n && Distinct(s) && forall i :: 0 <= i < |s| ==> s[i] < n
  }

  /** Python's `s[lo:hi]` for non-negative bounds: out-of-range bounds are clamped. */
  function Slice<T>(s: seq<T>, lo: nat, hi: nat): (r: seq<T>)
    ensures |r| == if lo < hi && lo < |s| then Min(hi, |s|) - lo else 0
    ensures forall k :: 0 <= k < |r| ==> r[k] == s[lo + k]
  {
    var h := if hi <= |s| then hi else |s|;
    if lo < h then s[lo..h] else []
  }

  /** Iterating over a set: its elements, once each, in an order the model
      leaves open. */
  method ListOf<T>(s: set<T>) returns (r: seq<T>)
    ensures Distinct(r) && forall x :: x in r <==> x in s
  {
    r := [];
    var rest := s;
    while rest != {}
      invariant Distinct(r)
      invariant forall x :: x in r <==> x in s && x !in rest
      invariant rest <= s
    {
      var x :| x in rest;
      r := r + [x];
      rest := rest - {x};
    }
  }

  /** The entries of a list of rows, row by row. */
  function Flatten<T>(m: seq<seq<T>>): seq<T>
  {
    if m == [] then [] else Flatten(m[..|m| - 1]) + m[|m| - 1]
  }

  /** An entry is listed by `Flatten` exactly when some row holds it. */
  lemma {:induction false} FlattenHas<T>(m: seq<seq<T>>, x: T)
    ensures x in Flatten(m) <==> exists i :: 0 <= i < |m| && x in m[i]
  {
    if m != [] {
      var init := m[..|m| - 1];
      FlattenHas(init, x);
      if x in Flatten(init) {
        var i :| 0 <= i < |init| && x in init[i];
        assert m[i] == init[i];
      }
      if exists i :: 0 <= i < |m| && x in m[i] {
        var i :| 0 <= i < |m| && x in m[i];
        if i < |m| - 1 {
          assert init[i] == m[i];
        }
      }
    }
  }

  /** `Flatten` keeps the entries in row-major order: entry `j` of row `i`
      comes after every entry of the rows before it. */
  lemma {:induction false} FlattenAt<T>(m: seq<seq<T>>, i: nat, j: nat)
    requires i < |m| && j < |m[i]|
    ensures |Flatten(m[..i])| + j < |Flatten(m)|
    ensures Flatten(m)[|Flatten(m[..i])| + j] == m[i][j]
  {
    var init := m[..|m| - 1];
    if i < |m| - 1 {
      assert m[..i] == init[..i];
      FlattenAt(init, i, j);
    } else {
      assert m[..i] == init;
    }
  }

  /** `Flatten` of two lists of rows joined is the two flattenings joined. */
  lemma {:induction false} FlattenAppend<T>(a: seq<seq<T>>, b: seq<seq<T>>)
    ensures Flatten(a + b) == Flatten(a) + Flatten(b)
    decreases |b|
  {
    if b != [] {
      var init := b[..|b| - 1];
      assert (a + b)[..|a + b| - 1] == a + init;
      FlattenAppend(a, init);
    } else {
      assert a + b == a;
    }
  }

  /** The first position of `x` in `s`. */
  function IndexOf<T(==)>(s: seq<T>, x: T): (r: nat)
    requires x in s
    ensures r < |s| && s[r] == x && forall k :: 0 <= k < r ==> s[k] != x
  {
    if s[0] == x then 0 else 1 + IndexOf(s[1..], x)
  }

  /** `list.index(x)`: the first position of `x`, ValueError when it is not
      in the list. */
  function Index<T(==)>(s: seq<T>, x: T): (r: Result<nat>)
    ensures r.Err? <==> x !in s
    ensures r.Err? ==> r.error == ValueError
    ensures r.Ok? ==> r.value < |s| && s[r.value] == x && forall k :: 0 <= k < r.value ==> s[k] != x
  {
    if x in s then Ok(IndexOf(s, x)) else Err(ValueError)
  }

  /** Python's `s[key]` for an integer key: negative keys count from the end. */
  function PyIndex(n: nat, key: int): (r: Option<nat>)
    ensures r.Some? <==> -(n as int) <= key < n
    ensures r.Some? ==> r.value < n && (r.value == key || r.value == key + n)
  {
    if 0 <= key < n then Some(key) else if -(n as int) <= key < 0 then Some((key + n) as nat) else None
  }

  /** The list `[x]` repeated `n` times, Python's `[x] * n`. */
  function Repeat<T>(x: T, n: nat): (r: seq<T>)
    ensures |r| == n && forall i :: 0 <= i < n ==> r[i] == x
  {
    seq(n, _ => x)
  }

  /** The list `row` repeated `n` times end to end, Python's `row * n`:
      it starts with `row` and repeats itself every `|row|` entries. */
  function Repeated<T>(row: seq<T>, n: nat): (r: seq<T>)
    ensures |r| == |row| * n
    ensures n > 0 ==> r[..|row|] == row
    ensures forall k :: |row| <= k < |r| ==> r[k] == r[k - |row|]
  {
    if n == 0 then [] else
      var rest := Repeated(row, n - 1);
      assert forall k :: |row| <= k < |row + rest| ==> (row + rest)[k] == (row + rest)[k - |row|] by {
        forall k | |row| <= k < |row + rest|
          ensures (row + rest)[k] == (row + rest)[k - |row|]
        {
          var j := k - |row|;
          if j >= |row| {
            assert rest[j] == rest[j - |row|];
          } else {
            assert rest[..|row|] == row;
            assert rest[j] == rest[..|row|][j];
          }
        }
      }
      row + rest
  }

  /** A bound of a Python slice of a list of length `n`: a negative bound
      counts from the end, and the result is clamped to `0..n`. */
  function PyBound(n: nat, b: int): (r: nat)
    ensures r <= n
    ensures 0 <= b <= n ==> r == b
    ensures b > n ==> r == n
    ensures b < 0 ==> r == if b + n < 0 then 0 else b + n
  {
    if b < 0 then (if b + n < 0 then 0 else b + n) else if b > n then n else b
  }

  /** Python's `s[lo:hi]`. */
  function PySlice<T>(s: seq<T>, lo: int, hi: int): (r: seq<T>)
    ensures PyBound(|s|, lo) < PyBound(|s|, hi) ==> r == s[PyBound(|s|, lo)..PyBound(|s|, hi)]
    ensures PyBound(|s|, hi) <= PyBound(|s|, lo) ==> r == []
  {
    var l, h := PyBound(|s|, lo), PyBound(|s|, hi);
    if l < h then s[l..h] else []
  }
}
