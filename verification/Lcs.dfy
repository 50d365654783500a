/** The ROUGE-L kernel: a two-row dynamic programme for the length of a longest common subsequence, in
    its Rust and JavaScript forms. */
module Lcs {

  newtype i32 = x: int | -0x8000_0000 <= x < 0x8000_0000
  newtype u32 = x: int | 0 <= x < 0x1_0000_0000

  const U32_LIMIT := 0x1_0000_0000

  // ---- what is computed ----

  /** `c` is `s` with elements left out. */
  ghost predicate Subsequence<T>(c: seq<T>, s: seq<T>) {
    if c == [] then true
    else if s == [] then false
    else
      || (c[|c| - 1] == s[|s| - 1] && Subsequence(c[..|c| - 1], s[..|s| - 1]))
      || Subsequence(c, s[..|s| - 1])
  }

  ghost predicate Common<T>(c: seq<T>, a: seq<T>, b: seq<T>) {
    Subsequence(c, a) && Subsequence(c, b)
  }

  /** The recurrence the programme tabulates. */
  function Length<T(==)>(a: seq<T>, b: seq<T>): nat
    decreases |a| + |b|
  {
    if a == [] || b == [] then 0
    else if a[|a| - 1] == b[|b| - 1] then Length(a[..|a| - 1], b[..|b| - 1]) + 1
    else Max(Length(a[..|a| - 1], b), Length(a, b[..|b| - 1]))
  }

  function Max(x: nat, y: nat): nat { if x > y then x else y }

  lemma {:induction false} SubsequenceWeaken<T>(c: seq<T>, s: seq<T>)
    requires c != [] && Subsequence(c, s)
    ensures Subsequence(c[..|c| - 1], s)
    decreases |s|
  {
    var c', s' := c[..|c| - 1], s[..|s| - 1];
    if c' != [] {
      if c[|c| - 1] == s[|s| - 1] && Subsequence(c', s') {
      } else {
        SubsequenceWeaken(c, s');
      }
    }
  }

  lemma DropLast<T>(c: seq<T>, s: seq<T>)
    requires c != [] && s != [] && Subsequence(c, s)
    ensures Subsequence(c[..|c| - 1], s[..|s| - 1])
  {
    if !(c[|c| - 1] == s[|s| - 1] && Subsequence(c[..|c| - 1], s[..|s| - 1])) {
      SubsequenceWeaken(c, s[..|s| - 1]);
    }
  }

  /** No common subsequence is longer. */
  lemma {:induction false} NoneLonger<T>(c: seq<T>, a: seq<T>, b: seq<T>)
    requires Common(c, a, b)
    ensures |c| <= Length(a, b)
    decreases |a| + |b|
  {
    if c != [] {
      if a[|a| - 1] == b[|b| - 1] {
        DropLast(c, a);
        DropLast(c, b);
        NoneLonger(c[..|c| - 1], a[..|a| - 1], b[..|b| - 1]);
      } else if Subsequence(c, a[..|a| - 1]) {
        NoneLonger(c, a[..|a| - 1], b);
      } else {
        assert Subsequence(c, b[..|b| - 1]);
        NoneLonger(c, a, b[..|b| - 1]);
      }
    }
  }

  /** Some common subsequence has exactly this length. */
  lemma {:induction false} Attained<T>(a: seq<T>, b: seq<T>) returns (c: seq<T>)
    ensures Common(c, a, b) && |c| == Length(a, b)
    decreases |a| + |b|
  {
    if a == [] || b == [] {
      c := [];
    } else if a[|a| - 1] == b[|b| - 1] {
      c := Attained(a[..|a| - 1], b[..|b| - 1]);
      var x := a[|a| - 1];
      assert (c + [x])[..|c|] == c;
      c := c + [x];
    } else if Length(a[..|a| - 1], b) > Length(a, b[..|b| - 1]) {
      c := Attained(a[..|a| - 1], b);
    } else {
      c := Attained(a, b[..|b| - 1]);
    }
  }

  lemma {:induction false} Symmetric<T>(a: seq<T>, b: seq<T>)
    ensures Length(a, b) == Length(b, a)
    decreases |a| + |b|
  {
    if a != [] && b != [] {
      Symmetric(a[..|a| - 1], b[..|b| - 1]);
      Symmetric(a[..|a| - 1], b);
      Symmetric(a, b[..|b| - 1]);
    }
  }

  lemma {:induction false} AtMostShorter<T>(a: seq<T>, b: seq<T>)
    ensures Length(a, b) <= |a| && Length(a, b) <= |b|
    decreases |a| + |b|
  {
    if a != [] && b != [] {
      AtMostShorter(a[..|a| - 1], b[..|b| - 1]);
      AtMostShorter(a[..|a| - 1], b);
      AtMostShorter(a, b[..|b| - 1]);
    }
  }

  /** The length of the longest common subsequence of `a` and `b`, by its meaning. */
  ghost predicate IsLcsLength<T(!new)>(n: int, a: seq<T>, b: seq<T>) {
    && (exists c: seq<T> :: Common(c, a, b) && |c| == n)
    && (forall c: seq<T> :: Common(c, a, b) ==> |c| <= n)
  }

  lemma LengthIsLcsLength<T(!new)>(a: seq<T>, b: seq<T>)
    ensures IsLcsLength(Length(a, b), a, b)
  {
    var c := Attained(a, b);
    forall c: seq<T> | Common(c, a, b) ensures |c| <= Length(a, b) {
      NoneLonger(c, a, b);
    }
  }

  // ---- the two kernels ----

  /** Cell `j` of the row for the first `i` tokens of `a`. */
  function Cell(a: seq<i32>, b: seq<i32>, i: nat, j: nat): nat
    requires i <= |a| && j <= |b|
  {
    Length(a[..i], b[..j])
  }

  lemma CellStep(a: seq<i32>, b: seq<i32>, i: nat, j: nat)
    requires i < |a| && 0 < j <= |b|
    ensures Cell(a, b, i + 1, j) ==
      if a[i] == b[j - 1] then Cell(a, b, i, j - 1) + 1 else Max(Cell(a, b, i, j), Cell(a, b, i + 1, j - 1))
    ensures Cell(a, b, i + 1, 0) == 0
    ensures Cell(a, b, i, j) <= |a| && Cell(a, b, i, j) <= |b|
    ensures Cell(a, b, i + 1, j) <= |a| && Cell(a, b, i + 1, j) <= |b|
  {
    assert a[..i + 1][..i] == a[..i] && b[..j][..j - 1] == b[..j - 1];
    AtMostShorter(a[..i], b[..j]);
    AtMostShorter(a[..i + 1], b[..j]);
  }

  /** `rouge_l_lcs_core`: `u32` cells with checked arithmetic. The inputs are typed arrays, so the
      shorter one fits a `u32`; then no cell overflows. */
  method RougeLLcsCore(a: seq<i32>, b: seq<i32>) returns (r: u32)
    requires |a| < U32_LIMIT || |b| < U32_LIMIT
    ensures r as nat == Length(a, b)
    ensures IsLcsLength(r as int, a, b)
  {
    LengthIsLcsLength(a, b);
    if |a| == 0 || |b| == 0 {
      return 0;
    }
    var n := |b|;
    var prev := new u32[n + 1](_ => 0);
    var curr := new u32[n + 1](_ => 0);
    for i := 0 to |a|
      invariant prev.Length == curr.Length == n + 1 && prev != curr
      invariant fresh(prev) && fresh(curr)
      invariant curr[0] == 0
      invariant forall j :: 0 <= j <= n ==> prev[j] as nat == Cell(a, b, i, j)
    {
      var ai := a[i];
      for j := 1 to n + 1
        invariant curr[0] == 0
        invariant forall m :: 0 <= m <= n ==> prev[m] as nat == Cell(a, b, i, m)
        invariant forall m :: 0 <= m < j ==> curr[m] as nat == Cell(a, b, i + 1, m)
      {
        CellStep(a, b, i, j);
        curr[j] := if ai == b[j - 1] then prev[j - 1] + 1
                   else if prev[j] > curr[j - 1] then prev[j] else curr[j - 1];
      }
      prev, curr := curr, prev;
    }
    assert a[..|a|] == a && b[..n] == b;
    return prev[n];
  }

  function Uint32(x: nat): nat { x % U32_LIMIT }

  /** `rougeLLcs`: numbers, truncated to 32 bits whenever a `Uint32Array` cell is written. */
  method RougeLLcs(a: seq<i32>, b: seq<i32>) returns (r: nat)
    ensures |a| < U32_LIMIT || |b| < U32_LIMIT ==> r == Length(a, b) && IsLcsLength(r, a, b)
  {
    LengthIsLcsLength(a, b);
    if |a| == 0 || |b| == 0 {
      return 0;
    }
    var n := |b|;
    var prev := new nat[n + 1](_ => 0);
    var curr := new nat[n + 1](_ => 0);
    ghost var fits := |a| < U32_LIMIT || |b| < U32_LIMIT;
    for i := 0 to |a|
      invariant prev.Length == curr.Length == n + 1 && prev != curr
      invariant fresh(prev) && fresh(curr)
      invariant prev[0] == 0 == curr[0]
      invariant fits ==> forall j :: 0 <= j <= n ==> prev[j] == Cell(a, b, i, j)
    {
      var ai := a[i];
      for j := 1 to n + 1
        invariant prev[0] == 0 == curr[0]
        invariant fits ==> forall m :: 0 <= m <= n ==> prev[m] == Cell(a, b, i, m)
        invariant fits ==> forall m :: 0 <= m < j ==> curr[m] == Cell(a, b, i + 1, m)
      {
        CellStep(a, b, i, j);
        curr[j] := Uint32(if ai == b[j - 1] then prev[j - 1] + 1 else Max(prev[j], curr[j - 1]));
      }
      prev, curr := curr, prev;
    }
    assert a[..|a|] == a && b[..n] == b;
    return prev[n];
  }

  /** Whatever order the two texts come in, both kernels give the same number. */
  method KernelsAgree(a: seq<i32>, b: seq<i32>) returns (rust: u32, js: nat, swapped: u32)
    requires |a| < U32_LIMIT || |b| < U32_LIMIT
    ensures rust as nat == js && swapped == rust
  {
    rust := RougeLLcsCore(a, b);
    js := RougeLLcs(a, b);
    swapped := RougeLLcsCore(b, a);
    Symmetric(a, b);
  }
}
