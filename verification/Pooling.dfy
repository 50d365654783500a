/** Padding a batch to its longest row and pooling the hidden states back: what a text's vector is does
    not depend on the texts it shares a batch with. */
module Pooling {
  import opened Basics
  import opened Batching

  type Vec = seq<real>
  type Grid = seq<seq<int>>

  // ---- padding ----

  function TokensOf(seqs: seq<seq<int>>, i: int): seq<int> {
    if 0 <= i < |seqs| then seqs[i] else []
  }

  function Width(seqs: seq<seq<int>>, rows: seq<int>): (w: nat)
    ensures forall k :: 0 <= k < |rows| ==> |TokensOf(seqs, rows[k])| <= w
  {
    if rows == [] then 0
    else
      var w, l := Width(seqs, rows[..|rows| - 1]), |TokensOf(seqs, rows[|rows| - 1])|;
      if w < l then l else w
  }

  /** The batch is as wide as its longest row, no wider. */
  lemma {:induction false} WidthIsLongest(seqs: seq<seq<int>>, rows: seq<int>) returns (k: nat)
    requires rows != []
    ensures k < |rows| && |TokensOf(seqs, rows[k])| == Width(seqs, rows)
  {
    var n := |rows| - 1;
    k := n;
    assert rows[..0] == [];
    if n > 0 && |TokensOf(seqs, rows[n])| < Width(seqs, rows) {
      k := WidthIsLongest(seqs, rows[..n]);
    }
  }

  /** A row of token ids, padded on the right. */
  function PaddedRow(tokens: seq<int>, width: nat, padId: int): (r: seq<int>)
    requires |tokens| <= width
    ensures |r| == width
  {
    tokens + seq(width - |tokens|, _ => padId)
  }

  function MaskRow(len: nat, width: nat): (r: seq<int>)
    requires len <= width
    ensures |r| == width
  {
    seq(width, c => if c < len then 1 else 0)
  }

  function PaddedIds(seqs: seq<seq<int>>, rows: seq<int>, padId: int): (g: Grid)
    ensures |g| == |rows|
  {
    seq(|rows|, r requires 0 <= r < |rows| => PaddedRow(TokensOf(seqs, rows[r]), Width(seqs, rows), padId))
  }

  function Mask(seqs: seq<seq<int>>, rows: seq<int>): (g: Grid)
    ensures |g| == |rows|
  {
    seq(|rows|, r requires 0 <= r < |rows| => MaskRow(|TokensOf(seqs, rows[r])|, Width(seqs, rows)))
  }

  /** The batch is filled in place: ids start as padding and the mask as zeros. */
  method PadBatch(seqs: seq<seq<int>>, rows: seq<int>, padId: int) returns (ids: array2<int>, mask: array2<int>)
    requires rows != [] && InRange(rows, |seqs|)
    ensures fresh(ids) && fresh(mask)
    ensures ids.Length0 == mask.Length0 == |rows| && ids.Length1 == mask.Length1 == Width(seqs, rows)
    ensures forall r, c :: 0 <= r < |rows| && 0 <= c < ids.Length1 ==> ids[r, c] == PaddedIds(seqs, rows, padId)[r][c]
    ensures forall r, c :: 0 <= r < |rows| && 0 <= c < ids.Length1 ==> mask[r, c] == Mask(seqs, rows)[r][c]
  {
    var width := Width(seqs, rows);
    ids := new int[|rows|, width]((_, _) => padId);
    mask := new int[|rows|, width]((_, _) => 0);
    for row := 0 to |rows|
      invariant forall r, c :: 0 <= r < row && 0 <= c < width ==> ids[r, c] == PaddedIds(seqs, rows, padId)[r][c]
      invariant forall r, c :: 0 <= r < row && 0 <= c < width ==> mask[r, c] == Mask(seqs, rows)[r][c]
      invariant forall r, c :: row <= r < |rows| && 0 <= c < width ==> ids[r, c] == padId && mask[r, c] == 0
    {
      label Row:
      var s := seqs[rows[row]];
      assert s == TokensOf(seqs, rows[row]);
      for c := 0 to |s|
        invariant forall k :: 0 <= k < c ==> ids[row, k] == s[k] && mask[row, k] == 1
        invariant forall k :: c <= k < width ==> ids[row, k] == padId && mask[row, k] == 0
        invariant forall r, k :: 0 <= r < |rows| && r != row && 0 <= k < width ==>
          ids[r, k] == old@Row(ids[r, k]) && mask[r, k] == old@Row(mask[r, k])
      {
        ids[row, c], mask[row, c] := s[c], 1;
      }
    }
  }

  // ---- pooling ----

  function Component(v: Vec, j: nat): (x: real)
    ensures j < |v| ==> x == v[j]
  {
    if j < |v| then v[j] else 0.0
  }

  function Max(x: real, y: real): real { if x < y then y else x }

  /** Component `j` of the mask-weighted sum of the first `t` hidden states. */
  function MaskedSum(hidden: seq<Vec>, mask: seq<int>, t: nat, j: nat): real {
    if t == 0 then 0.0
    else
      var h, m := if t <= |hidden| then hidden[t - 1] else [], if t <= |mask| then mask[t - 1] else 0;
      MaskedSum(hidden, mask, t - 1, j) + Component(h, j) * m as real
  }

  function MaskSum(mask: seq<int>, t: nat): int {
    if t == 0 then 0 else MaskSum(mask, t - 1) + (if t <= |mask| then mask[t - 1] else 0)
  }

  /** To unit length, by whatever the Euclidean norm `norm` says the length is. */
  function Normalized(mean: Vec, norm: Vec -> real): Vec {
    seq(|mean|, j requires 0 <= j < |mean| => mean[j] / Max(norm(mean), 0.000000000001))
  }

  function PoolNormalize(hidden: seq<Vec>, mask: seq<int>, dim: nat, norm: Vec -> real): Vec {
    var count := Max(MaskSum(mask, |mask|) as real, 0.000000001);
    Normalized(seq(dim, j requires 0 <= j < dim => MaskedSum(hidden, mask, |mask|, j) / count), norm)
  }

  /** Component `j` of the sum of the first `t` hidden states. */
  function TokenSum(states: seq<Vec>, t: nat, j: nat): real
    requires t <= |states|
  {
    if t == 0 then 0.0 else TokenSum(states, t - 1, j) + Component(states[t - 1], j)
  }

  /** The vector of a text on its own: the mean of its tokens' hidden states, normalized. */
  function OwnVector(states: seq<Vec>, dim: nat, norm: Vec -> real): Vec {
    var count := Max(|states| as real, 0.000000001);
    Normalized(seq(dim, j requires 0 <= j < dim => TokenSum(states, |states|, j) / count), norm)
  }

  // ---- what a text's vector is ----

  function Scaled(c: real, v: Vec): (w: Vec)
    ensures |w| == |v| && forall j :: 0 <= j < |v| ==> w[j] == c * v[j]
  {
    seq(|v|, j requires 0 <= j < |v| => c * v[j])
  }

  /** All that matters of the Euclidean norm. */
  ghost predicate Homogeneous(norm: Vec -> real) {
    forall c: real, v: Vec :: norm(Scaled(c, v)) == (if c < 0.0 then -c else c) * norm(v)
  }

  /** The component-wise mean of the tokens' hidden states: so many times it is their sum. */
  ghost predicate IsMean(states: seq<Vec>, dim: nat, mean: Vec) {
    && |mean| == dim
    && forall j :: 0 <= j < dim ==>
        if states == [] then mean[j] == 0.0 else |states| as real * mean[j] == TokenSum(states, |states|, j)
  }

  /** A positive multiple of the mean, of length 1 unless the mean is too short to be scaled to that. */
  ghost predicate IsUnitMean(states: seq<Vec>, dim: nat, norm: Vec -> real, vec: Vec) {
    exists c: real, mean: Vec :: IsMean(states, dim, mean) && ScalesToUnit(c, mean, norm, vec)
  }

  ghost predicate ScalesToUnit(c: real, mean: Vec, norm: Vec -> real, vec: Vec) {
    && c > 0.0 && vec == Scaled(c, mean)
    && (if norm(mean) >= 0.000000000001 then norm(vec) == 1.0 else c == 1000000000000.0)
  }

  /** The sum of the tokens of two texts is the sum of their sums; a single token is its own sum. */
  lemma {:induction false} TokenSumConcat(a: seq<Vec>, b: seq<Vec>, j: nat)
    ensures TokenSum(a + b, |a| + |b|, j) == TokenSum(a, |a|, j) + TokenSum(b, |b|, j)
    ensures forall v: Vec :: j < |v| ==> TokenSum([v], 1, j) == v[j]
  {
    forall v: Vec | j < |v| ensures TokenSum([v], 1, j) == v[j] {
      assert TokenSum([v], 0, j) == 0.0;
    }
    TokenSumPrefix(a + b, a, |a|, j);
    TokenSumOnwards(a, b, |b|, j);
  }

  lemma {:induction false} TokenSumPrefix(s: seq<Vec>, a: seq<Vec>, t: nat, j: nat)
    requires a <= s && t <= |a|
    ensures TokenSum(s, t, j) == TokenSum(a, t, j)
  {
    if t > 0 {
      TokenSumPrefix(s, a, t - 1, j);
    }
  }

  lemma {:induction false} TokenSumOnwards(a: seq<Vec>, b: seq<Vec>, t: nat, j: nat)
    requires t <= |b|
    ensures TokenSum(a + b, |a| + t, j) == TokenSum(a + b, |a|, j) + TokenSum(b, t, j)
  {
    if t > 0 {
      TokenSumOnwards(a, b, t - 1, j);
      assert (a + b)[|a| + t - 1] == b[t - 1];
    }
  }

  lemma DivideOut(x: real, y: real)
    requires y != 0.0
    ensures y * (x / y) == x
  {
  }

  lemma DivideIsTimes(x: real, n: real)
    requires n > 0.0
    ensures x / n == (1.0 / n) * x
  {
  }

  lemma NormalizedIsScaled(mean: Vec, norm: Vec -> real)
    ensures Normalized(mean, norm) == Scaled(1.0 / Max(norm(mean), 0.000000000001), mean)
  {
    var n := Max(norm(mean), 0.000000000001);
    var v, w := Normalized(mean, norm), Scaled(1.0 / n, mean);
    forall j | 0 <= j < |mean| ensures v[j] == w[j] {
      DivideIsTimes(mean[j], n);
    }
  }

  lemma UnitFactor(x: real, c: real)
    requires c == 1.0 / Max(x, 0.000000000001)
    ensures c > 0.0 && (if x >= 0.000000000001 then c * x == 1.0 else c == 1000000000000.0)
  {
    DivideOut(1.0, Max(x, 0.000000000001));
  }

  lemma NormalizedIsUnit(mean: Vec, norm: Vec -> real)
    requires Homogeneous(norm)
    ensures ScalesToUnit(1.0 / Max(norm(mean), 0.000000000001), mean, norm, Normalized(mean, norm))
  {
    var c := 1.0 / Max(norm(mean), 0.000000000001);
    UnitFactor(norm(mean), c);
    NormalizedIsScaled(mean, norm);
    assert norm(Scaled(c, mean)) == c * norm(mean);
  }

  /** A text's own vector points where the mean of its tokens' hidden states points, and has length 1. */
  lemma OwnVectorIsUnitMean(states: seq<Vec>, dim: nat, norm: Vec -> real)
    requires Homogeneous(norm)
    ensures IsUnitMean(states, dim, norm, OwnVector(states, dim, norm))
  {
    var count := Max(|states| as real, 0.000000001);
    var mean := seq(dim, j requires 0 <= j < dim => TokenSum(states, |states|, j) / count);
    forall j | 0 <= j < dim
      ensures if states == [] then mean[j] == 0.0 else |states| as real * mean[j] == TokenSum(states, |states|, j)
    {
      if states != [] {
        DivideOut(TokenSum(states, |states|, j), count);
      }
    }
    NormalizedIsUnit(mean, norm);
  }

  lemma {:induction false} PaddingAddsNothing(hidden: seq<Vec>, states: seq<Vec>, len: nat, width: nat, t: nat, j: nat)
    requires len <= width == |hidden| && t <= width && hidden[..len] == states
    ensures MaskedSum(hidden, MaskRow(len, width), t, j) == TokenSum(states, if t < len then t else len, j)
    ensures MaskSum(MaskRow(len, width), t) == if t < len then t else len
  {
    if t > 0 {
      PaddingAddsNothing(hidden, states, len, width, t - 1, j);
      if t <= len {
        assert hidden[t - 1] == states[t - 1];
      }
    }
  }

  /** Pooling a padded row gives the vector of its real tokens, whatever the padding's states are. */
  lemma PoolIgnoresPadding(hidden: seq<Vec>, states: seq<Vec>, len: nat, width: nat, dim: nat, norm: Vec -> real)
    requires len <= width == |hidden| && hidden[..len] == states
    ensures PoolNormalize(hidden, MaskRow(len, width), dim, norm) == OwnVector(states, dim, norm)
  {
    var mask := MaskRow(len, width);
    PaddingAddsNothing(hidden, states, len, width, width, 0);
    var count := Max(len as real, 0.000000001);
    forall j | 0 <= j < dim ensures MaskedSum(hidden, mask, width, j) == TokenSum(states, len, j) {
      PaddingAddsNothing(hidden, states, len, width, width, j);
    }
    assert seq(dim, j requires 0 <= j < dim => MaskedSum(hidden, mask, width, j) / count)
        == seq(dim, j requires 0 <= j < dim => TokenSum(states, len, j) / count);
  }

  // ---- the forward pass ----

  type Model = (Grid, Grid) -> seq<seq<Vec>>

  /** On this batch the model gives real tokens the hidden states they have without padding. */
  ghost predicate BlindOn(model: Model, states: seq<int> -> seq<Vec>, seqs: seq<seq<int>>, rows: seq<int>, padId: int) {
    var hidden := model(PaddedIds(seqs, rows, padId), Mask(seqs, rows));
    && |hidden| == |rows|
    && forall r :: 0 <= r < |rows| ==> RealTokens(hidden[r], TokensOf(seqs, rows[r]), states, Width(seqs, rows))
  }

  ghost predicate RealTokens(hidden: seq<Vec>, tokens: seq<int>, states: seq<int> -> seq<Vec>, width: nat) {
    |tokens| <= width == |hidden| && hidden[..|tokens|] == states(tokens)
  }

  ghost predicate PaddingBlind(model: Model, states: seq<int> -> seq<Vec>, seqs: seq<seq<int>>, padId: int) {
    forall rows: seq<int> :: rows != [] && InRange(rows, |seqs|) ==> BlindOn(model, states, seqs, rows, padId)
  }

  function Vectors(model: Model, seqs: seq<seq<int>>, padId: int, dim: nat, norm: Vec -> real,
                   rows: seq<int>): (vecs: seq<Vec>)
    ensures |vecs| == |rows|
  {
    var mask := Mask(seqs, rows);
    var hidden := model(PaddedIds(seqs, rows, padId), mask);
    seq(|rows|, r requires 0 <= r < |rows| => PoolNormalize(if r < |hidden| then hidden[r] else [], mask[r], dim, norm))
  }

  function Forward(model: Model, seqs: seq<seq<int>>, padId: int, dim: nat, norm: Vec -> real): seq<int> -> seq<Vec> {
    (rows: seq<int>) => Vectors(model, seqs, padId, dim, norm, rows)
  }

  function Own(states: seq<int> -> seq<Vec>, seqs: seq<seq<int>>, dim: nat, norm: Vec -> real): int -> Vec {
    (i: int) => OwnVector(states(TokensOf(seqs, i)), dim, norm)
  }

  lemma OwnOf(states: seq<int> -> seq<Vec>, seqs: seq<seq<int>>, dim: nat, norm: Vec -> real, i: nat)
    requires i < |seqs|
    ensures Own(states, seqs, dim, norm)(i) == OwnVector(states(seqs[i]), dim, norm)
  {
    assert TokensOf(seqs, i) == seqs[i];
  }

  lemma RowIsOwn(model: Model, states: seq<int> -> seq<Vec>, seqs: seq<seq<int>>, padId: int, dim: nat,
                 norm: Vec -> real, rows: seq<int>, r: nat)
    requires BlindOn(model, states, seqs, rows, padId) && r < |rows|
    ensures Vectors(model, seqs, padId, dim, norm, rows)[r] == Own(states, seqs, dim, norm)(rows[r])
  {
    var hidden := model(PaddedIds(seqs, rows, padId), Mask(seqs, rows));
    var tokens := TokensOf(seqs, rows[r]);
    assert RealTokens(hidden[r], tokens, states, Width(seqs, rows));
    PoolIgnoresPadding(hidden[r], states(tokens), |tokens|, Width(seqs, rows), dim, norm);
  }

  /** A text's vector does not depend on its batch-mates, nor on its place among them. */
  lemma BatchMatesDoNotMatter(model: Model, states: seq<int> -> seq<Vec>, seqs: seq<seq<int>>, padId: int, dim: nat,
                              norm: Vec -> real)
    requires PaddingBlind(model, states, seqs, padId)
    ensures RowByRow(Forward(model, seqs, padId, dim, norm), Own(states, seqs, dim, norm), |seqs|)
  {
    var forward, own := Forward(model, seqs, padId, dim, norm), Own(states, seqs, dim, norm);
    forall rows: seq<int> | rows != [] && InRange(rows, |seqs|) ensures OwnVectors(rows, forward(rows), own) {
      assert BlindOn(model, states, seqs, rows, padId);
      forall r | 0 <= r < |rows| ensures forward(rows)[r] == own(rows[r]) {
        RowIsOwn(model, states, seqs, padId, dim, norm, rows, r);
      }
    }
  }

  function Lengths(seqs: seq<seq<int>>): (ls: seq<nat>)
    ensures |ls| == |seqs| && forall i :: 0 <= i < |seqs| ==> ls[i] == |seqs[i]|
  {
    seq(|seqs|, i requires 0 <= i < |seqs| => |seqs[i]|)
  }

  /** End to end: batched, padded and halved at will, text `i` gets the vector it has on its own. */
  method EmbedTexts(session: Session<Vec>, seqs: seq<seq<int>>, maxBatch: int, budget: int, ghost model: Model,
                    ghost states: seq<int> -> seq<Vec>, ghost padId: int, ghost dim: nat, ghost norm: Vec -> real)
    returns (r: Embedded<Vec>, ghost passes: seq<Pass>)
    requires session.vectors == Forward(model, seqs, padId, dim, norm) && PaddingBlind(model, states, seqs, padId)
    modifies session
    ensures session.log == old(session.log) + passes
    ensures r.Vectors? <==> AllBenign(passes)
    ensures r.Vectors? ==> |r.vecs| == |seqs|
    ensures r.Vectors? ==> forall i :: 0 <= i < |seqs| ==> r.vecs[i] == OwnVector(states(seqs[i]), dim, norm)
    ensures r.Vectors? && Homogeneous(norm) ==>
      forall i :: 0 <= i < |seqs| ==> IsUnitMean(states(seqs[i]), dim, norm, r.vecs[i])
  {
    BatchMatesDoNotMatter(model, states, seqs, padId, dim, norm);
    r, passes := EmbedSequences(session, Lengths(seqs), maxBatch, budget, Own(states, seqs, dim, norm));
    if r.Vectors? {
      forall i | 0 <= i < |seqs| ensures r.vecs[i] == OwnVector(states(seqs[i]), dim, norm) {
        OwnOf(states, seqs, dim, norm, i);
      }
      if Homogeneous(norm) {
        forall i | 0 <= i < |seqs| ensures IsUnitMean(states(seqs[i]), dim, norm, r.vecs[i]) {
          OwnVectorIsUnitMean(states(seqs[i]), dim, norm);
        }
      }
    }
  }
}
