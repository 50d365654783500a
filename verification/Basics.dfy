/** Small notions that several components share. */
module Basics {

  datatype Option<+T> = None | Some(value: T)

  datatype Result<+T, +E> = Success(value: T) | Failure(error: E)

  newtype Byte = b: int | 0 <= b < 256

  type Bytes = seq<Byte>

  ghost predicate NoDuplicates<T>(s: seq<T>) {
    forall i, j :: 0 <= i < j < |s| ==> s[i] != s[j]
  }

  /** `0 .. n`, in order. */
  function Indices(n: nat): (s: seq<int>)
    ensures |s| == n && forall i :: 0 <= i < n ==> s[i] == i
  {
    seq(n, i => i)
  }

  /** Backslashes become slashes. */
  function NormalizeSeparators(p: string): (r: string)
    ensures |r| == |p|
    ensures forall i :: 0 <= i < |p| ==> r[i] == if p[i] == '\\' then '/' else p[i]
  {
    seq(|p|, i requires 0 <= i < |p| => if p[i] == '\\' then '/' else p[i])
  }

  /** One entry of a result list. */
  datatype RankedChunk = RankedChunk(chunkId: string, path: string)

  /** Nothing failed between operation `a` and operation `b`. */
  ghost predicate NoFault(fault: nat -> bool, a: nat, b: nat) {
    forall k: nat :: a <= k < b ==> !fault(k)
  }

  lemma TimesMonotone(x: nat, y: nat, c: nat)
    requires x <= y
    ensures x * c <= y * c && c * x <= c * y
  {
    assert (y - x) * c >= 0;
  }

  lemma RealTimesMonotone(x: real, y: real, c: real)
    requires x <= y && c >= 0.0
    ensures x * c <= y * c
  {
    assert (y - x) * c >= 0.0;
  }

  lemma RatioInUnit(x: real, y: real)
    requires 0.0 <= x <= y && y > 0.0
    ensures 0.0 <= x / y <= 1.0 && (x / y == 1.0 <==> x == y) && (x > 0.0 ==> x / y > 0.0)
  {
  }
}
