/** Arrays.cs, and the array creation expression `new T[size]` the mesh
    builders rely on. */
module Arrays {
  import opened Runtime

  /** `new T[size]`: a fresh array of default values, or an
      `OverflowException` for a negative size. */
  method Allocate<T>(size: int, default: T) returns (r: Result<array<T>>)
    ensures r.Throw? <==> size < 0
    ensures r.Throw? ==> r.exception == Overflow
    ensures r.Ok? ==> fresh(r.value) && r.value.Length == size && forall k :: 0 <= k < size ==> r.value[k] == default
  {
    if size < 0 {
      return Throw(Overflow);
    }
    var a := new T[size](_ => default);
    return Ok(a);
  }

  /** `Sequence(min, max)`, in C#'s unchecked 32-bit arithmetic: the size
      `max - min + 1` wraps (`size` below), and so does `i++` once `i`
      reaches `int.MaxValue`. A negative size is an `OverflowException`.
      With `max == int.MaxValue` the test `i <= max` never fails, so the
      loop runs until `arr[c++]` passes the end of the array. Otherwise the
      array holds `min .. max` when `min <= max` and is left at zeroes when
      it is not (a size that wrapped to a positive value included). */
  method Sequence(min: Int32, max: Int32) returns (r: Result<seq<int>>)
    ensures var size := Wrap32(max - min + 1);
      && (size < 0 ==> r == Throw(Overflow))
      && (0 <= size && max == Int32Max ==> r == Throw(IndexOutOfRange))
      && (0 <= size && max < Int32Max ==>
            r.Ok? && |r.value| == size &&
            forall k :: 0 <= k < size ==> r.value[k] == if min + k <= max then min + k else 0)
  {
    var created := Allocate(Wrap32(max - min + 1), 0);
    if created.Throw? {
      return Throw(created.exception);
    }
    var arr := created.value;
    var i: Int32 := min;
    var c := 0;
    while i <= max
      invariant 0 <= c <= arr.Length
      invariant max < Int32Max ==> i == min + c && (c == 0 || i <= max + 1)
      invariant max < Int32Max ==> forall k :: 0 <= k < c ==> arr[k] == min + k
      invariant forall k :: c <= k < arr.Length ==> arr[k] == 0
      decreases arr.Length - c
    {
      if c == arr.Length {
        return Throw(IndexOutOfRange);
      }
      arr[c] := i;
      c := c + 1;
      i := if i == Int32Max then Int32Min else i + 1;
    }
    return Ok(arr[..]);
  }

  /** `New(initialValue, size)`: `size` copies of the value, written over
      the default values of a fresh array. */
  method New<T(0)>(initialValue: T, size: int) returns (r: Result<seq<T>>)
    ensures r.Throw? <==> size < 0
    ensures r.Throw? ==> r.exception == Overflow
    ensures r.Ok? ==> |r.value| == size && forall k :: 0 <= k < size ==> r.value[k] == initialValue
  {
    var defaultValue: T :| true;
    var created := Allocate(size, defaultValue);
    if created.Throw? {
      return Throw(created.exception);
    }
    var arr := created.value;
    var i := 0;
    while i < size
      invariant 0 <= i <= size
      invariant forall k :: 0 <= k < i ==> arr[k] == initialValue
    {
      arr[i] := initialValue;
      i := i + 1;
    }
    return Ok(arr[..]);
  }

  /** `Array.Copy(source, 0, destination, at, source.Length)`. */
  method Copy<T>(source: seq<T>, destination: array<T>, at: nat)
    requires at + |source| <= destination.Length
    modifies destination
    ensures destination[..] == old(destination[..at]) + source + old(destination[at + |source|..])
  {
    ghost var front, initial := destination[..at], destination[..];
    var k := 0;
    while k < |source|
      invariant 0 <= k <= |source|
      invariant destination[..at + k] == front + source[..k]
      invariant destination[at + k..] == initial[at + k..]
    {
      CopyAt(source, destination, at, k, front, initial);
      k := k + 1;
    }
    assert source[..k] == source;
    assert destination[..] == destination[..at + k] + destination[at + k..];
  }

  /** Element `k` of a copy: the destination holding `front` and the first
      `k` elements of `source` then holds the first `k + 1`, and the slots
      after them keep what they held (`initial`). */
  method CopyAt<T>(source: seq<T>, destination: array<T>, at: nat, k: nat, ghost front: seq<T>, ghost initial: seq<T>)
    requires k < |source| && at + |source| <= destination.Length && |initial| == destination.Length
    requires destination[..at + k] == front + source[..k]
    requires destination[at + k..] == initial[at + k..]
    modifies destination
    ensures destination[..at + k + 1] == front + source[..k + 1]
    ensures destination[at + k + 1..] == initial[at + k + 1..]
  {
    destination[at + k] := source[k];
    assert destination[..at + k + 1] == old(destination[..at + k]) + [source[k]];
    assert source[..k + 1] == source[..k] + [source[k]];
    assert destination[at + k + 1..] == old(destination[at + k..])[1..];
    assert initial[at + k + 1..] == initial[at + k..][1..];
  }
}
