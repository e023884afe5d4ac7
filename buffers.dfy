/** Buffers written block by block: a buffer that a loop fills with `n`
    blocks of equal width, block `a` being `f(a)`. */
module Buffers {

  function Concat<T>(n: nat, f: nat -> seq<T>): seq<T> {
    if n == 0 then [] else Concat(n - 1, f) + f(n - 1)
  }

  /** Every block has width `w`. */
  predicate Uniform<T>(n: nat, f: nat -> seq<T>, w: nat) {
    forall a :: 0 <= a < n ==> |f(a)| == w
  }

  lemma {:induction false} ConcatLength<T>(n: nat, f: nat -> seq<T>, w: nat)
    requires Uniform(n, f, w)
    ensures |Concat(n, f)| == n * w
  {
    if n > 0 {
      ConcatLength(n - 1, f, w);
      assert (n - 1) * w + w == n * w;
    }
  }

  /** Position `a * w + r` of the buffer is position `r` of block `a`. */
  lemma {:induction false} ConcatIndex<T>(n: nat, f: nat -> seq<T>, w: nat, a: nat, r: nat)
    requires Uniform(n, f, w) && a < n && r < w
    ensures a * w + r < |Concat(n, f)| && Concat(n, f)[a * w + r] == f(a)[r]
  {
    ConcatLength(n, f, w);
    ConcatLength(n - 1, f, w);
    assert (n - 1) * w + w == n * w;
    if a < n - 1 {
      ConcatIndex(n - 1, f, w, a, r);
      assert Uniform(n - 1, f, w);
    } else {
      assert a * w == (n - 1) * w;
    }
  }

  /** Every element of the buffer comes from some block. */
  lemma {:induction false} ConcatMember<T>(n: nat, f: nat -> seq<T>, k: int)
    requires 0 <= k < |Concat(n, f)|
    ensures exists a :: 0 <= a < n && Concat(n, f)[k] in f(a)
  {
    var init := Concat(n - 1, f);
    if k < |init| {
      ConcatMember(n - 1, f, k);
    } else {
      assert Concat(n, f)[k] == f(n - 1)[k - |init|];
    }
  }

  /** The block after the first `n` extends their concatenation. */
  lemma ConcatStep<T>(n: nat, f: nat -> seq<T>, prefix: seq<T>, block: seq<T>)
    requires prefix == Concat(n, f) && block == f(n)
    ensures Concat(n + 1, f) == prefix + block
  {
  }

  lemma AppendAssoc<T>(a: seq<T>, b: seq<T>, c: seq<T>)
    ensures (a + b) + c == a + (b + c)
  {
  }

  /** Two sequences that agree from `i` on agree from any later `j` on. */
  lemma SuffixFrom<T>(a: seq<T>, b: seq<T>, i: nat, j: nat)
    requires i <= j <= |a| && |a| == |b| && a[i..] == b[i..]
    ensures a[j..] == b[j..]
  {
    assert a[j..] == a[i..][j - i..] && b[j..] == b[i..][j - i..];
  }

  lemma MulMono(x: int, y: int, k: nat)
    requires x <= y
    ensures x * k <= y * k
  {
  }

  lemma MulSign(x: int, y: int)
    ensures x * y < 0 <==> (x < 0 && y > 0) || (x > 0 && y < 0)
    ensures x * y == 0 <==> x == 0 || y == 0
  {
    if x > 0 && y > 0 { MulMono(1, x, y); }
    if x < 0 && y < 0 { assert x * y == (-x) * (-y); MulMono(1, -x, -y); }
    if x > 0 && y < 0 { assert x * y == -(x * (-y)); MulMono(1, x, -y); }
    if x < 0 && y > 0 { assert x * y == -((-x) * y); MulMono(1, -x, y); }
  }
}
