/** Small shared vocabulary: optional values, results, Java integer widths. */
module Common {

  datatype Option<+T> = None | Some(value: T)

  /** An operation that either yields a value or fails with an error. */
  datatype Result<+R, +E> = Success(value: R) | Failure(error: E)

  /** One byte of a Java `byte[]`, taken as its unsigned value. */
  newtype byte = x: int | 0 <= x < 256

  const TwoTo32: int := 0x1_0000_0000
  const TwoTo64: int := 0x1_0000_0000_0000_0000
  const IntMin: int := -0x8000_0000
  const IntMax: int := 0x7fff_ffff

  const LongMin: int := -0x8000_0000_0000_0000
  const LongMax: int := 0x7fff_ffff_ffff_ffff

  predicate IsInt32(x: int) { IntMin <= x <= IntMax }

  predicate IsInt64(x: int) { LongMin <= x <= LongMax }

  /** Java `int` arithmetic: the two's complement value of `x` in 32 bits. */
  function Wrap32(x: int): (r: int)
    ensures IsInt32(r)
    ensures (r - x) % TwoTo32 == 0
    ensures IsInt32(x) ==> r == x
  {
    var m := x % TwoTo32;
    if m <= IntMax then m else m - TwoTo32
  }

  /** Java `long` arithmetic: the two's complement value of `x` in 64 bits. */
  function Wrap64(x: int): (r: int)
    ensures IsInt64(r)
    ensures (r - x) % TwoTo64 == 0
    ensures IsInt64(x) ==> r == x
    ensures LongMax < x <= 2 * LongMax ==> r == x - TwoTo64 && r < 0
  {
    var m := x % TwoTo64;
    if m <= LongMax then m else m - TwoTo64
  }

  /** Java's `%` on integers: truncating division, so the remainder takes the sign of the dividend. */
  function JavaRem(a: int, b: int): (r: int)
    requires b != 0
    ensures a >= 0 ==> 0 <= r < if b > 0 then b else -b
    ensures a < 0 ==> r <= 0 && -r < (if b > 0 then b else -b)
    ensures a >= 0 && b > 0 ==> r == a % b
  {
    var ab := if b > 0 then b else -b;
    if a >= 0 then a % ab else -((-a) % ab)
  }

  /** The elements of a list of lists, in order. */
  function Flatten<E>(lists: seq<seq<E>>): seq<E>
  {
    if |lists| == 0 then [] else Flatten(lists[..|lists| - 1]) + lists[|lists| - 1]
  }

  lemma {:induction false} FlattenAppend<E>(a: seq<seq<E>>, b: seq<seq<E>>)
    ensures Flatten(a + b) == Flatten(a) + Flatten(b)
    decreases |b|
  {
    if |b| == 0 {
      assert a + b == a;
    } else {
      var init, last := b[..|b| - 1], b[|b| - 1];
      assert (a + b)[..|a + b| - 1] == a + init;
      assert (a + b)[|a + b| - 1] == last;
      FlattenAppend(a, init);
      assert Flatten(a + b) == Flatten(a + init) + last;
      assert Flatten(b) == Flatten(init) + last;
      AppendAssoc(Flatten(a), Flatten(init), last);
    }
  }

  lemma AppendAssoc<E>(a: seq<E>, b: seq<E>, c: seq<E>)
    ensures (a + b) + c == a + (b + c)
  {
  }

  lemma SliceOfSlice<E>(s: seq<E>, i: int, j: int, k: int)
    requires 0 <= i <= j <= |s| && 0 <= k <= j - i
    ensures s[i..j][k..] == s[i + k..j]
  {
  }

  function Min(a: int, b: int): int { if a <= b then a else b }
  function Max(a: int, b: int): int { if a >= b then a else b }
}
