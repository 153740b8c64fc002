/** Small shared vocabulary: optional values, results, bytes. */
module Prelude {

  datatype Option<+T> = None | Some(value: T)

  datatype Result<+T, +E> = Ok(value: T) | Err(error: E)

  type byte = n: int | 0 <= n < 256

  type Bytes = seq<byte>

  function Max(a: nat, b: nat): (m: nat)
    ensures a <= m && b <= m && (m == a || m == b)
  {
    if a < b then b else a
  }

  /** The first `n` elements of `s`, or all of it when it is shorter. */
  function Take<T>(s: seq<T>, n: nat): (t: seq<T>)
    ensures t <= s && |t| <= n && (n <= |s| ==> |t| == n) && (n >= |s| ==> t == s)
  {
    if n < |s| then s[..n] else s
  }

  lemma {:induction false} Assoc<T>(a: seq<T>, b: seq<T>, c: seq<T>)
    ensures a + b + c == a + (b + c)
  {
  }

  /** Cutting a concatenation where it was joined. */
  lemma {:induction false} Cut<T>(a: seq<T>, b: seq<T>)
    ensures (a + b)[..|a|] == a && (a + b)[|a|..] == b
  {
  }

  lemma {:induction false} Whole<T>(s: seq<T>)
    ensures s[..|s|] == s
  {
  }

  /** Multiples of `d` are at least `d` apart. */
  lemma {:induction false} Multiples(d: nat, a: nat, b: nat)
    ensures a < b ==> d * a + d <= d * b
    decreases b
  {
    if a < b {
      assert d * b == d * (b - 1) + d;
      Multiples(d, a, b - 1);
    }
  }
}
