/** Bytes, byte sequences and the few sequence facts every component shares. */
module Bytes {

  newtype byte = b: int | 0 <= b < 256

  type bytes = seq<byte>

  datatype Option<+T> = None | Some(value: T)

  /** The concatenation of a list of chunks, in order. */
  function Flatten<T>(chunks: seq<seq<T>>): (r: seq<T>) {
    if chunks == [] then [] else chunks[0] + Flatten(chunks[1..])
  }

  lemma {:induction false} FlattenAppend<T>(a: seq<seq<T>>, b: seq<seq<T>>)
    ensures Flatten(a + b) == Flatten(a) + Flatten(b)
  {
    if a == [] {
      assert a + b == b;
    } else {
      FlattenAppend(a[1..], b);
      assert (a + b)[0] == a[0] && (a + b)[1..] == a[1..] + b;
      assert a[0] + (Flatten(a[1..]) + Flatten(b)) == (a[0] + Flatten(a[1..])) + Flatten(b);
    }
  }

  /** The last `n` elements of `s`, or all of `s` when it is shorter. */
  function LastN<T>(s: seq<T>, n: nat): (r: seq<T>)
    ensures |r| == if |s| <= n then |s| else n
  {
    if |s| <= n then s else s[|s| - n..]
  }

  /** The tail of a concatenation, when it is exactly the second part. */
  lemma LastNOfConcat<T>(u: seq<T>, v: seq<T>)
    ensures LastN(u + v, |v|) == v
  {
    assert (u + v)[|u|..] == v;
  }

  /** Truncating before an append does not show after truncating again. */
  lemma LastNAppend<T>(s: seq<T>, p: seq<T>, n: nat)
    ensures LastN(LastN(s, n) + p, n) == LastN(s + p, n)
  {
    if n < |s| {
      var t := LastN(s, n);
      var u := s[..|s| - n];
      assert s == u + t;
      assert s + p == u + (t + p);
      assert LastN(s + p, n) == (t + p)[|p|..];
    }
  }
}
