/** Types shared by every module of the model. */
module Prelude {

  datatype Option<+T> = None | Some(value: T)

  datatype Result<+T, +E> = Ok(value: T) | Err(error: E)

  /** An octet, as the adapters see DER files, identifiers and EventIds. */
  type byte = x: int | 0 <= x < 256

  /** The unsigned integer types of OPC UA, as ranges of `int`. */
  type uint16 = x: int | 0 <= x < 0x1_0000
  type uint32 = x: int | 0 <= x < 0x1_0000_0000
  type uint64 = x: int | 0 <= x < 0x1_0000_0000_0000_0000

  /** The concatenation of a sequence of sequences. */
  function Flatten<T>(ss: seq<seq<T>>): seq<T> {
    if ss == [] then [] else ss[0] + Flatten(ss[1..])
  }

  lemma {:induction false} FlattenAppend<T>(ss: seq<seq<T>>, ts: seq<seq<T>>)
    ensures Flatten(ss + ts) == Flatten(ss) + Flatten(ts)
  {
    if ss == [] {
      assert ss + ts == ts;
    } else {
      assert (ss + ts)[1..] == ss[1..] + ts;
      FlattenAppend(ss[1..], ts);
    }
  }

  lemma FlattenSnoc<T>(ss: seq<seq<T>>, s: seq<T>)
    ensures Flatten(ss + [s]) == Flatten(ss) + s
  {
    FlattenAppend(ss, [s]);
    assert Flatten([s]) == s + Flatten([]);
  }

  lemma Associate<T>(x: seq<T>, y: seq<T>, z: seq<T>)
    ensures (x + y) + z == x + (y + z)
  {
  }

  function Pow2(n: nat): nat { if n == 0 then 1 else 2 * Pow2(n - 1) }

  /** `k` times `n`, by addition. */
  function Times(k: nat, n: nat): nat { if k == 0 then 0 else n + Times(k - 1, n) }

  lemma {:induction false} TimesIs(k: nat, n: nat)
    ensures Times(k, n) == k * n
  {
    if k > 0 { TimesIs(k - 1, n); }
  }

  /** Converts every element; the first one that fails decides. */
  function Convert<A, B, E>(xs: seq<A>, f: A -> Result<B, E>): Result<seq<B>, E> {
    if xs == [] then Ok([])
    else
      match Convert(xs[..|xs| - 1], f)
      case Err(e) => Err(e)
      case Ok(ys) =>
        match f(xs[|xs| - 1])
        case Err(e) => Err(e)
        case Ok(y) => Ok(ys + [y])
  }

  lemma {:induction false} ConvertIs<A, B, E>(xs: seq<A>, f: A -> Result<B, E>)
    ensures Convert(xs, f).Ok? <==> forall i :: 0 <= i < |xs| ==> f(xs[i]).Ok?
    ensures Convert(xs, f).Ok? ==>
              var ys := Convert(xs, f).value; |ys| == |xs| && forall i :: 0 <= i < |xs| ==> f(xs[i]) == Ok(ys[i])
  {
    if xs != [] {
      var n := |xs| - 1;
      ConvertIs(xs[..n], f);
      if Convert(xs[..n], f).Ok? {
        assert forall i :: 0 <= i < n ==> xs[..n][i] == xs[i];
      }
    }
  }

  /** After the first `i` elements: the conversion has failed, or has these results. */
  lemma ConvertStep<A, B, E>(xs: seq<A>, f: A -> Result<B, E>, i: nat)
    requires i < |xs| && Convert(xs[..i], f).Ok?
    ensures Convert(xs[..i + 1], f) ==
            if f(xs[i]).Ok? then Ok(Convert(xs[..i], f).value + [f(xs[i]).value]) else Err(f(xs[i]).error)
    ensures f(xs[i]).Err? ==> Convert(xs, f) == Err(f(xs[i]).error)
  {
    assert xs[..i + 1][..i] == xs[..i];
    if f(xs[i]).Err? {
      ConvertFailed(xs, f, i + 1);
    }
  }

  lemma {:induction false} ConvertFailed<A, B, E>(xs: seq<A>, f: A -> Result<B, E>, n: nat)
    requires n <= |xs| && Convert(xs[..n], f).Err?
    ensures Convert(xs, f) == Convert(xs[..n], f)
    decreases |xs|
  {
    if n < |xs| {
      var t := xs[..|xs| - 1];
      assert t[..n] == xs[..n];
      ConvertFailed(t, f, n);
    } else {
      assert xs[..n] == xs;
    }
  }
}
