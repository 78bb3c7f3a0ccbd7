/** Bytes, byte order, the failure datatype and list removal, shared by the models. */
module Bytes {

  type byte = x: int | 0 <= x < 256

  /** Number of values of an unsigned 32-bit word. */
  const WORD: nat := 0x1_0000_0000

  type u32 = x: int | 0 <= x < 0x1_0000_0000

  /** A value, or the source's exception. */
  datatype Result<+T> = Ok(value: T) | Err {
    predicate IsFailure() {
      Err?
    }

    function PropagateFailure<U>(): Result<U>
      requires Err?
    {
      Err
    }

    function Extract(): T
      requires Ok?
    {
      value
    }
  }

  datatype Option<+T> = None | Some(value: T)

  /** The sequence without item `i`. */
  function Without<T>(s: seq<T>, i: nat): (r: seq<T>)
    requires i < |s|
    ensures |r| == |s| - 1
    ensures forall j :: 0 <= j < |r| ==> r[j] == if j < i then s[j] else s[j + 1]
  {
    s[..i] + s[i + 1..]
  }

  /** The number written by `bytes`, least significant byte first. */
  function Little(bytes: seq<byte>): nat {
    if bytes == [] then 0 else bytes[0] + 256 * Little(bytes[1..])
  }

  /** The number written by `bytes`, most significant byte first. */
  function Big(bytes: seq<byte>): nat {
    if bytes == [] then 0 else 256 * Big(bytes[..|bytes| - 1]) + bytes[|bytes| - 1]
  }

  function Number(bytes: seq<byte>, little: bool): nat {
    if little then Little(bytes) else Big(bytes)
  }

  /** Bytes of `n` items of `size` bytes each: the product, by repeated addition. */
  function Span(size: nat, n: nat): nat {
    if n == 0 then 0 else Span(size, n - 1) + size
  }

  lemma {:induction false} SpanIsProduct(size: nat, n: nat)
    ensures Span(size, n) == n * size
  {
    if n > 0 {
      SpanIsProduct(size, n - 1);
    }
  }

  lemma {:induction false} SpanOfSum(size: nat, n: nat, m: nat)
    ensures Span(size, n + m) == Span(size, n) + Span(size, m)
  {
    if m > 0 {
      SpanOfSum(size, n, m - 1);
    }
  }

  /** More items take at least as much room. */
  lemma SpanGrows(size: nat, n: nat, m: nat)
    requires n <= m
    ensures Span(size, n) <= Span(size, m)
  {
    SpanOfSum(size, n, m - n);
  }

  /** Item `v` lies inside the room of `n` items. */
  lemma SpanInside(v: nat, n: nat, size: nat)
    requires v < n
    ensures Span(size, v) + size <= Span(size, n)
  {
    SpanGrows(size, v + 1, n);
  }

  /** The `width` bytes at `at`, or nothing when they are not all inside. */
  function Slice(bytes: seq<byte>, at: int, width: nat): Result<seq<byte>> {
    if 0 <= at && at + width <= |bytes| then Ok(bytes[at..at + width]) else Err
  }

  /** Place value of the byte `k` places above the least significant one. */
  function Place(k: nat): nat
    requires k < 4
  {
    if k == 0 then 1 else if k == 1 then 256 else if k == 2 then 65536 else 16777216
  }

  function At(bytes: seq<byte>, k: nat): nat
    requires k < |bytes|
  {
    bytes[k]
  }

  /** What the first `n` bytes add to the number, each at its place. */
  function Terms(bytes: seq<byte>, n: nat, little: bool): nat
    requires n <= |bytes| <= 4
  {
    if n == 0 then 0
    else Terms(bytes, n - 1, little) + At(bytes, n - 1) * Place(if little then n - 1 else |bytes| - n)
  }

  /** The sum spelled out. */
  lemma TermsSpelled(bytes: seq<byte>, little: bool)
    requires |bytes| <= 4
    ensures Terms(bytes, |bytes|, little)
         == if |bytes| == 0 then 0
            else if |bytes| == 1 then At(bytes, 0)
            else if |bytes| == 2 then
              if little then At(bytes, 0) + 256 * At(bytes, 1) else 256 * At(bytes, 0) + At(bytes, 1)
            else if |bytes| == 3 then
              if little then At(bytes, 0) + 256 * At(bytes, 1) + 65536 * At(bytes, 2)
              else 65536 * At(bytes, 0) + 256 * At(bytes, 1) + At(bytes, 2)
            else
              if little then At(bytes, 0) + 256 * At(bytes, 1) + 65536 * At(bytes, 2) + 16777216 * At(bytes, 3)
              else 16777216 * At(bytes, 0) + 65536 * At(bytes, 1) + 256 * At(bytes, 2) + At(bytes, 3)
  {
    hide Terms, At;
    if |bytes| > 0 {
      TermsStep(bytes, 1, little);
    }
    if |bytes| > 1 {
      TermsStep(bytes, 2, little);
    }
    if |bytes| > 2 {
      TermsStep(bytes, 3, little);
    }
    if |bytes| > 3 {
      TermsStep(bytes, 4, little);
    }
    if |bytes| == 0 {
      NoTerms(bytes, little);
    }
  }

  lemma NoTerms(bytes: seq<byte>, little: bool)
    requires |bytes| <= 4
    ensures Terms(bytes, 0, little) == 0
  {
  }

  lemma TermsStep(bytes: seq<byte>, n: nat, little: bool)
    requires 0 < n <= |bytes| <= 4
    ensures var k := if little then n - 1 else |bytes| - n;
            Terms(bytes, n, little) == (if n == 1 then 0 else Terms(bytes, n - 1, little))
                                       + if k == 0 then At(bytes, n - 1) else if k == 1 then 256 * At(bytes, n - 1)
                                         else if k == 2 then 65536 * At(bytes, n - 1) else 16777216 * At(bytes, n - 1)
  {
    hide At;
  }

  /** Up to four bytes: the number is the sum of its bytes at their places, and fits its width. */
  lemma {:induction false} NumberIsTerms(bytes: seq<byte>, little: bool)
    requires |bytes| <= 4
    ensures Number(bytes, little) == Terms(bytes, |bytes|, little)
    ensures |bytes| == 1 ==> Number(bytes, little) < 256
    ensures |bytes| == 2 ==> Number(bytes, little) < 65536
    ensures |bytes| == 3 ==> Number(bytes, little) < 16777216
    ensures Number(bytes, little) < WORD
  {
    if bytes != [] {
      TermsSpelled(bytes, little);
      if little {
        NumberIsTerms(bytes[1..], little);
        TermsSpelled(bytes[1..], little);
      } else {
        NumberIsTerms(bytes[..|bytes| - 1], little);
        TermsSpelled(bytes[..|bytes| - 1], little);
      }
    }
  }

  /** The loop of `load`: adds each byte of an attribute component at its place. */
  method LoadNumber(bytes: seq<byte>, at: nat, width: nat, little: bool) returns (r: Result<nat>)
    requires width <= 4
    ensures r == match Slice(bytes, at, width)
                 case Ok(s) => Ok(Number(s, little))
                 case Err => Err
  {
    if at > |bytes| || width > |bytes| - at {
      return Err;
    }
    ghost var s := bytes[at..at + width];
    var v: nat := 0;
    for i := 0 to width
      invariant v == Terms(s, i, little)
    {
      v := v + bytes[at + i] * Place(if little then i else width - i - 1);
    }
    NumberIsTerms(s, little);
    return Ok(v);
  }
}
