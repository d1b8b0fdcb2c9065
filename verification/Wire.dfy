/** Bytes as the protocol sees them: fixed-width little-endian numbers, and the
    NUL-terminated strings of the packet layouts. */
module Wire {
  import opened Arith

  type byte = x: int | 0 <= x < 256
  type Bytes = seq<byte>

  datatype Option<+T> = None | Some(value: T)

  type Digest = d: Bytes | |d| == 20 witness seq(20, _ => 0)
  type Bytes4 = d: Bytes | |d| == 4 witness seq(4, _ => 0)
  type Bytes16 = d: Bytes | |d| == 16 witness seq(16, _ => 0)
  type Bytes19 = d: Bytes | |d| == 19 witness seq(19, _ => 0)
  type Bytes32 = d: Bytes | |d| == 32 witness seq(32, _ => 0)

  /** The low `w` bytes of `n`, least significant first (`BigNumber::AsByteArray(w)`,
      and every fixed-width integer put into a packet). */
  function ToLE(n: nat, w: nat): (r: Bytes)
    ensures |r| == w
    decreases w, n
  {
    if w == 0 then [] else [n % 256] + ToLE(n / 256, w - 1)
  }

  /** The number whose little-endian bytes are `bs` (`BigNumber::SetBinary`). */
  function FromLE(bs: Bytes): nat {
    if bs == [] then 0 else bs[0] + 256 * FromLE(bs[1..])
  }

  function Reverse(bs: Bytes): (r: Bytes)
    ensures |r| == |bs|
    ensures forall i :: 0 <= i < |bs| ==> r[i] == bs[|bs| - 1 - i]
  {
    seq(|bs|, i requires 0 <= i < |bs| => bs[|bs| - 1 - i])
  }

  function Zeros(n: nat): (r: Bytes)
    ensures |r| == n
  {
    seq(n, _ => 0)
  }

  /** The C string that starts at the head of `bs`, when `bs` is followed by a NUL. */
  function CString(bs: Bytes): (r: Bytes)
    ensures r <= bs && 0 !in r
    ensures |r| < |bs| ==> bs[|r|] == 0
  {
    if bs == [] || bs[0] == 0 then [] else [bs[0]] + CString(bs[1..])
  }

  /** Byte `i` counts the 256^i. */
  lemma {:induction false} ByteAt(n: nat, w: nat, i: nat)
    requires i < w
    ensures ToLE(n, w)[i] == (n / Pow(256, i)) % 256
    decreases w
  {
    if i == 0 {
      assert Pow(256, 0) == 1 && n / 1 == n;
    } else {
      ByteAt(n / 256, w - 1, i - 1);
      DivDiv(n, 256, Pow(256, i - 1));
    }
  }

  lemma {:induction false} FromLEBound(bs: Bytes)
    ensures FromLE(bs) < Pow(256, |bs|)
  {
    if bs != [] { FromLEBound(bs[1..]); }
  }

  /** Decoding undoes encoding for every number that fits the width. */
  lemma {:induction false} FromToLE(n: nat, w: nat)
    requires n < Pow(256, w)
    ensures FromLE(ToLE(n, w)) == n
    decreases w
  {
    if w > 0 {
      FromToLE(n / 256, w - 1);
      assert ToLE(n, w)[1..] == ToLE(n / 256, w - 1);
    }
  }

  /** Encoding undoes decoding, leading zero bytes included. */
  lemma {:induction false} ToFromLE(bs: Bytes)
    ensures ToLE(FromLE(bs), |bs|) == bs
  {
    if bs != [] {
      var n, rest := FromLE(bs), FromLE(bs[1..]);
      assert n % 256 == bs[0] && n / 256 == rest;
      ToFromLE(bs[1..]);
    }
  }

  /** The bytes of a number are those of its remainder at their width ... */
  lemma {:induction false} LowBytes(n: nat, w: nat) returns (q: nat)
    ensures n == Pow(256, w) * q + FromLE(ToLE(n, w))
    decreases w
  {
    if w == 0 {
      q := n;
    } else {
      q := LowBytes(n / 256, w - 1);
      assert ToLE(n, w)[1..] == ToLE(n / 256, w - 1);
      assert 256 * (Pow(256, w - 1) * q) == (256 * Pow(256, w - 1)) * q;
    }
  }

  /** ... so two numbers have the same bytes exactly when they agree modulo the width. */
  lemma SameBytesIff(m: nat, n: nat, w: nat)
    ensures ToLE(m, w) == ToLE(n, w) <==> m % Pow(256, w) == n % Pow(256, w)
  {
    RemainderBytes(m, w);
    RemainderBytes(n, w);
    ToFromLE(ToLE(m, w));
    ToFromLE(ToLE(n, w));
  }

  lemma RemainderBytes(n: nat, w: nat)
    ensures FromLE(ToLE(n, w)) == n % Pow(256, w)
  {
    var q := LowBytes(n, w);
    FromLEBound(ToLE(n, w));
    RemainderIsUnique(n, Pow(256, w), q, FromLE(ToLE(n, w)));
  }

  lemma {:induction false} ToLEInjective(m: nat, n: nat, w: nat)
    requires m < Pow(256, w) && n < Pow(256, w) && ToLE(m, w) == ToLE(n, w)
    ensures m == n
  {
    FromToLE(m, w);
    FromToLE(n, w);
  }

  /** What follows the first NUL does not matter to a C string. */
  lemma {:induction false} CStringOfTerminated(s: Bytes, rest: Bytes)
    requires 0 !in s
    ensures CString(s + [0] + rest) == s
  {
    var whole := s + [0] + rest;
    if s != [] {
      assert s[0] in s;
      assert whole[1..] == s[1..] + [0] + rest;
      CStringOfTerminated(s[1..], rest);
    }
  }
}
