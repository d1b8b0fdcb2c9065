/** The SRP-6 arithmetic of the logon handlers, and the client of RFC 5054 section 2.6
    (with k = 3) that has to end up with the same numbers. The hash is a parameter:
    nothing here depends on what it computes. */
module Srp6 {
  import opened Arith
  import opened Wire

  type Hash = Bytes -> Digest

  /** The group of the AuthSocket constructor. */
  const PRIME: nat := 0x894B645E89E1535BBDAD5B8B290650530801B18EBFBF5E8FAB3C82872A3E9BB7
  const GENERATOR: nat := 7

  const EPHEMERAL_WIDTH: nat := 32
  const SESSION_KEY_WIDTH: nat := 40
  const GENERATOR_WIDTH: nat := 1
  const RECONNECT_WIDTH: nat := 16
  const DIGEST_WIDTH: nat := 20
  const SALT_WIDTH: nat := 32

  // ----- what the server computes -----

  function ModExp(b: int, e: nat, n: int): (r: nat)
    requires n > 0
    ensures r < n
  {
    Pow(b, e) % n
  }

  /** `_SetVSFields`: the digest bytes recovered from the stored hash, read as a number. */
  function DigestOfStored(stored: nat): Digest {
    if stored < Pow(256, DIGEST_WIDTH) then Reverse(ToLE(stored, DIGEST_WIDTH)) else Zeros(DIGEST_WIDTH)
  }

  function PrivateKey(sha: Hash, salt: Bytes, digest: Digest): nat {
    FromLE(sha(salt + digest))
  }

  function VerifierOf(sha: Hash, s: nat, stored: nat): (v: nat)
    ensures v < PRIME
  {
    ModExp(GENERATOR, PrivateKey(sha, ToLE(s, SALT_WIDTH), DigestOfStored(stored)), PRIME)
  }

  function ServerPublic(v: nat, b: nat): (B: nat)
    ensures B < PRIME
  {
    (v * 3 + ModExp(GENERATOR, b, PRIME)) % PRIME
  }

  function Scrambler(sha: Hash, A: nat, B: nat): nat {
    FromLE(sha(ToLE(A, EPHEMERAL_WIDTH) + ToLE(B, EPHEMERAL_WIDTH)))
  }

  function ServerSecret(A: nat, v: nat, u: nat, b: nat): (S: nat)
    ensures S < PRIME
  {
    ModExp(A * ModExp(v, u, PRIME), b, PRIME)
  }

  function Evens(t: Bytes32): Bytes { seq(16, i requires 0 <= i < 16 => t[i * 2]) }

  function Odds(t: Bytes32): Bytes { seq(16, i requires 0 <= i < 16 => t[i * 2 + 1]) }

  /** The interleaved hash of RFC 2945 section 3.1, without its removal of leading zeros. */
  function Interleave(sha: Hash, t: Bytes32): (k: Bytes)
    ensures |k| == SESSION_KEY_WIDTH
  {
    seq(40, i requires 0 <= i < 40 => if i % 2 == 0 then sha(Evens(t))[i / 2] else sha(Odds(t))[i / 2])
  }

  function SessionKey(sha: Hash, A: nat, v: nat, b: nat, B: nat): nat {
    FromLE(Interleave(sha, ToLE(ServerSecret(A, v, Scrambler(sha, A, B), b), EPHEMERAL_WIDTH)))
  }

  function XorByte(x: byte, y: byte): byte {
    ((x as bv8) ^ (y as bv8)) as int
  }

  function Xor(x: Digest, y: Digest): Digest {
    seq(20, i requires 0 <= i < 20 => XorByte(x[i], y[i]))
  }

  /** H(N) xor H(g), the first field of the client proof. */
  function GroupDigest(sha: Hash, n: nat, g: nat): Digest {
    Xor(sha(ToLE(n, EPHEMERAL_WIDTH)), sha(ToLE(g, GENERATOR_WIDTH)))
  }

  /** The bytes hashed into M1 (section 3 of RFC 2945), every number at its protocol width. */
  function ProofTranscript(t3: nat, t4: Digest, s: nat, A: nat, B: nat, K: nat): Bytes {
    ToLE(t3, DIGEST_WIDTH) + t4 + ToLE(s, SALT_WIDTH) + ToLE(A, EPHEMERAL_WIDTH)
    + ToLE(B, EPHEMERAL_WIDTH) + ToLE(K, SESSION_KEY_WIDTH)
  }

  function ServerProofNumber(sha: Hash, login: Bytes, s: nat, A: nat, B: nat, K: nat): nat {
    FromLE(sha(ProofTranscript(FromLE(GroupDigest(sha, PRIME, GENERATOR)), sha(login), s, A, B, K)))
  }

  function ServerReplyDigest(sha: Hash, A: nat, M: nat, K: nat): Digest {
    sha(ToLE(A, EPHEMERAL_WIDTH) + ToLE(M, DIGEST_WIDTH) + ToLE(K, SESSION_KEY_WIDTH))
  }

  function ReconnectTranscript(login: Bytes, r1: nat, challenge: nat, K: nat): Bytes {
    login + ToLE(r1, RECONNECT_WIDTH) + ToLE(challenge, RECONNECT_WIDTH) + ToLE(K, SESSION_KEY_WIDTH)
  }

  // ----- what an honest client computes, from the bytes it was sent -----

  /** The interleaved hash as section 3.1 of RFC 2945 puts it, without the removal of leading
      zeros: hash every other byte, hash the rest, and alternate the two digests. */
  function EveryOther(s: Bytes): Bytes {
    if s == [] then [] else [s[0]] + (if |s| == 1 then [] else EveryOther(s[2..]))
  }

  function Alternate(g: Bytes, h: Bytes): (r: Bytes)
    requires |g| == |h|
    ensures |r| == 2 * |g|
  {
    if g == [] then [] else [g[0], h[0]] + Alternate(g[1..], h[1..])
  }

  function InterleavedHash(sha: Hash, s: Bytes32): (k: Bytes)
    ensures |k| == SESSION_KEY_WIDTH
  {
    Alternate(sha(EveryOther(s)), sha(EveryOther(s[1..])))
  }

  /** A byte is set where exactly one of two is. */
  function ExactlyOne(x: byte, y: byte): byte {
    var a, b := x as bv8, y as bv8;
    ((a & !b) | (!a & b)) as int
  }

  function GroupHash(sha: Hash, n: nat, g: nat): Digest {
    seq(20, i requires 0 <= i < 20 => ExactlyOne(sha(ToLE(n, 32))[i], sha(ToLE(g, 1))[i]))
  }

  /** The client's knowledge: its account name, H(USER:PASS) and its ephemeral secret. */
  datatype Client = Client(name: Bytes, digest: Digest, a: nat)

  /** The successful logon-challenge reply as the client reads it. */
  datatype Offer = Offer(publicKey: Bytes32, generator: nat, prime: nat, salt: Bytes32)

  function ClientPublic(c: Client, o: Offer): (A: nat)
    requires o.prime > 0
    ensures A < o.prime
  {
    Pow(o.generator, c.a) % o.prime
  }

  /** (B - 3 g^x)^(a + u x) mod N. */
  function ClientSecret(sha: Hash, c: Client, o: Offer): (S: nat)
    requires o.prime > 0
    ensures S < o.prime
  {
    var x := FromLE(sha(o.salt + c.digest));
    var u := FromLE(sha(ToLE(ClientPublic(c, o), EPHEMERAL_WIDTH) + o.publicKey));
    Pow(FromLE(o.publicKey) - 3 * Pow(o.generator, x), c.a + u * x) % o.prime
  }

  function ClientKey(sha: Hash, c: Client, o: Offer): (k: Bytes)
    requires o.prime > 0
    ensures |k| == SESSION_KEY_WIDTH
  {
    InterleavedHash(sha, ToLE(ClientSecret(sha, c, o), EPHEMERAL_WIDTH))
  }

  function ClientM1(sha: Hash, c: Client, o: Offer): Digest
    requires o.prime > 0
  {
    sha(GroupHash(sha, o.prime, o.generator) + sha(c.name) + o.salt + ToLE(ClientPublic(c, o), EPHEMERAL_WIDTH)
        + o.publicKey + ClientKey(sha, c, o))
  }

  function ClientM2(sha: Hash, c: Client, o: Offer): Digest
    requires o.prime > 0
  {
    sha(ToLE(ClientPublic(c, o), EPHEMERAL_WIDTH) + ClientM1(sha, c, o) + ClientKey(sha, c, o))
  }

  // ----- agreement -----

  lemma {:induction false} EveryOtherAt(s: Bytes, i: nat)
    requires 2 * i < |s|
    ensures |EveryOther(s)| == (|s| + 1) / 2 && EveryOther(s)[i] == s[2 * i]
  {
    if |s| > 2 { EveryOtherAt(s[2..], if i > 0 then i - 1 else 0); }
  }

  lemma {:induction false} AlternateAt(g: Bytes, h: Bytes, i: nat)
    requires |g| == |h| && i < |g|
    ensures Alternate(g, h)[2 * i] == g[i] && Alternate(g, h)[2 * i + 1] == h[i]
  {
    if i > 0 { AlternateAt(g[1..], h[1..], i - 1); }
  }

  /** The key has the hash of the bytes at even places at its even places, and that of the
      bytes at odd places at its odd places. */
  lemma InterleaveAt(sha: Hash, t: Bytes32, even: Bytes, odd: Bytes, i: nat)
    requires |even| == 16 && |odd| == 16 && i < 20
    requires forall j :: 0 <= j < 16 ==> even[j] == t[2 * j] && odd[j] == t[2 * j + 1]
    ensures Interleave(sha, t)[2 * i] == sha(even)[i] && Interleave(sha, t)[2 * i + 1] == sha(odd)[i]
  {
    assert even == Evens(t) && odd == Odds(t);
  }

  /** The handler's key is the one of the standard. */
  lemma InterleaveIsStandard(sha: Hash, t: Bytes32)
    ensures Interleave(sha, t) == InterleavedHash(sha, t)
  {
    var even, odd := EveryOther(t), EveryOther(t[1..]);
    forall j | 0 <= j < 16 ensures |even| == 16 && |odd| == 16 && even[j] == t[2 * j] && odd[j] == t[2 * j + 1] {
      EveryOtherAt(t, j);
      EveryOtherAt(t[1..], j);
    }
    assert |even| == 16 by { EveryOtherAt(t, 0); }
    assert |odd| == 16 by { EveryOtherAt(t[1..], 0); }
    forall i | 0 <= i < 20
      ensures Interleave(sha, t)[2 * i] == InterleavedHash(sha, t)[2 * i]
      ensures Interleave(sha, t)[2 * i + 1] == InterleavedHash(sha, t)[2 * i + 1]
    {
      InterleaveAt(sha, t, even, odd, i);
      AlternateAt(sha(even), sha(odd), i);
    }
    SameHalves(Interleave(sha, t), InterleavedHash(sha, t));
  }

  lemma InterleavesStandardHashes(sha: Hash, t: Bytes32)
    ensures forall i :: 0 <= i < 20 ==> Interleave(sha, t)[2 * i] == sha(EveryOther(t))[i]
    ensures forall i :: 0 <= i < 20 ==> Interleave(sha, t)[2 * i + 1] == sha(EveryOther(t[1..]))[i]
  {
    InterleaveIsStandard(sha, t);
    forall i | 0 <= i < 20
      ensures Interleave(sha, t)[2 * i] == sha(EveryOther(t))[i]
      ensures Interleave(sha, t)[2 * i + 1] == sha(EveryOther(t[1..]))[i]
    {
      AlternateAt(sha(EveryOther(t)), sha(EveryOther(t[1..])), i);
    }
  }

  lemma SameHalves(x: Bytes, y: Bytes)
    requires |x| == 40 && |y| == 40
    requires forall i :: 0 <= i < 20 ==> x[2 * i] == y[2 * i] && x[2 * i + 1] == y[2 * i + 1]
    ensures x == y
  {
    forall j | 0 <= j < 40 ensures x[j] == y[j] {
      assert j == 2 * (j / 2) || j == 2 * (j / 2) + 1;
    }
  }

  lemma XorIsExactlyOne(x: byte, y: byte)
    ensures XorByte(x, y) == ExactlyOne(x, y)
  {
    XorBits(x as bv8, y as bv8);
  }

  lemma XorBits(a: bv8, b: bv8)
    ensures a ^ b == (a & !b) | (!a & b)
  {
  }

  lemma GroupDigestIsHash(sha: Hash, n: nat, g: nat)
    ensures GroupDigest(sha, n, g) == GroupHash(sha, n, g)
  {
    forall i | 0 <= i < 20 ensures GroupDigest(sha, n, g)[i] == GroupHash(sha, n, g)[i] {
      XorIsExactlyOne(sha(ToLE(n, EPHEMERAL_WIDTH))[i], sha(ToLE(g, GENERATOR_WIDTH))[i]);
    }
  }

  /** B - 3 g^x leaves exactly g^b behind. */
  lemma Unblinded(gx: int, gb: int, n: int)
    requires n > 0
    ensures ((3 * (gx % n) + gb % n) % n - 3 * gx) % n == gb % n
  {
    var q, r, h := gx / n, gx % n, gb % n;
    var k, t := (3 * r + h) / n, (3 * r + h) % n;
    Distribute(n, k, q);
    assert t - 3 * gx == h + n * (-k - 3 * q);
    ModAddMultiple(h, -k - 3 * q, n);
    RemainderIsUnique(gb % n, n, 0, gb % n);
  }

  lemma Distribute(n: int, k: int, q: int)
    ensures n * (-k - 3 * q) == -(n * k) - 3 * (n * q)
  {
  }

  /** Both secrets are g^(b (a + u x)): the server's product form ... */
  lemma ServerSecretIsPower(g: int, n: int, a: nat, b: nat, u: nat, x: nat)
    requires n > 0
    ensures u * x >= 0 && (a + u * x) * b >= 0
    ensures Pow((Pow(g, a) % n) * (Pow(Pow(g, x) % n, u) % n), b) % n == Pow(g, (a + u * x) * b) % n
  {
    var A, V := Pow(g, a), Pow(Pow(g, x), u);
    PowMod(Pow(g, x), u, n);
    assert Pow(Pow(g, x) % n, u) % n == V % n;
    ModMul(A, V % n, n);
    ModMul(V, A, n);
    assert A * (V % n) == (V % n) * A && V * A == A * V;
    PowCong((A % n) * (V % n), A * V, b, n);
    PowMul(g, x, u);
    assert x * u == u * x;
    PowAdd(g, a, u * x);
    PowMul(g, a + u * x, b);
  }

  /** ... and, for every group, the client's form. */
  lemma SecretsAgree(g: int, n: int, a: nat, b: nat, u: nat, x: nat)
    requires n > 0
    ensures u * x >= 0
    ensures Pow((Pow(g, a) % n) * (Pow(Pow(g, x) % n, u) % n), b) % n
            == Pow((3 * (Pow(g, x) % n) + Pow(g, b) % n) % n - 3 * Pow(g, x), a + u * x) % n
  {
    ServerSecretIsPower(g, n, a, b, u, x);
    var e, B := a + u * x, (3 * (Pow(g, x) % n) + Pow(g, b) % n) % n;
    Unblinded(Pow(g, x), Pow(g, b), n);
    PowCong(B - 3 * Pow(g, x), Pow(g, b), e, n);
    PowMul(g, b, e);
    assert b * e == e * b;
  }

  /** 7 has an inverse modulo PRIME, so no power of it is a multiple of PRIME: an honest
      A never trips the zero check. */
  const INVERSE: nat := 0x621147B13DEA16F862E98A87F8BB5DF22A4A5A4164641EF8E806A6608BE393CC

  lemma GeneratorPowersAreNonZero(e: nat)
    ensures Pow(GENERATOR, e) % PRIME != 0
  {
    assert GENERATOR * INVERSE == PRIME * 5 + 1;
    RemainderIsUnique(GENERATOR * INVERSE, PRIME, 5, 1);
    UnitPowersAreNonZero(GENERATOR, INVERSE, PRIME, e);
  }

  /** Powers of a unit are never zero. */
  lemma UnitPowersAreNonZero(g: int, w: int, n: int, e: nat)
    requires n > 1 && (g * w) % n == 1
    ensures Pow(g, e) % n != 0
  {
    RemainderIsUnique(1, n, 0, 1);
    PowCong(g * w, 1, e, n);
    PowOne(e);
    PowOfProduct(g, w, e);
    ModMul(Pow(g, e), Pow(w, e), n);
    RemainderIsUnique(0, n, 0, 0);
  }

  lemma {:induction false} PowOne(e: nat)
    ensures Pow(1, e) == 1
  {
    if e > 0 { PowOne(e - 1); }
  }

  /** PRIME fits its 32-byte field, and so does every residue. */
  lemma PrimeFits()
    ensures PRIME < Pow(256, EPHEMERAL_WIDTH)
  {
    PowAdd(256, 1, 1);
    PowAdd(256, 2, 2);
    PowAdd(256, 4, 4);
    PowAdd(256, 8, 8);
    PowAdd(256, 16, 16);
    assert Pow(256, 1) == 256 by { assert Pow(256, 0) == 1; }
    assert Pow(256, 2) == 0x1_0000;
    assert Pow(256, 4) == 0x1_0000_0000;
    assert Pow(256, 8) == 0x1_0000_0000_0000_0000;
    assert Pow(256, 16) == 0x1_0000_0000_0000_0000_0000_0000_0000_0000;
  }

  /** The stored hexadecimal hash gives back the digest it was printed from, leading
      zero bytes included. */
  lemma StoredDigestRestored(d: Digest)
    ensures DigestOfStored(FromLE(Reverse(d))) == d
  {
    FromLEBound(Reverse(d));
    ToFromLE(Reverse(d));
    assert Reverse(Reverse(d)) == d;
  }

  /** A stored number too wide for a digest counts as no digest at all. */
  lemma WideStoredIsZero(stored: nat, i: nat)
    requires stored >= Pow(256, DIGEST_WIDTH) && i < 20
    ensures DigestOfStored(stored)[i] == 0
  {
  }

  // ----- transcripts -----

  /** A fixed-width field at the end of a transcript can be read back. */
  lemma LastFieldInjective(x: Bytes, m: nat, y: Bytes, n: nat, w: nat)
    requires m < Pow(256, w) && n < Pow(256, w)
    requires x + ToLE(m, w) == y + ToLE(n, w)
    ensures x == y && m == n
  {
    var z := x + ToLE(m, w);
    assert x == z[..|z| - w] == y;
    assert ToLE(m, w) == z[|z| - w..] == ToLE(n, w);
    ToLEInjective(m, n, w);
  }

  /** Distinct field tuples within their widths give distinct M1 inputs. */
  lemma ProofTranscriptInjective(t3: nat, t4: Digest, s: nat, A: nat, B: nat, K: nat,
                                 t3': nat, t4': Digest, s': nat, A': nat, B': nat, K': nat)
    requires t3 < Pow(256, DIGEST_WIDTH) && t3' < Pow(256, DIGEST_WIDTH)
    requires s < Pow(256, SALT_WIDTH) && s' < Pow(256, SALT_WIDTH)
    requires A < Pow(256, EPHEMERAL_WIDTH) && A' < Pow(256, EPHEMERAL_WIDTH)
    requires B < Pow(256, EPHEMERAL_WIDTH) && B' < Pow(256, EPHEMERAL_WIDTH)
    requires K < Pow(256, SESSION_KEY_WIDTH) && K' < Pow(256, SESSION_KEY_WIDTH)
    requires ProofTranscript(t3, t4, s, A, B, K) == ProofTranscript(t3', t4', s', A', B', K')
    ensures t3 == t3' && t4 == t4' && s == s' && A == A' && B == B' && K == K'
  {
    var x0, y0 := ToLE(t3, DIGEST_WIDTH) + t4, ToLE(t3', DIGEST_WIDTH) + t4';
    var x1, y1 := x0 + ToLE(s, SALT_WIDTH), y0 + ToLE(s', SALT_WIDTH);
    var x2, y2 := x1 + ToLE(A, EPHEMERAL_WIDTH), y1 + ToLE(A', EPHEMERAL_WIDTH);
    var x3, y3 := x2 + ToLE(B, EPHEMERAL_WIDTH), y2 + ToLE(B', EPHEMERAL_WIDTH);
    LastFieldInjective(x3, K, y3, K', SESSION_KEY_WIDTH);
    LastFieldInjective(x2, B, y2, B', EPHEMERAL_WIDTH);
    LastFieldInjective(x1, A, y1, A', EPHEMERAL_WIDTH);
    LastFieldInjective(x0, s, y0, s', SALT_WIDTH);
    assert t4 == x0[DIGEST_WIDTH..] == t4';
    assert x0[..DIGEST_WIDTH] == ToLE(t3, DIGEST_WIDTH) && y0[..DIGEST_WIDTH] == ToLE(t3', DIGEST_WIDTH);
    ToLEInjective(t3, t3', DIGEST_WIDTH);
  }

  /** The reconnect input determines its fields although the login has no fixed length. */
  lemma ReconnectTranscriptInjective(login: Bytes, r: nat, c: nat, K: nat, login': Bytes, r': nat, c': nat, K': nat)
    requires r < Pow(256, RECONNECT_WIDTH) && r' < Pow(256, RECONNECT_WIDTH)
    requires c < Pow(256, RECONNECT_WIDTH) && c' < Pow(256, RECONNECT_WIDTH)
    requires K < Pow(256, SESSION_KEY_WIDTH) && K' < Pow(256, SESSION_KEY_WIDTH)
    requires ReconnectTranscript(login, r, c, K) == ReconnectTranscript(login', r', c', K')
    ensures login == login' && r == r' && c == c' && K == K'
  {
    var x1, y1 := login + ToLE(r, RECONNECT_WIDTH), login' + ToLE(r', RECONNECT_WIDTH);
    var x2, y2 := x1 + ToLE(c, RECONNECT_WIDTH), y1 + ToLE(c', RECONNECT_WIDTH);
    LastFieldInjective(x2, K, y2, K', SESSION_KEY_WIDTH);
    LastFieldInjective(x1, c, y1, c', RECONNECT_WIDTH);
    LastFieldInjective(login, r, login', r', RECONNECT_WIDTH);
  }

  /** At the end of a transcript only the value modulo the field's width counts. */
  lemma LastFieldSameIff(x: Bytes, m: nat, y: Bytes, n: nat, w: nat)
    ensures x + ToLE(m, w) == y + ToLE(n, w) <==> x == y && m % Pow(256, w) == n % Pow(256, w)
  {
    SameBytesIff(m, n, w);
    if x + ToLE(m, w) == y + ToLE(n, w) {
      var z := x + ToLE(m, w);
      assert x == z[..|z| - w] == y;
      assert ToLE(m, w) == z[|z| - w..] == ToLE(n, w);
    }
  }

  /** Exactly which reconnect inputs coincide, for numbers of any size: a key beyond its 40
      bytes is hashed as its remainder. */
  lemma ReconnectTranscriptSameIff(login: Bytes, r: nat, c: nat, K: nat, login': Bytes, r': nat, c': nat, K': nat)
    ensures ReconnectTranscript(login, r, c, K) == ReconnectTranscript(login', r', c', K')
       <==> && login == login' && r % Pow(256, RECONNECT_WIDTH) == r' % Pow(256, RECONNECT_WIDTH)
            && c % Pow(256, RECONNECT_WIDTH) == c' % Pow(256, RECONNECT_WIDTH)
            && K % Pow(256, SESSION_KEY_WIDTH) == K' % Pow(256, SESSION_KEY_WIDTH)
  {
    var x1, y1 := login + ToLE(r, RECONNECT_WIDTH), login' + ToLE(r', RECONNECT_WIDTH);
    var x2, y2 := x1 + ToLE(c, RECONNECT_WIDTH), y1 + ToLE(c', RECONNECT_WIDTH);
    LastFieldSameIff(x2, K, y2, K', SESSION_KEY_WIDTH);
    LastFieldSameIff(x1, c, y1, c', RECONNECT_WIDTH);
    LastFieldSameIff(login, r, login', r', RECONNECT_WIDTH);
  }
}
