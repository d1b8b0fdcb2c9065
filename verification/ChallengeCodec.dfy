/** The challenge packet as a client writes it, against what the guard and the handlers read. */
module ChallengeCodec {
  import opened Wire
  import opened Guard
  import opened AuthSession

  type Bytes3 = d: Bytes | |d| == 3 witness [0, 0, 0]

  datatype Packet = Packet(cmd: byte, error: byte, game: Bytes4, version: Bytes3, build: nat, platform: Bytes4,
                           os: Bytes4, country: Bytes4, timezone: Bytes4, ip: Bytes4, name: Bytes)

  /** Challenge packets a client may send: either command, a build that fits, and a name of 1
      to 255 bytes without NUL. */
  predicate Sendable(p: Packet) {
    && (p.cmd == CMD_AUTH_LOGON_CHALLENGE || p.cmd == CMD_AUTH_RECONNECT_CHALLENGE)
    && p.build < 0x1_0000 && 1 <= |p.name| <= 255 && 0 !in p.name
  }

  function Encode(p: Packet): Bytes
    requires |p.name| <= 255
  {
    [p.cmd, p.error] + ToLE(CHALLENGE_PREFIX_BODY + |p.name|, 2) + p.game + p.version + ToLE(p.build, 2) + p.platform
    + p.os + p.country + p.timezone + p.ip + [|p.name|] + p.name
  }

  lemma TwoBytes(n: nat)
    requires n < 0x1_0000
    ensures ToLE(n, 2) == [n % 256, n / 256]
  {
    assert ToLE(n / 256, 1) == [(n / 256) % 256] + ToLE(n / 256 / 256, 0);
  }

  lemma Fields(f: Bytes, cmd: byte, error: byte, size: Bytes, game: Bytes, version: Bytes, build: Bytes,
               platform: Bytes,
               os: Bytes, country: Bytes, timezone: Bytes, ip: Bytes, length: byte, name: Bytes)
    requires |size| == 2 && |game| == 4 && |version| == 3 && |build| == 2 && |platform| == 4
    requires |os| == 4 && |country| == 4 && |timezone| == 4 && |ip| == 4
    requires f == [cmd, error] + size + game + version + build + platform
                  + os + country + timezone + ip + [length] + name
    ensures |f| == 34 + |name| && f[0] == cmd && f[2] == size[0] && f[3] == size[1]
    ensures f[11] == build[0] && f[12] == build[1] && f[33] == length
    ensures f[17..21] == os && f[21..25] == country && f[34..] == name
  {
  }

  /** Every sendable packet is a complete frame at exactly its own length, and the handlers
      recover the account name, the build and the locale field. */
  lemma ChallengeRoundTrip(p: Packet)
    requires Sendable(p)
    ensures var f := Encode(p);
            && |f| == 34 + |p.name| && ChallengeFrame(f) && f[0] == p.cmd
            && AccountName(f) == p.name && BuildOf(f) == p.build && f[17..21] == p.os && f[21..25] == p.country
  {
    var f := Encode(p);
    TwoBytes(CHALLENGE_PREFIX_BODY + |p.name|);
    TwoBytes(p.build);
    Fields(f, p.cmd, p.error, ToLE(CHALLENGE_PREFIX_BODY + |p.name|, 2), p.game, p.version,
           ToLE(p.build, 2), p.platform,
           p.os, p.country, p.timezone, p.ip, |p.name|, p.name);
    assert f[34..34 + |p.name|] == f[34..];
  }

  /** An OS tag in its field, padded with NULs. */
  function Padded(tag: Bytes): Bytes
    requires |tag| <= 4
  {
    tag + Zeros(4 - |tag|)
  }

  lemma {:induction false} CStringAt(bs: Bytes, n: nat)
    requires n < |bs| && bs[n] == 0 && 0 !in bs[..n]
    ensures CString(bs) == bs[..n]
  {
    assert bs == bs[..n] + [0] + bs[n + 1..];
    CStringOfTerminated(bs[..n], bs[n + 1..]);
  }

  /** A tag of up to four bytes arrives whole, except that a full one needs the NUL that the
      locale field then has to start with. */
  lemma OsTagRecovered(p: Packet, tag: Bytes)
    requires Sendable(p) && |tag| <= 4 && 0 !in tag && p.os == Padded(tag)
    requires |tag| == 4 ==> p.country[0] == 0
    ensures ChallengeFrame(Encode(p)) && OsField(Encode(p)) == tag
  {
    var f := Encode(p);
    ChallengeRoundTrip(p);
    var s := f[17..];
    assert s[..4] == p.os && s[4] == f[21..25][0];
    if |tag| < 4 { assert s[|tag|] == p.os[|tag|]; }
    assert s[..|tag|] == tag by { assert s[..|tag|] == s[..4][..|tag|]; }
    CStringAt(s, |tag|);
  }

  /** ... and both handlers store it in reading order. */
  lemma OsTagStored(env: Env, c: Core, p: Packet, tag: Bytes, a: Answer)
    requires Sendable(p) && |tag| <= 4 && 0 !in tag && p.os == Padded(tag)
    requires |tag| == 4 ==> p.country[0] == 0
    ensures ChallengeFrame(Encode(p))
    ensures LogonChallenge(env, c, Encode(p), a).core.session.os == Reverse(tag)
    ensures ReconnectChallenge(c, Encode(p), a).core.session.os == Reverse(tag)
  {
    OsTagRecovered(p, tag);
    OsReversed(env, c, Encode(p), a);
  }

  lemma OsReversed(env: Env, c: Core, f: Bytes, a: Answer)
    requires ChallengeFrame(f) && |OsField(f)| <= 4
    ensures LogonChallenge(env, c, f, a).core.session.os == Reverse(OsField(f))
    ensures ReconnectChallenge(c, f, a).core.session.os == Reverse(OsField(f))
  {
  }

  /** Both challenge handlers refuse an OS field of more than four characters: exactly the
      frames with no NUL in it nor in the first byte of the locale field. */
  lemma OsRefusedIff(f: Bytes)
    requires ChallengeFrame(f)
    ensures |OsField(f)| > 4 <==> 0 !in f[17..22]
  {
    ChallengeFrameSize(f);
    var s := f[17..];
    var c := CString(s);
    assert f[17..22] == s[..5];
    if |c| > 4 {
      assert s[..5] == c[..5];
    } else {
      assert s[..5][|c|] == 0;
    }
  }
}
