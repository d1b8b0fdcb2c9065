/** The realm-list reply in its two layouts, and the decoder a client of each layout runs. */
module RealmPacket {
  import opened Wire
  import opened Arith
  import opened BuildPolicy
  import opened RealmIndex

  /** `Classic` is sent to the 1.12 builds, `Modern` to every other build. */
  datatype Layout = Classic | Modern

  function LayoutOf(build: nat): Layout {
    if build == 5875 || build == 6005 || build == 6141 then Classic else Modern
  }

  /** One realm of the client's view, with the character count of the account on it and the
      address picked for the client. */
  datatype Shown = Shown(realm: Realm, characters: byte, address: Bytes)

  datatype BuildTag = BuildTag(major: byte, minor: byte, bugfix: byte, build: nat)

  /** What one entry of the packet says; `lock` and `tag` exist in the modern layout only. */
  datatype Entry = Entry(icon: byte, lock: byte, flags: byte, name: Bytes, address: Bytes,
                         population: Bytes4, characters: byte, timezone: byte, tag: Option<BuildTag>)

  // ----- from a realm to its entry -----

  function Decimal(n: nat): (r: Bytes)
    ensures 0 !in r
  {
    if n < 10 then [0x30 + n] else Decimal(n / 10) + [0x30 + n % 10]
  }

  /** " (major,minor,bugfix)", cut to the 19 characters its buffer holds. */
  function VersionSuffix(info: BuildInfo): (r: Bytes)
    ensures 0 !in r
  {
    var text := [0x20, 0x28] + Decimal(info.major) + [0x2C] + Decimal(info.minor)
                + [0x2C] + Decimal(info.bugfix) + [0x29];
    if |text| <= 19 then text else text[..19]
  }

  function SetOffline(flags: byte): (r: byte)
    ensures HasBit(r, FLAG_OFFLINE)
  {
    if HasBit(flags, FLAG_OFFLINE) then flags else flags + 2
  }

  function InfoShown(build: nat, realm: Realm): BuildInfo {
    if build in realm.builds && FindBuildInfo(build).Some? then FindBuildInfo(build).value else realm.info
  }

  function ToEntry(build: nat, security: nat, x: Shown): Entry {
    var r := x.realm;
    var info := InfoShown(build, r);
    match LayoutOf(build)
    case Classic =>
      var offline := build !in r.builds || r.security > security;
      Entry(r.icon, 0, if offline then SetOffline(r.flags) else r.flags,
            if HasBit(r.flags, FLAG_SPECIFYBUILD) then r.name + VersionSuffix(info) else r.name,
            x.address, r.population, x.characters, r.timezone, None)
    case Modern =>
      var flags := if build !in r.builds then SetOffline(r.flags) else r.flags;
      Entry(r.icon, if r.security > security then 1 else 0, flags, r.name,
            x.address, r.population, x.characters, r.timezone,
            if HasBit(flags, FLAG_SPECIFYBUILD)
            then Some(BuildTag(info.major % 256, info.minor % 256, info.bugfix % 256, build % 0x1_0000)) else None)
  }

  function Entries(build: nat, security: nat, view: seq<Shown>): (es: seq<Entry>)
    ensures |es| == |view|
  {
    seq(|view|, i requires 0 <= i < |view| => ToEntry(build, security, view[i]))
  }

  // ----- from entries to bytes -----

  function TagBytes(tag: Option<BuildTag>): Bytes {
    match tag
    case None => []
    case Some(t) => [t.major, t.minor, t.bugfix] + ToLE(t.build, 2)
  }

  function Tail(layout: Layout, e: Entry): Bytes {
    e.population + [e.characters, e.timezone, if layout == Classic then 0 else 0x2C]
    + (if layout == Classic then [] else TagBytes(e.tag))
  }

  function Head(layout: Layout, e: Entry): (r: Bytes)
    ensures |r| == HeadSize(layout)
  {
    if layout == Classic then ToLE(e.icon, 4) + [e.flags] else [e.icon, e.lock, e.flags]
  }

  function HeadSize(layout: Layout): nat { if layout == Classic then 5 else 3 }

  function EncodeEntry(layout: Layout, e: Entry): Bytes {
    Head(layout, e) + (e.name + [0] + (e.address + [0] + Tail(layout, e)))
  }

  function ConcatMap(es: seq<Entry>, encode: Entry -> Bytes): Bytes {
    if es == [] then [] else encode(es[0]) + ConcatMap(es[1..], encode)
  }

  function Encoder(layout: Layout): Entry -> Bytes { (e: Entry) => EncodeEntry(layout, e) }

  function EncodeEntries(layout: Layout, es: seq<Entry>): Bytes { ConcatMap(es, Encoder(layout)) }

  function CountWidth(layout: Layout): nat { if layout == Classic then 1 else 2 }

  function Trailer(layout: Layout): (r: Bytes)
    ensures |r| == 2
  {
    ToLE(if layout == Classic then 0x0002 else 0x0010, 2)
  }

  function Body(layout: Layout, es: seq<Entry>): Bytes {
    ToLE(0, 4) + (ToLE(|es|, CountWidth(layout)) + (EncodeEntries(layout, es) + Trailer(layout)))
  }

  /** The packet `_HandleRealmList` sends. */
  function Reply(layout: Layout, es: seq<Entry>): Bytes {
    [0x10] + (ToLE(|Body(layout, es)|, 2) + Body(layout, es))
  }

  /** `LoadRealmlist` appends one entry after another. */
  method LoadRealmlist(build: nat, security: nat, view: seq<Shown>) returns (pkt: Bytes)
    ensures pkt == Body(LayoutOf(build), Entries(build, security, view))
  {
    var layout := LayoutOf(build);
    ghost var es := Entries(build, security, view);
    var head := ToLE(0, 4) + ToLE(|view|, CountWidth(layout));
    var entries: Bytes := [];
    var i := 0;
    while i < |view|
      invariant 0 <= i <= |view|
      invariant entries == EncodeEntries(layout, es[..i])
    {
      EncodeNext(layout, es, i);
      var e := ToEntry(build, security, view[i]);
      entries := entries + EncodeEntry(layout, e);
      i := i + 1;
    }
    assert es[..i] == es;
    pkt := head + (entries + Trailer(layout));
    Associative(ToLE(0, 4), ToLE(|view|, CountWidth(layout)), entries + Trailer(layout));
  }

  lemma {:induction false} ConcatMapSnoc(es: seq<Entry>, e: Entry, encode: Entry -> Bytes)
    ensures ConcatMap(es + [e], encode) == ConcatMap(es, encode) + encode(e)
  {
    if es != [] {
      assert (es + [e])[1..] == es[1..] + [e];
      ConcatMapSnoc(es[1..], e, encode);
    } else {
      assert (es + [e])[1..] == [];
    }
  }

  lemma EncodeNext(layout: Layout, es: seq<Entry>, i: nat)
    requires i < |es|
    ensures EncodeEntries(layout, es[..i + 1]) == EncodeEntries(layout, es[..i]) + EncodeEntry(layout, es[i])
  {
    assert es[..i + 1] == es[..i] + [es[i]];
    ConcatMapSnoc(es[..i], es[i], Encoder(layout));
    assert Encoder(layout)(es[i]) == EncodeEntry(layout, es[i]);
  }

  // ----- a client's decoder, with its own numbers -----

  /** The 1.12 clients. */
  predicate OldClient(build: nat) { build in {5875, 6005, 6141} }

  function ReadString(bs: Bytes): (r: Option<(Bytes, Bytes)>)
    ensures r.Some? ==> 0 !in r.value.0
  {
    var s := CString(bs);
    if |s| < |bs| then Some((s, bs[|s| + 1..])) else None
  }

  function ReadTag(classic: bool, flags: byte, bs: Bytes): Option<(Option<BuildTag>, Bytes)> {
    if classic || (flags / 4) % 2 == 0 then Some((None, bs))
    else if |bs| < 5 then None
    else Some((Some(BuildTag(bs[0], bs[1], bs[2], FromLE(bs[3..5]))), bs[5..]))
  }

  function DecodeEntry(classic: bool, bs: Bytes): (r: Option<(Entry, Bytes)>)
    ensures r.Some? ==> NulFree(r.value.0)
  {
    if |bs| < 5 || (classic && FromLE(bs[..4]) >= 256) then None
    else
      var flags := if classic then bs[4] else bs[2];
      match ReadString(if classic then bs[5..] else bs[3..])
      case None => None
      case Some((name, afterName)) =>
        match ReadString(afterName)
        case None => None
        case Some((address, rest)) =>
          if |rest| < 7 || rest[6] != (if classic then 0 else 0x2C) then None
          else
            match ReadTag(classic, flags, rest[7..])
            case None => None
            case Some((tag, left)) =>
              Some((Entry(bs[0], if classic then 0 else bs[1], flags, name, address,
                          rest[..4], rest[4], rest[5], tag), left))
  }

  function DecodeEntries(classic: bool, count: nat, bs: Bytes): (r: Option<(seq<Entry>, Bytes)>)
    ensures r.Some? ==> |r.value.0| == count && forall e :: e in r.value.0 ==> NulFree(e)
  {
    if count == 0 then Some(([], bs))
    else
      match DecodeEntry(classic, bs)
      case None => None
      case Some((e, rest)) =>
        match DecodeEntries(classic, count - 1, rest)
        case None => None
        case Some((es, left)) => Some(([e] + es, left))
  }

  function DecodeReply(classic: bool, bs: Bytes): Option<seq<Entry>> {
    var w := if classic then 1 else 2;
    if |bs| < 7 + w || bs[0] != 0x10 || FromLE(bs[1..3]) != |bs| - 3 || bs[3..7] != [0, 0, 0, 0] then None
    else
      match DecodeEntries(classic, FromLE(bs[7..7 + w]), bs[7 + w..])
      case None => None
      case Some((es, left)) => if left == (if classic then [0x02, 0x00] else [0x10, 0x00]) then Some(es) else None
  }

  /** The layout a client is sent is the one it decodes. */
  lemma LayoutIs(build: nat)
    ensures LayoutOf(build) == Classic <==> OldClient(build)
  {
  }

  // ----- round trip -----

  predicate NulFree(e: Entry) { 0 !in e.name && 0 !in e.address }

  /** Entries as `ToEntry` makes them: the build bytes go with the flag. */
  predicate WellFormed(layout: Layout, e: Entry) {
    match layout
    case Classic => e.lock == 0 && e.tag.None?
    case Modern =>
      (e.tag.Some? <==> HasBit(e.flags, FLAG_SPECIFYBUILD)) && (e.tag.Some? ==> e.tag.value.build < 0x1_0000)
  }

  lemma EntriesAreWellFormed(build: nat, security: nat, x: Shown)
    ensures WellFormed(LayoutOf(build), ToEntry(build, security, x))
    ensures 0 !in x.realm.name && 0 !in x.address ==> NulFree(ToEntry(build, security, x))
  {
  }

  lemma TagRoundTrip(flags: byte, tag: Option<BuildTag>, rest: Bytes)
    requires tag.Some? <==> HasBit(flags, FLAG_SPECIFYBUILD)
    requires tag.Some? ==> tag.value.build < 0x1_0000
    ensures ReadTag(false, flags, TagBytes(tag) + rest) == Some((tag, rest))
  {
    if tag.Some? {
      var t := tag.value;
      var bs := TagBytes(tag) + rest;
      assert Pow(256, 2) == 0x1_0000 by { assert Pow(256, 1) == 256 by { assert Pow(256, 0) == 1; } }
      FromToLE(t.build, 2);
      assert bs[3..5] == ToLE(t.build, 2);
      assert bs[5..] == rest;
    } else {
      assert TagBytes(tag) + rest == rest;
    }
  }

  lemma ReadStringRoundTrip(s: Bytes, rest: Bytes)
    requires 0 !in s
    ensures ReadString(s + [0] + rest) == Some((s, rest))
  {
    CStringOfTerminated(s, rest);
    assert (s + [0] + rest)[|s| + 1..] == rest;
  }

  lemma TailRoundTrip(layout: Layout, e: Entry, rest: Bytes)
    requires WellFormed(layout, e)
    ensures var t := Tail(layout, e) + rest;
            && |t| >= 7 && t[..4] == e.population && t[4] == e.characters && t[5] == e.timezone
            && t[6] == (if layout == Classic then 0 else 0x2C)
            && ReadTag(layout == Classic, e.flags, t[7..]) == Some((e.tag, rest))
  {
    var t := Tail(layout, e) + rest;
    if layout == Modern {
      assert t[7..] == TagBytes(e.tag) + rest;
      TagRoundTrip(e.flags, e.tag, rest);
    } else {
      assert t[7..] == rest;
    }
  }

  lemma IconRoundTrip(icon: byte)
    ensures |ToLE(icon, 4)| == 4 && ToLE(icon, 4)[0] == icon && FromLE(ToLE(icon, 4)) == icon
  {
    SmallPowers();
    assert Pow(256, 3) >= 0x1_0000 && Pow(256, 4) >= 0x1_0000;
    FromToLE(icon, 4);
  }

  lemma HeadRoundTrip(layout: Layout, e: Entry, rest: Bytes)
    requires WellFormed(layout, e)
    ensures var bs, n := Head(layout, e) + rest, HeadSize(layout);
            && bs[n..] == rest && bs[0] == e.icon && bs[n - 1] == e.flags && (layout == Modern ==> bs[1] == e.lock)
            && (layout == Classic ==> FromLE(bs[..4]) < 256)
  {
    IconRoundTrip(e.icon);
    if layout == Classic { assert (Head(layout, e) + rest)[..4] == ToLE(e.icon, 4); }
  }

  lemma EntryRoundTrip(layout: Layout, e: Entry, rest: Bytes)
    requires WellFormed(layout, e) && NulFree(e)
    ensures DecodeEntry(layout == Classic, EncodeEntry(layout, e) + rest) == Some((e, rest))
  {
    var tail := Tail(layout, e);
    var afterName := e.address + [0] + (tail + rest);
    var afterHead := e.name + [0] + afterName;
    Regroup(Head(layout, e), e.name, e.address, tail, rest);
    HeadRoundTrip(layout, e, afterHead);
    ReadStringRoundTrip(e.name, afterName);
    ReadStringRoundTrip(e.address, tail + rest);
    TailRoundTrip(layout, e, rest);
  }

  lemma Regroup(head: Bytes, name: Bytes, address: Bytes, tail: Bytes, rest: Bytes)
    ensures head + (name + [0] + (address + [0] + tail)) + rest == head + (name + [0] + (address + [0] + (tail + rest)))
  {
  }

  lemma EncodeCons(layout: Layout, es: seq<Entry>, rest: Bytes)
    requires es != []
    ensures EncodeEntries(layout, es) + rest == EncodeEntry(layout, es[0]) + (EncodeEntries(layout, es[1..]) + rest)
  {
    Associative(EncodeEntry(layout, es[0]), EncodeEntries(layout, es[1..]), rest);
  }

  lemma Associative(a: Bytes, b: Bytes, c: Bytes)
    ensures a + b + c == a + (b + c)
  {
  }

  lemma DecodeCons(classic: bool, count: nat, bs: Bytes, e: Entry, tail: seq<Entry>, more: Bytes, left: Bytes)
    requires count > 0 && DecodeEntry(classic, bs) == Some((e, more))
    requires DecodeEntries(classic, count - 1, more) == Some((tail, left))
    ensures DecodeEntries(classic, count, bs) == Some(([e] + tail, left))
  {
  }

  lemma EntriesConsRoundTrip(layout: Layout, e: Entry, tail: seq<Entry>, rest: Bytes)
    requires WellFormed(layout, e) && NulFree(e)
    requires DecodeEntries(layout == Classic, |tail|, EncodeEntries(layout, tail) + rest) == Some((tail, rest))
    ensures DecodeEntries(layout == Classic, |tail| + 1, EncodeEntries(layout, [e] + tail) + rest)
         == Some(([e] + tail, rest))
  {
    var more := EncodeEntries(layout, tail) + rest;
    assert ([e] + tail)[0] == e && ([e] + tail)[1..] == tail;
    EncodeCons(layout, [e] + tail, rest);
    EntryRoundTrip(layout, e, more);
    DecodeCons(layout == Classic, |tail| + 1, EncodeEntries(layout, [e] + tail) + rest, e, tail, more, rest);
  }

  lemma {:induction false} EntriesRoundTrip(layout: Layout, es: seq<Entry>, rest: Bytes)
    requires forall e :: e in es ==> WellFormed(layout, e) && NulFree(e)
    ensures DecodeEntries(layout == Classic, |es|, EncodeEntries(layout, es) + rest) == Some((es, rest))
  {
    if es == [] {
      assert EncodeEntries(layout, es) + rest == rest;
    } else {
      EntriesRoundTrip(layout, es[1..], rest);
      EntriesConsRoundTrip(layout, es[0], es[1..], rest);
      assert [es[0]] + es[1..] == es;
    }
  }

  /** The count, the size and the strings fit their fields. */
  predicate FitsFields(layout: Layout, es: seq<Entry>) {
    && |es| < (if layout == Classic then 0x100 else 0x1_0000)
    && |Body(layout, es)| < 0x1_0000
    && forall e :: e in es ==> NulFree(e)
  }

  lemma SmallPowers()
    ensures Pow(256, 1) == 0x100 && Pow(256, 2) == 0x1_0000
  {
    assert Pow(256, 0) == 1;
  }

  lemma TwoByteNumber(n: nat)
    ensures ToLE(n, 2) == [n % 256, (n / 256) % 256] && ToLE(n, 1) == [n % 256] && ToLE(0, 4) == [0, 0, 0, 0]
  {
    assert ToLE(n / 256, 1) == [(n / 256) % 256] + ToLE(n / 256 / 256, 0);
    assert ToLE(n, 1) == [n % 256] + ToLE(n / 256, 0);
    assert ToLE(0, 4) == [0] + ToLE(0, 3) && ToLE(0, 3) == [0] + ToLE(0, 2);
    assert ToLE(0, 2) == [0] + ToLE(0, 1) && ToLE(0, 1) == [0] + ToLE(0, 0);
  }

  /** The fixed bytes of both bodies: a 1-byte count and 02 00 at the end for the 1.12 clients,
      a 2-byte count and 10 00 for all others. */
  lemma BodyBytes(build: nat, es: seq<Entry>)
    ensures var entries := EncodeEntries(LayoutOf(build), es);
            Body(LayoutOf(build), es)
            == if build in {5875, 6005, 6141}
               then [0, 0, 0, 0] + ([|es| % 256] + (entries + [0x02, 0x00]))
               else [0, 0, 0, 0] + ([|es| % 256, (|es| / 256) % 256] + (entries + [0x10, 0x00]))
  {
    LayoutIs(build);
    TwoByteNumber(|es|);
    TwoByteNumber(0x0002);
    TwoByteNumber(0x0010);
  }

  lemma ReplyFields(layout: Layout, es: seq<Entry>)
    ensures var bs, w := Reply(layout, es), CountWidth(layout);
            && |bs| >= 7 + w && bs[0] == 0x10 && |bs| - 3 == |Body(layout, es)|
            && bs[1..3] == ToLE(|Body(layout, es)|, 2) && bs[3..7] == ToLE(0, 4)
            && bs[7..7 + w] == ToLE(|es|, w)
            && bs[7 + w..] == EncodeEntries(layout, es) + Trailer(layout)
  {
    var body, w := Body(layout, es), CountWidth(layout);
    var rest := EncodeEntries(layout, es) + Trailer(layout);
    SplitReply(ToLE(|body|, 2), ToLE(0, 4), ToLE(|es|, w), rest, w);
  }

  lemma SplitReply(size: Bytes, unused: Bytes, count: Bytes, rest: Bytes, w: nat)
    requires |size| == 2 && |unused| == 4 && |count| == w
    ensures var bs := [0x10] + (size + (unused + (count + rest)));
            && |bs| == 7 + w + |rest| && bs[0] == 0x10 && bs[1..3] == size && bs[3..7] == unused
            && bs[7..7 + w] == count && bs[7 + w..] == rest
  {
  }

  lemma TrailerBytes(layout: Layout)
    ensures Trailer(layout) == if layout == Classic then [0x02, 0x00] else [0x10, 0x00]
  {
    TwoByteNumber(0x0002);
    TwoByteNumber(0x0010);
  }

  /** A client recovers every entry, in order, exactly when everything fits its field. */
  lemma ReplyRoundTrip(layout: Layout, es: seq<Entry>)
    requires forall e :: e in es ==> WellFormed(layout, e)
    ensures DecodeReply(layout == Classic, Reply(layout, es)) == Some(es) <==> FitsFields(layout, es)
  {
    var bs, w := Reply(layout, es), CountWidth(layout);
    ReplyFields(layout, es);
    SmallPowers();
    TrailerBytes(layout);
    TwoByteNumber(0);
    if FitsFields(layout, es) {
      FromToLE(|Body(layout, es)|, 2);
      FromToLE(|es|, w);
      EntriesRoundTrip(layout, es, Trailer(layout));
    }
    if DecodeReply(layout == Classic, bs) == Some(es) {
      FromLEBound(bs[1..3]);
      FromLEBound(bs[7..7 + w]);
    }
  }

  lemma HigherBits(flags: byte)
    ensures flags / 32 == (flags / 4) / 8 && flags / 64 == (flags / 4) / 16
  {
  }

  lemma OfflineBits(flags: byte)
    ensures HasBit(SetOffline(flags), FLAG_SPECIFYBUILD) <==> HasBit(flags, FLAG_SPECIFYBUILD)
    ensures HasBit(SetOffline(flags), FLAG_NEW_PLAYERS) <==> HasBit(flags, FLAG_NEW_PLAYERS)
    ensures HasBit(SetOffline(flags), FLAG_RECOMMENDED) <==> HasBit(flags, FLAG_RECOMMENDED)
  {
    var offline := SetOffline(flags);
    assert offline / 4 == flags / 4;
    HigherBits(flags);
    HigherBits(offline);
  }

  /** The offline bit is sent exactly for an offline realm, a realm that does not take the
      client's build or, to 1.x clients only, a realm above the account's level. */
  lemma OfflineIff(build: nat, security: nat, x: Shown)
    ensures HasBit(ToEntry(build, security, x).flags, FLAG_OFFLINE)
       <==> (HasBit(x.realm.flags, FLAG_OFFLINE) || build !in x.realm.builds
             || (build in {5875, 6005, 6141} && x.realm.security > security))
    ensures HasBit(ToEntry(build, security, x).flags, FLAG_SPECIFYBUILD) <==> HasBit(x.realm.flags, FLAG_SPECIFYBUILD)
    ensures HasBit(ToEntry(build, security, x).flags, FLAG_NEW_PLAYERS) <==> HasBit(x.realm.flags, FLAG_NEW_PLAYERS)
    ensures HasBit(ToEntry(build, security, x).flags, FLAG_RECOMMENDED) <==> HasBit(x.realm.flags, FLAG_RECOMMENDED)
  {
    OfflineBits(x.realm.flags);
  }

  // ----- the version text -----

  predicate Digit(b: byte) { 0x30 <= b <= 0x39 }

  /** Reads decimal digits on from `n` and returns the number and the rest. */
  function ReadNumber(n: nat, bs: Bytes): (nat, Bytes)
    decreases |bs|
  {
    if bs == [] || !Digit(bs[0]) then (n, bs) else ReadNumber(10 * n + (bs[0] - 0x30), bs[1..])
  }

  /** The three numbers of " (a,b,c)". */
  function ReadVersion(text: Bytes): Option<(nat, nat, nat)> {
    if |text| < 2 || text[0] != 0x20 || text[1] != 0x28 then None
    else
      var (a, x) := ReadNumber(0, text[2..]);
      if x == [] || x[0] != 0x2C then None
      else
        var (b, y) := ReadNumber(0, x[1..]);
        if y == [] || y[0] != 0x2C then None
        else
          var (c, z) := ReadNumber(0, y[1..]);
          if z == [0x29] then Some((a, b, c)) else None
  }

  lemma {:induction false} DecimalReads(n: nat, rest: Bytes)
    ensures ReadNumber(0, Decimal(n) + rest) == ReadNumber(n, rest)
    decreases n
  {
    if n < 10 {
      assert (Decimal(n) + rest)[1..] == rest;
    } else {
      var d := [0x30 + n % 10];
      assert Decimal(n) + rest == Decimal(n / 10) + (d + rest);
      DecimalReads(n / 10, d + rest);
      assert (d + rest)[1..] == rest;
    }
  }

  lemma {:induction false} DecimalIsShort(n: nat)
    ensures n < 10 ==> |Decimal(n)| == 1
    ensures n < 100 ==> |Decimal(n)| <= 2
  {
  }

  /** The text after a realm's name: at most 19 bytes, and read back unless it fills them. */
  predicate TellsVersion(text: Bytes, info: BuildInfo) {
    |text| <= 19 && (|text| < 19 ==> ReadVersion(text) == Some((info.major, info.minor, info.bugfix)))
  }

  lemma SuffixTells(info: BuildInfo)
    ensures TellsVersion(VersionSuffix(info), info)
    ensures info.major < 100 && info.minor < 100 && info.bugfix < 100 ==> |VersionSuffix(info)| < 19
  {
    var a, b, c := Decimal(info.major), Decimal(info.minor), Decimal(info.bugfix);
    var z: Bytes := [0x29];
    var y := [0x2C] + (c + z);
    var x := [0x2C] + (b + y);
    var text := [0x20, 0x28] + a + [0x2C] + b + [0x2C] + c + [0x29];
    assert text == [0x20, 0x28] + (a + x);
    assert text[2..] == a + x && x[1..] == b + y && y[1..] == c + z;
    DecimalReads(info.major, x);
    DecimalReads(info.minor, y);
    DecimalReads(info.bugfix, z);
    DecimalIsShort(info.major);
    DecimalIsShort(info.minor);
    DecimalIsShort(info.bugfix);
  }

  // ----- from a realm to what its client sees -----

  /** What a client must be able to read off entry `e` about realm `x`. */
  predicate Shows(build: nat, security: nat, x: Shown, e: Entry) {
    var r, tagged := x.realm, HasBit(x.realm.flags, FLAG_SPECIFYBUILD);
    && e.icon == r.icon && e.address == x.address && e.population == r.population
    && e.characters == x.characters && e.timezone == r.timezone
    && r.name <= e.name
    && (if OldClient(build) && tagged then TellsVersion(e.name[|r.name|..], InfoShown(build, r)) else e.name == r.name)
    && (!OldClient(build) ==> (e.lock == 1 <==> r.security > security) && e.lock <= 1)
    && (HasBit(e.flags, FLAG_OFFLINE)
        <==> HasBit(r.flags, FLAG_OFFLINE) || build !in r.builds || (OldClient(build) && r.security > security))
    && (HasBit(e.flags, FLAG_SPECIFYBUILD) <==> tagged)
    && (HasBit(e.flags, FLAG_NEW_PLAYERS) <==> HasBit(r.flags, FLAG_NEW_PLAYERS))
    && (HasBit(e.flags, FLAG_RECOMMENDED) <==> HasBit(r.flags, FLAG_RECOMMENDED))
    && (e.tag.Some? <==> !OldClient(build) && tagged)
    && (e.tag.Some? ==> e.tag.value.build == build % 0x1_0000 && TagNames(e.tag.value, InfoShown(build, r)))
  }

  /** The version bytes of a tag, each cut to a byte. */
  predicate TagNames(t: BuildTag, info: BuildInfo) {
    t.major == info.major % 256 && t.minor == info.minor % 256 && t.bugfix == info.bugfix % 256
  }

  predicate TableInfo(info: BuildInfo) {
    exists p :: p in SUPPORTED_CLIENT_BUILDS && p.info == info
  }

  /** The version named is the table's for the client's own build where the realm takes it and
      it is supported, else the table's for the realm's smallest build, or zeros with it. */
  lemma InfoShownIs(build: nat, rows: seq<Row>, name: Bytes)
    requires RealmOf(rows, name).Some?
    ensures var info, first := InfoShown(build, RealmOf(rows, name).value), FirstBuild(Accumulated(rows, name));
            if build in Accumulated(rows, name) && Supported(build) then TableInfo(info) && info.build == build
            else if first != 0 && Supported(first) then TableInfo(info) && info.build == first
            else info == BuildInfo(first, 0, 0, 0, ' ')
  {
    BuildsSoFar(rows, name);
    InfoOf(rows, name);
    InfoIsFromTable(build);
    InfoIsFromTable(FirstBuild(Accumulated(rows, name)));
  }

  lemma InfoIsFromTable(build: nat)
    ensures Supported(build) ==> TableInfo(FindBuildInfo(build).value) && FindBuildInfo(build).value.build == build
  {
    var found := FindIn(SUPPORTED_CLIENT_BUILDS, build);
    if found.Some? { assert found.value in SUPPORTED_CLIENT_BUILDS && found.value.info == FindBuildInfo(build).value; }
  }

  lemma {:induction false} InfoOf(rows: seq<Row>, name: Bytes)
    requires RealmOf(rows, name).Some?
    ensures RealmOf(rows, name).value.info == InfoFor(RealmOf(rows, name).value.builds)
  {
    if rows[|rows| - 1].name != name { InfoOf(rows[..|rows| - 1], name); }
  }

  lemma EntryShows(build: nat, security: nat, x: Shown)
    ensures Shows(build, security, x, ToEntry(build, security, x))
  {
    OfflineIff(build, security, x);
    LayoutIs(build);
    SuffixTells(InfoShown(build, x.realm));
    var e, r := ToEntry(build, security, x), x.realm;
    if OldClient(build) && HasBit(r.flags, FLAG_SPECIFYBUILD) {
      assert e.name[|r.name|..] == VersionSuffix(InfoShown(build, r));
    }
  }

  /** From the realms of a view to what the client decodes, through the bytes of the packet:
      as many entries as realms, in the same order, each saying what it must. */
  lemma ClientSeesRealms(build: nat, security: nat, view: seq<Shown>)
    requires FitsFields(LayoutOf(build), Entries(build, security, view))
    ensures var r := DecodeReply(OldClient(build), Reply(LayoutOf(build), Entries(build, security, view)));
            r.Some? && |r.value| == |view|
            && forall i :: 0 <= i < |view| ==> Shows(build, security, view[i], r.value[i])
  {
    var es := Entries(build, security, view);
    forall i | 0 <= i < |view|
      ensures WellFormed(LayoutOf(build), es[i]) && Shows(build, security, view[i], es[i])
    {
      EntriesAreWellFormed(build, security, view[i]);
      EntryShows(build, security, view[i]);
    }
    LayoutIs(build);
    ReplyRoundTrip(LayoutOf(build), es);
  }
}
