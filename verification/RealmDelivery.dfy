/** From the rows of the realm table to what a client decodes. */
module RealmDelivery {
  import opened Wire
  import opened BuildPolicy
  import opened RealmIndex
  import opened RealmPacket

  /** The realm of a row that shares its name with no other. */
  function RealmOfRow(row: Row): Realm {
    var builds := BuildSet(row.builds);
    Realm(row.id, row.name, row.icon, AllowedFlags(row.flags), row.timezone, ClampSecurity(row.security),
          row.population, builds, InfoFor(builds))
  }

  lemma {:induction false} RealmOfDistinct(rows: seq<Row>, k: nat)
    requires DistinctNames(rows) && k < |rows|
    ensures RealmOf(rows, rows[k].name) == Some(RealmOfRow(rows[k]))
  {
    var n := |rows| - 1;
    if k == n { OwnBuilds(rows); } else { RealmOfDistinct(rows[..n], k); }
  }

  /** The rows a test keeps, in order. */
  function Kept(rows: seq<Row>, keep: Row -> bool): seq<Row> {
    if rows == [] then [] else (if keep(rows[0]) then [rows[0]] else []) + Kept(rows[1..], keep)
  }

  lemma {:induction false} KeptNames(rows: seq<Row>, keep: Row -> bool)
    ensures |Select(rows, keep)| == |Kept(rows, keep)|
    ensures forall i :: 0 <= i < |Kept(rows, keep)| ==> Select(rows, keep)[i] == Kept(rows, keep)[i].name
    ensures forall i :: 0 <= i < |Kept(rows, keep)| ==> Kept(rows, keep)[i] in rows
  {
    if rows != [] { KeptNames(rows[1..], keep); }
  }

  lemma ListedIsKnown(rows: seq<Row>, v: RealmVersion, i: nat)
    requires i < |VersionList(Home, rows, v)|
    ensures RealmOf(rows, VersionList(Home, rows, v)[i]).Some?
  {
    var k := ListedRowOf(Home, rows, v, VersionList(Home, rows, v)[i]);
  }

  /** One entry of the view, with the account's character count and the client's address. */
  function ShownRealm(r: Realm, characters: nat -> byte, address: Realm -> Bytes): Shown {
    Shown(r, characters(r.id), address(r))
  }

  /** What `LoadRealmlist` iterates over: the list of the client's version, each name looked
      up in the same snapshot. */
  function ViewOf(rows: seq<Row>, v: RealmVersion, characters: nat -> byte, address: Realm -> Bytes): (view: seq<Shown>)
    ensures |view| == |VersionList(Home, rows, v)|
  {
    var names := VersionList(Home, rows, v);
    seq(|names|, i requires 0 <= i < |names| =>
      ListedIsKnown(rows, v, i); ShownRealm(RealmOf(rows, names[i]).value, characters, address))
  }

  lemma ViewIsKeptRows(rows: seq<Row>, v: RealmVersion, characters: nat -> byte, address: Realm -> Bytes)
    requires DistinctNames(rows)
    ensures var view, kept := ViewOf(rows, v, characters, address), Kept(rows, Belongs(v));
            |view| == |kept|
            && forall i :: 0 <= i < |kept| ==> view[i] == ShownRealm(RealmOfRow(kept[i]), characters, address)
  {
    var view, kept := ViewOf(rows, v, characters, address), Kept(rows, Belongs(v));
    IndexIsFilter(rows, v);
    KeptNames(rows, Belongs(v));
    forall i | 0 <= i < |kept| ensures view[i] == ShownRealm(RealmOfRow(kept[i]), characters, address) {
      var k :| 0 <= k < |rows| && rows[k] == kept[i];
      RealmOfDistinct(rows, k);
    }
  }

  /** A client decodes exactly the rows of the table whose smallest build shares its version
      and can be listed: as many entries, in row order, each showing its row. */
  lemma ClientSeesRows(rows: seq<Row>, build: nat, security: nat, characters: nat -> byte, address: Realm -> Bytes)
    requires DistinctNames(rows)
    requires FitsFields(LayoutOf(build),
                        Entries(build, security, ViewOf(rows, BelongsToVersion(build), characters, address)))
    ensures var view := ViewOf(rows, BelongsToVersion(build), characters, address);
            var kept := Kept(rows, Belongs(BelongsToVersion(build)));
            var r := DecodeReply(OldClient(build), Reply(LayoutOf(build), Entries(build, security, view)));
            && r.Some? && |r.value| == |kept|
            && forall i :: 0 <= i < |kept| ==>
                 Shows(build, security, ShownRealm(RealmOfRow(kept[i]), characters, address), r.value[i])
  {
    ViewIsKeptRows(rows, BelongsToVersion(build), characters, address);
    ClientSeesRealms(build, security, ViewOf(rows, BelongsToVersion(build), characters, address));
  }
}
