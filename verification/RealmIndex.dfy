/** The realm snapshot: every realm by name, and per client version the list of realms
    shown to it, rebuilt from the rows of the realm table. */
module RealmIndex {
  import opened Wire
  import opened BuildPolicy

  const FLAG_OFFLINE: nat := 0x02
  const FLAG_SPECIFYBUILD: nat := 0x04
  const FLAG_NEW_PLAYERS: nat := 0x20
  const FLAG_RECOMMENDED: nat := 0x40
  const SEC_ADMINISTRATOR: nat := 3
  const VERSION_COUNT: nat := 9

  /** Bit `mask` (a power of two) of `flags`. */
  predicate HasBit(flags: nat, mask: nat)
    requires mask > 0
  {
    (flags / mask) % 2 == 1
  }

  function Bit(flags: nat, mask: nat): nat
    requires mask > 0
  {
    if HasBit(flags, mask) then mask else 0
  }

  /** Only these four flags may be set in the database. */
  function AllowedFlags(flags: byte): (r: byte)
  {
    Bit(flags, FLAG_OFFLINE) + Bit(flags, FLAG_SPECIFYBUILD)
    + Bit(flags, FLAG_NEW_PLAYERS) + Bit(flags, FLAG_RECOMMENDED)
  }

  /** The mask removes every other flag and keeps these as they are. */
  lemma FlagKeptIff(flags: byte, mask: nat)
    requires mask in {1, 2, 4, 8, 16, 32, 64, 128}
    ensures HasBit(AllowedFlags(flags), mask)
       <==> HasBit(flags, mask) && mask in {FLAG_OFFLINE, FLAG_SPECIFYBUILD, FLAG_NEW_PLAYERS, FLAG_RECOMMENDED}
  {
    if mask < 16 { LowFlags(flags); } else { HighFlags(flags); }
  }

  lemma LowFlags(flags: byte)
    ensures var r := AllowedFlags(flags);
            && !HasBit(r, 1) && (HasBit(r, 2) <==> HasBit(flags, 2))
            && (HasBit(r, 4) <==> HasBit(flags, 4)) && !HasBit(r, 8)
  {
  }

  lemma HighFlags(flags: byte)
    ensures var r := AllowedFlags(flags);
            && !HasBit(r, 16) && (HasBit(r, 32) <==> HasBit(flags, 32))
            && (HasBit(r, 64) <==> HasBit(flags, 64)) && !HasBit(r, 128)
  {
  }

  function ClampSecurity(level: nat): (r: nat)
    ensures r <= 3 && r <= level && (level <= 3 ==> r == level) && (level > 3 ==> r == 3)
  {
    if level <= SEC_ADMINISTRATOR then level else SEC_ADMINISTRATOR
  }

  /** A database row; `builds` are the numbers of its build column, in column order. */
  datatype Row = Row(id: nat, name: Bytes, icon: byte, flags: byte, timezone: byte,
                     security: nat, population: Bytes4, builds: seq<nat>)

  datatype Realm = Realm(id: nat, name: Bytes, icon: byte, flags: byte, timezone: byte,
                         security: nat, population: Bytes4, builds: set<nat>, info: BuildInfo)

  function VersionIndex(v: RealmVersion): (i: nat)
    ensures i < VERSION_COUNT
  {
    match v
    case Vanilla => 0 case Tbc => 1 case Wotlk => 2 case Cata => 3 case Mop => 4
    case Wod => 5 case Legion => 6 case Bfa => 7 case Shadowlands => 8
  }

  lemma SmallestExists(s: set<nat>)
    requires s != {}
    ensures exists m :: m in s && forall x :: x in s ==> m <= x
  {
    var y :| y in s;
    var rest := s - {y};
    if rest != {} {
      SmallestExists(rest);
      var m :| m in rest && forall x :: x in rest ==> m <= x;
      var least := if m <= y then m else y;
      assert forall x :: x in s ==> x in rest || x == y;
      assert least in s && forall x :: x in s ==> least <= x;
    } else {
      assert s == {y};
    }
  }

  /** `*realmbuilds.begin()`: the set is ordered, so the first build is the smallest. */
  function Smallest(s: set<nat>): (m: nat)
    requires s != {}
    ensures m in s && forall x :: x in s ==> m <= x
  {
    SmallestExists(s);
    var m :| m in s && forall x :: x in s ==> m <= x;
    m
  }

  /** `first_build`, a uint16. */
  function FirstBuild(builds: set<nat>): (b: nat)
    ensures b < 0x1_0000
  {
    if builds == {} then 0 else Smallest(builds) % 0x1_0000
  }

  /** The version list a realm with these builds is put on, if any. */
  function Home(builds: set<nat>): Option<RealmVersion> {
    if FirstBuild(builds) == 0 then None else Some(BelongsToVersion(Smallest(builds)))
  }

  function InfoFor(builds: set<nat>): BuildInfo {
    var first := FirstBuild(builds);
    match FindBuildInfo(first)
    case Some(info) => if first != 0 then info else BuildInfo(first, 0, 0, 0, ' ')
    case None => BuildInfo(first, 0, 0, 0, ' ')
  }

  // ----- what the rebuilt snapshot is, for every sequence of rows -----

  function BuildSet(builds: seq<nat>): set<nat> { set b | b in builds }

  /** Rows that share a name share a realm, whose builds only accumulate. */
  function Accumulated(rows: seq<Row>, name: Bytes): set<nat> {
    if rows == [] then {}
    else
      var last := rows[|rows| - 1];
      Accumulated(rows[..|rows| - 1], name) + (if last.name == name then BuildSet(last.builds) else {})
  }

  function RealmOf(rows: seq<Row>, name: Bytes): Option<Realm> {
    if rows == [] then None
    else
      var last := rows[|rows| - 1];
      if last.name == name then
        var builds := Accumulated(rows, name);
        Some(Realm(last.id, name, last.icon, AllowedFlags(last.flags), last.timezone,
                   ClampSecurity(last.security), last.population, builds, InfoFor(builds)))
      else RealmOf(rows[..|rows| - 1], name)
  }

  /** How builds decide the list of a realm; the lists below only depend on this choice,
      which is `Home` in the snapshot. */
  type Homing = set<nat> -> Option<RealmVersion>

  predicate Listed(home: Homing, rows: seq<Row>, i: nat)
    requires i < |rows|
  {
    home(Accumulated(rows[..i + 1], rows[i].name)).Some?
  }

  /** The list of one version: the rows it is home to, in row order. */
  function VersionList(home: Homing, rows: seq<Row>, v: RealmVersion): seq<Bytes> {
    if rows == [] then []
    else
      var last := rows[|rows| - 1];
      VersionList(home, rows[..|rows| - 1], v)
      + (if home(Accumulated(rows, last.name)) == Some(v) then [last.name] else [])
  }

  // ----- the rebuild itself -----

  /** The loop over the tokens of the build column. */
  method InsertBuilds(known: set<nat>, column: seq<nat>) returns (builds: set<nat>)
    ensures builds == known + BuildSet(column)
  {
    builds := known;
    var i := 0;
    while i < |column|
      invariant 0 <= i <= |column|
      invariant builds == known + BuildSet(column[..i])
    {
      builds := builds + {column[i]};
      assert column[..i + 1] == column[..i] + [column[i]];
      i := i + 1;
    }
    assert column[..i] == column;
  }

  class RealmSnapshot {
    var realms: map<Bytes, Realm>
    var realmsByVersion: seq<seq<Bytes>>

    /** The snapshot is exactly the index of `rows`. */
    ghost predicate Indexes(rows: seq<Row>)
      reads this
    {
      && |realmsByVersion| == VERSION_COUNT
      && (forall name :: name in realms <==> RealmOf(rows, name).Some?)
      && (forall name :: name in realms ==> Some(realms[name]) == RealmOf(rows, name))
      && (forall v :: realmsByVersion[VersionIndex(v)] == VersionList(Home, rows, v))
    }

    constructor ()
      ensures Indexes([])
    {
      realms := map[];
      realmsByVersion := seq(VERSION_COUNT, _ => []);
    }

    method AddRealmToBuildList(name: Bytes, builds: set<nat>)
      requires builds != {} && |realmsByVersion| == VERSION_COUNT
      modifies this`realmsByVersion
      ensures |realmsByVersion| == VERSION_COUNT
      ensures forall v :: realmsByVersion[VersionIndex(v)] == old(realmsByVersion)[VersionIndex(v)]
                          + (if v == BelongsToVersion(Smallest(builds)) then [name] else [])
    {
      var i := VersionIndex(BelongsToVersion(Smallest(builds)));
      realmsByVersion := realmsByVersion[i := realmsByVersion[i] + [name]];
    }

    /** Creates the realm of the row, or updates it in place when the name is known. */
    method UpdateRealm(ghost done: seq<Row>, row: Row)
      requires Indexes(done)
      modifies this
      ensures Indexes(done + [row])
    {
      ghost var all := done + [row];
      assert all[..|all| - 1] == done;
      var known := if row.name in realms then realms[row.name].builds else {};
      BuildsSoFar(done, row.name);
      var builds := InsertBuilds(known, row.builds);
      assert builds == Accumulated(all, row.name);
      if FirstBuild(builds) != 0 {
        AddRealmToBuildList(row.name, builds);
      }
      realms := realms[row.name := Realm(row.id, row.name, row.icon, AllowedFlags(row.flags), row.timezone,
                                         ClampSecurity(row.security), row.population, builds, InfoFor(builds))];
    }
  }

  lemma {:induction false} BuildsSoFar(rows: seq<Row>, name: Bytes)
    ensures match RealmOf(rows, name)
            case Some(r) => r.builds == Accumulated(rows, name)
            case None => Accumulated(rows, name) == {}
  {
    if rows != [] { BuildsSoFar(rows[..|rows| - 1], name); }
  }

  /** The builds of a realm are those of all the rows with its name. */
  lemma {:induction false} AccumulatedIff(rows: seq<Row>, name: Bytes, b: nat)
    ensures b in Accumulated(rows, name)
       <==> exists i :: 0 <= i < |rows| && rows[i].name == name && b in rows[i].builds
  {
    if rows != [] {
      var n := |rows| - 1;
      var front := rows[..n];
      AccumulatedIff(front, name, b);
      if b in Accumulated(front, name) {
        var i :| 0 <= i < n && front[i].name == name && b in front[i].builds;
        assert rows[i].name == name && b in rows[i].builds;
      }
      if i :| 0 <= i < |rows| && rows[i].name == name && b in rows[i].builds {
        if i < n { assert front[i].name == name && b in front[i].builds; }
      }
    }
  }

  /** Everything else of a realm is that of the last row with its name. */
  lemma {:induction false} RealmOfLast(rows: seq<Row>, i: nat)
    requires i < |rows| && forall j :: i < j < |rows| ==> rows[j].name != rows[i].name
    ensures var r, row := RealmOf(rows, rows[i].name), rows[i];
            && r.Some? && r.value.id == row.id && r.value.name == row.name && r.value.icon == row.icon
            && r.value.flags == AllowedFlags(row.flags) && r.value.timezone == row.timezone
            && r.value.security == (if row.security < 3 then row.security else 3)
            && r.value.population == row.population
            && r.value.builds == Accumulated(rows, row.name)
    decreases |rows|
  {
    if i < |rows| - 1 { RealmOfLast(rows[..|rows| - 1], i); }
  }

  /** `BuildSnapshot`: whatever the rows, the new snapshot is their index. */
  method BuildSnapshot(rows: seq<Row>) returns (s: RealmSnapshot)
    ensures fresh(s) && s.Indexes(rows)
  {
    s := new RealmSnapshot();
    var i := 0;
    while i < |rows|
      invariant 0 <= i <= |rows|
      invariant fresh(s) && s.Indexes(rows[..i])
    {
      s.UpdateRealm(rows[..i], rows[i]);
      assert rows[..i + 1] == rows[..i] + [rows[i]];
      i := i + 1;
    }
    assert rows[..i] == rows;
  }

  // ----- the index against a plain filter -----

  predicate DistinctNames(rows: seq<Row>) {
    forall i, j :: 0 <= i < j < |rows| ==> rows[i].name != rows[j].name
  }

  /** The names of the rows a test keeps, in row order. */
  function Select(rows: seq<Row>, keep: Row -> bool): seq<Bytes> {
    if rows == [] then [] else (if keep(rows[0]) then [rows[0].name] else []) + Select(rows[1..], keep)
  }

  /** The simple reading: each row on its own, kept when its smallest build belongs to `v`
      and its low 16 bits are not zero. */
  function Belongs(v: RealmVersion): Row -> bool {
    (row: Row) => Home(BuildSet(row.builds)) == Some(v)
  }

  lemma {:induction false} SelectSnoc(rows: seq<Row>, row: Row, keep: Row -> bool)
    ensures Select(rows + [row], keep) == Select(rows, keep) + (if keep(row) then [row.name] else [])
  {
    if rows == [] {
      assert (rows + [row])[1..] == [];
    } else {
      assert (rows + [row])[1..] == rows[1..] + [row];
      SelectSnoc(rows[1..], row, keep);
    }
  }

  lemma {:induction false} AccumulatedUnseen(rows: seq<Row>, name: Bytes)
    requires forall i :: 0 <= i < |rows| ==> rows[i].name != name
    ensures Accumulated(rows, name) == {}
  {
    if rows != [] { AccumulatedUnseen(rows[..|rows| - 1], name); }
  }

  /** With distinct names the index is the filter, in row order. */
  lemma {:induction false} IndexIsFilter(rows: seq<Row>, v: RealmVersion)
    requires DistinctNames(rows)
    ensures VersionList(Home, rows, v) == Select(rows, Belongs(v))
  {
    if rows != [] {
      var front, last := rows[..|rows| - 1], rows[|rows| - 1];
      IndexIsFilter(front, v);
      SelectSnoc(front, last, Belongs(v));
      assert rows == front + [last];
      OwnBuilds(rows);
    }
  }

  /** The last of distinct names has accumulated nothing but its own builds. */
  lemma OwnBuilds(rows: seq<Row>)
    requires rows != [] && DistinctNames(rows)
    ensures Accumulated(rows, rows[|rows| - 1].name) == BuildSet(rows[|rows| - 1].builds)
  {
    AccumulatedUnseen(rows[..|rows| - 1], rows[|rows| - 1].name);
  }

  /** Entries of the lists are keys of the same snapshot, put there by a listed row. */
  lemma {:induction false} ListedRowOf(home: Homing, rows: seq<Row>, v: RealmVersion, name: Bytes) returns (i: nat)
    requires name in VersionList(home, rows, v)
    ensures i < |rows| && rows[i].name == name && Listed(home, rows, i) && RealmOf(rows, name).Some?
  {
    var front, last := rows[..|rows| - 1], rows[|rows| - 1];
    if home(Accumulated(rows, last.name)) == Some(v) && last.name == name {
      i := |rows| - 1;
      assert rows[..i + 1] == rows;
    } else {
      i := ListedRowOf(home, front, v, name);
      assert front[..i + 1] == rows[..i + 1];
    }
  }

  lemma {:induction false} ListedIsInAList(home: Homing, rows: seq<Row>, i: nat) returns (v: RealmVersion)
    requires i < |rows| && Listed(home, rows, i)
    ensures rows[i].name in VersionList(home, rows, v)
  {
    var front := rows[..|rows| - 1];
    if i == |rows| - 1 {
      assert rows[..i + 1] == rows;
      v := home(Accumulated(rows, rows[i].name)).value;
    } else {
      assert front[..i + 1] == rows[..i + 1];
      v := ListedIsInAList(home, front, i);
    }
  }

  /** Every realm is on at most one list, once. */
  ghost predicate EachRealmOnce(home: Homing, rows: seq<Row>) {
    forall v, w, i, j | 0 <= i < |VersionList(home, rows, v)| && 0 <= j < |VersionList(home, rows, w)| ::
      VersionList(home, rows, v)[i] == VersionList(home, rows, w)[j] ==> v == w && i == j
  }

  /** No name has two rows that are both listed. */
  ghost predicate NoNameListedTwice(home: Homing, rows: seq<Row>) {
    forall i, j :: 0 <= i < j < |rows| && rows[i].name == rows[j].name ==>
      !(Listed(home, rows, i) && Listed(home, rows, j))
  }

  /** Each realm appears once exactly when no repeated name is listed twice. */
  lemma {:induction false} EachRealmOnceIff(home: Homing, rows: seq<Row>)
    ensures EachRealmOnce(home, rows) <==> NoNameListedTwice(home, rows)
  {
    if rows != [] {
      var front, last := rows[..|rows| - 1], rows[|rows| - 1];
      EachRealmOnceIff(home, front);
      PrefixListed(home, rows);
      if EachRealmOnce(home, rows) { OnceStep(home, rows); }
      if NoNameListedTwice(home, rows) { TwiceStep(home, rows); }
    }
  }

  lemma PrefixListed(home: Homing, rows: seq<Row>)
    requires rows != []
    ensures forall i :: 0 <= i < |rows| - 1 ==> (Listed(home, rows, i) <==> Listed(home, rows[..|rows| - 1], i))
  {
    var front := rows[..|rows| - 1];
    forall i | 0 <= i < |front| ensures Listed(home, rows, i) <==> Listed(home, front, i) {
      assert front[..i + 1] == rows[..i + 1];
    }
  }

  /** Two listed rows with one name show up at two places of the lists. */
  lemma ListedTwicePlaces(home: Homing, rows: seq<Row>, i: nat)
    returns (v: RealmVersion, k: nat, w: RealmVersion, m: nat)
    requires rows != [] && i < |rows| - 1 && rows[i].name == rows[|rows| - 1].name
    requires Listed(home, rows[..|rows| - 1], i) && Listed(home, rows, |rows| - 1)
    ensures k < |VersionList(home, rows, v)| && m < |VersionList(home, rows, w)| && (v != w || k != m)
    ensures VersionList(home, rows, v)[k] == VersionList(home, rows, w)[m]
  {
    var n := |rows| - 1;
    var front, name := rows[..n], rows[n].name;
    v := ListedIsInAList(home, front, i);
    k :| 0 <= k < |VersionList(home, front, v)| && VersionList(home, front, v)[k] == name;
    assert rows[..n + 1] == rows;
    w := home(Accumulated(rows, name)).value;
    m := |VersionList(home, front, w)|;
  }

  lemma OnceStep(home: Homing, rows: seq<Row>)
    requires rows != [] && EachRealmOnce(home, rows)
    requires EachRealmOnce(home, rows[..|rows| - 1]) <==> NoNameListedTwice(home, rows[..|rows| - 1])
    ensures NoNameListedTwice(home, rows)
  {
    var n := |rows| - 1;
    var front, last := rows[..n], rows[n];
    PrefixListed(home, rows);
    forall v, i | 0 <= i < |VersionList(home, front, v)|
      ensures i < |VersionList(home, rows, v)| && VersionList(home, rows, v)[i] == VersionList(home, front, v)[i]
    {
    }
    assert EachRealmOnce(home, front);
    forall i | 0 <= i < n && rows[i].name == last.name && Listed(home, rows, i)
      ensures !Listed(home, rows, n)
    {
      if Listed(home, rows, n) {
        var v, k, w, m := ListedTwicePlaces(home, rows, i);
      }
    }
  }

  lemma TwiceStep(home: Homing, rows: seq<Row>)
    requires rows != [] && NoNameListedTwice(home, rows)
    requires EachRealmOnce(home, rows[..|rows| - 1]) <==> NoNameListedTwice(home, rows[..|rows| - 1])
    ensures EachRealmOnce(home, rows)
  {
    var n := |rows| - 1;
    var front, last := rows[..n], rows[n];
    PrefixListed(home, rows);
    assert NoNameListedTwice(home, front) by {
      forall i, j | 0 <= i < j < |front| && front[i].name == front[j].name
        ensures !(Listed(home, front, i) && Listed(home, front, j))
      {
        assert rows[i].name == rows[j].name;
      }
    }
    assert rows[..n + 1] == rows;
    forall v | last.name in VersionList(home, front, v)
      ensures !Listed(home, rows, n)
    {
      var i := ListedRowOf(home, front, v, last.name);
      assert Listed(home, rows, i);
    }
  }

  lemma DistinctNamesListedOnce(rows: seq<Row>)
    requires DistinctNames(rows)
    ensures EachRealmOnce(Home, rows)
  {
    EachRealmOnceIff(Home, rows);
  }

  /** A row repeated under its name puts the realm on its list twice. */
  lemma RepeatedNameListedTwice(row: Row, v: RealmVersion)
    requires Home(BuildSet(row.builds)) == Some(v)
    ensures VersionList(Home, [row, row], v) == [row.name, row.name] && !EachRealmOnce(Home, [row, row])
  {
    var rows := [row, row];
    assert rows[..1] == [row] && [row][..0] == [];
    assert Accumulated([row], row.name) == BuildSet(row.builds);
    assert Accumulated(rows, row.name) == BuildSet(row.builds);
    assert VersionList(Home, [row], v) == [row.name];
    assert VersionList(Home, rows, v)[0] == VersionList(Home, rows, v)[1];
  }

  /** Wherever in the column the smallest build stands, it decides. */
  lemma SmallestBuildDecides(builds: seq<nat>, i: nat)
    requires i < |builds| && forall j :: 0 <= j < |builds| ==> builds[i] <= builds[j]
    ensures Home(BuildSet(builds))
         == if builds[i] % 0x1_0000 == 0 then None else Some(BelongsToVersion(builds[i]))
  {
    assert builds[i] in BuildSet(builds);
    var m := Smallest(BuildSet(builds));
    assert m in builds;
    assert m == builds[i];
  }

  /** RealmList.h says that the first build in the column decides. It does exactly when the
      smallest one can be listed and belongs to the same version. */
  lemma FirstBuildDecidesIff(builds: seq<nat>)
    requires builds != []
    ensures BuildSet(builds) != {}
    ensures var m := Smallest(BuildSet(builds));
            Home(BuildSet(builds)) == Some(BelongsToVersion(builds[0]))
            <==> m % 0x1_0000 != 0 && BelongsToVersion(m) == BelongsToVersion(builds[0])
  {
    assert builds[0] in BuildSet(builds);
  }

  /** A realm tagged with two supported builds, the larger first, belongs to the second one:
      the documented rule fails for all of these with different versions. */
  lemma LargerFirstBelongsToSecond(i: nat, j: nat, builds: seq<nat>)
    requires i < j < |SUPPORTED_CLIENT_BUILDS|
    requires builds == [SUPPORTED_CLIENT_BUILDS[i].info.build, SUPPORTED_CLIENT_BUILDS[j].info.build]
    ensures BelongsToVersion(builds[0]) == SUPPORTED_CLIENT_BUILDS[i].version
    ensures Home(BuildSet(builds)) == Some(SUPPORTED_CLIENT_BUILDS[j].version)
  {
    TableIsListable(i, j);
    SupportedBuild(i);
    SupportedBuild(j);
    SmallerSecondDecides(builds);
  }

  lemma SmallerSecondDecides(builds: seq<nat>)
    requires |builds| == 2 && builds[1] < builds[0] && builds[1] % 0x1_0000 != 0
    ensures Home(BuildSet(builds)) == Some(BelongsToVersion(builds[1]))
  {
    SmallestBuildDecides(builds, 1);
  }

  lemma TableIsListable(i: nat, j: nat)
    requires i < j < |SUPPORTED_CLIENT_BUILDS|
    ensures SUPPORTED_CLIENT_BUILDS[j].info.build < SUPPORTED_CLIENT_BUILDS[i].info.build
    ensures SUPPORTED_CLIENT_BUILDS[j].info.build % 0x1_0000 != 0
  {
  }

  lemma ExampleEntries()
    ensures var tbc, vanilla := SUPPORTED_CLIENT_BUILDS[8], SUPPORTED_CLIENT_BUILDS[9];
            && tbc.info.build == 8606 && tbc.version == Tbc
            && vanilla.info.build == 6141 && vanilla.version == Vanilla
  {
  }

  /** Its own example, "8606 6141", is of this kind: meant for TBC, it is a vanilla realm. */
  lemma DocumentedExample(builds: seq<nat>)
    requires builds == [8606, 6141]
    ensures BelongsToVersion(builds[0]) == Tbc && Home(BuildSet(builds)) == Some(Vanilla)
  {
    ExampleEntries();
    LargerFirstBelongsToSecond(8, 9, builds);
  }

  /** `GetRealmsForBuild`: a realm is visible to a client exactly when both builds belong to
      one version. */
  lemma {:induction false} VisibleIff(rows: seq<Row>, k: nat, build: nat)
    requires DistinctNames(rows) && k < |rows|
    ensures rows[k].name in VersionList(Home, rows, BelongsToVersion(build))
       <==> Home(BuildSet(rows[k].builds)) == Some(BelongsToVersion(build))
  {
    var n := |rows| - 1;
    var front, last := rows[..n], rows[n];
    var v := BelongsToVersion(build);
    OwnBuilds(rows);
    if k == n {
      if last.name in VersionList(Home, front, v) {
        var i := ListedRowOf(Home, front, v, last.name);
        assert false;
      }
    } else {
      VisibleIff(front, k, build);
    }
  }
}
