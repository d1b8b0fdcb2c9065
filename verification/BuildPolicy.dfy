/** The client builds realmd supports, and the version family each belongs to. */
module BuildPolicy {
  import opened Wire

  datatype RealmVersion = Vanilla | Tbc | Wotlk | Cata | Mop | Wod | Legion | Bfa | Shadowlands

  datatype BuildInfo = BuildInfo(build: nat, major: nat, minor: nat, bugfix: nat, hotfix: char)

  datatype ClientBuildPolicy = ClientBuildPolicy(info: BuildInfo, version: RealmVersion)

  const SUPPORTED_CLIENT_BUILDS: seq<ClientBuildPolicy> := [
    ClientBuildPolicy(BuildInfo(40000, 9, 0, 0, ' '), Shadowlands),
    ClientBuildPolicy(BuildInfo(35662, 8, 3, 7, ' '), Bfa),
    ClientBuildPolicy(BuildInfo(26972, 7, 3, 5, ' '), Legion),
    ClientBuildPolicy(BuildInfo(21742, 6, 2, 4, ' '), Wod),
    ClientBuildPolicy(BuildInfo(18414, 5, 4, 8, ' '), Mop),
    ClientBuildPolicy(BuildInfo(18273, 5, 4, 8, ' '), Mop),
    ClientBuildPolicy(BuildInfo(15595, 4, 3, 4, ' '), Cata),
    ClientBuildPolicy(BuildInfo(12340, 3, 3, 5, 'a'), Wotlk),
    ClientBuildPolicy(BuildInfo(8606, 2, 4, 3, ' '), Tbc),
    ClientBuildPolicy(BuildInfo(6141, 1, 12, 3, ' '), Vanilla),
    ClientBuildPolicy(BuildInfo(6005, 1, 12, 2, ' '), Vanilla),
    ClientBuildPolicy(BuildInfo(5875, 1, 12, 1, ' '), Vanilla)]

  function FindIn(table: seq<ClientBuildPolicy>, build: nat): (r: Option<ClientBuildPolicy>)
    ensures r.Some? ==> r.value in table && r.value.info.build == build
    ensures r.None? ==> forall p :: p in table ==> p.info.build != build
    decreases table, build
  {
    if table == [] then None
    else if table[0].info.build == build then Some(table[0])
    else FindIn(table[1..], build)
  }

  function FindClientBuildPolicy(build: nat): Option<ClientBuildPolicy> {
    FindIn(SUPPORTED_CLIENT_BUILDS, build)
  }

  function FindBuildInfo(build: nat): Option<BuildInfo> {
    match FindClientBuildPolicy(build)
    case Some(p) => Some(p.info)
    case None => None
  }

  predicate Supported(build: nat) { FindBuildInfo(build).Some? }

  /** `RealmList::BelongsToVersion`: unknown builds count as vanilla. */
  function BelongsToVersion(build: nat): RealmVersion {
    match FindClientBuildPolicy(build)
    case Some(p) => p.version
    case None => Vanilla
  }

  predicate Decreasing(table: seq<ClientBuildPolicy>) {
    forall i, j :: 0 <= i < j < |table| ==> table[i].info.build > table[j].info.build
  }

  lemma {:induction false} FindAt(table: seq<ClientBuildPolicy>, i: nat)
    requires Decreasing(table) && i < |table|
    ensures FindIn(table, table[i].info.build) == Some(table[i])
  {
    if i > 0 { FindAt(table[1..], i - 1); }
  }

  /** Every table entry is the one found for its own build. */
  lemma SupportedBuild(i: nat)
    requires i < |SUPPORTED_CLIENT_BUILDS|
    ensures var p := SUPPORTED_CLIENT_BUILDS[i];
            && FindClientBuildPolicy(p.info.build) == Some(p)
            && FindBuildInfo(p.info.build) == Some(p.info)
            && BelongsToVersion(p.info.build) == p.version
  {
    FindAt(SUPPORTED_CLIENT_BUILDS, i);
  }

  /** The builds after vanilla, newest first. */
  const LATER_BUILDS: set<nat> := {40000, 35662, 26972, 21742, 18414, 18273, 15595, 12340, 8606}

  const VANILLA_BUILDS: set<nat> := {6141, 6005, 5875}

  lemma TableEntry(p: ClientBuildPolicy)
    requires p in SUPPORTED_CLIENT_BUILDS
    ensures p.info.build in LATER_BUILDS + VANILLA_BUILDS
    ensures p.version == Vanilla <==> p.info.build in VANILLA_BUILDS
  {
  }

  /** Every number of the two sets is in the table. */
  lemma TableHas(build: nat) returns (i: nat)
    requires build in LATER_BUILDS + VANILLA_BUILDS
    ensures i < |SUPPORTED_CLIENT_BUILDS| && SUPPORTED_CLIENT_BUILDS[i].info.build == build
  {
    i := if build == 40000 then 0 else if build == 35662 then 1 else if build == 26972 then 2
         else if build == 21742 then 3 else if build == 18414 then 4 else if build == 18273 then 5
         else if build == 15595 then 6 else if build == 12340 then 7 else if build == 8606 then 8
         else if build == 6141 then 9 else if build == 6005 then 10 else 11;
  }

  /** What a search tells about a table that lists exactly these builds. */
  lemma FoundIff(table: seq<ClientBuildPolicy>, build: nat, later: set<nat>, vanilla: set<nat>)
    requires forall p :: p in table ==> p.info.build in later + vanilla
    requires forall p :: p in table ==> (p.version == Vanilla <==> p.info.build in vanilla)
    requires build in later + vanilla ==> exists p :: p in table && p.info.build == build
    requires later !! vanilla
    ensures var r := FindIn(table, build);
            && (r.Some? <==> build in later + vanilla)
            && (r.Some? && r.value.version != Vanilla <==> build in later)
  {
  }

  /** Exactly these twelve builds are supported, and only the later ones are not vanilla; any
      other number counts as vanilla. */
  lemma SupportedIff(build: nat)
    ensures Supported(build) <==> build in LATER_BUILDS + VANILLA_BUILDS
    ensures BelongsToVersion(build) != Vanilla <==> build in LATER_BUILDS
  {
    forall p | p in SUPPORTED_CLIENT_BUILDS
      ensures p.info.build in LATER_BUILDS + VANILLA_BUILDS
      ensures p.version == Vanilla <==> p.info.build in VANILLA_BUILDS
    {
      TableEntry(p);
    }
    TableHasSome(build);
    FoundIff(SUPPORTED_CLIENT_BUILDS, build, LATER_BUILDS, VANILLA_BUILDS);
  }

  lemma TableHasSome(build: nat)
    ensures build in LATER_BUILDS + VANILLA_BUILDS ==>
            exists p :: p in SUPPORTED_CLIENT_BUILDS && p.info.build == build
  {
    if build in LATER_BUILDS + VANILLA_BUILDS {
      var i := TableHas(build);
      assert SUPPORTED_CLIENT_BUILDS[i] in SUPPORTED_CLIENT_BUILDS;
    }
  }

  datatype PatchPolicy = PatchPolicy(enabled: bool, forced: set<nat>)

  predicate ShouldPatch(policy: PatchPolicy, build: nat, supported: bool) {
    policy.enabled && (!supported || build in policy.forced)
  }

  /** Switched off, nobody is patched; switched on, every unsupported client and of the others
      the forced ones. */
  lemma PatchDecision(policy: PatchPolicy, build: nat)
    ensures !policy.enabled ==> !ShouldPatch(policy, build, true) && !ShouldPatch(policy, build, false)
    ensures policy.enabled ==> ShouldPatch(policy, build, false)
    ensures policy.enabled ==> (ShouldPatch(policy, build, true) <==> build in policy.forced)
  {
  }
}
