/** Refreshing the realm list while others read it: the published snapshot, the views that
    retain it, the try-lock gate, and every interleaving of builders and readers. */
module RealmRefresh {
  import opened Wire
  import opened BuildPolicy
  import opened RealmIndex

  // ----- the gate -----

  /** Who holds the mutex, `m_interval` and `m_nextUpdate`. */
  datatype Gate = Gate(owner: Option<nat>, interval: nat, next: int)

  /** The try-lock succeeds, refreshing is switched on and due. */
  predicate Admits(g: Gate, now: int) { g.owner.None? && g.interval != 0 && g.next <= now }

  // ----- the protocol -----

  /** A thread's rebuild of the snapshot with number `gen`, inside `Initialize` or a refresh. */
  datatype Build = Build(gen: nat, init: bool, published: bool)

  datatype View = View(gen: nat, version: RealmVersion)

  /** An admitted refresh, in the order in which the mutex was taken. */
  datatype Admission = Admission(now: int, interval: nat, epoch: nat)

  /** Snapshots are numbered in the order in which their builds start; number 0 is the empty
      one of the store's constructor. `memory[g]` holds the rows entered into snapshot g so
      far, `queried[g]` all the rows its query returned. `epoch` counts the resets. */
  datatype State = State(gate: Gate, memory: seq<seq<Row>>, queried: seq<seq<Row>>, builds: map<nat, Build>,
                         current: nat, publications: seq<nat>, views: seq<View>,
                         log: seq<Admission>, epoch: nat)

  function Start(): State { State(Gate(None, 0, 0), [[]], [[]], map[], 0, [], [], [], 0) }

  datatype Action =
    | InitStart(t: nat, rows: seq<Row>)
    | Attempt(t: nat, now: int, rows: seq<Row>)
    | EnterRow(t: nat)
    | Publish(t: nat)
    | Finish(t: nat, interval: nat, now: int)
    | Look(build: nat)

  function Begin(s: State, t: nat, init: bool, rows: seq<Row>): State {
    s.(memory := s.memory + [[]], queried := s.queried + [rows],
       builds := s.builds[t := Build(|s.memory|, init, false)])
  }

  /** One atomic step of a thread; a step the thread cannot take leaves the state alone.
      `Initialize` ends in a reset, which waits for the mutex; a refresh gives it back. */
  function Step(s: State, a: Action): State
    requires Sane(s)
  {
    match a
    case InitStart(t, rows) => if t in s.builds then s else Begin(s, t, true, rows)
    case Attempt(t, now, rows) =>
      if t in s.builds || !Admits(s.gate, now) then s
      else Begin(s, t, false, rows).(gate := Gate(Some(t), s.gate.interval, now + s.gate.interval),
                                     log := s.log + [Admission(now, s.gate.interval, s.epoch)])
    case EnterRow(t) =>
      if t !in s.builds || Complete(s, s.builds[t].gen) then s
      else
        var g := s.builds[t].gen;
        s.(memory := s.memory[g := s.memory[g] + [s.queried[g][|s.memory[g]|]]])
    case Publish(t) =>
      if t !in s.builds || s.builds[t].published || !Complete(s, s.builds[t].gen) then s
      else
        var b := s.builds[t];
        s.(current := b.gen, publications := s.publications + [b.gen], builds := s.builds[t := b.(published := true)])
    case Finish(t, interval, now) =>
      if t !in s.builds || !s.builds[t].published then s
      else if !s.builds[t].init then s.(gate := s.gate.(owner := None), builds := s.builds - {t})
      else if s.gate.owner.Some? then s
      else s.(gate := Gate(None, interval, now), builds := s.builds - {t}, epoch := s.epoch + 1)
    case Look(build) => s.(views := s.views + [View(s.current, BelongsToVersion(build))])
  }

  /** Every row of the query has been entered. */
  predicate Complete(s: State, g: nat) { g < |s.memory| == |s.queried| && s.memory[g] == s.queried[g] }

  /** Snapshots hold what has been entered of their queries, builds work on their own. */
  predicate Sane(s: State) {
    && |s.memory| == |s.queried| >= 1
    && (forall g :: 0 <= g < |s.memory| ==> s.memory[g] <= s.queried[g])
    && (forall t :: t in s.builds ==> s.builds[t].gen < |s.memory|)
  }

  /** What anyone can reach is complete. */
  predicate OnlyComplete(s: State) {
    && Complete(s, s.current)
    && (forall i :: 0 <= i < |s.views| ==> Complete(s, s.views[i].gen))
  }

  /** The mutex is held exactly by the thread that refreshes. */
  ghost predicate Locked(s: State) {
    forall t :: (t in s.builds && !s.builds[t].init) <==> s.gate.owner == Some(t)
  }

  lemma StepSane(s: State, a: Action)
    requires Sane(s)
    ensures Sane(Step(s, a))
    ensures |s.memory| <= |Step(s, a).memory|
    ensures forall g: nat :: Complete(s, g) ==> Complete(Step(s, a), g) && Step(s, a).queried[g] == s.queried[g]
  {
  }

  lemma StepComplete(s: State, a: Action)
    requires Sane(s) && OnlyComplete(s)
    ensures OnlyComplete(Step(s, a)) && s.views <= Step(s, a).views
  {
    StepSane(s, a);
  }

  lemma StepLocked(s: State, a: Action)
    requires Sane(s) && Locked(s)
    ensures Locked(Step(s, a))
  {
  }

  function Run(actions: seq<Action>): (s: State)
    ensures Sane(s)
    decreases |actions|
  {
    if actions == [] then Start()
    else
      var s := Run(actions[..|actions| - 1]);
      StepSane(s, actions[|actions| - 1]);
      Step(s, actions[|actions| - 1])
  }

  lemma {:induction false} RunKeeps(actions: seq<Action>)
    ensures var s := Run(actions); OnlyComplete(s) && Locked(s)
    decreases |actions|
  {
    if actions != [] {
      var n := |actions| - 1;
      RunKeeps(actions[..n]);
      StepComplete(Run(actions[..n]), actions[n]);
      StepLocked(Run(actions[..n]), actions[n]);
    }
  }

  // ----- views -----

  /** What iterating over a view shows. */
  function Shown(s: State, v: View): seq<Bytes>
    requires v.gen < |s.memory|
  {
    VersionList(Home, s.memory[v.gen], v.version)
  }

  /** A view shows the index of one query's rows, all of them, and its entries are realms of
      that same snapshot. */
  lemma ViewIsOneGeneration(actions: seq<Action>, i: nat)
    requires i < |Run(actions).views|
    ensures var s := Run(actions);
            && Complete(s, s.views[i].gen)
            && Shown(s, s.views[i]) == VersionList(Home, s.queried[s.views[i].gen], s.views[i].version)
            && forall name :: name in Shown(s, s.views[i]) ==> RealmOf(s.memory[s.views[i].gen], name).Some?
  {
    RunKeeps(actions);
    var s := Run(actions);
    var v := s.views[i];
    forall name | name in Shown(s, v) ensures RealmOf(s.memory[v.gen], name).Some? {
      var k := ListedRowOf(Home, s.memory[v.gen], v.version, name);
    }
  }

  /** View `i` is in both states, of the same snapshot, with the same contents. */
  predicate Retained(s: State, later: State, i: nat) {
    && i < |s.views| && i < |later.views| && later.views[i] == s.views[i]
    && s.views[i].gen < |s.memory| && s.views[i].gen < |later.memory|
    && later.memory[s.views[i].gen] == s.memory[s.views[i].gen]
    && Shown(later, later.views[i]) == Shown(s, s.views[i])
  }

  lemma StepRetains(s: State, a: Action, i: nat)
    requires Sane(s) && OnlyComplete(s) && i < |s.views|
    ensures Retained(s, Step(s, a), i)
  {
    StepSane(s, a);
    StepComplete(s, a);
    assert Complete(s, s.views[i].gen);
  }

  lemma RetainedAgain(s: State, t: State, u: State, i: nat)
    requires Retained(s, t, i) && Retained(t, u, i)
    ensures Retained(s, u, i)
  {
  }

  lemma LastOfMore(actions: seq<Action>, more: seq<Action>)
    requires more != []
    ensures actions + more == (actions + more[..|more| - 1]) + [more[|more| - 1]]
  {
  }

  lemma RunRetains(actions: seq<Action>, a: Action, i: nat)
    requires i < |Run(actions).views|
    ensures Retained(Run(actions), Run(actions), i) && Retained(Run(actions), Run(actions + [a]), i)
  {
    RunKeeps(actions);
    assert Complete(Run(actions), Run(actions).views[i].gen);
    StepRetains(Run(actions), a, i);
    RunSnoc(actions, a);
  }

  /** Whatever happens afterwards, a view goes on showing the same. */
  lemma {:induction false} ViewIsRetained(actions: seq<Action>, more: seq<Action>, i: nat)
    requires i < |Run(actions).views|
    ensures Retained(Run(actions), Run(actions + more), i)
    decreases |more|
  {
    if more == [] {
      assert actions + more == actions;
      RunRetains(actions, Look(0), i);
    } else {
      var mid, last := actions + more[..|more| - 1], more[|more| - 1];
      ViewIsRetained(actions, more[..|more| - 1], i);
      RunRetains(mid, last, i);
      LastOfMore(actions, more);
      RetainedAgain(Run(actions), Run(mid), Run(mid + [last]), i);
    }
  }

  // ----- one build at a time, published in order -----

  /** How often `Initialize` is called. */
  function Inits(actions: seq<Action>): nat {
    if actions == [] then 0
    else Inits(actions[..|actions| - 1]) + (if actions[|actions| - 1].InitStart? then 1 else 0)
  }

  predicate Ascending(xs: seq<nat>) { forall i, j :: 0 <= i < j < |xs| ==> xs[i] < xs[j] }

  /** The only build is the latest one started, and everything published or seen is older or
      that one; until the first reset the gate is shut. */
  ghost predicate Orderly(s: State, inits: nat) {
    && (forall t, u :: t in s.builds && u in s.builds ==> t == u)
    && (forall t :: t in s.builds ==>
          s.builds[t].gen == |s.memory| - 1 && (!s.builds[t].published ==> s.current < s.builds[t].gen))
    && (forall t :: t in s.builds && s.builds[t].init ==> s.gate.interval == 0)
    && (inits == 0 ==> s.gate.interval == 0 && s.builds == map[])
    && s.current < |s.memory|
    && Ascending(s.publications) && (forall i :: 0 <= i < |s.publications| ==> s.publications[i] <= s.current)
    && (forall i :: 0 <= i < |s.views| ==> s.views[i].gen <= s.current)
    && (forall i, j :: 0 <= i < j < |s.views| ==> s.views[i].gen <= s.views[j].gen)
  }

  lemma BeginOrderly(s: State, a: Action, inits: nat)
    requires Sane(s) && Locked(s) && Orderly(s, inits) && (a.InitStart? || a.Attempt?)
    requires a.InitStart? ==> inits == 0
    ensures Orderly(Step(s, a), if a.InitStart? then 1 else inits)
  {
  }

  lemma StepOrderly(s: State, a: Action, inits: nat)
    requires Sane(s) && Locked(s) && Orderly(s, inits) && !a.InitStart? && !a.Attempt?
    ensures Orderly(Step(s, a), inits)
  {
  }

  /** In every run in which `Initialize` is called once: at most one build runs, a build that
      started earlier never replaces a later one, and readers never go back in time. */
  lemma {:induction false} OneBuildAtATime(actions: seq<Action>)
    requires Inits(actions) <= 1
    ensures var s := Run(actions);
            && Orderly(s, Inits(actions)) && |s.builds| <= 1 && Ascending(s.publications)
            && forall i, j :: 0 <= i < j < |s.views| ==> s.views[i].gen <= s.views[j].gen
    decreases |actions|
  {
    if actions != [] {
      var n := |actions| - 1;
      var s := Run(actions[..n]);
      OneBuildAtATime(actions[..n]);
      RunKeeps(actions[..n]);
      if actions[n].InitStart? || actions[n].Attempt? {
        BeginOrderly(s, actions[n], Inits(actions[..n]));
      } else {
        StepOrderly(s, actions[n], Inits(actions[..n]));
      }
    }
    AtMostOneKey(Run(actions).builds);
  }

  lemma AtMostOneKey(builds: map<nat, Build>)
    requires forall t, u :: t in builds && u in builds ==> t == u
    ensures |builds| <= 1
  {
    if builds != map[] {
      var t :| t in builds;
      assert builds.Keys == {t};
    }
  }

  /** Two builds of an empty table, both inside `Initialize`, and what they have published. */
  function TwoInits(current: nat, publications: seq<nat>, first: bool, second: bool): State {
    State(Gate(None, 0, 0), [[], [], []], [[], [], []], map[0 := Build(1, true, first), 1 := Build(2, true, second)],
          current, publications, [], [], 0)
  }

  function OneInit(): State {
    State(Gate(None, 0, 0), [[], []], [[], []], map[0 := Build(1, true, false)], 0, [], [], [], 0)
  }

  lemma FirstStarts()
    ensures Step(Start(), InitStart(0, [])) == OneInit()
  {
  }

  lemma SecondStarts()
    ensures Sane(OneInit()) && Step(OneInit(), InitStart(1, [])) == TwoInits(0, [], false, false)
  {
  }

  lemma TwoStarts(none: seq<Action>, two: seq<Action>)
    requires none == [] && two == (none + [InitStart(0, [])]) + [InitStart(1, [])]
    ensures Run(two) == TwoInits(0, [], false, false) && Inits(two) == 2
  {
    RunSnoc(none, InitStart(0, []));
    FirstStarts();
    RunSnoc(none + [InitStart(0, [])], InitStart(1, []));
    SecondStarts();
  }

  lemma SecondPublishes()
    ensures Sane(TwoInits(0, [], false, false))
    ensures Step(TwoInits(0, [], false, false), Publish(1)) == TwoInits(2, [2], false, true)
  {
  }

  lemma FirstPublishes()
    ensures Sane(TwoInits(2, [2], false, true))
    ensures Step(TwoInits(2, [2], false, true), Publish(0)) == TwoInits(1, [2, 1], true, true)
  {
  }

  /** `Initialize` builds outside the gate: called twice, the older build can come last. */
  lemma SecondInitializeCanOverwrite(actions: seq<Action>)
    requires actions == [InitStart(0, [])] + [InitStart(1, [])] + [Publish(1)] + [Publish(0)]
    ensures Inits(actions) == 2 && Run(actions).publications == [2, 1] && Run(actions).current == 1
  {
    var two := [InitStart(0, [])] + [InitStart(1, [])];
    assert two == ([] + [InitStart(0, [])]) + [InitStart(1, [])];
    TwoStarts([], two);
    RunSnoc(two, Publish(1));
    SecondPublishes();
    RunSnoc(two + [Publish(1)], Publish(0));
    FirstPublishes();
  }

  /** One build at a time, published in order. */
  predicate InOrder(s: State) { |s.builds| <= 1 && Ascending(s.publications) }

  /** Order is guaranteed for exactly those programs that call `Initialize` at most once. */
  lemma InOrderIffInitializedOnce(n: nat)
    ensures (forall actions :: Inits(actions) <= n ==> InOrder(Run(actions))) <==> n <= 1
  {
    if n <= 1 {
      forall actions | Inits(actions) <= n ensures InOrder(Run(actions)) { OneBuildAtATime(actions); }
    } else {
      var actions := [InitStart(0, [])] + [InitStart(1, [])] + [Publish(1)] + [Publish(0)];
      SecondInitializeCanOverwrite(actions);
      assert Run(actions).publications[0] > Run(actions).publications[1];
    }
  }

  lemma RunSnoc(actions: seq<Action>, a: Action)
    ensures Run(actions + [a]) == Step(Run(actions), a)
    ensures Inits(actions + [a]) == Inits(actions) + (if a.InitStart? then 1 else 0)
  {
    assert (actions + [a])[..|actions|] == actions;
  }

  // ----- a refresh that is due takes place -----

  /** A free thread's attempt is admitted exactly when no one holds the mutex, refreshing is on
      and the due time has come; then its build of these rows starts and the next one is due an
      interval later. */
  lemma AttemptAdmittedIff(s: State, t: nat, now: int, rows: seq<Row>)
    requires Sane(s) && t !in s.builds
    ensures var d := Step(s, Attempt(t, now, rows));
            if s.gate.owner.None? && s.gate.interval > 0 && s.gate.next <= now
            then && d.gate == Gate(Some(t), s.gate.interval, now + s.gate.interval)
                 && t in d.builds && d.builds[t] == Build(|s.queried|, false, false)
                 && d.queried == s.queried + [rows] && d.memory == s.memory + [[]]
                 && d.log == s.log + [Admission(now, s.gate.interval, s.epoch)] && d.current == s.current
            else d == s
  {
  }

  /** A build that has rows left enters the next one of its own query, into its own snapshot ... */
  lemma RowIsEntered(s: State, t: nat)
    requires Sane(s) && t in s.builds && !Complete(s, s.builds[t].gen)
    ensures var d, g := Step(s, EnterRow(t)), s.builds[t].gen;
            && d == s.(memory := d.memory) && |d.memory| == |s.memory|
            && |d.memory[g]| == |s.memory[g]| + 1 && d.memory[g] <= s.queried[g]
            && forall h :: 0 <= h < |s.memory| && h != g ==> d.memory[h] == s.memory[h]
  {
    PrefixGrows(s.memory[s.builds[t].gen], s.queried[s.builds[t].gen]);
  }

  lemma PrefixGrows(xs: seq<Row>, ys: seq<Row>)
    requires xs <= ys && xs != ys
    ensures |xs| < |ys|
  {
  }

  /** ... and can then be published, which is what everyone sees from there on. */
  lemma CompleteIsPublished(s: State, t: nat)
    requires Sane(s) && t in s.builds && !s.builds[t].published && Complete(s, s.builds[t].gen)
    ensures var d := Step(s, Publish(t));
            d.current == s.builds[t].gen && d.memory[d.current] == s.queried[s.builds[t].gen] && d.queried == s.queried
  {
  }

  /** A thread that has published ends: a refresh gives the mutex back and changes nothing else
      of the gate; `Initialize` waits for the mutex and makes a refresh due from now on. */
  lemma PublishedFinishes(s: State, t: nat, interval: nat, now: int)
    requires Sane(s) && Locked(s) && t in s.builds && s.builds[t].published
    ensures var d := Step(s, Finish(t, interval, now));
            if !s.builds[t].init
            then d.builds == s.builds - {t} && d.gate == Gate(None, s.gate.interval, s.gate.next) && d.epoch == s.epoch
            else if s.gate.owner.Some? then d == s
            else && d.builds == s.builds - {t} && Admits(d.gate, now) == (interval > 0) && !Admits(d.gate, now - 1)
                 && d.gate.interval == interval && d.epoch == s.epoch + 1
  {
  }

  /** A reader sees what was published last, for its own version. */
  lemma ReaderSeesCurrent(s: State, build: nat)
    requires Sane(s) && OnlyComplete(s)
    ensures var d := Step(s, Look(build));
            && |d.views| == |s.views| + 1 && d.memory == s.memory
            && Shown(d, d.views[|s.views|]) == VersionList(Home, s.queried[s.current], BelongsToVersion(build))
  {
    var d := Step(s, Look(build));
    assert d.views[|s.views|] == View(s.current, BelongsToVersion(build));
  }

  // ----- refreshes are spaced out -----

  /** Within an epoch the interval is the gate's, every entry is an interval per entry since
      before the next due time, and any two are as far apart. */
  predicate Spaced(log: seq<Admission>, epoch: nat, interval: nat, next: int) {
    && (forall i :: 0 <= i < |log| ==> log[i].epoch <= epoch)
    && (forall i :: 0 <= i < |log| && log[i].epoch == epoch ==> Paid(log, i, interval, next))
    && (forall i, j :: 0 <= i < j < |log| && log[i].epoch == log[j].epoch ==> Apart(log, i, j))
  }

  predicate Paid(log: seq<Admission>, i: nat, interval: nat, next: int)
    requires i < |log|
  {
    log[i].interval == interval && log[i].now + (|log| - i) * interval <= next
  }

  predicate Apart(log: seq<Admission>, i: nat, j: nat)
    requires i < j < |log|
  {
    log[i].interval == log[j].interval && log[i].now + (j - i) * log[i].interval <= log[j].now
  }

  lemma AdmissionSpaced(log: seq<Admission>, epoch: nat, interval: nat, next: int, now: int)
    requires Spaced(log, epoch, interval, next) && next <= now
    ensures Spaced(log + [Admission(now, interval, epoch)], epoch, interval, now + interval)
  {
    var n, more := |log|, log + [Admission(now, interval, epoch)];
    forall i | 0 <= i < n && log[i].epoch == epoch
      ensures Apart(more, i, n) && Paid(more, i, interval, now + interval)
    {
      assert Paid(log, i, interval, next);
      assert (n + 1 - i) * interval == (n - i) * interval + interval;
    }
    forall i, j | 0 <= i < j < n && log[i].epoch == log[j].epoch ensures Apart(more, i, j) {
      assert Apart(log, i, j);
    }
  }

  lemma StepSpaced(s: State, a: Action)
    requires Sane(s) && Spaced(s.log, s.epoch, s.gate.interval, s.gate.next)
    ensures var d := Step(s, a); Spaced(d.log, d.epoch, d.gate.interval, d.gate.next)
  {
    if a.Attempt? && Admits(s.gate, a.now) { AdmissionSpaced(s.log, s.epoch, s.gate.interval, s.gate.next, a.now); }
  }

  /** In every run, and for clock readings in any order: of the refreshes admitted between two
      resets, the later to take the mutex reads a clock at least one interval further on for
      every admission in between. */
  lemma {:induction false} RefreshesAreSpaced(actions: seq<Action>, i: nat, j: nat)
    requires i < j < |Run(actions).log| && Run(actions).log[i].epoch == Run(actions).log[j].epoch
    ensures Apart(Run(actions).log, i, j)
  {
    RunSpaced(actions);
  }

  lemma {:induction false} RunSpaced(actions: seq<Action>)
    ensures var s := Run(actions); Spaced(s.log, s.epoch, s.gate.interval, s.gate.next)
    decreases |actions|
  {
    if actions != [] {
      var n := |actions| - 1;
      RunSpaced(actions[..n]);
      StepSpaced(Run(actions[..n]), actions[n]);
    }
  }

  // ----- the objects -----

  class RealmSnapshotStore {
    var snapshot: RealmSnapshot

    constructor ()
      ensures fresh(snapshot) && snapshot.Indexes([])
    {
      snapshot := new RealmSnapshot();
    }

    method Load() returns (s: RealmSnapshot)
      ensures s == snapshot
    {
      return snapshot;
    }

    method Publish(s: RealmSnapshot)
      modifies this
      ensures snapshot == s
    {
      snapshot := s;
    }
  }

  class RealmRefreshGate {
    var held: bool
    var interval: nat
    var nextUpdate: int

    constructor (interval: nat, nextUpdate: int)
      ensures View(0) == Gate(None, interval, nextUpdate)
    {
      held, this.interval, this.nextUpdate := false, interval, nextUpdate;
    }

    ghost function View(holder: nat): Gate
      reads this
    {
      Gate(if held then Some(holder) else None, interval, nextUpdate)
    }

    method Reset(interval: nat, nextUpdate: int)
      requires !held
      modifies this
      ensures View(0) == Gate(None, interval, nextUpdate)
    {
      this.interval, this.nextUpdate := interval, nextUpdate;
    }

    /** `RunIfDue` up to the refresh: true means the mutex is now held. */
    method Enter(now: int) returns (due: bool)
      modifies this
      ensures due == Admits(old(View(0)), now)
      ensures due <==> old(!held) && old(interval) > 0 && old(nextUpdate) <= now
      ensures View(0) == if due then Gate(Some(0), old(interval), now + old(interval)) else old(View(0))
    {
      if held || interval == 0 || nextUpdate > now { return false; }
      held := true;
      nextUpdate := now + interval;
      return true;
    }

    /** ... and its end. */
    method Leave()
      requires held
      modifies this
      ensures View(0) == old(View(0)).(owner := None)
    {
      held := false;
    }
  }

  /** A view keeps its snapshot and reads one of its lists. */
  class RealmListView {
    const snapshot: RealmSnapshot
    const version: RealmVersion

    constructor (snapshot: RealmSnapshot, version: RealmVersion)
      ensures this.snapshot == snapshot && this.version == version
    {
      this.snapshot, this.version := snapshot, version;
    }

    ghost predicate Shows(rows: seq<Row>)
      reads snapshot
    {
      snapshot.Indexes(rows)
    }

    method Names(ghost rows: seq<Row>) returns (names: seq<Bytes>)
      requires Shows(rows)
      ensures names == VersionList(Home, rows, version)
    {
      names := snapshot.realmsByVersion[VersionIndex(version)];
    }
  }

  class RealmList {
    const store: RealmSnapshotStore
    const gate: RealmRefreshGate

    constructor ()
      ensures fresh(store) && fresh(gate) && store.snapshot.Indexes([]) && gate.View(0) == Start().gate
    {
      store := new RealmSnapshotStore();
      gate := new RealmRefreshGate(0, 0);
    }

    method Initialize(rows: seq<Row>, interval: nat, now: int)
      requires !gate.held
      modifies store, gate
      ensures fresh(store.snapshot) && store.snapshot.Indexes(rows)
      ensures gate.View(0) == Gate(None, interval, now)
    {
      var s := BuildSnapshot(rows);
      store.Publish(s);
      gate.Reset(interval, now);
    }

    /** A due refresh publishes the index of the rows it finds in a new snapshot; otherwise
        nothing changes. */
    method UpdateIfNeed(now: int, rows: seq<Row>)
      modifies store, gate
      ensures if old(!gate.held) && old(gate.interval) > 0 && old(gate.nextUpdate) <= now
              then fresh(store.snapshot) && store.snapshot.Indexes(rows)
                   && gate.View(0) == Gate(None, old(gate.interval), now + old(gate.interval))
              else store.snapshot == old(store.snapshot) && gate.View(0) == old(gate.View(0))
    {
      var due := gate.Enter(now);
      if due {
        var s := BuildSnapshot(rows);
        store.Publish(s);
        gate.Leave();
      }
    }

    method GetRealmsForBuild(build: nat) returns (v: RealmListView)
      ensures fresh(v) && v.snapshot == store.snapshot && v.version == BelongsToVersion(build)
    {
      var s := store.Load();
      v := new RealmListView(s, BelongsToVersion(build));
    }

    /** A reader's view across a refresh: the old rows to the end, the new ones afterwards. */
    method ReadAcrossRefresh(build: nat, now: int, ghost rows: seq<Row>, newer: seq<Row>)
      returns (before: seq<Bytes>, after: seq<Bytes>)
      requires store.snapshot.Indexes(rows)
      modifies store, gate
      ensures before == VersionList(Home, rows, BelongsToVersion(build))
      ensures after == VersionList(Home,
                                   if old(Admits(gate.View(0), now)) then newer else rows, BelongsToVersion(build))
    {
      ghost var due := Admits(gate.View(0), now);
      var v := GetRealmsForBuild(build);
      UpdateIfNeed(now, newer);
      before := v.Names(rows);
      var w := GetRealmsForBuild(build);
      after := w.Names(if due then newer else rows);
    }
  }
}
