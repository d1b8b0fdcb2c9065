/** Many sockets: the process-wide counters over every interleaving of creation, atomic socket
    steps and destruction, and the sweep that closes overdue sockets. */
module AuthServerModel {
  import opened Guard
  import opened AuthSession
  import opened AuthStream
  import opened AuthRuns
  import opened AuthSocketClass
  import Deadlines

  // ----- counters -----

  /** The live sockets, `s_connections` and `s_authed`. */
  datatype World = World(live: map<nat, Stream>, connections: int, authed: int)

  datatype Action = Create(id: nat, now: int, timeout: int) | Act(id: nat, input: Input) | Destroy(id: nat)

  /** Constructor and destructor adjust the counters; a socket step passes on what its handler
      added to `s_authed`. Socket `id` lives in its own environment. */
  function WorldStep(envs: nat -> Env, w: World, a: Action): World {
    match a
    case Create(id, now, timeout) =>
      if id in w.live then w else World(w.live[id := NewStream(now, timeout)], w.connections + 1, w.authed)
    case Act(id, input) =>
      if id !in w.live then w
      else
        var st := Step(envs(id), w.live[id], input);
        World(w.live[id := st], w.connections, w.authed + (st.core.counted - w.live[id].core.counted))
    case Destroy(id) =>
      if id !in w.live then w
      else World(w.live - {id}, w.connections - 1,
                 if w.live[id].core.session.status == Authenticated then w.authed - 1 else w.authed)
  }

  function WorldRun(envs: nat -> Env, actions: seq<Action>): World
    decreases |actions|
  {
    if actions == [] then World(map[], 0, 0)
    else WorldStep(envs, WorldRun(envs, actions[..|actions| - 1]), actions[|actions| - 1])
  }

  /** The keys whose value satisfies `p`. */
  function Selected<T>(live: map<nat, T>, p: T -> bool): set<nat> {
    set id | id in live && p(live[id])
  }

  function One(b: bool): nat { if b then 1 else 0 }

  lemma Toggled(s: set<nat>, t: set<nat>, id: nat)
    requires s - {id} == t - {id}
    ensures |t| == |s| - One(id in s) + One(id in t)
  {
    var rest := s - {id};
    assert s == if id in s then rest + {id} else rest;
    assert t == if id in t then rest + {id} else rest;
  }

  function IsAuthed(): Stream -> bool { (st: Stream) => st.core.session.status == Authenticated }

  /** The live sockets in AUTHED. */
  function AuthedIds(live: map<nat, Stream>): set<nat> { Selected(live, IsAuthed()) }

  predicate Counted(st: Stream) { st.core.counted == One(IsAuthed()(st)) }

  ghost predicate Each<T(!new)>(live: map<nat, T>, good: (nat, T) -> bool) {
    forall id :: id in live ==> good(id, live[id])
  }

  /** Every socket is `good`, one counter counts the sockets, the other those that satisfy `p`. */
  ghost predicate Tally<T(!new)>(good: (nat, T) -> bool, p: T -> bool, live: map<nat, T>, all: int, chosen: int) {
    Each(live, good) && all == |live| && chosen == |Selected(live, p)|
  }

  lemma UpdateKeepsTally<T(!new)>(good: (nat, T) -> bool, p: T -> bool, live: map<nat, T>, all: int, chosen: int,
                           id: nat, x: T)
    requires Tally(good, p, live, all, chosen) && good(id, x)
    ensures Tally(good, p, live[id := x], all + One(id !in live),
                  chosen + One(p(x)) - One(id in live && p(live[id])))
  {
    Toggled(live.Keys, live[id := x].Keys, id);
    Toggled(Selected(live, p), Selected(live[id := x], p), id);
  }

  lemma RemovalKeepsTally<T(!new)>(good: (nat, T) -> bool, p: T -> bool, live: map<nat, T>, all: int, chosen: int,
                            id: nat)
    requires Tally(good, p, live, all, chosen) && id in live
    ensures Tally(good, p, live - {id}, all - 1, chosen - One(p(live[id])))
  {
    Toggled(live.Keys, (live - {id}).Keys, id);
    Toggled(Selected(live, p), Selected(live - {id}, p), id);
  }

  /** Every live socket is in a reachable state, and the counters agree with the live sockets. */
  ghost predicate WorldInv(envs: nat -> Env, w: World) {
    Tally(Reachable(envs), IsAuthed(), w.live, w.connections, w.authed)
  }

  ghost function Reachable(envs: nat -> Env): (nat, Stream) -> bool {
    (id: nat, st: Stream) => Inv(ClaimsOf(envs(id)), st.core) && Counted(st)
  }

  lemma NewIsReachable(envs: nat -> Env, id: nat, now: int, timeout: int)
    ensures Reachable(envs)(id, NewStream(now, timeout)) && !IsAuthed()(NewStream(now, timeout))
  {
    RunKeeps(envs(id), now, timeout, []);
  }

  lemma StepIsReachable(envs: nat -> Env, id: nat, st: Stream, input: Input)
    requires Reachable(envs)(id, st)
    ensures Reachable(envs)(id, Step(envs(id), st, input))
  {
    StepKeeps(envs(id), st, input);
  }

  lemma ActKeepsTally(good: (nat, Stream) -> bool, w: World, id: nat, st: Stream)
    requires Tally(good, IsAuthed(), w.live, w.connections, w.authed)
    requires id in w.live && good(id, st) && Counted(st) && Counted(w.live[id])
    ensures Tally(good, IsAuthed(), w.live[id := st], w.connections,
                  w.authed + (st.core.counted - w.live[id].core.counted))
  {
    UpdateKeepsTally(good, IsAuthed(), w.live, w.connections, w.authed, id, st);
  }

  lemma ActKeeps(envs: nat -> Env, w: World, id: nat, input: Input)
    requires WorldInv(envs, w) && id in w.live
    ensures WorldInv(envs, WorldStep(envs, w, Act(id, input)))
  {
    assert Reachable(envs)(id, w.live[id]);
    StepIsReachable(envs, id, w.live[id], input);
    ActKeepsTally(Reachable(envs), w, id, Step(envs(id), w.live[id], input));
  }

  lemma CreateKeeps(envs: nat -> Env, w: World, id: nat, now: int, timeout: int)
    requires WorldInv(envs, w) && id !in w.live
    ensures WorldInv(envs, WorldStep(envs, w, Create(id, now, timeout)))
  {
    NewIsReachable(envs, id, now, timeout);
    UpdateKeepsTally(Reachable(envs), IsAuthed(), w.live, w.connections, w.authed, id, NewStream(now, timeout));
  }

  lemma DestroyKeepsTally(good: (nat, Stream) -> bool, w: World, id: nat)
    requires Tally(good, IsAuthed(), w.live, w.connections, w.authed) && id in w.live
    ensures Tally(good, IsAuthed(), w.live - {id}, w.connections - 1,
                  if w.live[id].core.session.status == Authenticated then w.authed - 1 else w.authed)
  {
    RemovalKeepsTally(good, IsAuthed(), w.live, w.connections, w.authed, id);
  }

  lemma DestroyKeeps(envs: nat -> Env, w: World, id: nat)
    requires WorldInv(envs, w) && id in w.live
    ensures WorldInv(envs, WorldStep(envs, w, Destroy(id)))
  {
    var d := WorldStep(envs, w, Destroy(id));
    assert d.live == w.live - {id} && d.connections == w.connections - 1;
    assert d.authed == if w.live[id].core.session.status == Authenticated then w.authed - 1 else w.authed;
    DestroyKeepsTally(Reachable(envs), w, id);
  }

  lemma WorldStepKeeps(envs: nat -> Env, w: World, a: Action)
    requires WorldInv(envs, w)
    ensures WorldInv(envs, WorldStep(envs, w, a))
  {
    match a
    case Create(id, now, timeout) => if id !in w.live { CreateKeeps(envs, w, id, now, timeout); }
    case Act(id, input) => if id in w.live { ActKeeps(envs, w, id, input); }
    case Destroy(id) => if id in w.live { DestroyKeeps(envs, w, id); }
  }

  /** In every run of the server the connection counter is the number of live sockets and the
      authenticated counter the number of them in AUTHED; neither underflows. */
  lemma {:induction false} CountersAgree(envs: nat -> Env, actions: seq<Action>)
    ensures var w := WorldRun(envs, actions);
            && WorldInv(envs, w)
            && w.connections == |w.live| && w.authed == |AuthedIds(w.live)| && 0 <= w.authed <= w.connections
    decreases |actions|
  {
    if actions != [] {
      CountersAgree(envs, actions[..|actions| - 1]);
      WorldStepKeeps(envs, WorldRun(envs, actions[..|actions| - 1]), actions[|actions| - 1]);
    }
    var w := WorldRun(envs, actions);
    SubsetCount(AuthedIds(w.live), w.live.Keys);
  }

  lemma {:induction false} SubsetCount(a: set<nat>, b: set<nat>)
    requires a <= b
    ensures |a| <= |b|
  {
    if a != {} {
      var x :| x in a;
      SubsetCount(a - {x}, b - {x});
    }
  }

  // ----- the sweep -----

  /** The sockets still alive, in order. */
  function KeepAlive(sockets: seq<AuthSocket>, alive: set<AuthSocket>): seq<AuthSocket> {
    if sockets == [] then []
    else KeepAlive(sockets[..|sockets| - 1], alive)
         + (if sockets[|sockets| - 1] in alive then [sockets[|sockets| - 1]] else [])
  }

  predicate Distinct(sockets: seq<AuthSocket>) {
    forall i, j :: 0 <= i < j < |sockets| ==> sockets[i] != sockets[j]
  }

  lemma {:induction false} KeepAliveMembers(sockets: seq<AuthSocket>, alive: set<AuthSocket>)
    requires Distinct(sockets)
    ensures Distinct(KeepAlive(sockets, alive))
    ensures forall s :: s in KeepAlive(sockets, alive) <==> s in sockets && s in alive
  {
    if sockets != [] {
      var n := |sockets| - 1;
      var front, last := sockets[..n], sockets[n];
      KeepAliveMembers(front, alive);
      assert last !in front;
      assert forall s :: s in sockets <==> s in front || s == last;
    }
  }

  lemma {:induction false} KeepAliveConcat(xs: seq<AuthSocket>, ys: seq<AuthSocket>, alive: set<AuthSocket>)
    ensures KeepAlive(xs + ys, alive) == KeepAlive(xs, alive) + KeepAlive(ys, alive)
    decreases |ys|
  {
    if ys == [] {
      assert xs + ys == xs;
    } else {
      var front := ys[..|ys| - 1];
      assert (xs + ys)[..|xs + ys| - 1] == xs + front;
      KeepAliveConcat(xs, front, alive);
    }
  }

  /** Of two live sockets the one that was first stays first. */
  lemma KeepAliveOrder(sockets: seq<AuthSocket>, alive: set<AuthSocket>, i: nat, j: nat) returns (k: nat, m: nat)
    requires i < j < |sockets| && sockets[i] in alive && sockets[j] in alive
    ensures k < m < |KeepAlive(sockets, alive)|
    ensures KeepAlive(sockets, alive)[k] == sockets[i] && KeepAlive(sockets, alive)[m] == sockets[j]
  {
    k := KeptAt(sockets[..j], alive, i);
    m := |KeepAlive(sockets[..j], alive)|;
    var rest := sockets[j..];
    assert sockets == sockets[..j] + rest;
    KeepAliveConcat(sockets[..j], rest, alive);
    assert rest == [sockets[j]] + rest[1..];
    KeepAliveConcat([sockets[j]], rest[1..], alive);
    assert KeepAlive([sockets[j]], alive) == [sockets[j]] by { assert KeepAlive([], alive) == []; }
  }

  lemma KeptAt(sockets: seq<AuthSocket>, alive: set<AuthSocket>, i: nat) returns (k: nat)
    requires i < |sockets| && sockets[i] in alive
    ensures k < |KeepAlive(sockets, alive)| && KeepAlive(sockets, alive)[k] == sockets[i]
  {
    var rest := sockets[i..];
    k := |KeepAlive(sockets[..i], alive)|;
    assert sockets == sockets[..i] + rest;
    KeepAliveConcat(sockets[..i], rest, alive);
    assert rest == [sockets[i]] + rest[1..];
    KeepAliveConcat([sockets[i]], rest[1..], alive);
    assert KeepAlive([sockets[i]], alive) == [sockets[i]] by { assert KeepAlive([], alive) == []; }
  }

  /** The sweep's rule: the timeout has run out since the creation, and the socket has neither
      been authenticated nor offered a patch. */
  predicate Due(s: AuthSocket, c: Core, now: int) {
    && s.authTimeout > 0 && now >= s.created + s.authTimeout
    && c.session.status != Authenticated && c.session.status != Patch && !Deadlines.Streaming(c)
  }

  lemma ExpireIsDue(s: AuthSocket, c: Core, now: int)
    requires Deadlines.OnTime(s.created, s.authTimeout, c)
    ensures Deadlines.OnTime(s.created, s.authTimeout, Expire(c, now))
    ensures Expire(c, now).session.closed <==> c.session.closed || Due(s, c, now)
  {
    Deadlines.CloseOnTime(c, s.created, s.authTimeout);
  }

  class AuthServer {
    var sockets: seq<AuthSocket>

    constructor ()
      ensures sockets == []
    {
      sockets := [];
    }

    /** The session factory: a new socket joins the end of the list. */
    method Accept(env: Env, now: int, authTimeout: int) returns (s: AuthSocket)
      modifies this
      ensures fresh(s) && sockets == old(sockets) + [s]
      ensures s.Valid() && s.StreamView() == NewStream(now, authTimeout)
      ensures s.Timely() && s.created == now && s.authTimeout == authTimeout
    {
      s := new AuthSocket(env, now, authTimeout);
      sockets := sockets + [s];
    }

    /** Drops the entries whose socket is gone. */
    method DropDead(alive: set<AuthSocket>)
      modifies this
      ensures sockets == KeepAlive(old(sockets), alive)
    {
      ghost var all := sockets;
      ghost var k := 0;
      var i := 0;
      while i < |sockets|
        invariant 0 <= i <= |sockets| && 0 <= k <= |all|
        invariant sockets[..i] == KeepAlive(all[..k], alive) && sockets[i..] == all[k..]
        decreases |sockets| - i
      {
        assert all[..k + 1][..k] == all[..k] && sockets[i] == all[k];
        assert sockets[i..][1..] == all[k..][1..];
        if sockets[i] in alive {
          i := i + 1;
        } else {
          sockets := sockets[..i] + sockets[i + 1..];
        }
        k := k + 1;
      }
      assert all[..k] == all && sockets[..i] == sockets;
    }

    /** Keeps exactly the live sockets, in order, and closes exactly those of them that are
        overdue; dead entries are not touched. */
    method Update(alive: set<AuthSocket>, now: int)
      requires Distinct(sockets)
      modifies this, sockets
      ensures sockets == KeepAlive(old(sockets), alive) && Distinct(sockets)
      ensures forall s :: s in old(sockets) && s in alive ==> s.View() == Expire(old(s.View()), now)
      ensures forall s :: s in old(sockets) && s in alive ==>
                (s.session.closed <==> old(s.session.closed) || old(s.session.deadline.Expired(now)))
      ensures forall s :: s in old(sockets) && s in alive && old(s.Timely()) ==>
                s.Timely() && (s.session.closed <==> old(s.session.closed) || Due(s, old(s.View()), now))
      ensures forall s :: s in old(sockets) ==> s.readBuf == old(s.readBuf) && s.readPos == old(s.readPos)
      ensures forall s :: s in old(sockets) && s !in alive ==> unchanged(s)
    {
      ghost var all := sockets;
      DropDead(alive);
      KeepAliveMembers(all, alive);
      assert forall j :: 0 <= j < |sockets| ==> sockets[j] in all;
      ExpireAll(sockets, now);
      forall s: AuthSocket | s in all && s in alive && old(s.Timely())
        ensures s.Timely() && (s.session.closed <==> old(s.session.closed) || Due(s, old(s.View()), now))
      {
        ExpireIsDue(s, old(s.View()), now);
      }
    }

    /** The second half of the sweep, over the sockets locked by the first. */
    method ExpireAll(locked: seq<AuthSocket>, now: int)
      requires Distinct(locked)
      modifies locked
      ensures forall s :: s in locked ==> s.View() == Expire(old(s.View()), now)
      ensures forall s :: s in locked ==> s.readBuf == old(s.readBuf) && s.readPos == old(s.readPos)
    {
      var i := 0;
      while i < |locked|
        modifies locked
        invariant 0 <= i <= |locked|
        invariant forall j :: 0 <= j < i ==> locked[j].View() == Expire(old(locked[j].View()), now)
        invariant forall j :: i <= j < |locked| ==> locked[j].View() == old(locked[j].View())
        invariant forall j :: 0 <= j < |locked| ==> locked[j].readBuf == old(locked[j].readBuf)
        invariant forall j :: 0 <= j < |locked| ==> locked[j].readPos == old(locked[j].readPos)
      {
        var expired := locked[i].ExpireAuthentication(now);
        i := i + 1;
      }
    }
  }
}
