/**
The registry of debug servers in adapter/servers.py: the list _connections, the connections' fields, and what each
section under _lock does to them; then all interleavings of connecting, attaching, detaching and disconnecting.
*/
module Connections {
  import opened Basics

  datatype Phase = Connecting | Registered | Refused

  /** What channel.handlers points to: the connection itself, or the Server component it is attached to. */
  datatype Target = ToConnection | ToServer(server: nat)

  datatype Conn = Conn(
    phase: Phase,
    pid: Option<int>,
    disconnected: bool,
    replaced: bool,
    server: Option<nat>,
    target: Target)

  /** `list` is _connections; connections are identified by numbers. */
  datatype Registry = Registry(list: seq<nat>, conns: map<nat, Conn>)

  const NEW_CONN := Conn(Connecting, None, false, false, None, ToConnection)

  /** Some registered connection has this PID and does not expect to be replaced. */
  predicate PidTaken(r: Registry, pid: Option<int>) {
    exists i :: 0 <= i < |r.list| && r.list[i] in r.conns && r.conns[r.list[i]].pid == pid &&
        !r.conns[r.list[i]].replaced
  }

  /** The section of Connection.__init__ that registers it. */
  function Register(r: Registry, c: nat): Registry
    requires c in r.conns
  {
    var conn := r.conns[c];
    if conn.disconnected || PidTaken(r, conn.pid) then r.(conns := r.conns[c := conn.(phase := Refused)])
    else Registry(r.list + [c], r.conns[c := conn.(phase := Registered)])
  }

  /** The section of Server.disconnect; list.remove raises if the connection is not there. */
  function Remove(r: Registry, c: nat): Registry {
    r.(list := Without(r.list, c))
  }

  /** The section of Connection.disconnect: through the server if there is one, otherwise only if registered. */
  function Disconnect(r: Registry, c: nat): Registry
    requires c in r.conns
  {
    Remove(r.(conns := r.conns[c := r.conns[c].(disconnected := true)]), c)
  }

  /** attach_to_session; ValueError, and no change, if attached already. */
  function Attach(r: Registry, c: nat, server: nat): Registry
    requires c in r.conns
  {
    if r.conns[c].server.Some? then r
    else r.(conns := r.conns[c := r.conns[c].(server := Some(server), target := ToServer(server))])
  }

  /** Server.detach_from_session */
  function Detach(r: Registry, c: nat): Registry
    requires c in r.conns
  {
    r.(conns := r.conns[c := r.conns[c].(server := None, target := ToConnection)])
  }

  /** The oldest registered connection that satisfies the predicate; one look of wait_for_connection at the list. */
  function FirstMatch(list: seq<nat>, matching: nat -> bool): (c: Option<nat>)
    ensures c.Some? ==> c.value in list && matching(c.value)
    ensures c.None? ==> forall x :: x in list ==> !matching(x)
  {
    if list == [] then None
    else if matching(list[0]) then Some(list[0])
    else
      assert list == [list[0]] + list[1..];
      FirstMatch(list[1..], matching)
  }

  // ---- The object ----

  class ServerRegistry {
    var list: seq<nat>
    var conns: map<nat, Conn>

    ghost function View(): Registry
      reads this
    {
      Registry(list, conns)
    }

    constructor ()
      ensures View() == Registry([], map[])
    {
      list, conns := [], map[];
    }

    method RegisterConnection(c: nat) returns (registered: bool)
      requires c in conns
      modifies this
      ensures View() == Register(old(View()), c)
      ensures registered == (conns[c].phase == Registered)
    {
      var conn := conns[c];
      if conn.disconnected {
        conns := conns[c := conn.(phase := Refused)];
        return false;
      }
      var i := 0;
      while i < |list|
        invariant 0 <= i <= |list| && View() == old(View())
        invariant forall j :: 0 <= j < i ==>
            !(list[j] in conns && conns[list[j]].pid == conn.pid && !conns[list[j]].replaced)
      {
        if list[i] in conns && conns[list[i]].pid == conn.pid && !conns[list[i]].replaced {
          assert PidTaken(old(View()), conn.pid);
          conns := conns[c := conn.(phase := Refused)];
          return false;
        }
        i := i + 1;
      }
      list := list + [c];
      conns := conns[c := conn.(phase := Registered)];
      return true;
    }

    /** Server.disconnect, under the lock. */
    method RemoveConnection(c: nat) returns (valueError: bool)
      modifies this
      ensures View() == Remove(old(View()), c) && valueError == (c !in old(list))
    {
      valueError := c !in list;
      list := Without(list, c);
    }

    /** Connection.disconnect */
    method DisconnectConnection(c: nat) returns (valueError: bool)
      requires c in conns
      modifies this
      ensures View() == Disconnect(old(View()), c)
      ensures valueError == (old(conns)[c].server.Some? && c !in old(list))
    {
      conns := conns[c := conns[c].(disconnected := true)];
      valueError := false;
      if conns[c].server.Some? {
        valueError := RemoveConnection(c);
      } else if c in list {
        list := Without(list, c);
      }
    }

    method AttachToSession(c: nat, server: nat) returns (valueError: bool)
      requires c in conns
      modifies this
      ensures View() == Attach(old(View()), c, server) && valueError == old(conns)[c].server.Some?
    {
      if conns[c].server.Some? {
        return true;
      }
      conns := conns[c := conns[c].(server := Some(server), target := ToServer(server))];
      return false;
    }

    method DetachFromSession(c: nat)
      requires c in conns
      modifies this
      ensures View() == Detach(old(View()), c)
    {
      conns := conns[c := conns[c].(target := ToConnection)];
      conns := conns[c := conns[c].(server := None)];
    }
  }

  // ---- Interleavings ----

  /** A channel's one disconnect callback: not run yet; its handler looked up; done. */
  datatype Callback = NotYet | Bound(target: Target) | Over

  /** `found` are the connections that some session got from wait_for_connection; `servers` maps each Server component
      ever created to its connection, `detached` holds those detached. History: when each connection was appended,
      which were removed, and how often list.remove or list.append went wrong. */
  datatype System = System(
    reg: Registry,
    callbacks: map<nat, Callback>,
    found: set<nat>,
    servers: map<nat, nat>,
    detached: set<nat>,
    appendedAt: map<nat, nat>,
    clock: nat,
    removed: set<nat>,
    misses: nat,
    repeats: nat)

  datatype Step =
    | Connect(conn: nat)
    | ReportPid(conn: nat, pid: int)
    | RegisterStep(conn: nat)
    | FindStep(conn: nat)
    | AttachStep(conn: nat, server: nat)
    | DetachStep(server: nat)
    | ReplaceStep(server: nat)
    | BindCallback(conn: nat)
    | RunCallback(conn: nat)

  function Init(): System {
    System(Registry([], map[]), map[], {}, map[], {}, map[], 0, {}, 0, 0)
  }

  predicate Enabled(s: System, step: Step) {
    match step
    case Connect(c) => c !in s.reg.conns && c !in s.callbacks
    case ReportPid(c, _) => c in s.reg.conns && s.reg.conns[c].phase.Connecting? && s.reg.conns[c].pid.None?
    case RegisterStep(c) => c in s.reg.conns && s.reg.conns[c].phase.Connecting? && s.reg.conns[c].pid.Some?
    case FindStep(c) => c in s.reg.list
    case AttachStep(c, v) => c in s.found && c in s.reg.conns && v !in s.servers
    case DetachStep(v) => v in s.servers && v !in s.detached && s.servers[v] in s.reg.conns
    case ReplaceStep(v) => v in s.servers && s.servers[v] in s.reg.conns
    case BindCallback(c) => c in s.callbacks && s.callbacks[c].NotYet? && c in s.reg.conns
    case RunCallback(c) => c in s.callbacks && s.callbacks[c].Bound? && c in s.reg.conns
  }

  function RegisterEffect(s: System, c: nat): System
    requires c in s.reg.conns
  {
    var r := Register(s.reg, c);
    if r.list == s.reg.list then s.(reg := r)
    else
      s.(reg := r, appendedAt := s.appendedAt[c := s.clock], clock := s.clock + 1,
         repeats := if c in s.appendedAt then s.repeats + 1 else s.repeats)
  }

  function AttachEffect(s: System, c: nat, v: nat): System
    requires c in s.reg.conns
  {
    if s.reg.conns[c].server.Some? then s
    else s.(reg := Attach(s.reg, c, v), servers := s.servers[v := c])
  }

  /** The callback runs: Server.disconnect of the server it was bound to, or Connection.disconnect. */
  function CallbackEffect(s: System, c: nat): System
    requires c in s.callbacks && s.callbacks[c].Bound? && c in s.reg.conns
  {
    var mustBeThere := s.callbacks[c].target.ToServer? || s.reg.conns[c].server.Some?;
    s.(reg := if s.callbacks[c].target.ToServer? then Remove(s.reg, c) else Disconnect(s.reg, c),
       callbacks := s.callbacks[c := Over],
       removed := if c in s.reg.list then s.removed + {c} else s.removed,
       misses := if mustBeThere && c !in s.reg.list then s.misses + 1 else s.misses)
  }

  function SetConn(s: System, c: nat, conn: Conn): System {
    s.(reg := s.reg.(conns := s.reg.conns[c := conn]))
  }

  function Apply(s: System, step: Step): System
    requires Enabled(s, step)
  {
    match step
    case Connect(c) => SetConn(s, c, NEW_CONN).(callbacks := s.callbacks[c := NotYet])
    case ReportPid(c, pid) => SetConn(s, c, s.reg.conns[c].(pid := Some(pid)))
    case RegisterStep(c) => RegisterEffect(s, c)
    case FindStep(c) => s.(found := s.found + {c})
    case AttachStep(c, v) => AttachEffect(s, c, v)
    case DetachStep(v) => s.(reg := Detach(s.reg, s.servers[v]), detached := s.detached + {v})
    case ReplaceStep(v) => SetConn(s, s.servers[v], s.reg.conns[s.servers[v]].(replaced := true))
    case BindCallback(c) => s.(callbacks := s.callbacks[c := Bound(s.reg.conns[c].target)])
    case RunCallback(c) => CallbackEffect(s, c)
  }

  ghost predicate Behavior(states: seq<System>, steps: seq<Step>) {
    && |states| == |steps| + 1
    && states[0] == Init()
    && forall i {:trigger steps[i]} :: 0 <= i < |steps| ==>
         Enabled(states[i], steps[i]) && states[i + 1] == Apply(states[i], steps[i])
  }

  // ---- Invariants ----

  /** The list: who is in it, in which order. */
  ghost predicate ListInv(
    list: seq<nat>, conns: map<nat, Conn>, appendedAt: map<nat, nat>, clock: nat, removed: set<nat>) {
    && (forall c :: c in list <==> c in appendedAt && c !in removed)
    && (forall c :: c in appendedAt ==>
         appendedAt[c] < clock && c in conns && conns[c].phase.Registered? && conns[c].pid.Some?)
    && (forall c :: c in conns && conns[c].phase.Registered? ==> c in appendedAt)
    && (forall c :: c in removed ==> c in appendedAt)
    && (forall i, j :: 0 <= i < j < |list| && list[i] in appendedAt && list[j] in appendedAt ==>
          appendedAt[list[i]] < appendedAt[list[j]])
  }

  /** At most one connection per process is not about to be replaced. */
  ghost predicate PidInv(list: seq<nat>, conns: map<nat, Conn>) {
    forall a, b :: a in list && b in list && a in conns && b in conns && a != b && conns[a].pid == conns[b].pid ==>
      conns[a].replaced || conns[b].replaced
  }

  /** Only connections that were registered are found or attached. */
  ghost predicate AttachInv(conns: map<nat, Conn>, found: set<nat>, servers: map<nat, nat>, appendedAt: map<nat, nat>,
                            callbacks: map<nat, Callback>) {
    && callbacks.Keys == conns.Keys
    && (forall c :: c in found ==> c in appendedAt)
    && (forall v :: v in servers ==> servers[v] in appendedAt)
    && (forall c :: c in conns && (conns[c].server.Some? || conns[c].target.ToServer?) ==> c in appendedAt)
    && (forall c :: c in callbacks && callbacks[c].Bound? && callbacks[c].target.ToServer? ==> c in appendedAt)
  }

  /** A connection is removed only by its callback. */
  ghost predicate RemovedInv(callbacks: map<nat, Callback>, removed: set<nat>) {
    forall c :: c in removed ==> c in callbacks && callbacks[c].Over?
  }

  ghost predicate Inv(s: System) {
    && ListInv(s.reg.list, s.reg.conns, s.appendedAt, s.clock, s.removed)
    && PidInv(s.reg.list, s.reg.conns)
    && AttachInv(s.reg.conns, s.found, s.servers, s.appendedAt, s.callbacks)
    && RemovedInv(s.callbacks, s.removed)
    && s.misses == 0 && s.repeats == 0
  }

  /** Fields of a connection that the list and the PIDs depend on. */
  predicate SameListing(a: Conn, b: Conn) {
    a.phase == b.phase && a.pid == b.pid && (a.replaced ==> b.replaced)
  }

  lemma {:induction false} ListChange(s: System, c: nat, conn: Conn)
    requires ListInv(s.reg.list, s.reg.conns, s.appendedAt, s.clock, s.removed) && PidInv(s.reg.list, s.reg.conns)
    requires if c in s.appendedAt then c in s.reg.conns &&
        SameListing(s.reg.conns[c], conn) else !conn.phase.Registered?
    ensures var conns := s.reg.conns[c := conn];
      ListInv(s.reg.list, conns, s.appendedAt, s.clock, s.removed) && PidInv(s.reg.list, conns)
  {
  }

  /** Changing a connection's fields other than those. */
  lemma {:induction false} ConnChange(s: System, c: nat, conn: Conn)
    requires Inv(s) && c in s.reg.conns
    requires if c in s.appendedAt then SameListing(s.reg.conns[c], conn) else !conn.phase.Registered?
    requires conn.server.Some? || conn.target.ToServer? ==> c in s.appendedAt
    ensures Inv(SetConn(s, c, conn))
  {
    ListChange(s, c, conn);
    assert s.reg.conns[c := conn].Keys == s.reg.conns.Keys;
  }

  lemma {:induction false} ConnectKeeps(s: System, c: nat)
    requires Inv(s) && c !in s.reg.conns && c !in s.callbacks
    ensures Inv(SetConn(s, c, NEW_CONN).(callbacks := s.callbacks[c := NotYet]))
  {
    assert c !in s.appendedAt;
    ListChange(s, c, NEW_CONN);
    var conns, callbacks := s.reg.conns[c := NEW_CONN], s.callbacks[c := NotYet];
    assert callbacks.Keys == conns.Keys;
    assert AttachInv(conns, s.found, s.servers, s.appendedAt, callbacks);
  }

  lemma {:induction false} AppendList(
    list: seq<nat>, conns: map<nat, Conn>, appendedAt: map<nat, nat>, clock: nat, removed: set<nat>, c: nat)
    requires ListInv(list, conns, appendedAt, clock, removed)
    requires c in conns && conns[c].phase.Connecting? && conns[c].pid.Some? && c !in removed
    ensures c !in appendedAt
    ensures ListInv(list + [c], conns[c := conns[c].(phase := Registered)], appendedAt[c := clock], clock + 1, removed)
  {
    var list', appendedAt' := list + [c], appendedAt[c := clock];
    forall i, j | 0 <= i < j < |list'| && list'[i] in appendedAt' && list'[j] in appendedAt'
      ensures appendedAt'[list'[i]] < appendedAt'[list'[j]]
    {
      assert list'[i] == list[i] && list[i] in list;
    }
  }

  lemma {:induction false} AppendPid(r: Registry, c: nat)
    requires PidInv(r.list, r.conns) && c in r.conns && !PidTaken(r, r.conns[c].pid)
    ensures PidInv(r.list + [c], r.conns[c := r.conns[c].(phase := Registered)])
  {
    forall a | a in r.list && a in r.conns && r.conns[a].pid == r.conns[c].pid ensures r.conns[a].replaced {
      var i :| 0 <= i < |r.list| && r.list[i] == a;
    }
  }

  lemma {:induction false} AppendKeeps(s: System, c: nat)
    requires Inv(s) && c in s.reg.conns && s.reg.conns[c].phase.Connecting? && s.reg.conns[c].pid.Some?
    requires !s.reg.conns[c].disconnected && !PidTaken(s.reg, s.reg.conns[c].pid)
    ensures Inv(RegisterEffect(s, c))
  {
    var r, conn := s.reg, s.reg.conns[c];
    assert c !in s.removed;
    AppendList(r.list, r.conns, s.appendedAt, s.clock, s.removed, c);
    AppendPid(r, c);
    var conns := r.conns[c := conn.(phase := Registered)];
    assert conns.Keys == r.conns.Keys;
    assert AttachInv(conns, s.found, s.servers, s.appendedAt[c := s.clock], s.callbacks);
    assert r.list + [c] != r.list;
  }

  lemma {:induction false} RegisterKeeps(s: System, c: nat)
    requires Inv(s) && c in s.reg.conns && s.reg.conns[c].phase.Connecting? && s.reg.conns[c].pid.Some?
    ensures Inv(RegisterEffect(s, c))
  {
    if s.reg.conns[c].disconnected || PidTaken(s.reg, s.reg.conns[c].pid) {
      ConnChange(s, c, s.reg.conns[c].(phase := Refused));
    } else {
      AppendKeeps(s, c);
    }
  }

  lemma {:induction false} AttachKeeps(s: System, c: nat, v: nat)
    requires Inv(s) && c in s.found && c in s.reg.conns && v !in s.servers
    ensures Inv(AttachEffect(s, c, v))
  {
    if s.reg.conns[c].server.None? {
      ConnChange(s, c, s.reg.conns[c].(server := Some(v), target := ToServer(v)));
    }
  }

  lemma {:induction false} RemoveList(
    list: seq<nat>, conns: map<nat, Conn>, appendedAt: map<nat, nat>, clock: nat, removed: set<nat>, c: nat)
    requires ListInv(list, conns, appendedAt, clock, removed) && c in list
    ensures ListInv(Without(list, c), conns, appendedAt, clock, removed + {c})
  {
    WithoutSorted(list, appendedAt, c);
  }

  ghost predicate SortedBy(list: seq<nat>, at: map<nat, nat>) {
    forall i, j :: 0 <= i < j < |list| && list[i] in at && list[j] in at ==> at[list[i]] < at[list[j]]
  }

  lemma {:induction false} HeadIsOldest(list: seq<nat>, at: map<nat, nat>)
    requires list != [] && SortedBy(list, at) && forall x :: x in list ==> x in at
    ensures SortedBy(list[1..], at) && forall x :: x in list[1..] ==> x in at && at[list[0]] < at[x]
  {
    forall x | x in list[1..] ensures x in at && at[list[0]] < at[x] {
      var k :| 0 <= k < |list[1..]| && list[1..][k] == x;
      assert list[k + 1] == x && list[0] in list;
    }
  }

  lemma {:induction false} ConsSorted(c: nat, rest: seq<nat>, at: map<nat, nat>)
    requires SortedBy(rest, at) && c in at && forall x :: x in rest ==> x in at && at[c] < at[x]
    ensures SortedBy([c] + rest, at)
  {
  }

  /** Removing one connection keeps the others in connect order. */
  lemma {:induction false} WithoutSorted(list: seq<nat>, at: map<nat, nat>, c: nat)
    requires SortedBy(list, at) && forall x :: x in list ==> x in at
    ensures SortedBy(Without(list, c), at) && c !in Without(list, c)
  {
    if list != [] {
      HeadIsOldest(list, at);
      assert list[0] in list;
      if list[0] != c {
        WithoutSorted(list[1..], at, c);
        var rest := Without(list[1..], c);
        assert forall x :: x in rest ==> x in list[1..];
        ConsSorted(list[0], rest, at);
      }
    }
  }

  lemma {:induction false} RemovePid(list: seq<nat>, conns: map<nat, Conn>, c: nat)
    requires PidInv(list, conns)
    ensures PidInv(Without(list, c), conns)
  {
    assert forall x :: x in Without(list, c) ==> x in list;
  }

  /** What Server.disconnect and Connection.disconnect leave when run by the callback. */
  lemma {:induction false} RemoveKeeps(s: System, c: nat)
    requires Inv(s) && c in s.reg.conns && c in s.callbacks && !s.callbacks[c].Over?
    ensures Inv(s.(reg := Remove(s.reg, c), callbacks := s.callbacks[c := Over],
                   removed := if c in s.reg.list then s.removed + {c} else s.removed))
  {
    if c in s.reg.list {
      RemoveList(s.reg.list, s.reg.conns, s.appendedAt, s.clock, s.removed, c);
    }
    RemovePid(s.reg.list, s.reg.conns, c);
    CallbackEnds(s, c);
  }

  lemma {:induction false} CallbackEnds(s: System, c: nat)
    requires Inv(s) && c in s.callbacks
    ensures AttachInv(s.reg.conns, s.found, s.servers, s.appendedAt, s.callbacks[c := Over])
    ensures RemovedInv(s.callbacks[c := Over], s.removed + {c})
  {
    assert s.callbacks[c := Over].Keys == s.callbacks.Keys;
  }

  /** Where list.remove is called without looking, the connection is in the list. */
  lemma {:induction false} RemoveFinds(s: System, c: nat)
    requires Inv(s) && c in s.callbacks && s.callbacks[c].Bound? && c in s.reg.conns
    requires s.callbacks[c].target.ToServer? || s.reg.conns[c].server.Some?
    ensures c in s.reg.list
  {
  }

  lemma {:induction false} CallbackKeeps(s: System, c: nat)
    requires Inv(s) && c in s.callbacks && s.callbacks[c].Bound? && c in s.reg.conns
    ensures Inv(CallbackEffect(s, c))
  {
    if s.callbacks[c].target.ToServer? || s.reg.conns[c].server.Some? {
      RemoveFinds(s, c);
    }
    if s.callbacks[c].target.ToServer? {
      RemoveKeeps(s, c);
    } else {
      var marked := SetConn(s, c, s.reg.conns[c].(disconnected := true));
      ConnChange(s, c, s.reg.conns[c].(disconnected := true));
      RemoveKeeps(marked, c);
    }
  }

  lemma {:induction false} BindKeeps(s: System, c: nat)
    requires Inv(s) && c in s.callbacks && s.callbacks[c].NotYet? && c in s.reg.conns
    ensures Inv(s.(callbacks := s.callbacks[c := Bound(s.reg.conns[c].target)]))
  {
    assert s.callbacks[c := Bound(s.reg.conns[c].target)].Keys == s.callbacks.Keys;
  }

  lemma {:induction false} StepKeeps(s: System, step: Step)
    requires Inv(s) && Enabled(s, step)
    ensures Inv(Apply(s, step))
  {
    match step
    case Connect(c) => ConnectKeeps(s, c);
    case ReportPid(c, pid) => ConnChange(s, c, s.reg.conns[c].(pid := Some(pid)));
    case RegisterStep(c) => RegisterKeeps(s, c);
    case FindStep(_) =>
    case AttachStep(c, v) => AttachKeeps(s, c, v);
    case DetachStep(v) => ConnChange(s, s.servers[v], s.reg.conns[s.servers[v]].(server := None,
        target := ToConnection));
    case ReplaceStep(v) => ConnChange(s, s.servers[v], s.reg.conns[s.servers[v]].(replaced := true));
    case BindCallback(c) => BindKeeps(s, c);
    case RunCallback(c) => CallbackKeeps(s, c);
  }

  lemma {:induction false} InvHolds(states: seq<System>, steps: seq<Step>, i: nat)
    requires Behavior(states, steps) && i < |states|
    ensures Inv(states[i])
    decreases i
  {
    if i > 0 {
      InvHolds(states, steps, i - 1);
      StepKeeps(states[i - 1], steps[i - 1]);
    }
  }

  // ---- Theorems ----

  /** In every interleaving: no two registered connections of one process are both not process_replaced; the list is in
      connect order; every connection was appended at most once and is gone for good once removed; list.remove never
      misses. */
  lemma {:induction false} ConnectionLifecycle(states: seq<System>, steps: seq<Step>, i: nat)
    requires Behavior(states, steps) && i < |states|
    ensures var s := states[i];
      && PidInv(s.reg.list, s.reg.conns)
      && SortedBy(s.reg.list, s.appendedAt)
      && (forall c :: c in s.reg.list <==> c in s.appendedAt && c !in s.removed)
      && s.repeats == 0 && s.misses == 0
  {
    InvHolds(states, steps, i);
  }

  /** The history of appends and removals only grows: a removed connection never returns. */
  lemma {:induction false} RemovedForGood(states: seq<System>, steps: seq<Step>, i: nat, j: nat)
    requires Behavior(states, steps) && i <= j < |states|
    ensures states[i].removed <= states[j].removed
    ensures forall c :: c in states[i].removed ==> c !in states[j].reg.list
    decreases j
  {
    InvHolds(states, steps, j);
    if i < j {
      RemovedForGood(states, steps, i, j - 1);
      assert Enabled(states[j - 1], steps[j - 1]) && states[j] == Apply(states[j - 1], steps[j - 1]);
    }
  }

  lemma {:induction false} FirstMatchIsFirst(list: seq<nat>, at: map<nat, nat>, matching: nat -> bool)
    requires SortedBy(list, at) && (forall x :: x in list ==> x in at) && FirstMatch(list, matching).Some?
    ensures forall x :: x in list && matching(x) ==> at[FirstMatch(list, matching).value] <= at[x]
  {
    var c := FirstMatch(list, matching).value;
    assert list == [list[0]] + list[1..];
    if matching(list[0]) {
      forall x | x in list && matching(x) ensures at[c] <= at[x] {
        var k :| 0 <= k < |list| && list[k] == x;
        assert k > 0 ==> at[list[0]] < at[list[k]];
      }
    } else {
      FirstMatchIsFirst(list[1..], at, matching);
    }
  }

  /** wait_for_connection returns the oldest of the matching connections. */
  lemma {:induction false} OldestMatch(states: seq<System>, steps: seq<Step>, i: nat, matching: nat -> bool)
    requires Behavior(states, steps) && i < |states| && FirstMatch(states[i].reg.list, matching).Some?
    ensures var s := states[i];
      var c := FirstMatch(s.reg.list, matching).value;
      c in s.appendedAt && forall x :: x in s.reg.list && matching(x) ==>
          x in s.appendedAt && s.appendedAt[c] <= s.appendedAt[x]
  {
    InvHolds(states, steps, i);
    FirstMatchIsFirst(states[i].reg.list, states[i].appendedAt, matching);
  }

  // ---- What each step does ----

  /** Some connection in the list has this PID and does not expect to be replaced. */
  ghost predicate PidInUse(s: System, pid: Option<int>) {
    exists a :: a in s.reg.list && a in s.reg.conns && s.reg.conns[a].pid == pid && !s.reg.conns[a].replaced
  }

  /** A server that reports its PID is appended to the list if and only if it has not disconnected already and no listed
      connection of that PID is to stay: a subprocess with another PID always is. Otherwise the list is the same. */
  lemma {:induction false} RegisteredExactlyWhen(states: seq<System>, steps: seq<Step>, i: nat, c: nat)
    requires Behavior(states, steps) && i < |steps| && steps[i] == RegisterStep(c)
    ensures c in states[i].reg.conns && c !in states[i].reg.list
    ensures var s, e := states[i], states[i + 1];
            && (c in e.reg.list <==> !s.reg.conns[c].disconnected && !PidInUse(s, s.reg.conns[c].pid))
            && e.reg.list == (if c in e.reg.list then s.reg.list + [c] else s.reg.list)
  {
    InvHolds(states, steps, i);
    var s := states[i];
    assert Enabled(s, steps[i]) && states[i + 1] == Apply(s, steps[i]);
    if PidInUse(s, s.reg.conns[c].pid) {
      var a :| a in s.reg.list && a in s.reg.conns
               && s.reg.conns[a].pid == s.reg.conns[c].pid && !s.reg.conns[a].replaced;
      var k :| 0 <= k < |s.reg.list| && s.reg.list[k] == a;
      assert PidTaken(s.reg, s.reg.conns[c].pid);
    }
  }

  /** A session gets a connection if and only if no other has it; the channel then speaks to the new server component,
      and nothing else changes. */
  lemma {:induction false} AttachedExactlyWhen(states: seq<System>, steps: seq<Step>, i: nat, c: nat, v: nat)
    requires Behavior(states, steps) && i < |steps| && steps[i] == AttachStep(c, v)
    ensures c in states[i].reg.conns && c in states[i + 1].reg.conns
    ensures var s, e := states[i], states[i + 1];
            && (s.reg.conns[c].server.None? <==> v in e.servers)
            && (s.reg.conns[c].server.None? ==>
                  && e.servers == s.servers[v := c]
                  && e.reg.conns[c].server == Some(v) && e.reg.conns[c].target == ToServer(v)
                  && e.reg.conns[c].pid == s.reg.conns[c].pid && e.reg.conns[c].replaced == s.reg.conns[c].replaced)
            && (s.reg.conns[c].server.Some? ==> e == s)
            && e.reg.list == s.reg.list
  {
    assert Enabled(states[i], steps[i]) && states[i + 1] == Apply(states[i], steps[i]);
  }

  /** Detaching leaves the connection as it was before attaching: without a server, listed if it was. */
  lemma {:induction false} DetachFrees(states: seq<System>, steps: seq<Step>, i: nat, v: nat)
    requires Behavior(states, steps) && i < |steps| && steps[i] == DetachStep(v)
    ensures v in states[i].servers
    ensures var s, e, c := states[i], states[i + 1], states[i].servers[v];
            && c in s.reg.conns && c in e.reg.conns
            && e.reg.conns[c].server.None? && e.reg.conns[c].target == ToConnection
            && e.reg.conns[c].pid == s.reg.conns[c].pid && e.reg.conns[c].replaced == s.reg.conns[c].replaced
            && e.reg.list == s.reg.list
  {
    assert Enabled(states[i], steps[i]) && states[i + 1] == Apply(states[i], steps[i]);
  }

  /** So a detached connection can be attached to another session at once. */
  lemma {:induction false} DetachedCanAttach(states: seq<System>, steps: seq<Step>, i: nat, v: nat, w: nat)
    requires Behavior(states, steps) && i + 1 < |steps| && steps[i] == DetachStep(v) && v in states[i].servers
    requires steps[i + 1] == AttachStep(states[i].servers[v], w)
    ensures w in states[i + 2].servers && states[i + 2].servers[w] == states[i].servers[v]
  {
    DetachFrees(states, steps, i, v);
    AttachedExactlyWhen(states, steps, i + 1, states[i].servers[v], w);
  }

  /** The other steps: a process that is about to be replaced is marked as such, a PID is recorded, a session gets what
      it found in the list. */
  lemma {:induction false} MarksExactly(states: seq<System>, steps: seq<Step>, i: nat)
    requires Behavior(states, steps) && i < |steps|
    ensures steps[i].ReplaceStep? ==>
              steps[i].server in states[i].servers
              && var c := states[i].servers[steps[i].server];
                 c in states[i + 1].reg.conns && states[i + 1].reg.conns[c].replaced
                 && states[i + 1].reg.list == states[i].reg.list
    ensures steps[i].ReportPid? ==>
              steps[i].conn in states[i + 1].reg.conns
              && states[i + 1].reg.conns[steps[i].conn].pid == Some(steps[i].pid)
    ensures steps[i].FindStep? ==> steps[i].conn in states[i].reg.list && states[i + 1].reg == states[i].reg
    ensures states[i + 1].found == states[i].found + (if steps[i].FindStep? then {steps[i].conn} else {})
  {
    assert Enabled(states[i], steps[i]) && states[i + 1] == Apply(states[i], steps[i]);
  }

  // ---- After the channel's end ----

  /** Once its callback has run, a connection is not in the list, and not about to enter it. */
  ghost predicate GoneFor(s: System, c: nat) {
    && c in s.callbacks && s.callbacks[c].Over? && c in s.reg.conns
    && c !in s.reg.list
    && (s.reg.conns[c].phase.Connecting? ==> s.reg.conns[c].disconnected)
  }

  lemma {:induction false} CallbackMakesGone(s: System, c: nat)
    requires Inv(s) && c in s.callbacks && s.callbacks[c].Bound? && c in s.reg.conns
    ensures GoneFor(CallbackEffect(s, c), c)
  {
    WithoutSortedIfListed(s, c);
  }

  lemma {:induction false} WithoutSortedIfListed(s: System, c: nat)
    requires Inv(s)
    ensures c !in Without(s.reg.list, c)
  {
    WithoutSorted(s.reg.list, s.appendedAt, c);
  }

  lemma {:induction false} GoneBegins(s: System, step: Step, c: nat)
    requires Inv(s) && Enabled(s, step) && step == RunCallback(c)
    ensures GoneFor(Apply(s, step), c)
  {
    CallbackMakesGone(s, c);
  }

  lemma {:induction false} GoneRegister(s: System, d: nat, c: nat)
    requires GoneFor(s, c) && Enabled(s, RegisterStep(d))
    ensures GoneFor(RegisterEffect(s, d), c)
  {
  }

  lemma {:induction false} GoneCallback(s: System, d: nat, c: nat)
    requires GoneFor(s, c) && Enabled(s, RunCallback(d))
    ensures GoneFor(CallbackEffect(s, d), c)
  {
    assert d != c;
  }

  lemma {:induction false} GoneAttach(s: System, d: nat, v: nat, c: nat)
    requires GoneFor(s, c) && Enabled(s, AttachStep(d, v))
    ensures GoneFor(AttachEffect(s, d, v), c)
  {
  }

  /** Changing a connection without touching what matters here. */
  lemma {:induction false} GoneSetConn(s: System, d: nat, conn: Conn, c: nat)
    requires GoneFor(s, c)
    requires d == c ==> (conn.phase.Connecting? ==> conn.disconnected)
    ensures GoneFor(SetConn(s, d, conn), c)
  {
  }

  lemma {:induction false} GoneStep(s: System, step: Step, c: nat)
    requires Enabled(s, step) && GoneFor(s, c)
    ensures GoneFor(Apply(s, step), c)
  {
    match step
    case Connect(d) => GoneSetConn(s, d, NEW_CONN, c);
    case ReportPid(d, pid) => GoneSetConn(s, d, s.reg.conns[d].(pid := Some(pid)), c);
    case RegisterStep(d) => GoneRegister(s, d, c);
    case FindStep(_) =>
    case AttachStep(d, v) => GoneAttach(s, d, v, c);
    case DetachStep(v) =>
      var d := s.servers[v];
      GoneSetConn(s, d, s.reg.conns[d].(server := None, target := ToConnection), c);
    case ReplaceStep(v) => GoneSetConn(s, s.servers[v], s.reg.conns[s.servers[v]].(replaced := true), c);
    case BindCallback(_) =>
    case RunCallback(d) => GoneCallback(s, d, c);
  }

  /** The end of a server's channel removes its connection for good: it leaves the list if it was there, and never comes
      into it if it was not, however the callback races with registration, attaching and detaching. */
  lemma {:induction false} CallbackRemovesForGood(states: seq<System>, steps: seq<Step>, i: nat, j: nat, c: nat)
    requires Behavior(states, steps) && i < j < |states| && steps[i] == RunCallback(c)
    ensures GoneFor(states[j], c)
    decreases j
  {
    if j == i + 1 {
      GoneAfterCallback(states, steps, i, c);
    } else {
      CallbackRemovesForGood(states, steps, i, j - 1, c);
      GoneNext(states, steps, j - 1, c);
    }
  }

  lemma {:induction false} GoneAfterCallback(states: seq<System>, steps: seq<Step>, i: nat, c: nat)
    requires Behavior(states, steps) && i < |steps| && steps[i] == RunCallback(c)
    ensures GoneFor(states[i + 1], c)
  {
    NextState(states, steps, i);
    GoneBegins(states[i], steps[i], c);
  }

  lemma {:induction false} GoneNext(states: seq<System>, steps: seq<Step>, j: nat, c: nat)
    requires Behavior(states, steps) && j < |steps| && GoneFor(states[j], c)
    ensures GoneFor(states[j + 1], c)
  {
    NextState(states, steps, j);
    GoneStep(states[j], steps[j], c);
  }

  lemma {:induction false} NextState(states: seq<System>, steps: seq<Step>, i: nat)
    requires Behavior(states, steps) && i < |steps|
    ensures Inv(states[i]) && Enabled(states[i], steps[i]) && states[i + 1] == Apply(states[i], steps[i])
  {
    InvHolds(states, steps, i);
  }

  /** And nothing else removes one: what is in the list stays until its own callback runs. */
  lemma {:induction false} OnlyCallbackRemoves(states: seq<System>, steps: seq<Step>, i: nat, c: nat)
    requires Behavior(states, steps) && i < |steps| && c in states[i].reg.list && steps[i] != RunCallback(c)
    ensures c in states[i + 1].reg.list
  {
    assert Enabled(states[i], steps[i]) && states[i + 1] == Apply(states[i], steps[i]);
  }

  // ---- A process and its subprocess ----

  lemma {:induction false} Extend(states: seq<System>, steps: seq<Step>, step: Step)
    requires Behavior(states, steps) && Enabled(states[|steps|], step)
    ensures Behavior(states + [Apply(states[|steps|], step)], steps + [step])
  {
    var states', steps' := states + [Apply(states[|steps|], step)], steps + [step];
    forall i | 0 <= i < |steps'|
      ensures Enabled(states'[i], steps'[i]) && states'[i + 1] == Apply(states'[i], steps'[i])
    {
      assert i < |steps| ==> steps'[i] == steps[i];
    }
  }

  lemma {:induction false} FirstProcess() returns (states: seq<System>, steps: seq<Step>)
    ensures Behavior(states, steps) && steps == [Connect(0), ReportPid(0, 10), RegisterStep(0)]
    ensures states[3].reg.list == [0] && states[3].reg.conns.Keys == {0} && states[3].callbacks.Keys == {0}
    ensures states[3].reg.conns[0].pid == Some(10)
  {
    states, steps := [Init()], [];
    Extend(states, steps, Connect(0));
    states, steps := states + [Apply(states[0], Connect(0))], steps + [Connect(0)];
    Extend(states, steps, ReportPid(0, 10));
    states, steps := states + [Apply(states[1], ReportPid(0, 10))], steps + [ReportPid(0, 10)];
    Extend(states, steps, RegisterStep(0));
    states, steps := states + [Apply(states[2], RegisterStep(0))], steps + [RegisterStep(0)];
    RegisteredExactlyWhen(states, steps, 2, 0);
    assert [] + [0] == [0];
  }

  /** Both are listed, the process first. */
  lemma {:induction false} Subprocess() returns (states: seq<System>, steps: seq<Step>)
    ensures Behavior(states, steps) && |steps| == 6 && steps[5] == RegisterStep(1)
    ensures states[6].reg.list == [0, 1]
  {
    states, steps := FirstProcess();
    Extend(states, steps, Connect(1));
    states, steps := states + [Apply(states[3], Connect(1))], steps + [Connect(1)];
    Extend(states, steps, ReportPid(1, 11));
    states, steps := states + [Apply(states[4], ReportPid(1, 11))], steps + [ReportPid(1, 11)];
    Extend(states, steps, RegisterStep(1));
    states, steps := states + [Apply(states[5], RegisterStep(1))], steps + [RegisterStep(1)];
    RegisteredExactlyWhen(states, steps, 5, 1);
    assert [0] + [1] == [0, 1];
  }
}
