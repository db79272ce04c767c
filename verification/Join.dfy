/** The daemon's alarms in the red-black queue: `do_alarm_run` with the callbacks of the daemon. */
module Join {
  import opened Config
  import opened Routes
  import opened Timevals
  import opened RbModel
  import opened AlarmSpec
  import opened Node
  import opened NodeInv
  import opened NodeSteps
  import opened NodeRuns
  import opened Callbacks
  import opened Wrappers
  import Alarm

  // ----- Queues under other names -----

  function Renamed<K, L>(q: seq<Armed<K>>, f: K -> L): (r: seq<Armed<L>>) {
    seq(|q|, i requires 0 <= i < |q| => Armed(f(q[i].id), q[i].due))
  }

  function NewNames<K, L>(ids: seq<K>, f: K -> L): (r: seq<L>) {
    seq(|ids|, i requires 0 <= i < |ids| => f(ids[i]))
  }

  function RenamedOp<K, L>(op: Op<K>, f: K -> L): Op<L> {
    match op
    case Rearm(id, due) => Rearm(f(id), due)
    case Disarm(id) => Disarm(f(id))
  }

  function RenamedOps<K, L>(ops: seq<Op<K>>, f: K -> L): (r: seq<Op<L>>) {
    seq(|ops|, i requires 0 <= i < |ops| => RenamedOp(ops[i], f))
  }

  function RenamedScript<K, L>(script: seq<seq<Op<K>>>, f: K -> L): (r: seq<seq<Op<L>>>) {
    seq(|script|, i requires 0 <= i < |script| => RenamedOps(script[i], f))
  }

  /** Different alarms have different names. */
  ghost predicate OneToOne<K(!new), L>(f: K -> L, known: set<K>) {
    forall a, b :: a in known && b in known && f(a) == f(b) ==> a == b
  }

  ghost predicate Within<K>(q: seq<Armed<K>>, known: set<K>) {
    forall e :: e in q ==> e.id in known
  }

  ghost predicate OpsWithin<K>(ops: seq<Op<K>>, known: set<K>) {
    forall op :: op in ops ==> op.id in known
  }

  ghost predicate ScriptWithin<K>(script: seq<seq<Op<K>>>, known: set<K>) {
    forall ops :: ops in script ==> OpsWithin(ops, known)
  }

  lemma SlotRenamed<K, L>(q: seq<Armed<K>>, f: K -> L, due: int)
    ensures Slot(Renamed(q, f), due) == Slot(q, due)
  {
    SlotUnique(Renamed(q, f), due, Slot(q, due));
  }

  lemma {:induction false} InsertRenamed<K, L>(q: seq<Armed<K>>, e: Armed<K>, f: K -> L)
    ensures Renamed(Insert(q, e), f) == Insert(Renamed(q, f), Armed(f(e.id), e.due))
  {
    if q != [] {
      assert Renamed(q, f)[1..] == Renamed(q[1..], f);
      InsertRenamed(q[1..], e, f);
    }
  }

  lemma {:induction false} CancelRenamed<K(!new), L>(q: seq<Armed<K>>, id: K, f: K -> L, known: set<K>)
    requires OneToOne(f, known) && Within(q, known) && id in known
    ensures Renamed(Cancel(q, id), f) == Cancel(Renamed(q, f), f(id)) && Within(Cancel(q, id), known)
  {
    if q != [] {
      assert q[0] in q && Renamed(q, f)[1..] == Renamed(q[1..], f);
      CancelRenamed(q[1..], id, f, known);
    }
  }

  lemma OpRenamed<K(!new), L>(q: seq<Armed<K>>, op: Op<K>, f: K -> L, known: set<K>)
    requires OneToOne(f, known) && Within(q, known) && op.id in known
    ensures Renamed(ApplyOne(q, op), f) == ApplyOne(Renamed(q, f), RenamedOp(op, f))
    ensures Within(ApplyOne(q, op), known)
  {
    CancelRenamed(q, op.id, f, known);
    if op.Rearm? {
      InsertRenamed(Cancel(q, op.id), Armed(op.id, op.due), f);
      forall e | e in ApplyOne(q, op)
        ensures e.id in known
      {
        InsertMembers(Cancel(q, op.id), Armed(op.id, op.due), e);
      }
    }
  }

  lemma {:induction false} OpsRenamed<K(!new), L>(q: seq<Armed<K>>, ops: seq<Op<K>>, f: K -> L, known: set<K>)
    requires OneToOne(f, known) && Within(q, known) && OpsWithin(ops, known)
    ensures Renamed(Apply(q, ops), f) == Apply(Renamed(q, f), RenamedOps(ops, f))
    ensures Within(Apply(q, ops), known)
    decreases ops
  {
    hide Renamed, ApplyOne, OneToOne;
    if ops != [] {
      assert RenamedOps(ops, f)[1..] == RenamedOps(ops[1..], f);
      OpRenamed(q, ops[0], f, known);
      OpsRenamed(ApplyOne(q, ops[0]), ops[1..], f, known);
    }
  }

  /** A run of alarms under other names is the run itself, renamed. */
  lemma {:induction false} RunRenamed<K(!new), L>(q: seq<Armed<K>>, ids: seq<K>, script: seq<seq<Op<K>>>, f: K -> L,
                                                  known: set<K>)
    requires |ids| == |script| && OneToOne(f, known) && Within(q, known) && ScriptWithin(script, known)
    requires forall id :: id in ids ==> id in known
    ensures Renamed(RunAll(q, ids, script), f) == RunAll(Renamed(q, f), NewNames(ids, f), RenamedScript(script, f))
    decreases ids
  {
    hide Renamed, OneToOne, OpsWithin, Within, Apply, Cancel;
    if ids != [] {
      assert NewNames(ids, f)[1..] == NewNames(ids[1..], f);
      assert RenamedScript(script, f)[1..] == RenamedScript(script[1..], f);
      var r := Cancel(q, ids[0]);
      CancelRenamed(q, ids[0], f, known);
      assert script[0] in script;
      OpsRenamed(r, script[0], f, known);
      RunRenamed(Apply(r, script[0]), ids[1..], script[1..], f, known);
    }
  }

  lemma DueRenamed<K, L>(q: seq<Armed<K>>, f: K -> L, now: int)
    ensures DueLatestFirst(Renamed(q, f), now) == NewNames(DueLatestFirst(q, now), f)
  {
    SlotRenamed(q, f, now);
  }

  // ----- The alarms a node's callbacks touch -----

  /** No alarm of `m` is new. */
  ghost predicate NoneNew(n: Node, m: Node) {
    forall id :: Owned(m.table, m.requests, id) ==> Owned(n.table, n.requests, id)
  }

  /** An alarm is armed some milliseconds from now that fit a word. */
  ghost predicate Worded(op: Op<TimerId>, now: int) {
    op.Rearm? ==> exists ms: U32 :: op.due == Due(now, ms)
  }

  /** The alarm of an entry there is, armed some milliseconds from now that fit a word. */
  ghost predicate Asked(n: Node, op: Op<TimerId>, now: int) {
    Owned(n.table, n.requests, op.id) && Worded(op, now)
  }

  ghost predicate AllAsked(n: Node, ops: Ops, now: int) {
    forall op :: op in ops ==> Asked(n, op, now)
  }

  lemma SetNoneNew(n: Node, r: Route, ms: U32, now: int)
    requires r in n.table
    ensures NoneNew(n, SetLifetime(n, r, ms, now)) && Asked(n, SetOp(r, ms, now), now)
  {
    hide WithRoute;
    forall id | Owned(SetLifetime(n, r, ms, now).table, n.requests, id)
      ensures Owned(n.table, n.requests, id)
    {
      EditOwners(n.table, n.requests, r, r.(valid := true, action := UnsetValidEntry), id);
    }
  }

  lemma RefreshAsked(n: Node, a: Addr, now: int)
    ensures NoneNew(n, RefreshTo(n, a, now)) && AllAsked(n, RefreshOps(n, a, now), now)
  {
    hide Find, Owned, SetLifetime, SetOp, Covers;
    FindMatches(n.table, a);
    match Find(n.table, a)
    case None =>
    case Some(r) =>
      var n1 := SetLifetime(n, r, ACTIVE_ROUTE_TIMEOUT, now);
      SetNoneNew(n, r, ACTIVE_ROUTE_TIMEOUT, now);
      FindMatches(n1.table, r.nextHop);
      match Find(n1.table, r.nextHop)
      case None =>
      case Some(h) => SetNoneNew(n1, h, ACTIVE_ROUTE_TIMEOUT, now);
  }

  lemma UpdateAsked(n: Node, dst: Addr, now: int)
    ensures NoneNew(n, UpdateRoute(n, dst, 0, now)) && AllAsked(n, UpdateOps(n, dst, now), now)
  {
    hide Find, Owned, RefreshTo, RefreshOps;
    RefreshAsked(n, dst, now);
  }

  lemma RouteAsked(n: Node, rid: nat, now: int)
    ensures NoneNew(n, RouteAlarm(n, rid, now)) && AllAsked(n, RouteOps(n, rid, now), now)
  {
    ByIdIn(n.table, rid);
    forall id | Owned(RouteAlarm(n, rid, now).table, n.requests, id) && ById(n.table, rid).Some?
      ensures Owned(n.table, n.requests, id)
    {
      var r := ById(n.table, rid).value;
      EditOwners(n.table, n.requests, r, r.(valid := false, action := DestroyRoute), id);
      if id.RouteTimer? && r.action == DestroyRoute {
        var s :| s in WithoutRoute(n.table, rid) && s.rid == id.rid;
        WithoutRouteMembers(n.table, rid, s);
      }
    }
  }

  lemma RenewOwners(n: Node, q: Request)
    ensures var t := WithRequest(n.requests, q);
      forall id :: Owned(n.table, t, id) <==> Owned(n.table, n.requests, id)
  {
    var t := WithRequest(n.requests, q);
    WithRequestAt(n.requests, q);
    forall id: TimerId | id.RequestTimer?
      ensures Owned(n.table, t, id) <==> Owned(n.table, n.requests, id)
    {
      if Owned(n.table, t, id) {
        var p :| p in t && p.eid == id.eid;
        var i :| 0 <= i < |t| && t[i] == p;
        assert n.requests[i] in n.requests;
      }
      if Owned(n.table, n.requests, id) {
        var p :| p in n.requests && p.eid == id.eid;
        var i :| 0 <= i < |t| && n.requests[i] == p;
        assert t[i] in t;
      }
    }
  }

  lemma RequestAsked(n: Node, eid: nat, now: int)
    ensures NoneNew(n, RequestAlarm(n, eid, now)) && AllAsked(n, RequestOps(n, eid, now), now)
  {
    RequestByIdIn(n.requests, eid);
    match RequestById(n.requests, eid)
    case None =>
    case Some(q) =>
      assert Owned(n.table, n.requests, RequestTimer(eid));
      hide Owned, UpdateRoute, UpdateOps, WithRequest, WithoutRequest, RequestById, BackoffTime;
      forall id
        ensures Owned(n.table, WithoutRequest(n.requests, eid), id) ==> Owned(n.table, n.requests, id)
      {
        WithoutOwner(n.table, n.requests, eid, id);
      }
      if 0 <= q.tries < RREQ_RETRIES {
        var q1 := q.(tries := q.tries + 1);
        var n0 := n.(requests := WithRequest(n.requests, q1));
        RenewOwners(n, q1);
        SameOps(n, n0, q.dst, now);
        UpdateAsked(n0, q.dst, now);
        var n1 := UpdateRoute(n0, q.dst, 0, now);
        var m := RequestAlarm(n, eid, now);
        RenewOwners(n1, q1.(id := m.rreqId));
        assert Asked(n, Rearm(RequestTimer(eid), Due(now, BackoffTime(q1.tries))), now);
      }
  }

  lemma FireAsked(n: Node, id: TimerId, now: int)
    ensures NoneNew(n, Fire(n, id, now)) && AllAsked(n, FireOps(n, id, now), now)
  {
    hide Owned, RouteAlarm, RequestAlarm, RouteOps, RequestOps;
    match id
    case RouteTimer(rid) => RouteAsked(n, rid, now);
    case RequestTimer(eid) => RequestAsked(n, eid, now);
  }

  ghost predicate ScriptAsked(n: Node, script: seq<Ops>, clocks: seq<int>)
    requires |script| == |clocks|
  {
    forall i :: 0 <= i < |script| ==> AllAsked(n, script[i], clocks[i])
  }

  /** All callbacks of a run touch alarms that were there when it began. */
  lemma {:induction false} RunAsked(n: Node, ids: seq<TimerId>, clocks: seq<int>)
    requires |ids| == |clocks|
    ensures ScriptAsked(n, FireScript(n, ids, clocks), clocks)
    decreases ids
  {
    hide Fire, FireOps, Owned, Cancel;
    if ids != [] {
      var n0 := n.(timers := Cancel(n.timers, ids[0]));
      var m := Fire(n0, ids[0], clocks[0]);
      var script, rest := FireScript(n, ids, clocks), FireScript(m, ids[1..], clocks[1..]);
      FireAsked(n0, ids[0], clocks[0]);
      RunAsked(m, ids[1..], clocks[1..]);
      forall i | 0 <= i < |script|
        ensures AllAsked(n, script[i], clocks[i])
      {
        if i == 0 {
          assert AllAsked(n0, script[0], clocks[0]);
        } else {
          assert script[i] == rest[i - 1] && AllAsked(m, rest[i - 1], clocks[1..][i - 1]);
        }
      }
    }
  }

  // ----- The run itself -----

  /** `set_alarm_time`: whole seconds, and the rest in microseconds. */
  function SetAlarmTime(ms: U32): (r: Timeval)
    ensures r.sec >= 0 && r.Normal() && Due(0, ms) == r.Micros()
  {
    Timeval(ms / 1000, ms % 1000 * 1000)
  }

  /** The call that `op` stands for: `set_alarm_time` and `add_alarm` on the block of that alarm, or
      `del_alarm`, which `msh_route_destroy` and `__rreq_fifo_entry_delete` call. */
  function Ask(op: Op<TimerId>, block: TimerId -> RbNode, now: Timeval): Alarm.Call {
    match op
    case Rearm(id, due) =>
      var wait := SetAlarmTime((due - now.Micros()) / 1000 % 0x1_0000_0000);
      Alarm.AddAlarm(block(id), wait.sec, wait.usec, now)
    case Disarm(id) => Alarm.DelAlarm(block(id))
  }

  function AskAll(ops: Ops, block: TimerId -> RbNode, now: Timeval): (calls: seq<Alarm.Call>) {
    seq(|ops|, i requires 0 <= i < |ops| => Ask(ops[i], block, now))
  }

  function AskScript(script: seq<Ops>, block: TimerId -> RbNode, clocks: seq<Timeval>): (calls: seq<seq<Alarm.Call>>)
    requires |script| == |clocks|
  {
    seq(|script|, i requires 0 <= i < |script| => AskAll(script[i], block, clocks[i]))
  }

  function Readings(clocks: seq<Timeval>): (r: seq<int>) {
    seq(|clocks|, i requires 0 <= i < |clocks| => clocks[i].Micros())
  }

  /** Every pending alarm has a block of its own. */
  ghost predicate Bound(n: Node, block: TimerId -> RbNode, blocks: set<RbNode>) {
    OneToOne(block, AlarmsOf(n)) && forall id :: id in AlarmsOf(n) ==> block(id) in blocks
  }

  ghost function AlarmsOf(n: Node): set<TimerId> {
    set e | e in n.timers :: e.id
  }

  lemma OwnedPending(n: Node, id: TimerId)
    requires Inv(n) && Owned(n.table, n.requests, id)
    ensures id in AlarmsOf(n)
  {
    assert Pending(n.timers, id);
    var i :| 0 <= i < |n.timers| && n.timers[i].id == id;
    assert n.timers[i] in n.timers;
  }

  lemma AskMeans(op: Op<TimerId>, block: TimerId -> RbNode, now: Timeval)
    requires Worded(op, now.Micros()) && now.Normal()
    ensures var call := Ask(op, block, now);
      call.Sane() && call.Meaning() == RenamedOp(op, block) && call.block == block(op.id)
  {
    if op.Rearm? {
      var ms: U32 :| op.due == Due(now.Micros(), ms);
      assert (op.due - now.Micros()) / 1000 % 0x1_0000_0000 == ms;
    }
  }

  lemma AskAllMeans(n: Node, ops: Ops, block: TimerId -> RbNode, now: Timeval, blocks: set<RbNode>)
    requires Inv(n) && AllAsked(n, ops, now.Micros()) && now.Normal() && Bound(n, block, blocks)
    ensures var calls := AskAll(ops, block, now);
      Alarm.Meanings(calls) == RenamedOps(ops, block) && Alarm.Callable(calls, blocks)
    ensures OpsWithin(ops, AlarmsOf(n))
  {
    hide Asked, Worded, Owned, Ask, RenamedOp, InvBut;
    forall i | 0 <= i < |ops|
      ensures var call := Ask(ops[i], block, now);
        call.Sane() && call.Meaning() == RenamedOp(ops[i], block) && call.block in blocks
      ensures ops[i].id in AlarmsOf(n)
    {
      AskedOwned(n, ops[i], now.Micros());
      AskMeans(ops[i], block, now);
      OwnedPending(n, ops[i].id);
    }
  }

  lemma AskedOwned(n: Node, op: Op<TimerId>, now: int)
    requires Asked(n, op, now)
    ensures Owned(n.table, n.requests, op.id) && Worded(op, now)
  {
  }

  lemma RelinksRenamed(ids: seq<TimerId>, script: seq<Ops>, block: TimerId -> RbNode)
    requires |ids| == |script| && Relinks(ids, script)
    ensures Relinks(NewNames(ids, block), RenamedScript(script, block))
  {
    var renamed: seq<seq<Op<RbNode>>> := RenamedScript(script, block);
    forall i, j {:trigger renamed[i][j]} | 0 <= i < |ids| && 0 <= j < |renamed[i]|
      ensures renamed[i][j].Disarm? ==> renamed[i][j].id == NewNames(ids, block)[i]
    {
      assert renamed[i][j] == RenamedOp(script[i][j], block);
    }
  }

  lemma ScriptMeans(n: Node, script: seq<Ops>, block: TimerId -> RbNode, clocks: seq<Timeval>, blocks: set<RbNode>)
    requires |script| == |clocks| && Inv(n) && ScriptAsked(n, script, Readings(clocks)) && Bound(n, block, blocks)
    requires forall i :: 0 <= i < |clocks| ==> clocks[i].Normal()
    ensures var calls := AskScript(script, block, clocks);
      && Alarm.Scripts(calls) == RenamedScript(script, block)
      && (forall i :: 0 <= i < |calls| ==> Alarm.Callable(calls[i], blocks))
    ensures ScriptWithin(script, AlarmsOf(n))
  {
    hide AllAsked, AskAll, Alarm.Callable, Alarm.Meanings, RenamedOps, OpsWithin, InvBut, Bound;
    var calls := AskScript(script, block, clocks);
    forall i | 0 <= i < |script|
      ensures Alarm.Meanings(calls[i]) == RenamedOps(script[i], block) && Alarm.Callable(calls[i], blocks)
      ensures OpsWithin(script[i], AlarmsOf(n))
    {
      assert AllAsked(n, script[i], Readings(clocks)[i]);
      AskAllMeans(n, script[i], block, clocks[i], blocks);
    }
  }

  /** What `do_alarm_run` needs of the daemon's callbacks, and what it then leaves. */
  lemma CallbacksFit(n: Node, block: TimerId -> RbNode, blocks: set<RbNode>, now: Timeval, clocks: seq<Timeval>)
    requires Inv(n) && Timely(n, RunAlarms(Readings(clocks)), now.Micros()) && Bound(n, block, blocks)
    requires forall i :: 0 <= i < |clocks| ==> clocks[i].Normal()
    ensures var q := Renamed(n.timers, block);
      var ids := DueLatestFirst(n.timers, now.Micros());
      var calls := AskScript(FireScript(n, ids, Readings(clocks)), block, clocks);
      && DueLatestFirst(q, now.Micros()) == NewNames(ids, block)
      && (forall i :: 0 <= i < |calls| ==> Alarm.Callable(calls[i], blocks))
      && Relinks(NewNames(ids, block), Alarm.Scripts(calls))
      && RunAll(q, NewNames(ids, block), Alarm.Scripts(calls))
        == Renamed(React(n, RunAlarms(Readings(clocks)), now.Micros()).timers, block)
  {
    var ids, times := DueLatestFirst(n.timers, now.Micros()), Readings(clocks);
    var script := FireScript(n, ids, times);
    var calls := AskScript(script, block, clocks);
    DueRenamed(n.timers, block, now.Micros());
    FireAllIsRun(n, ids, times);
    RunAsked(n, ids, times);
    RelinksRenamed(ids, script, block);
    assert React(n, RunAlarms(times), now.Micros()).timers == RunAll(n.timers, ids, script);
    hide *;
    ScriptMeans(n, script, block, clocks, blocks);
    RunFits(n, block, blocks, ids, script, now.Micros());
  }

  lemma RunFits(n: Node, block: TimerId -> RbNode, blocks: set<RbNode>, ids: seq<TimerId>, script: seq<Ops>, now: int)
    requires Bound(n, block, blocks) && ids == DueLatestFirst(n.timers, now) && |ids| == |script|
    requires ScriptWithin(script, AlarmsOf(n))
    ensures RunAll(Renamed(n.timers, block), NewNames(ids, block), RenamedScript(script, block))
      == Renamed(RunAll(n.timers, ids, script), block)
  {
    var k := Slot(n.timers, now);
    forall id | id in ids
      ensures id in AlarmsOf(n)
    {
      var i :| 0 <= i < |ids| && ids[i] == id;
      assert n.timers[k - 1 - i] in n.timers;
    }
    RunRenamed(n.timers, ids, script, block, AlarmsOf(n));
  }

  /** If the heap queue holds the daemon's alarms, then after `do_alarm_run` with the daemon's callbacks
      it holds those of the state the daemon is in then. */
  method RunCallbacks(queue: Alarm.AlarmQueue, n: Node, block: TimerId -> RbNode, now: Timeval, clocks: seq<Timeval>,
                      later: Timeval)
    returns (ran: seq<RbNode>, next: Option<Timeval>)
    requires queue.Valid() && now.Normal() && later.Normal() && forall i :: 0 <= i < |clocks| ==> clocks[i].Normal()
    requires Inv(n) && Timely(n, RunAlarms(Readings(clocks)), now.Micros())
    requires queue.View() == Renamed(n.timers, block) && Bound(n, block, queue.due.Keys)
    modifies queue`due, queue`history, queue.root, queue.due.Keys
    ensures queue.Valid() && queue.due.Keys == old(queue.due.Keys) && (old(queue.Recorded()) ==> queue.Recorded())
    ensures queue.View() == Renamed(React(n, RunAlarms(Readings(clocks)), now.Micros()).timers, block)
    ensures ran == NewNames(DueLatestFirst(n.timers, now.Micros()), block)
    ensures Alarm.NextWait(queue.View(), later.Micros(), next)
  {
    var ids := DueLatestFirst(n.timers, now.Micros());
    var calls := AskScript(FireScript(n, ids, Readings(clocks)), block, clocks);
    CallbacksFit(n, block, queue.due.Keys, now, clocks);
    hide FireScript, FireAll, RunAll, AskScript, Alarm.Callable, Alarm.Scripts, InvBut, Renamed, Bound, Relinks;
    ran, next := queue.DoAlarmRun(now, calls, later);
  }
}
