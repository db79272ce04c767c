/** `alarm.c`: the timer queue, kept in the red-black tree by deadline. */
module Alarm {
  import opened Timevals
  import opened RbModel
  import opened RbInsert
  import opened RbErase
  import opened RbTree
  import opened AlarmSpec
  import opened Wrappers

  const LONG_MAX := 0x7FFF_FFFF_FFFF_FFFF

  /** What a callback asks of the queue: `add_alarm(block, sc, usc)` at time `now`, or `del_alarm`. */
  datatype Call = AddAlarm(block: RbNode, sc: nat, usc: nat, now: Timeval) | DelAlarm(block: RbNode) {
    predicate Sane() {
      AddAlarm? ==> usc < USEC_PER_SEC && now.Normal()
    }

    /** The same request as an operation on the sequence. */
    function Meaning(): Op<RbNode> {
      match this
      case AddAlarm(b, sc, usc, now) => Rearm(b, now.Micros() + Timeval(sc, usc).Micros())
      case DelAlarm(b) => Disarm(b)
    }
  }

  /** What a callback may ask: known blocks, and times in range. */
  ghost predicate Callable(calls: seq<Call>, blocks: set<RbNode>) {
    forall j :: 0 <= j < |calls| ==> calls[j].Sane() && calls[j].block in blocks
  }

  function Meanings(calls: seq<Call>): (ops: seq<Op<RbNode>>) {
    seq(|calls|, i requires 0 <= i < |calls| => calls[i].Meaning())
  }

  function Scripts(calls: seq<seq<Call>>): (script: seq<seq<Op<RbNode>>>) {
    seq(|calls|, i requires 0 <= i < |calls| => Meanings(calls[i]))
  }

  ghost function DueOf(due: map<RbNode, int>, b: RbNode): int {
    if b in due then due[b] else 0
  }

  /** The alarms of `nodes`, in that order, with the deadlines `due`. */
  ghost function Listing(nodes: seq<RbNode>, due: map<RbNode, int>): (q: seq<Armed<RbNode>>) {
    seq(|nodes|, i requires 0 <= i < |nodes| => Armed(nodes[i], DueOf(due, nodes[i])))
  }

  lemma ListingWithout(nodes: seq<RbNode>, due: map<RbNode, int>, k: nat)
    requires k < |nodes|
    ensures var q := Listing(nodes, due); Listing(nodes[..k] + nodes[k + 1..], due) == q[..k] + q[k + 1..]
  {
  }

  lemma ListingWith(nodes: seq<RbNode>, due: map<RbNode, int>, k: nat, b: RbNode)
    requires k <= |nodes|
    ensures var q := Listing(nodes, due);
      Listing(nodes[..k] + [b] + nodes[k..], due) == q[..k] + [Armed(b, DueOf(due, b))] + q[k..]
  {
  }

  /** All alarms before `lo` are due no later than `d`, and all from `hi` on later. */
  ghost predicate Split(q: seq<Armed<RbNode>>, d: int, lo: int, hi: int) {
    && 0 <= lo <= hi <= |q|
    && (forall i :: 0 <= i < lo ==> q[i].due <= d)
    && (forall i :: hi <= i < |q| ==> d < q[i].due)
  }

  lemma SplitStep(q: seq<Armed<RbNode>>, d: int, lo: int, hi: int, p: int)
    requires Sorted(q) && Split(q, d, lo, hi) && lo <= p < hi
    ensures if d < q[p].due then Split(q, d, lo, p) else Split(q, d, p + 1, hi)
  {
  }

  /** `calculate_next_run`: the time left until `cand`, none once it has passed. */
  function CalculateNextRun(cand: Timeval, tv: Timeval): (r: Option<Timeval>)
    requires cand.Normal() && tv.Normal()
    ensures r.None? <==> cand.sec == LONG_MAX
    ensures r.Some? ==> r.value.Normal() && r.value.Micros() == Max(0, cand.Micros() - tv.Micros())
  {
    BeforeIsEarlier(tv, cand);
    if cand.sec != LONG_MAX then
      Some(if Before(tv, cand) then Timevals.Sub(cand, tv) else Timeval(0, 0))
    else None
  }

  function Max(a: int, b: int): int {
    if a >= b then a else b
  }

  /** The wait until the earliest pending deadline: `None` without one. */
  ghost predicate NextWait(q: seq<Armed<RbNode>>, now: int, r: Option<Timeval>) {
    if q == [] then r.None?
    else
      (forall e :: e in q ==> e.due < LONG_MAX * USEC_PER_SEC) ==>
        && r.Some? && r.value.Normal()
        && (forall e :: e in q ==> r.value.Micros() <= Max(0, e.due - now))
        && (exists e :: e in q && r.value.Micros() == Max(0, e.due - now))
  }

  class AlarmQueue {
    const root: RbRoot                // `alarm_root`
    ghost var due: map<RbNode, int>   // the initialised alarm blocks and their deadlines
    ghost var history: seq<Step<RbNode>>  // what has been armed, deleted and run so far

    constructor ()
      ensures Valid() && Recorded() && View() == [] && due == map[] && history == [] && fresh(root)
    {
      root := new RbRoot();
      due, history := map[], [];
    }

    /** The queue is the one its history calls for. */
    ghost predicate Recorded()
      reads this, root
    {
      View() == After(history)
    }

    /** In particular it holds exactly the alarms armed last and not deleted or run since. */
    lemma RepresentsHistory()
      requires Recorded()
      ensures Represents(View(), history)
    {
      HistoryRepresented(history);
    }

    ghost function View(): seq<Armed<RbNode>>
      reads this`due, root
    {
      Listing(root.t.nodes, due)
    }

    /** The block shows its deadline. */
    ghost predicate Shows(b: RbNode)
      requires b in due
      reads this`due, b`tv
    {
      b.tv.Normal() && due[b] == b.tv.Micros()
    }

    /** A block that is in no tree shows it. */
    ghost predicate Cleared(b: RbNode)
      reads root, b`parent
    {
      b in root.t.at || b.parent == b
    }

    ghost predicate Known()
      reads this`due, root, due.Keys`tv, due.Keys`parent
    {
      && root.t.at.Keys <= due.Keys
      && (forall b {:trigger Shows(b)} :: b in due ==> Shows(b))
      && (forall b {:trigger Cleared(b)} :: b in due ==> Cleared(b))
    }

    ghost predicate Valid()
      reads this`due, root, root.t.at.Keys, due.Keys
    {
      Known() && root.Valid() && Sorted(View())
    }

    /** `init_alarm`: a new block is not pending. */
    method InitAlarm(b: RbNode)
      requires Valid() && b !in due
      modifies this`due, b`parent, b`tv
      ensures Valid() && View() == old(View()) && due == old(due)[b := 0] && !Pending(View(), b)
      ensures history == old(history) && (old(Recorded()) ==> Recorded())
    {
      ghost var q := View();
      b.parent := b;
      b.tv := Timeval(0, 0);
      due := due[b := 0];
      forall m | m in root.t.at
        ensures root.Mirrored(m)
      {
        assert old(root.Mirrored(m));
      }
      assert View() == q;
      forall m | m in due
        ensures Shows(m) && Cleared(m)
      {
        assert m != b ==> old(Shows(m)) && old(Cleared(m));
      }
      NodesLinked();
    }

    /** The listed nodes are exactly the linked ones, each once. */
    lemma NodesLinked()
      requires Known() && Indexed(root.t)
      ensures Distinct(View())
      ensures forall b {:trigger b in root.t.at} :: Pending(View(), b) <==> b in root.t.at
    {
      forall b
        ensures Pending(View(), b) <==> b in root.t.at
      {
        if b in root.t.at {
          assert PosOk(root.t, b);
          assert View()[root.t.at[b].pos].id == b;
        }
      }
    }

    /** `alarm_pending`. */
    method AlarmPending(b: RbNode) returns (pending: bool)
      requires Valid() && b in due
      ensures pending <==> Pending(View(), b)
    {
      NodesLinked();
      assert Cleared(b) && (b in root.t.at ==> root.Mirrored(b) && LinksOk(root.t, b));
      pending := b.parent != b;
    }

    /** `del_alarm`: the alarm leaves the queue; one that is not pending changes nothing. */
    method DelAlarm(b: RbNode)
      requires Valid() && b in due
      modifies this`history, root, root.t.at.Keys`left, root.t.at.Keys`right, root.t.at.Keys`parent,
        root.t.at.Keys`red, b`parent
      ensures Valid() && View() == Cancel(old(View()), b)
      ensures b !in root.t.at && root.t.at.Keys == old(root.t.at.Keys) - {b}
      ensures history == old(history) + [DoCancel(b)] && (old(Recorded()) ==> Recorded())
    {
      AfterOne(history, DoCancel(b));
      hide After, Cancel, View, Valid;
      TakeOut(b);
      history := history + [DoCancel(b)];
    }

    method TakeOut(b: RbNode)
      requires Valid() && b in due
      modifies root, root.t.at.Keys`left, root.t.at.Keys`right, root.t.at.Keys`parent, root.t.at.Keys`red, b`parent
      ensures Valid() && View() == Cancel(old(View()), b)
      ensures b !in root.t.at && root.t.at.Keys == old(root.t.at.Keys) - {b}
    {
      NodesLinked();
      assert Cleared(b) && (b in root.t.at ==> root.Mirrored(b) && LinksOk(root.t, b));
      if b.parent != b {
        EraseLinked(b);
      } else {
        CancelAbsent(View(), b);
      }
    }

    /** `rb_erase` and `RB_CLEAR_NODE` on a pending block. */
    method EraseLinked(b: RbNode)
      requires Valid() && b in root.t.at
      modifies root, root.t.at.Keys`left, root.t.at.Keys`right, root.t.at.Keys`parent, root.t.at.Keys`red
      ensures Valid() && View() == Cancel(old(View()), b)
      ensures b !in root.t.at && root.t.at.Keys == old(root.t.at.Keys) - {b}
    {
      ghost var q, nodes := View(), root.t.nodes;
      ghost var k := PositionOf(b);
      assert Distinct(q) by {
        NodesLinked();
      }
      hide RbModel.Valid, Listing;
      root.Erase(b);
      ListingWithout(nodes, due, k);
      CancelAt(q, k);
      CancelKeeps(q, b);
      ClearNode(b);
      forall m | m in due
        ensures Shows(m) && Cleared(m)
      {
        assert old(Shows(m)) && old(Cleared(m));
      }
    }

    lemma PositionOf(b: RbNode) returns (k: nat)
      requires root.Valid() && b in root.t.at
      ensures k == root.t.at[b].pos < |root.t.nodes| && root.t.nodes[k] == b && PosOk(root.t, b)
    {
      assert PosOk(root.t, b);
      k := root.t.at[b].pos;
    }

    /** `RB_CLEAR_NODE` on an unlinked block. */
    method ClearNode(b: RbNode)
      requires root.Valid() && b !in root.t.at
      modifies b`parent
      ensures root.Valid() && b.parent == b
    {
      b.parent := b;
      forall m | m in root.t.at
        ensures root.Mirrored(m)
      {
        assert old(root.Mirrored(m));
      }
    }

    /** A pending block stands in the queue at its position, with its deadline. */
    lemma AtPosition(b: RbNode) returns (k: nat)
      requires Known() && root.Mirrors() && Linked(root.t) && b in root.t.at
      ensures k == root.t.at[b].pos < |View()| && View()[k] == Armed(b, b.tv.Micros())
      ensures b.tv.Normal() && LinksOk(root.t, b) && PosOk(root.t, b) && root.Mirrored(b)
      ensures b.left != null ==> b.left in root.t.at
      ensures b.right != null ==> b.right in root.t.at
    {
      assert PosOk(root.t, b) && LinksOk(root.t, b) && root.Mirrored(b) && Shows(b);
      k := root.t.at[b].pos;
    }

    /** The descent of `__add_alarm`: the slot behind every alarm due no later than `tv`. */
    method FindSlot(tv: Timeval) returns (parent: RbNode?, onLeft: bool, ghost k: nat)
      requires Valid() && tv.Normal()
      ensures if parent == null then root.node == null && k == 0
              else parent in root.t.at
                   && (if onLeft then root.t.at[parent].left else root.t.at[parent].right) == null
                   && k == root.t.at[parent].pos + if onLeft then 0 else 1
      ensures Split(View(), tv.Micros(), k, k)
    {
      ghost var lo, hi := 0, |View()|;
      assert Split(View(), tv.Micros(), lo, hi);
      hide Split;
      var cur := root.node;
      parent, onLeft := null, true;
      while cur != null
        invariant Split(View(), tv.Micros(), lo, hi)
        invariant parent == null ==> cur == root.node && lo == 0 && hi == |View()|
        invariant parent != null ==>
          && parent in root.t.at
          && cur == (if onLeft then root.t.at[parent].left else root.t.at[parent].right)
          && lo == (if onLeft then root.t.at[parent].lo else root.t.at[parent].pos + 1)
          && hi == (if onLeft then root.t.at[parent].pos else root.t.at[parent].hi)
        invariant cur != null ==> cur in root.t.at && lo == root.t.at[cur].lo && hi == root.t.at[cur].hi
        decreases hi - lo, cur != null
      {
        ghost var p := AtPosition(cur);
        BeforeIsEarlier(tv, cur.tv);
        SplitStep(View(), tv.Micros(), lo, hi, p);
        parent := cur;
        onLeft := Before(tv, cur.tv);
        if onLeft {
          hi := p;
          cur := cur.left;
        } else {
          lo := p + 1;
          cur := cur.right;
        }
      }
      if parent != null {
        assert LinksOk(root.t, parent);
      }
      k := lo;
    }

    /** `__add_alarm`: a block that is not pending goes behind every alarm due no later. */
    method LinkByDeadline(b: RbNode)
      requires Valid() && b in due && b !in root.t.at
      modifies root, root.t.at.Keys`left, root.t.at.Keys`right, root.t.at.Keys`parent, root.t.at.Keys`red,
        b`left, b`right, b`parent, b`red
      ensures Valid() && View() == Insert(old(View()), Armed(b, b.tv.Micros()))
      ensures b in root.t.at && root.t.at.Keys == old(root.t.at.Keys) + {b}
    {
      ghost var q, nodes := View(), root.t.nodes;
      assert Shows(b);
      var parent, onLeft, k := FindSlot(b.tv);
      assert Sorted(Insert(q, Armed(b, due[b]))) by {
        NodesLinked();
        InsertKeeps(q, Armed(b, due[b]));
      }
      InsertAt(q, Armed(b, due[b]), k);
      hide RbModel.Valid, Listing, Sorted, Insert;
      root.Link(b, parent, onLeft, k);
      ListingWith(nodes, due, k, b);
      forall m | m in due
        ensures Shows(m) && Cleared(m)
      {
        assert old(Shows(m)) && old(Cleared(m));
      }
    }

    /** `add_alarm`: the alarm is due `sc` seconds and `usc` microseconds from now; a pending one moves. */
    method AddAlarm(b: RbNode, sc: nat, usc: nat, now: Timeval)
      requires Valid() && b in due && usc < USEC_PER_SEC && now.Normal()
      modifies this`due, this`history, root, root.t.at.Keys`left, root.t.at.Keys`right, root.t.at.Keys`parent,
        root.t.at.Keys`red, b`left, b`right, b`parent, b`red, b`tv
      ensures Valid() && View() == Arm(old(View()), b, now.Micros() + Timeval(sc, usc).Micros())
      ensures due.Keys == old(due.Keys) && b in root.t.at
      ensures root.t.at.Keys == old(root.t.at.Keys) + {b}
      ensures history == old(history) + [DoArm(b, now.Micros() + Timeval(sc, usc).Micros())]
      ensures old(Recorded()) ==> Recorded()
    {
      ghost var step := DoArm(b, now.Micros() + Timeval(sc, usc).Micros());
      AfterOne(history, step);
      hide After, Arm, View, Valid;
      PutIn(b, sc, usc, now);
      history := history + [step];
    }

    method PutIn(b: RbNode, sc: nat, usc: nat, now: Timeval)
      requires Valid() && b in due && usc < USEC_PER_SEC && now.Normal()
      modifies this`due, root, root.t.at.Keys`left, root.t.at.Keys`right, root.t.at.Keys`parent, root.t.at.Keys`red,
        b`left, b`right, b`parent, b`red, b`tv
      ensures Valid() && View() == Arm(old(View()), b, now.Micros() + Timeval(sc, usc).Micros())
      ensures due.Keys == old(due.Keys) && b in root.t.at
      ensures root.t.at.Keys == old(root.t.at.Keys) + {b}
    {
      TakeOut(b);
      SetDeadline(b, Add(Timeval(sc, usc), now));
      LinkByDeadline(b);
    }

    /** The deadline of a block that is not pending is no part of the queue. */
    method SetDeadline(b: RbNode, tv: Timeval)
      requires Valid() && b in due && b !in root.t.at && tv.Normal()
      modifies this`due, b`tv
      ensures Valid() && View() == old(View()) && b.tv == tv && due.Keys == old(due.Keys)
    {
      ghost var q := View();
      b.tv := tv;
      due := due[b := tv.Micros()];
      forall m | m in due
        ensures Shows(m) && Cleared(m)
      {
        assert old(Shows(m)) && old(Cleared(m));
      }
      assert root.Valid();
      assert View() == q;
    }

    /** `get_next_alarm_run`. */
    method GetNextAlarmRun(now: Timeval) returns (r: Option<Timeval>)
      requires Valid() && now.Normal()
      ensures NextWait(View(), now.Micros(), r)
    {
      var first := root.First();
      if first == null {
        return None;
      }
      ghost var p := AtPosition(first);
      assert View()[0].due == first.tv.Micros() && View()[0] in View();
      r := CalculateNextRun(first.tv, now);
    }

    /** A callback's requests, in order. */
    method Perform(calls: seq<Call>)
      requires Valid() && forall i :: 0 <= i < |calls| ==> calls[i].Sane() && calls[i].block in due
      modifies this`due, this`history, root, due.Keys
      ensures Valid() && due.Keys == old(due.Keys) && (old(Recorded()) ==> Recorded())
      ensures View() == Apply(old(View()), Meanings(calls))
    {
      ghost var q, ops := View(), Meanings(calls);
      assert ops[0..] == ops;
      for i := 0 to |calls|
        invariant Valid() && due.Keys == old(due.Keys) && (old(Recorded()) ==> Recorded())
        invariant Apply(q, ops) == Apply(View(), ops[i..])
      {
        assert ops[i] == calls[i].Meaning();
        ApplyStep(View(), ops, i);
        hide After, ApplyOne, Apply;
        PerformOne(calls[i]);
      }
    }

    method PerformOne(call: Call)
      requires Valid() && call.Sane() && call.block in due
      modifies this`due, this`history, root, due.Keys
      ensures Valid() && due.Keys == old(due.Keys) && (old(Recorded()) ==> Recorded())
      ensures View() == ApplyOne(old(View()), call.Meaning())
    {
      match call
      case AddAlarm(b, sc, usc, now) => AddAlarm(b, sc, usc, now);
      case DelAlarm(b) => DelAlarm(b);
    }

    /** The first loop of `do_alarm_run`: the due alarms, each put in front of those before it. */
    method CollectDue(now: Timeval) returns (queue: seq<RbNode>)
      requires Valid() && now.Normal()
      ensures queue == DueLatestFirst(View(), now.Micros())
    {
      hide LinksOk, Slot, DueOf;
      queue := [];
      var node := root.First();
      ghost var i, q := 0, View();
      while node != null
        invariant 0 <= i <= |q| && |queue| == i && forall j :: 0 <= j < i ==> queue[j] == q[i - 1 - j].id
        invariant forall j :: 0 <= j < i ==> q[j].due <= now.Micros()
        invariant node == if i < |root.t.nodes| then root.t.nodes[i] else null
        decreases |q| - i
      {
        ghost var p := AtPosition(node);
        BeforeIsEarlier(now, node.tv);
        if Before(now, node.tv) {
          break;
        }
        queue := [node] + queue;
        node := root.Next(node);
        i := i + 1;
      }
      SlotUnique(q, now.Micros(), i);
    }

    /** `do_alarm_run`: the alarms due at `now` run, each once and latest deadline first.  The
        callbacks may arm any alarm, their own included, but disarm none except their own. */
    method DoAlarmRun(now: Timeval, calls: seq<seq<Call>>, later: Timeval)
      returns (ran: seq<RbNode>, next: Option<Timeval>)
      requires Valid() && now.Normal() && later.Normal()
      requires forall i :: 0 <= i < |calls| ==> Callable(calls[i], due.Keys)
      requires |calls| == |DueLatestFirst(View(), now.Micros())|
      requires Relinks(DueLatestFirst(View(), now.Micros()), Scripts(calls))
      modifies this`due, this`history, root, due.Keys
      ensures Valid() && due.Keys == old(due.Keys)
      ensures ran == DueLatestFirst(old(View()), now.Micros())
      ensures View() == RunAll(old(View()), ran, Scripts(calls))
      ensures NextWait(View(), later.Micros(), next)
      ensures history == old(history) + RunSteps(ran, Scripts(calls)) && (old(Recorded()) ==> Recorded())
    {
      hide After, RunAll, RunSteps, Scripts, Relinks, EachLinked, Callable, NextWait, DueLatestFirst;
      var queue := CollectDue(now);
      ran := RunCollected(queue, calls, now.Micros());
      next := GetNextAlarmRun(later);
    }

    /** The second loop of `do_alarm_run`, with what it adds to the history. */
    method RunCollected(queue: seq<RbNode>, calls: seq<seq<Call>>, ghost now: int) returns (ran: seq<RbNode>)
      requires Valid() && queue == DueLatestFirst(View(), now) && |calls| == |queue| && Relinks(queue, Scripts(calls))
      requires forall i :: 0 <= i < |calls| ==> Callable(calls[i], due.Keys)
      modifies this`due, this`history, root, due.Keys
      ensures Valid() && due.Keys == old(due.Keys)
      ensures ran == queue && View() == RunAll(old(View()), queue, Scripts(calls))
      ensures history == old(history) + RunSteps(queue, Scripts(calls)) && (old(Recorded()) ==> Recorded())
    {
      assert |Scripts(calls)| == |calls|;
      hide After, RunAll, RunSteps, Scripts, Relinks, EachLinked, Callable, DueLatestFirst;
      AllLinked(View(), now, queue, Scripts(calls));
      RunIsSteps(history, queue, Scripts(calls));
      ran := RunQueue(queue, calls);
      history := old(history) + RunSteps(queue, Scripts(calls));
    }

    /** The second loop of `do_alarm_run`. */
    method RunQueue(queue: seq<RbNode>, calls: seq<seq<Call>>) returns (ran: seq<RbNode>)
      requires Valid() && |calls| == |queue| && EachLinked(View(), queue, Scripts(calls))
      requires forall i :: 0 <= i < |calls| ==> Callable(calls[i], due.Keys)
      modifies this`due, this`history, root, due.Keys
      ensures Valid() && due.Keys == old(due.Keys)
      ensures ran == queue && View() == RunAll(old(View()), queue, Scripts(calls))
    {
      ghost var q, script := View(), Scripts(calls);
      ran := [];
      assert queue[0..] == queue && script[0..] == script;
      hide EachLinked, RunAll, Scripts, Meanings, View, Valid, Apply, Cancel, Callable;
      for i := 0 to |queue|
        invariant Valid() && due.Keys == old(due.Keys) && ran == queue[..i]
        invariant EachLinked(View(), queue[i..], script[i..])
        invariant RunAll(q, queue, script) == RunAll(View(), queue[i..], script[i..])
      {
        RunStep(View(), queue, script, i);
        assert script[i] == Meanings(calls[i]);
        RunOne(queue[i], calls[i]);
        ran := ran + [queue[i]];
      }
      RunNone(View(), queue, script);
    }

    /** One round of the second loop: the alarm leaves the tree, and its callback acts. */
    method RunOne(b: RbNode, calls: seq<Call>)
      requires Valid() && Pending(View(), b) && Callable(calls, due.Keys)
      modifies this`due, this`history, root, due.Keys
      ensures Valid() && due.Keys == old(due.Keys)
      ensures View() == Apply(Cancel(old(View()), b), Meanings(calls))
    {
      assert b in root.t.at by {
        NodesLinked();
      }
      EraseLinked(b);
      Perform(calls);
    }

    lemma AllLinked(q: seq<Armed<RbNode>>, now: int, queue: seq<RbNode>, script: seq<seq<Op<RbNode>>>)
      requires Valid() && q == View() && queue == DueLatestFirst(q, now) && |script| == |queue| && Relinks(queue, script)
      ensures EachLinked(q, queue, script)
    {
      NodesLinked();
      DueExactly(q, now);
      RunFindsEachLinked(q, queue, script);
    }
  }
}
