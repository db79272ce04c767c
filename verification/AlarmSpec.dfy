/** The timer queue as a sequence: pending alarms by deadline, equal deadlines in arming order. */
module AlarmSpec {

  /** One pending alarm; deadlines are instants in microseconds. */
  datatype Armed<K> = Armed(id: K, due: int)

  ghost predicate Pending<K>(q: seq<Armed<K>>, id: K) {
    exists i :: 0 <= i < |q| && q[i].id == id
  }

  ghost predicate Sorted<K>(q: seq<Armed<K>>) {
    forall i, j :: 0 <= i < j < |q| ==> q[i].due <= q[j].due
  }

  ghost predicate Distinct<K>(q: seq<Armed<K>>) {
    forall i, j :: 0 <= i < j < |q| ==> q[i].id != q[j].id
  }

  /** Behind every alarm due no later. */
  function Insert<K>(q: seq<Armed<K>>, e: Armed<K>): seq<Armed<K>> {
    if q == [] || e.due < q[0].due then [e] + q else [q[0]] + Insert(q[1..], e)
  }

  function Cancel<K(==)>(q: seq<Armed<K>>, id: K): seq<Armed<K>> {
    if q == [] then []
    else if q[0].id == id then Cancel(q[1..], id)
    else [q[0]] + Cancel(q[1..], id)
  }

  /** An alarm that is pending moves; it is never there twice. */
  function Arm<K(==)>(q: seq<Armed<K>>, id: K, due: int): seq<Armed<K>> {
    Insert(Cancel(q, id), Armed(id, due))
  }

  // ----- Insertion and cancellation -----

  /** In a sorted queue the slot of `Insert` is the only one that splits the deadlines at `e`. */
  lemma {:induction false} InsertAt<K>(q: seq<Armed<K>>, e: Armed<K>, k: nat)
    requires k <= |q|
    requires forall i :: 0 <= i < k ==> q[i].due <= e.due
    requires k < |q| ==> e.due < q[k].due
    ensures Insert(q, e) == q[..k] + [e] + q[k..]
  {
    if k > 0 {
      InsertAt(q[1..], e, k - 1);
      assert q[..k] + [e] + q[k..] == [q[0]] + (q[1..][..k - 1] + [e] + q[1..][k - 1..]);
    } else {
      assert q[..k] + [e] + q[k..] == [e] + q;
    }
  }

  function Slot<K>(q: seq<Armed<K>>, due: int): (k: nat)
    ensures k <= |q| && (forall i :: 0 <= i < k ==> q[i].due <= due) && (k < |q| ==> due < q[k].due)
  {
    if q == [] || due < q[0].due then 0 else 1 + Slot(q[1..], due)
  }

  lemma {:induction false} SlotUnique<K>(q: seq<Armed<K>>, due: int, k: nat)
    requires k <= |q| && (forall i :: 0 <= i < k ==> q[i].due <= due) && (k < |q| ==> due < q[k].due)
    ensures Slot(q, due) == k
  {
    if k > 0 {
      SlotUnique(q[1..], due, k - 1);
    }
  }

  lemma {:induction false} CancelMembers<K>(q: seq<Armed<K>>, id: K, e: Armed<K>)
    ensures e in Cancel(q, id) <==> e in q && e.id != id
  {
    if q != [] {
      CancelMembers(q[1..], id, e);
    }
  }

  lemma {:induction false} CancelAbsent<K>(q: seq<Armed<K>>, id: K)
    requires !Pending(q, id)
    ensures Cancel(q, id) == q
  {
    if q != [] {
      forall i | 0 <= i < |q[1..]|
        ensures q[1..][i].id != id
      {
        assert q[1..][i] == q[i + 1];
      }
      CancelAbsent(q[1..], id);
    }
  }

  /** Cancelling takes out the one entry of that alarm. */
  lemma {:induction false} CancelAt<K>(q: seq<Armed<K>>, k: nat)
    requires k < |q| && Distinct(q)
    ensures Cancel(q, q[k].id) == q[..k] + q[k + 1..]
  {
    if k == 0 {
      CancelAbsent(q[1..], q[0].id);
    } else {
      CancelAt(q[1..], k - 1);
      assert q[1..][..k - 1] + q[1..][k..] == q[1..k] + q[k + 1..];
      assert [q[0]] + (q[1..k] + q[k + 1..]) == q[..k] + q[k + 1..];
    }
  }

  lemma RemovedKeeps<K>(q: seq<Armed<K>>, k: nat, r: seq<Armed<K>>)
    requires Sorted(q) && Distinct(q) && k < |q| && r == q[..k] + q[k + 1..]
    ensures Sorted(r) && Distinct(r) && !Pending(r, q[k].id)
  {
    forall i, j | 0 <= i < j < |r|
      ensures r[i].due <= r[j].due && r[i].id != r[j].id
    {
      assert r[i] == q[if i < k then i else i + 1] && r[j] == q[if j < k then j else j + 1];
    }
    forall i | 0 <= i < |r|
      ensures r[i].id != q[k].id
    {
      assert r[i] == q[if i < k then i else i + 1];
    }
  }

  lemma CancelKeeps<K>(q: seq<Armed<K>>, id: K)
    requires Sorted(q) && Distinct(q)
    ensures Sorted(Cancel(q, id)) && Distinct(Cancel(q, id)) && !Pending(Cancel(q, id), id)
    ensures forall a :: a != id ==> (Pending(Cancel(q, id), a) <==> Pending(q, a))
  {
    if Pending(q, id) {
      var k :| 0 <= k < |q| && q[k].id == id;
      CancelAt(q, k);
      RemovedKeeps(q, k, Cancel(q, id));
    } else {
      CancelAbsent(q, id);
    }
    forall a | a != id
      ensures Pending(Cancel(q, id), a) <==> Pending(q, a)
    {
      CancelPending(q, id, a);
    }
  }

  lemma CancelPending<K>(q: seq<Armed<K>>, id: K, a: K)
    requires a != id
    ensures Pending(Cancel(q, id), a) <==> Pending(q, a)
  {
    var r := Cancel(q, id);
    if Pending(q, a) {
      var i :| 0 <= i < |q| && q[i].id == a;
      CancelMembers(q, id, q[i]);
    }
    if Pending(r, a) {
      var i :| 0 <= i < |r| && r[i].id == a;
      CancelMembers(q, id, r[i]);
    }
  }

  lemma InsertPending<K>(q: seq<Armed<K>>, e: Armed<K>, a: K)
    ensures Pending(Insert(q, e), a) <==> a == e.id || Pending(q, a)
  {
    var k := Slot(q, e.due);
    InsertAt(q, e, k);
    var r := Insert(q, e);
    assert r[k] == e;
    if Pending(q, a) {
      var i :| 0 <= i < |q| && q[i].id == a;
      assert r[if i < k then i else i + 1] == q[i];
    }
    if Pending(r, a) && a != e.id {
      var i :| 0 <= i < |r| && r[i].id == a;
      assert r[i] == q[if i < k then i else i - 1];
    }
  }

  lemma AddedKeeps<K>(q: seq<Armed<K>>, e: Armed<K>, k: nat, r: seq<Armed<K>>)
    requires Sorted(q) && Distinct(q) && !Pending(q, e.id) && k <= |q| && r == q[..k] + [e] + q[k..]
    requires (forall i :: 0 <= i < k ==> q[i].due <= e.due) && (forall i :: k <= i < |q| ==> e.due <= q[i].due)
    ensures Sorted(r) && Distinct(r)
  {
    forall i, j | 0 <= i < j < |r|
      ensures r[i].due <= r[j].due && r[i].id != r[j].id
    {
      assert i != k ==> r[i] == q[if i < k then i else i - 1];
      assert j != k ==> r[j] == q[if j < k then j else j - 1];
    }
  }

  lemma InsertKeeps<K>(q: seq<Armed<K>>, e: Armed<K>)
    requires Sorted(q) && Distinct(q) && !Pending(q, e.id)
    ensures Sorted(Insert(q, e)) && Distinct(Insert(q, e))
  {
    var k := Slot(q, e.due);
    InsertAt(q, e, k);
    AddedKeeps(q, e, k, Insert(q, e));
  }

  /** Arming keeps the queue sorted and free of duplicates, and makes exactly `id` pending. */
  lemma ArmKeeps<K>(q: seq<Armed<K>>, id: K, due: int)
    requires Sorted(q) && Distinct(q)
    ensures Sorted(Arm(q, id, due)) && Distinct(Arm(q, id, due))
    ensures forall a :: Pending(Arm(q, id, due), a) <==> a == id || Pending(q, a)
  {
    CancelKeeps(q, id);
    InsertKeeps(Cancel(q, id), Armed(id, due));
    forall a
      ensures Pending(Arm(q, id, due), a) <==> a == id || Pending(q, a)
    {
      InsertPending(Cancel(q, id), Armed(id, due), a);
    }
  }

  lemma ArmMembers<K>(q: seq<Armed<K>>, id: K, due: int, e: Armed<K>)
    ensures e in Arm(q, id, due) <==> e == Armed(id, due) || (e in q && e.id != id)
  {
    InsertMembers(Cancel(q, id), Armed(id, due), e);
    CancelMembers(q, id, e);
  }

  // ----- Histories -----

  datatype Step<K> = DoArm(id: K, due: int) | DoCancel(id: K)

  function Take<K(==)>(q: seq<Armed<K>>, step: Step<K>): seq<Armed<K>> {
    match step
    case DoArm(id, due) => Arm(q, id, due)
    case DoCancel(id) => Cancel(q, id)
  }

  function After<K(==)>(steps: seq<Step<K>>): seq<Armed<K>> {
    if steps == [] then [] else Take(After(steps[..|steps| - 1]), steps[|steps| - 1])
  }

  /** When `id` was armed last, if nothing cancelled it since; otherwise -1. */
  function ArmedAt<K(==)>(steps: seq<Step<K>>, id: K): (k: int)
    ensures -1 <= k < |steps| && (k >= 0 ==> steps[k].DoArm? && steps[k].id == id)
  {
    if steps == [] then -1
    else if steps[|steps| - 1].id == id then
      if steps[|steps| - 1].DoArm? then |steps| - 1 else -1
    else ArmedAt(steps[..|steps| - 1], id)
  }

  /** Entries `i` and `j` stand by deadline, then by arming time. */
  ghost predicate InTurn<K>(q: seq<Armed<K>>, steps: seq<Step<K>>, i: nat, j: nat)
    requires i < j < |q|
  {
    q[i].due < q[j].due || (q[i].due == q[j].due && ArmedAt(steps, q[i].id) < ArmedAt(steps, q[j].id))
  }

  /** Entry `e` carries the deadline its alarm was armed with last. */
  ghost predicate Latest<K>(steps: seq<Step<K>>, e: Armed<K>) {
    var k := ArmedAt(steps, e.id);
    k >= 0 && steps[k].due == e.due
  }

  /** The queue a history calls for: the alarms armed last and not cancelled, each with its latest
      deadline, by deadline and then by arming time. */
  ghost predicate Represents<K>(q: seq<Armed<K>>, steps: seq<Step<K>>) {
    && (forall i, j {:trigger InTurn(q, steps, i, j)} :: 0 <= i < j < |q| ==> InTurn(q, steps, i, j))
    && (forall e {:trigger Latest(steps, e)} :: e in q ==> Latest(steps, e))
    && (forall k {:trigger steps[k]} :: 0 <= k < |steps| && ArmedAt(steps, steps[k].id) >= 0 ==> Pending(q, steps[k].id))
  }

  lemma RepresentsDistinct<K>(q: seq<Armed<K>>, steps: seq<Step<K>>)
    requires Represents(q, steps)
    ensures Sorted(q) && Distinct(q)
  {
    forall i, j | 0 <= i < j < |q|
      ensures q[i].due <= q[j].due && q[i].id != q[j].id
    {
      assert InTurn(q, steps, i, j) && Latest(steps, q[i]) && Latest(steps, q[j]);
    }
  }

  lemma CancelRepresents<K>(q: seq<Armed<K>>, steps: seq<Step<K>>, id: K, next: seq<Step<K>>)
    requires Represents(q, steps) && next == steps + [DoCancel(id)]
    ensures Represents(Cancel(q, id), next)
  {
    RepresentsDistinct(q, steps);
    CancelKeeps(q, id);
    assert next[..|next| - 1] == steps;
    var r := Cancel(q, id);
    forall a
      ensures ArmedAt(next, a) == if a == id then -1 else ArmedAt(steps, a)
    {
    }
    forall e | e in r
      ensures Latest(next, e)
    {
      CancelMembers(q, id, e);
      assert Latest(steps, e);
    }
    CancelTurns(q, steps, id, next);
    forall k | 0 <= k < |next| && ArmedAt(next, next[k].id) >= 0
      ensures Pending(r, next[k].id)
    {
      assert k < |steps| && next[k] == steps[k];
      assert Pending(q, steps[k].id);
    }
  }

  lemma CancelTurns<K>(q: seq<Armed<K>>, steps: seq<Step<K>>, id: K, next: seq<Step<K>>)
    requires Represents(q, steps) && Distinct(q)
    requires forall a :: a != id ==> ArmedAt(next, a) == ArmedAt(steps, a)
    ensures var r := Cancel(q, id);
      forall i, j {:trigger InTurn(r, next, i, j)} :: 0 <= i < j < |r| ==> InTurn(r, next, i, j)
  {
    var r := Cancel(q, id);
    var k := |q|;
    if Pending(q, id) {
      k :| 0 <= k < |q| && q[k].id == id;
      CancelAt(q, k);
    } else {
      CancelAbsent(q, id);
    }
    forall i, j | 0 <= i < j < |r|
      ensures InTurn(r, next, i, j)
    {
      var i', j' := if i < k then i else i + 1, if j < k then j else j + 1;
      assert r[i] == q[i'] && r[j] == q[j'] && InTurn(q, steps, i', j');
      CancelMembers(q, id, r[i]);
      CancelMembers(q, id, r[j]);
    }
  }

  /** The cancelled entry apart, arming adds one entry behind all with that deadline. */
  lemma ArmRepresents<K>(q: seq<Armed<K>>, steps: seq<Step<K>>, id: K, due: int, next: seq<Step<K>>)
    requires Represents(q, steps) && next == steps + [DoArm(id, due)]
    ensures Represents(Arm(q, id, due), next)
  {
    var r, c := Cancel(q, id), steps + [DoCancel(id)];
    CancelRepresents(q, steps, id, c);
    RepresentsDistinct(q, steps);
    CancelKeeps(q, id);
    assert c[..|c| - 1] == steps && next[..|next| - 1] == steps;
    forall a
      ensures ArmedAt(next, a) == if a == id then |c| - 1 else ArmedAt(c, a)
      ensures a != id ==> ArmedAt(c, a) < |c| - 1
    {
    }
    var s := Arm(q, id, due);
    ArmTurns(r, c, id, due, next, s);
    forall e | e in s
      ensures Latest(next, e)
    {
      InsertMembers(r, Armed(id, due), e);
      CancelMembers(q, id, e);
      assert e in r ==> Latest(c, e);
    }
    forall k | 0 <= k < |next| && ArmedAt(next, next[k].id) >= 0
      ensures Pending(s, next[k].id)
    {
      InsertPending(r, Armed(id, due), next[k].id);
      assert next[k].id != id ==> c[k].id == next[k].id && Pending(r, c[k].id);
    }
  }

  lemma {:induction false} InsertMembers<K>(q: seq<Armed<K>>, e: Armed<K>, f: Armed<K>)
    ensures f in Insert(q, e) <==> f == e || f in q
  {
    if q != [] {
      InsertMembers(q[1..], e, f);
    }
  }

  lemma ArmTurn<K>(r: seq<Armed<K>>, c: seq<Step<K>>, e: Armed<K>, k: nat, s: seq<Armed<K>>, next: seq<Step<K>>,
                         i: nat, j: nat)
    requires k <= |r| && s == r[..k] + [e] + r[k..] && i < j < |s|
    requires forall m :: 0 <= m < k ==> r[m].due <= e.due
    requires forall m :: k <= m < |r| ==> e.due < r[m].due
    requires forall m :: 0 <= m < |r| ==> ArmedAt(next, r[m].id) == ArmedAt(c, r[m].id) < ArmedAt(next, e.id)
    requires forall m, n {:trigger InTurn(r, c, m, n)} :: 0 <= m < n < |r| ==> InTurn(r, c, m, n)
    ensures InTurn(s, next, i, j)
  {
    if i == k {
      assert s[j] == r[j - 1];
    } else if j == k {
      assert s[i] == r[i];
    } else {
      var i', j' := if i < k then i else i - 1, if j < k then j else j - 1;
      assert s[i] == r[i'] && s[j] == r[j'];
      assert InTurn(r, c, i', j');
    }
  }

  lemma ArmTurns<K>(r: seq<Armed<K>>, c: seq<Step<K>>, id: K, due: int, next: seq<Step<K>>, s: seq<Armed<K>>)
    requires Represents(r, c) && !Pending(r, id) && |next| == |c|
    requires forall a :: ArmedAt(next, a) == if a == id then |c| - 1 else ArmedAt(c, a)
    requires forall a :: a != id ==> ArmedAt(c, a) < |c| - 1
    requires s == Insert(r, Armed(id, due))
    ensures forall i, j {:trigger InTurn(s, next, i, j)} :: 0 <= i < j < |s| ==> InTurn(s, next, i, j)
  {
    assert Sorted(r) by { RepresentsDistinct(r, c); }
    hide ArmedAt, InTurn, Latest;
    var k := Slot(r, due);
    InsertAt(r, Armed(id, due), k);
    forall m | 0 <= m < |r|
      ensures r[m].id != id
    {
    }
    forall i, j | 0 <= i < j < |s|
      ensures InTurn(s, next, i, j)
    {
      ArmTurn(r, c, Armed(id, due), k, s, next, i, j);
    }
  }

  /** After every history of arming and cancelling the queue is the one the history calls for. */
  lemma {:induction false} HistoryRepresented<K>(steps: seq<Step<K>>)
    ensures Represents(After(steps), steps)
  {
    if steps != [] {
      var before, last := steps[..|steps| - 1], steps[|steps| - 1];
      HistoryRepresented(before);
      assert steps == before + [last];
      match last
      case DoArm(id, due) => ArmRepresents(After(before), before, id, due, steps);
      case DoCancel(id) => CancelRepresents(After(before), before, id, steps);
    }
  }

  // ----- Running the due alarms -----

  /** The alarms due at `now`, latest deadline first. */
  function DueLatestFirst<K>(q: seq<Armed<K>>, now: int): (ids: seq<K>) {
    var k := Slot(q, now);
    seq(k, i requires 0 <= i < k => q[k - 1 - i].id)
  }

  /** What a callback does to the queue: it arms alarms, and it may disarm. */
  datatype Op<K> = Rearm(id: K, due: int) | Disarm(id: K)

  function ApplyOne<K(==)>(q: seq<Armed<K>>, op: Op<K>): seq<Armed<K>> {
    match op
    case Rearm(id, due) => Arm(q, id, due)
    case Disarm(id) => Cancel(q, id)
  }

  function Apply<K(==)>(q: seq<Armed<K>>, ops: seq<Op<K>>): seq<Armed<K>>
    decreases ops
  {
    if ops == [] then q else Apply(ApplyOne(q, ops[0]), ops[1..])
  }

  /** Each alarm in turn leaves the queue, and then its callback acts. */
  function RunAll<K(==)>(q: seq<Armed<K>>, ids: seq<K>, script: seq<seq<Op<K>>>): seq<Armed<K>>
    requires |ids| == |script|
    decreases ids
  {
    if ids == [] then q else RunAll(Apply(Cancel(q, ids[0]), script[0]), ids[1..], script[1..])
  }

  /** No callback disarms any alarm but its own. */
  ghost predicate Relinks<K>(ids: seq<K>, script: seq<seq<Op<K>>>)
    requires |ids| == |script|
  {
    forall i, j {:trigger script[i][j]} :: 0 <= i < |ids| && 0 <= j < |script[i]| ==>
      script[i][j].Disarm? ==> script[i][j].id == ids[i]
  }

  /** Every alarm of the run is still in the queue when its turn comes. */
  ghost predicate EachLinked<K>(q: seq<Armed<K>>, ids: seq<K>, script: seq<seq<Op<K>>>)
    requires |ids| == |script|
    decreases ids
  {
    ids == [] || (Pending(q, ids[0]) && EachLinked(Apply(Cancel(q, ids[0]), script[0]), ids[1..], script[1..]))
  }

  // ----- Runs as parts of a history -----

  function StepOf<K>(op: Op<K>): Step<K> {
    match op
    case Rearm(id, due) => DoArm(id, due)
    case Disarm(id) => DoCancel(id)
  }

  function StepsOf<K>(ops: seq<Op<K>>): seq<Step<K>> {
    if ops == [] then [] else [StepOf(ops[0])] + StepsOf(ops[1..])
  }

  /** A run as steps: each alarm is cancelled, and then its callback acts. */
  function RunSteps<K>(ids: seq<K>, script: seq<seq<Op<K>>>): seq<Step<K>>
    requires |ids| == |script|
    decreases ids
  {
    if ids == [] then [] else [DoCancel(ids[0])] + StepsOf(script[0]) + RunSteps(ids[1..], script[1..])
  }

  lemma AfterOne<K>(steps: seq<Step<K>>, step: Step<K>)
    ensures After(steps + [step]) == Take(After(steps), step)
  {
    assert (steps + [step])[..|steps|] == steps;
  }

  lemma OpIsStep<K>(q: seq<Armed<K>>, op: Op<K>)
    ensures ApplyOne(q, op) == Take(q, StepOf(op))
  {
  }

  lemma Joined<T>(a: seq<T>, b: seq<T>, c: seq<T>)
    ensures (a + b) + c == a + (b + c)
  {
  }

  lemma {:induction false} ApplyIsSteps<K>(steps: seq<Step<K>>, ops: seq<Op<K>>)
    ensures Apply(After(steps), ops) == After(steps + StepsOf(ops))
    decreases ops
  {
    if ops == [] {
      assert steps + [] == steps;
    } else {
      var first, rest := StepOf(ops[0]), StepsOf(ops[1..]);
      assert StepsOf(ops) == [first] + rest;
      AfterOne(steps, first);
      OpIsStep(After(steps), ops[0]);
      Joined(steps, [first], rest);
      hide After, Take, ApplyOne, StepOf, StepsOf;
      ApplyIsSteps(steps + [first], ops[1..]);
    }
  }

  /** Running alarms after a history is a longer history, so all that holds after every history holds
      after every mixture of arming, deleting and running. */
  lemma {:induction false} RunIsSteps<K>(steps: seq<Step<K>>, ids: seq<K>, script: seq<seq<Op<K>>>)
    requires |ids| == |script|
    ensures RunAll(After(steps), ids, script) == After(steps + RunSteps(ids, script))
    decreases ids
  {
    if ids == [] {
      assert steps + [] == steps;
    } else {
      var gone, own, rest := [DoCancel(ids[0])], StepsOf(script[0]), RunSteps(ids[1..], script[1..]);
      assert RunSteps(ids, script) == gone + own + rest;
      AfterOne(steps, DoCancel(ids[0]));
      assert RunAll(After(steps), ids, script) ==
        RunAll(Apply(After(steps + gone), script[0]), ids[1..], script[1..]);
      Joined(steps, gone, own);
      Joined(steps, gone + own, rest);
      hide After, Apply, Cancel, StepsOf, RunSteps, RunAll, Take;
      ApplyIsSteps(steps + gone, script[0]);
      RunIsSteps(steps + gone + own, ids[1..], script[1..]);
    }
  }

  lemma ApplyStep<K>(q: seq<Armed<K>>, ops: seq<Op<K>>, i: nat)
    requires i < |ops|
    ensures Apply(q, ops[i..]) == Apply(ApplyOne(q, ops[i]), ops[i + 1..])
  {
    assert ops[i..][0] == ops[i] && ops[i..][1..] == ops[i + 1..];
  }

  lemma RunNone<K>(q: seq<Armed<K>>, ids: seq<K>, script: seq<seq<Op<K>>>)
    requires |ids| == |script|
    ensures RunAll(q, ids[|ids|..], script[|ids|..]) == q
  {
  }

  lemma RunStep<K>(q: seq<Armed<K>>, ids: seq<K>, script: seq<seq<Op<K>>>, i: nat)
    requires i < |ids| == |script| && EachLinked(q, ids[i..], script[i..])
    ensures var r := Apply(Cancel(q, ids[i]), script[i]);
      && Pending(q, ids[i]) && EachLinked(r, ids[i + 1..], script[i + 1..])
      && RunAll(q, ids[i..], script[i..]) == RunAll(r, ids[i + 1..], script[i + 1..])
  {
    assert ids[i..][0] == ids[i] && ids[i..][1..] == ids[i + 1..];
    assert script[i..][0] == script[i] && script[i..][1..] == script[i + 1..];
  }

  lemma {:induction false} ApplyKeeps<K>(q: seq<Armed<K>>, ops: seq<Op<K>>, own: K)
    requires Sorted(q) && Distinct(q) && (forall j :: 0 <= j < |ops| ==> ops[j].Disarm? ==> ops[j].id == own)
    ensures Sorted(Apply(q, ops)) && Distinct(Apply(q, ops))
    ensures forall a :: a != own && Pending(q, a) ==> Pending(Apply(q, ops), a)
    decreases ops
  {
    if ops != [] {
      match ops[0] {
        case Rearm(id, due) => ArmKeeps(q, id, due);
        case Disarm(id) => CancelKeeps(q, id);
      }
      ApplyKeeps(ApplyOne(q, ops[0]), ops[1..], own);
    }
  }

  /** Whatever the callbacks re-arm, no alarm of the run is missing when its turn comes. */
  lemma {:induction false} RunFindsEachLinked<K>(q: seq<Armed<K>>, ids: seq<K>, script: seq<seq<Op<K>>>)
    requires |ids| == |script| && Relinks(ids, script) && Sorted(q) && Distinct(q)
    requires forall i, j :: 0 <= i < j < |ids| ==> ids[i] != ids[j]
    requires forall i :: 0 <= i < |ids| ==> Pending(q, ids[i])
    ensures EachLinked(q, ids, script)
    ensures Sorted(RunAll(q, ids, script)) && Distinct(RunAll(q, ids, script))
    decreases ids
  {
    if ids != [] {
      var r := Cancel(q, ids[0]);
      CancelKeeps(q, ids[0]);
      ApplyKeeps(r, script[0], ids[0]);
      forall i, j | 0 <= i < |ids[1..]| && 0 <= j < |script[1..][i]|
        ensures script[1..][i][j].Disarm? ==> script[1..][i][j].id == ids[1..][i]
      {
        assert script[1..][i][j] == script[i + 1][j];
      }
      forall i | 0 <= i < |ids[1..]|
        ensures Pending(Apply(r, script[0]), ids[1..][i])
      {
        assert ids[1..][i] == ids[i + 1] && Pending(r, ids[i + 1]);
      }
      RunFindsEachLinked(Apply(r, script[0]), ids[1..], script[1..]);
    }
  }

  /** The run is made of exactly the alarms due at `now`, each once, latest deadline first. */
  lemma DueExactly<K>(q: seq<Armed<K>>, now: int)
    requires Sorted(q) && Distinct(q)
    ensures var ids := DueLatestFirst(q, now);
      && (forall i, j :: 0 <= i < j < |ids| ==> ids[i] != ids[j])
      && (forall i :: 0 <= i < |ids| ==> Pending(q, ids[i]))
      && (forall e :: e in q ==> (e.id in ids <==> e.due <= now))
      && (forall d, e :: d in q && e in q && d.due < e.due <= now ==> Precedes(ids, e.id, d.id))
  {
    var ids, k := DueLatestFirst(q, now), Slot(q, now);
    forall i | 0 <= i < |ids|
      ensures Pending(q, ids[i])
    {
      assert q[k - 1 - i].id == ids[i];
    }
    forall e | e in q
      ensures e.id in ids <==> e.due <= now
    {
      DueOne(q, now, e);
    }
    forall d, e | d in q && e in q && d.due < e.due <= now
      ensures Precedes(ids, e.id, d.id)
    {
      DueTwo(q, now, d, e);
    }
  }

  lemma DueTwo<K>(q: seq<Armed<K>>, now: int, d: Armed<K>, e: Armed<K>)
    requires Sorted(q) && d in q && e in q && d.due < e.due <= now
    ensures Precedes(DueLatestFirst(q, now), e.id, d.id)
  {
    var ids, k := DueLatestFirst(q, now), Slot(q, now);
    var m :| 0 <= m < |q| && q[m] == d;
    var n :| 0 <= n < |q| && q[n] == e;
    assert m < n < k;
    assert ids[k - 1 - n] == e.id && ids[k - 1 - m] == d.id;
  }

  ghost predicate Precedes<K>(ids: seq<K>, a: K, b: K) {
    exists i, j :: 0 <= i < j < |ids| && ids[i] == a && ids[j] == b
  }

  lemma DueOne<K>(q: seq<Armed<K>>, now: int, e: Armed<K>)
    requires Sorted(q) && Distinct(q) && e in q
    ensures e.id in DueLatestFirst(q, now) <==> e.due <= now
  {
    var ids, k := DueLatestFirst(q, now), Slot(q, now);
    var n :| 0 <= n < |q| && q[n] == e;
    if n < k {
      assert ids[k - 1 - n] == e.id;
    }
    if e.id in ids {
      var i :| 0 <= i < |ids| && ids[i] == e.id;
      assert q[k - 1 - i].id == e.id;
    }
  }

  // ----- Alarms a run leaves alone -----

  lemma {:induction false} ApplyLeaves<K>(q: seq<Armed<K>>, ops: seq<Op<K>>, e: Armed<K>)
    requires e in q && forall j :: 0 <= j < |ops| ==> ops[j].id != e.id
    ensures e in Apply(q, ops)
    decreases ops
  {
    if ops != [] {
      match ops[0] {
        case Rearm(id, due) =>
          CancelMembers(q, id, e);
          InsertMembers(Cancel(q, id), Armed(id, due), e);
        case Disarm(id) => CancelMembers(q, id, e);
      }
      ApplyLeaves(ApplyOne(q, ops[0]), ops[1..], e);
    }
  }

  /** An alarm that is not due and that no callback touches keeps its deadline. */
  lemma {:induction false} RunLeaves<K>(q: seq<Armed<K>>, ids: seq<K>, script: seq<seq<Op<K>>>, e: Armed<K>)
    requires |ids| == |script| && e in q && e.id !in ids
    requires forall i, j {:trigger script[i][j]} :: 0 <= i < |script| && 0 <= j < |script[i]| ==> script[i][j].id != e.id
    ensures e in RunAll(q, ids, script)
    decreases ids
  {
    if ids != [] {
      CancelMembers(q, ids[0], e);
      ApplyLeaves(Cancel(q, ids[0]), script[0], e);
      forall i, j | 0 <= i < |script[1..]| && 0 <= j < |script[1..][i]|
        ensures script[1..][i][j].id != e.id
      {
        assert script[1..][i][j] == script[i + 1][j];
      }
      RunLeaves(Apply(Cancel(q, ids[0]), script[0]), ids[1..], script[1..], e);
    }
  }
}
