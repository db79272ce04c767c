/** The daemon as it runs: the global `data` and the functions that change it step by step, each
    proved to do what the functions of `Node` say. */
module Daemon {
  import opened Config
  import opened Routes
  import opened AlarmSpec
  import Spec = Node
  import opened Wrappers

  class Data {
    const ip: Addr
    const broadcast: Addr
    var seqNum: U32
    var rreqId: U32
    var table: seq<Route>
    var requests: seq<Spec.Request>
    var held: seq<Spec.Held>
    var timers: seq<Armed<Spec.TimerId>>
    var nextId: nat
    ghost var sent: seq<Spec.Message>
    ghost var handed: seq<U32>
    ghost var accepted: seq<U32>
    ghost var dropped: seq<U32>
    ghost var invalidSince: map<nat, int>
    ghost var destroyed: seq<Spec.Destruction>

    ghost function State(): Spec.Node
      reads this
    {
      Spec.Node(ip, broadcast, seqNum, rreqId, table, requests, held, timers, nextId,
                sent, handed, accepted, dropped, invalidSince, destroyed)
    }

    constructor (ip: Addr, broadcast: Addr)
      ensures State() == Spec.Initial(ip, broadcast)
    {
      this.ip, this.broadcast := ip, broadcast;
      seqNum, rreqId, nextId := 0, 0, 0;
      table, requests, held, timers := [], [], [], [];
      sent, handed, accepted, dropped, invalidSince, destroyed := [], [], [], [], map[], [];
    }

    // ----- packets_fifo.c -----

    /** `packets_fifo_process_route`: the packet at hand may leave the list while it is walked. */
    method ProcessPackets(r: Route)
      modifies this`held, this`accepted
      ensures State() == Spec.ProcessRoute(old(State()), r)
    {
      hide Covers, Spec.NotMatching, Spec.Matching;
      var i := 0;
      while i < |held|
        invariant i <= |held|
        invariant Spec.NotMatching(old(held), r) == held[..i] + Spec.NotMatching(held[i..], r)
        invariant old(accepted) + Spec.Matching(old(held), r) == accepted + Spec.Matching(held[i..], r)
        decreases |held| - i
      {
        WalkRoute(held, i, r);
        if Covers(r, held[i].dst) {
          accepted := accepted + [held[i].id];
          ghost var rest := held[i + 1..];
          held := held[..i] + held[i + 1..];
          assert held[i..] == rest;
        } else {
          assert held[..i + 1] == held[..i] + [held[i]];
          i := i + 1;
        }
      }
      assert held[..i] == held && held[i..] == [];
      WalkRouteEnd(r);
    }

    /** `packets_fifo_drop_packets`. */
    method DropPackets(dst: Addr)
      modifies this`held, this`dropped
      ensures State() == Spec.DropPackets(old(State()), dst)
    {
      hide Covers, Spec.NotFor, Spec.IdsFor;
      var i := 0;
      while i < |held|
        invariant i <= |held|
        invariant Spec.NotFor(old(held), dst) == held[..i] + Spec.NotFor(held[i..], dst)
        invariant old(dropped) + Spec.IdsFor(old(held), dst) == dropped + Spec.IdsFor(held[i..], dst)
        decreases |held| - i
      {
        WalkDrop(held, i, dst);
        if held[i].dst == dst {
          dropped := dropped + [held[i].id];
          ghost var rest := held[i + 1..];
          held := held[..i] + held[i + 1..];
          assert held[i..] == rest;
        } else {
          assert held[..i + 1] == held[..i] + [held[i]];
          i := i + 1;
        }
      }
      assert held[..i] == held && held[i..] == [];
      WalkDropEnd(dst);
    }

    // ----- routing_table.c and msh_route.c -----

    /** `routing_table_find_by_ip`. */
    method FindByIp(a: Addr) returns (o: Option<Route>)
      ensures o == Find(table, a)
    {
      var i := 0;
      while i < |table|
        invariant i <= |table|
        invariant Find(table, a) == Find(table[i..], a)
      {
        if Covers(table[i], a) { return Some(table[i]); }
        i := i + 1;
      }
      o := None;
    }

    /** `msh_route_add_precursor`. */
    method AddPrecursorTo(r: Route, a: Addr) returns (r1: Route)
      ensures r1 == AddPrecursor(r, a)
    {
      var i := 0;
      while i < |r.precursors|
        invariant i <= |r.precursors| && a !in r.precursors[..i]
      {
        if r.precursors[i] == a { return r; }
        i := i + 1;
      }
      r1 := r.(precursors := [a] + r.precursors);
    }

    /** `msh_route_set_lifetime`. */
    method SetRouteLifetime(r: Route, ms: nat, now: int)
      modifies this`table, this`timers
      ensures State() == Spec.SetLifetime(old(State()), r, ms, now)
    {
      table := WithRoute(table, r.(valid := true, action := UnsetValidEntry));
      timers := Arm(timers, Spec.RouteTimer(r.rid), Spec.Due(now, ms));
    }

    /** `routing_table_add`. */
    method RoutingTableAdd(r: Route, now: int)
      modifies this`table, this`timers, this`held, this`accepted
      ensures State() == Spec.AddRoute(old(State()), r, now)
    {
      var found := FindByIp(r.dst);
      if found.Some? { return; }
      var r1 := r.(valid := true, action := UnsetValidEntry);
      timers := Arm(timers, Spec.RouteTimer(r.rid), Spec.Due(now, ACTIVE_ROUTE_TIMEOUT));
      table := [r1] + table;
      ProcessPackets(r1);
    }

    /** The start of `aodv_process_rreq` and of `aodv_process_rrep`. */
    method TouchPrevHop(from: Addr, now: int)
      modifies this`table, this`timers, this`held, this`accepted, this`nextId
      ensures State() == Spec.TouchPrevHop(old(State()), from, now)
    {
      var found := FindByIp(from);
      match found
      case Some(r) => SetRouteLifetime(r, ACTIVE_ROUTE_TIMEOUT, now);
      case None =>
        var r := NewRoute(nextId, from).(nextHop := from);
        nextId := nextId + 1;
        RoutingTableAdd(r, now);
    }

    /** One half of `routing_table_update_route`. */
    method RefreshTo(a: Addr, now: int)
      modifies this`table, this`timers
      ensures State() == Spec.RefreshTo(old(State()), a, now)
    {
      var found := FindByIp(a);
      if found.Some? {
        SetRouteLifetime(found.value, ACTIVE_ROUTE_TIMEOUT, now);
        if found.value.nextHop != a {
          var next := FindByIp(found.value.nextHop);
          if next.Some? {
            SetRouteLifetime(next.value, ACTIVE_ROUTE_TIMEOUT, now);
          }
        }
      }
    }

    /** `routing_table_update_route`. */
    method UpdateRoute(dst: Addr, orig: Addr, now: int) returns (ok: bool)
      modifies this`table, this`timers
      ensures ok == Spec.Routable(old(State()), dst)
      ensures State() == Spec.UpdateRoute(old(State()), dst, orig, now)
    {
      if dst != ip {
        var found := FindByIp(dst);
        if found.None? || !found.value.valid { return false; }
        RefreshTo(dst, now);
      }
      if orig != 0 {
        RefreshTo(orig, now);
      }
      ok := true;
    }

    // ----- rreq_fifo.c -----

    /** `rreq_fifo_contains`. */
    method Contains(id: U32, dst: Addr) returns (found: bool)
      ensures found == Spec.Contains(requests, id, dst)
    {
      for i := 0 to |requests|
        invariant forall j :: 0 <= j < i ==> requests[j].id != id || requests[j].dst != dst
      {
        if requests[i].id == id && requests[i].dst == dst { return true; }
      }
      found := false;
    }

    /** `rreq_fifo_waiting_response_for`. */
    method WaitingResponseFor(dst: Addr) returns (found: bool)
      ensures found == Spec.Waiting(requests, dst)
    {
      for i := 0 to |requests|
        invariant forall j :: 0 <= j < i ==> requests[j].tries < 0 || requests[j].dst != dst
      {
        if requests[i].tries >= 0 && requests[i].dst == dst { return true; }
      }
      found := false;
    }

    /** `rreq_fifo_push` and `rreq_fifo_push_owned`. */
    method PushRequest(id: U32, dst: Addr, tries: int, now: int)
      requires tries >= -1
      modifies this`requests, this`timers, this`nextId
      ensures State() == Spec.PushRequest(old(State()), id, dst, tries, now)
    {
      var ms := if tries < 0 then PATH_DISCOVERY_TIME else BackoffTime(tries);
      timers := Arm(timers, Spec.RequestTimer(nextId), Spec.Due(now, ms));
      requests := [Spec.Request(nextId, id, dst, tries)] + requests;
      nextId := nextId + 1;
    }

    /** `__rreq_fifo_entry_delete`. */
    method DeleteEntry(eid: nat)
      modifies this`requests, this`timers
      ensures State() == Spec.DeleteRequest(old(State()), eid)
    {
      timers := Cancel(timers, Spec.RequestTimer(eid));
      requests := Spec.WithoutRequest(requests, eid);
    }

    /** `rreq_fifo_del`. */
    method DeleteAnswered(id: U32, dst: Addr)
      modifies this`requests, this`timers
      ensures State() == Spec.Answered(old(State()), id, dst)
    {
      var i := 0;
      while i < |requests|
        invariant i <= |requests|
        invariant requests == old(requests) && timers == old(timers)
        invariant Spec.OldEnough(requests, id, dst) == Spec.OldEnough(requests[i..], id, dst)
      {
        if requests[i].id <= id && requests[i].dst == dst {
          DeleteEntry(requests[i].eid);
          return;
        }
        i := i + 1;
      }
    }

    // ----- logic.c -----

    /** `aodv_find_route`. */
    method FindRoute(dest: Addr, tries: nat, now: int)
      modifies this`seqNum, this`rreqId, this`requests, this`timers, this`nextId, this`sent
      ensures State() == Spec.FindRoute(old(State()), dest, tries, now)
    {
      seqNum := Increment(seqNum);
      rreqId := Increment(rreqId);
      if tries == 0 {
        PushRequest(rreqId, dest, 0, now);
      }
      var flags: U8 := Spec.GRATUITOUS_FLAG + Spec.UNKNOWN_SEQ_FLAG;
      sent := sent + [Spec.Rreq(RingTtl(0, tries), flags, 0, rreqId, dest, 0, ip, seqNum)];
    }

    /** `manage_output_packet`. */
    method ManageOutput(id: U32, dest: Addr, now: int)
      modifies this
      ensures State() == Spec.Output(old(State()), id, dest, now)
    {
      handed := handed + [id];
      if dest == broadcast {
        accepted := accepted + [id];
        return;
      }
      var ok := UpdateRoute(dest, 0, now);
      if ok {
        accepted := accepted + [id];
      } else {
        held := [Spec.Held(id, dest)] + held;
        var waiting := WaitingResponseFor(dest);
        if !waiting {
          FindRoute(dest, 0, now);
        }
      }
    }

    /** `manage_forward_packet`. */
    method ManageForward(id: U32, dest: Addr, orig: Addr, now: int)
      modifies this
      ensures State() == Spec.Forward(old(State()), id, dest, orig, now)
    {
      handed := handed + [id];
      if dest != broadcast {
        var _ := UpdateRoute(dest, orig, now);
      }
      accepted := accepted + [id];
    }

    /** The middle of `aodv_process_rreq`. */
    method SetReverseRoute(from: Addr, p: Spec.Message, life: Option<nat>, now: int)
      requires p.Rreq?
      modifies this`table, this`timers, this`held, this`accepted, this`nextId
      ensures State() == Spec.ReverseRoute(old(State()), from, p, life, now)
    {
      var found := FindByIp(p.orig);
      if found.Some? {
        var r := found.value.(seqValid := true, nextHop := from, hops := p.hops);
        if Signed(r.seqNum) < Signed(p.origSeq) {
          r := r.(seqNum := p.origSeq);
        }
        table := WithRoute(table, r);
        if life.Some? {
          SetRouteLifetime(r, life.value, now);
        }
      } else {
        var r := NewRoute(nextId, p.orig).(seqNum := p.origSeq, nextHop := from, hops := p.hops, seqValid := true);
        nextId := nextId + 1;
        timers := Arm(timers, Spec.RouteTimer(r.rid), Spec.Due(now, if life.Some? then life.value else 0));
        RoutingTableAdd(r, now);
      }
    }

    /** `aodv_answer_to_rreq`. */
    method AnswerRreq(from: Addr, p: Spec.Message) returns (answered: bool)
      requires p.Rreq?
      modifies this`seqNum, this`table, this`sent
      ensures answered == Spec.Answers(old(State()), p)
      ensures State() == if answered then Spec.AnswerRreq(old(State()), from, p) else old(State())
    {
      if p.dest == ip {
        if p.destSeq == seqNum {
          seqNum := Increment(seqNum);
        }
        sent := sent + [Spec.Rrep(from, Spec.DEFAULT_TTL, 0, ip, seqNum, p.orig)];
        return true;
      }
      var found := FindByIp(p.dest);
      if found.None? || Signed(p.destSeq) < Signed(seqNum) || Spec.DestOnly(p.flags) { return false; }
      var toDest := AddPrecursorTo(found.value, from);
      table := WithRoute(table, toDest);
      var back := FindByIp(p.orig);
      if back.Some? {
        var toOrig := AddPrecursorTo(back.value, toDest.nextHop);
        table := WithRoute(table, toOrig);
      }
      answered := true;
    }

    /** `aodv_process_rreq`. */
    method ProcessRreq(from: Addr, p: Spec.Message, life: Option<nat>, now: int)
      requires p.Rreq?
      modifies this
      ensures State() == Spec.ProcessRreq(old(State()), from, p, life, now)
    {
      hide Find, Spec.TouchPrevHop, Spec.PushRequest, Spec.ReverseRoute, Spec.AnswerRreq, Spec.Answers, Spec.Contains;
      TouchPrevHop(from, now);
      var seen := Contains(p.id, p.dest);
      if seen { return; }
      PushRequest(p.id, p.dest, -1, now);
      SetReverseRoute(from, p, life, now);
      var answered := AnswerRreq(from, p);
      if !answered && p.ttl > 1 {
        sent := sent + [Spec.Relayed(p)];
      }
    }

    /** `msh_route_add_precursor` on the route to `a`. */
    method NotePrecursor(a: Addr, precursor: Addr)
      modifies this`table
      ensures State() == Spec.NotePrecursor(old(State()), a, precursor)
    {
      var found := FindByIp(a);
      if found.Some? {
        var r := AddPrecursorTo(found.value, precursor);
        table := WithRoute(table, r);
      }
    }

    /** The end of `aodv_process_rrep`. */
    method PassOn(from: Addr, p: Spec.Message, hops: U8, life: Spec.Lifetimes, now: int)
      requires p.Rrep?
      modifies this`table, this`timers, this`sent
      ensures State() == Spec.PassOn(old(State()), from, p, hops, life, now)
    {
      hide Find, AddPrecursor, Spec.SetLifetime, Spec.NotePrecursor;
      var back := FindByIp(p.orig);
      if back.None? { return; }
      var next := back.value.nextHop;
      sent := sent + [Spec.Rrep(next, (p.ttl + 0xFF) % 0x100, hops, p.dest, p.destSeq, p.orig)];
      if p.dest != next {
        NotePrecursor(p.dest, next);
      }
      if life.next.Some? {
        var r := FindByIp(next);
        if r.Some? {
          SetRouteLifetime(r.value, life.next.value, now);
        }
      }
      NotePrecursor(from, next);
    }

    /** The forward route, created if there is none. */
    method SetForwardRoute(from: Addr, p: Spec.Message, now: int) returns (created: bool)
      requires p.Rrep?
      modifies this`table, this`timers, this`held, this`accepted, this`nextId
      ensures created == Find(old(table), p.dest).None?
      ensures State() == Spec.ForwardRoute(old(State()), from, p, now)
    {
      hide Spec.AddRoute;
      var toDest := FindByIp(p.dest);
      created := toDest.None?;
      if created {
        var r := NewRoute(nextId, p.dest).(nextHop := from, seqNum := p.destSeq, seqValid := true);
        nextId := nextId + 1;
        RoutingTableAdd(r, now);
      }
    }

    /** `aodv_process_rrep`. */
    method ProcessRrep(from: Addr, p: Spec.Message, life: Spec.Lifetimes, now: int)
      requires p.Rrep?
      modifies this
      ensures State() == Spec.ProcessRrep(old(State()), from, p, life, now)
    {
      hide Find, WithRoute, Arm, Spec.PassOn, Spec.Answered, Spec.ForwardRoute;
      hide Spec.TouchPrevHop, Spec.SetLifetime, Spec.Supersedes;
      TouchPrevHop(from, now);
      var hops: U8 := (p.hops + 1) % 0x100;
      var created := SetForwardRoute(from, p, now);
      var toDest := FindByIp(p.dest);
      if toDest.None? { return; }
      if created || Spec.Supersedes(toDest.value, p, hops) {
        var r := toDest.value.(seqNum := p.destSeq, seqValid := true, nextHop := from, hops := hops);
        table := WithRoute(table, r);
        SetRouteLifetime(r, life.forward, now);
        if ip == p.orig {
          DeleteAnswered(rreqId, p.dest);
        } else {
          PassOn(from, p, hops, life, now);
        }
      }
    }

    /** `aodv_process_packet`. */
    method ProcessPacket(from: Addr, p: Spec.Message, reverse: Option<nat>, life: Spec.Lifetimes, now: int)
      modifies this
      ensures State() == Spec.Receive(old(State()), from, p, reverse, life, now)
    {
      if from == ip { return; }
      if p.Rreq? {
        ProcessRreq(from, p, reverse, now);
      } else {
        ProcessRrep(from, p, life, now);
      }
    }

    // ----- Alarms -----

    /** `__msh_route_alarm_cb`. */
    method RouteAlarm(rid: nat, now: int)
      modifies this`table, this`timers, this`invalidSince, this`destroyed
      ensures State() == Spec.RouteAlarm(old(State()), rid, now)
    {
      var found := ById(table, rid);
      if found.None? { return; }
      var r := found.value;
      if r.action == UnsetValidEntry {
        table := WithRoute(table, r.(valid := false, action := DestroyRoute));
        invalidSince := invalidSince[rid := now];
        timers := Arm(timers, Spec.RouteTimer(rid), Spec.Due(now, DELETE_PERIOD));
      } else if r.action == DestroyRoute {
        destroyed := destroyed + [Spec.Destruction(rid, if rid in invalidSince then invalidSince[rid] else now, now)];
        table := WithoutRoute(table, rid);
        timers := Cancel(timers, Spec.RouteTimer(rid));
      }
    }

    /** `__rreq_fifo_alarm_cb`: the destination is saved before the entry may be freed. */
    method RequestAlarm(eid: nat, now: int)
      modifies this
      ensures State() == Spec.RequestAlarm(old(State()), eid, now)
    {
      hide Arm, WithRoute, Find, Spec.UpdateRoute, Spec.FindRoute, Spec.RequestById, Spec.WithRequest;
      var found := Spec.RequestById(requests, eid);
      if found.None? { return; }
      var q := found.value;
      var dst := q.dst;
      if q.tries < 0 {
        DeleteEntry(eid);
        return;
      }
      q := q.(tries := q.tries + 1);
      if q.tries > RREQ_RETRIES {
        DeleteEntry(eid);
        DropPackets(dst);
        return;
      }
      requests := Spec.WithRequest(requests, q);
      var _ := UpdateRoute(dst, 0, now);
      timers := Arm(timers, Spec.RequestTimer(eid), Spec.Due(now, BackoffTime(q.tries)));
      FindRoute(dst, q.tries, now);
      requests := Spec.WithRequest(requests, q.(id := rreqId));
    }

    /** The second loop of `do_alarm_run` over the alarms collected by the first; the `i`-th callback
        reads the clock as `clocks[i]`. */
    method RunDue(now: int, clocks: seq<int>)
      requires |clocks| == |DueLatestFirst(timers, now)|
      modifies this
      ensures State() == Spec.FireAll(old(State()), old(DueLatestFirst(timers, now)), clocks)
    {
      hide Spec.Fire, Spec.RouteAlarm, Spec.RequestAlarm, Cancel;
      var ids := DueLatestFirst(timers, now);
      var i := 0;
      while i < |ids|
        invariant i <= |ids|
        invariant Spec.FireAll(old(State()), ids, clocks) == Spec.FireAll(State(), ids[i..], clocks[i..])
      {
        assert ids[i..][0] == ids[i] && clocks[i..][0] == clocks[i];
        assert ids[i..][1..] == ids[i + 1..] && clocks[i..][1..] == clocks[i + 1..];
        timers := Cancel(timers, ids[i]);
        ghost var before := State();
        match ids[i] {
          case RouteTimer(rid) => RouteAlarm(rid, clocks[i]);
          case RequestTimer(eid) => RequestAlarm(eid, clocks[i]);
        }
        assert State() == Spec.Fire(before, ids[i], clocks[i]) by { FireEither(before, ids[i], clocks[i]); }
        i := i + 1;
      }
    }
  }

  lemma FireEither(n: Spec.Node, id: Spec.TimerId, now: int)
    ensures Spec.Fire(n, id, now) ==
      match id case RouteTimer(rid) => Spec.RouteAlarm(n, rid, now) case RequestTimer(eid) => Spec.RequestAlarm(n, eid, now)
  {
    hide Spec.RouteAlarm, Spec.RequestAlarm;
  }

  lemma WalkRoute(held: seq<Spec.Held>, i: nat, r: Route)
    requires i < |held|
    ensures Spec.NotMatching(held[i..], r) ==
      (if Covers(r, held[i].dst) then [] else [held[i]]) + Spec.NotMatching(held[i + 1..], r)
    ensures Spec.Matching(held[i..], r) ==
      (if Covers(r, held[i].dst) then [held[i].id] else []) + Spec.Matching(held[i + 1..], r)
  {
    hide Covers;
    assert held[i..] == [held[i]] + held[i + 1..];
  }

  lemma WalkRouteEnd(r: Route)
    ensures Spec.NotMatching([], r) == [] && Spec.Matching([], r) == []
  {
  }

  lemma WalkDrop(held: seq<Spec.Held>, i: nat, dst: Addr)
    requires i < |held|
    ensures Spec.NotFor(held[i..], dst) == (if held[i].dst == dst then [] else [held[i]]) + Spec.NotFor(held[i + 1..], dst)
    ensures Spec.IdsFor(held[i..], dst) == (if held[i].dst == dst then [held[i].id] else []) + Spec.IdsFor(held[i + 1..], dst)
  {
    hide Covers;
    assert held[i..] == [held[i]] + held[i + 1..];
  }

  lemma WalkDropEnd(dst: Addr)
    ensures Spec.NotFor([], dst) == [] && Spec.IdsFor([], dst) == []
  {
  }
}
