/** `linux_list.h`: circular doubly linked lists with a list head, as sequences. */
module LinuxList {

  /** `struct list_head`.  An unlinked element has poisoned links, here null. */
  class ListHead {
    var next: ListHead?
    var prev: ListHead?
  }

  /** The element at place `i` of the circle: the head stands before and behind all others. */
  ghost function At(head: ListHead, s: seq<ListHead>, i: int): ListHead {
    if 0 <= i < |s| then s[i] else head
  }

  ghost predicate Joined(a: ListHead, b: ListHead)
    reads a, b
  {
    a.next == b && b.prev == a
  }

  ghost predicate Unrepeated(head: ListHead, s: seq<ListHead>) {
    head !in s && forall i, j :: 0 <= i < j < |s| ==> s[i] != s[j]
  }

  /** The list at `head` holds exactly `s`, in order. */
  ghost predicate Ring(head: ListHead, s: seq<ListHead>)
    reads head, s
  {
    && Unrepeated(head, s)
    && forall i {:trigger At(head, s, i)} :: -1 <= i < |s| ==> Joined(At(head, s, i), At(head, s, i + 1))
  }

  /** `INIT_LIST_HEAD`. */
  method Init(head: ListHead)
    modifies head
    ensures Ring(head, [])
  {
    head.next, head.prev := head, head;
  }

  /** `__list_add`, between places `k - 1` and `k` of the list at `head`. */
  method Insert(n: ListHead, prev: ListHead, next: ListHead, ghost head: ListHead, ghost s: seq<ListHead>, ghost k: nat)
    requires Ring(head, s) && k <= |s| && n != head && n !in s
    requires prev == At(head, s, k - 1) && next == At(head, s, k)
    modifies n, prev`next, next`prev
    ensures Ring(head, s[..k] + [n] + s[k..])
  {
    next.prev := n;
    n.next := next;
    n.prev := prev;
    prev.next := n;
    ghost var r := s[..k] + [n] + s[k..];
    forall i | -1 <= i < |r|
      ensures Joined(At(head, r, i), At(head, r, i + 1))
    {
      if i < k - 1 {
        assert old(Joined(At(head, s, i), At(head, s, i + 1)));
      } else if i > k {
        assert old(Joined(At(head, s, i - 1), At(head, s, i)));
      }
    }
  }

  /** `list_add`: in front of all others. */
  method ListAdd(n: ListHead, head: ListHead, ghost s: seq<ListHead>)
    requires Ring(head, s) && n != head && n !in s
    modifies n, head, s
    ensures Ring(head, [n] + s)
  {
    assert Joined(At(head, s, -1), At(head, s, 0));
    Insert(n, head, head.next, head, s, 0);
    assert s[..0] + [n] + s[0..] == [n] + s;
  }

  /** `list_add_tail`: behind all others. */
  method ListAddTail(n: ListHead, head: ListHead, ghost s: seq<ListHead>)
    requires Ring(head, s) && n != head && n !in s
    modifies n, head, s
    ensures Ring(head, s + [n])
  {
    assert Joined(At(head, s, |s| - 1), At(head, s, |s|));
    Insert(n, head.prev, head, head, s, |s|);
    assert s[..|s|] + [n] + s[|s|..] == s + [n];
  }

  /** `list_del`: the element leaves its list, with its links poisoned. */
  method ListDel(entry: ListHead, ghost head: ListHead, ghost s: seq<ListHead>, ghost k: nat)
    requires Ring(head, s) && k < |s| && s[k] == entry
    modifies entry, At(head, s, k - 1)`next, At(head, s, k + 1)`prev
    ensures Ring(head, s[..k] + s[k + 1..]) && entry.next == null && entry.prev == null
  {
    assert Joined(At(head, s, k - 1), At(head, s, k)) && Joined(At(head, s, k), At(head, s, k + 1));
    var prev, next := entry.prev, entry.next;
    next.prev := prev;
    prev.next := next;
    entry.next, entry.prev := null, null;
    ghost var r := s[..k] + s[k + 1..];
    forall i | -1 <= i < |r|
      ensures Joined(At(head, r, i), At(head, r, i + 1))
    {
      if i < k - 1 {
        assert old(Joined(At(head, s, i), At(head, s, i + 1)));
      } else if i >= k {
        assert old(Joined(At(head, s, i + 1), At(head, s, i + 2)));
      }
    }
  }

  /** `list_empty`. */
  method ListEmpty(head: ListHead, ghost s: seq<ListHead>) returns (empty: bool)
    requires Ring(head, s)
    ensures empty <==> s == []
  {
    assert Joined(At(head, s, -1), At(head, s, 0));
    empty := head.next == head;
  }

  lemma UnrepeatedConcat(list: ListHead, head: ListHead, s: seq<ListHead>, u: seq<ListHead>)
    requires Unrepeated(list, s) && Unrepeated(head, u) && head !in s && forall m :: m in s ==> m !in u
    ensures Unrepeated(head, s + u)
  {
    forall i, j | 0 <= i < j < |s + u|
      ensures (s + u)[i] != (s + u)[j]
    {
      if i < |s| <= j {
        assert s[i] in s && u[j - |s|] in u;
      }
    }
  }

  /** `list_splice`: the elements of `list` go in front of those of `head`. */
  method ListSplice(list: ListHead, head: ListHead, ghost s: seq<ListHead>, ghost u: seq<ListHead>)
    requires Ring(list, s) && Ring(head, u) && list != head && list !in u && head !in s
    requires forall m :: m in s ==> m !in u
    modifies head, s, u
    ensures Ring(head, s + u)
    ensures s == [] ==> Ring(list, [])
  {
    UnrepeatedConcat(list, head, s, u);
    hide Unrepeated;
    var empty := ListEmpty(list, s);
    if empty {
      assert s + u == u;
      return;
    }
    assert Joined(At(list, s, -1), At(list, s, 0)) && Joined(At(list, s, |s| - 1), At(list, s, |s|));
    assert Joined(At(head, u, -1), At(head, u, 0));
    var first, last, at := list.next, list.prev, head.next;
    first.prev := head;
    head.next := first;
    last.next := at;
    at.prev := last;
    ghost var r := s + u;
    forall i | -1 <= i < |r|
      ensures Joined(At(head, r, i), At(head, r, i + 1))
    {
      if 0 <= i < |s| - 1 {
        assert old(Joined(At(list, s, i), At(list, s, i + 1)));
      } else if i >= |s| {
        assert old(Joined(At(head, u, i - |s|), At(head, u, i - |s| + 1)));
      }
    }
  }

  // ----- Safe traversal -----

  /** The elements outside `doomed`, in order. */
  ghost function Keep(s: seq<ListHead>, doomed: set<ListHead>): (r: seq<ListHead>) {
    if s == [] then []
    else if s[|s| - 1] in doomed then Keep(s[..|s| - 1], doomed)
    else Keep(s[..|s| - 1], doomed) + [s[|s| - 1]]
  }

  lemma {:induction false} KeepMembers(s: seq<ListHead>, doomed: set<ListHead>, m: ListHead)
    ensures m in Keep(s, doomed) <==> m in s && m !in doomed
  {
    if s != [] {
      KeepMembers(s[..|s| - 1], doomed, m);
      assert s == s[..|s| - 1] + [s[|s| - 1]];
    }
  }

  /** The list once its first `i` original elements have been visited. */
  ghost function Rest(s: seq<ListHead>, doomed: set<ListHead>, i: nat): seq<ListHead>
    requires i <= |s|
  {
    Keep(s[..i], doomed) + s[i..]
  }

  /** Visiting element `i` takes it out, or leaves the list as it was. */
  lemma RestStep(s: seq<ListHead>, doomed: set<ListHead>, i: nat)
    requires i < |s|
    ensures var r, k := Rest(s, doomed, i), |Keep(s[..i], doomed)|;
      && k < |r| && r[k] == s[i]
      && Rest(s, doomed, i + 1) == if s[i] in doomed then r[..k] + r[k + 1..] else r
  {
    assert s[..i + 1][..i] == s[..i];
  }

  lemma RestMembers(s: seq<ListHead>, doomed: set<ListHead>, i: nat)
    requires i <= |s|
    ensures forall m :: m in Rest(s, doomed, i) ==> m in s
  {
    forall m | m in Keep(s[..i], doomed)
      ensures m in s
    {
      KeepMembers(s[..i], doomed, m);
    }
  }

  /** The body of the traversal. */
  method Visit(pos: ListHead, head: ListHead, doomed: set<ListHead>, ghost s: seq<ListHead>, ghost i: nat)
    requires i < |s| && pos == s[i] && Ring(head, Rest(s, doomed, i))
    modifies head, s
    ensures Ring(head, Rest(s, doomed, i + 1))
  {
    RestStep(s, doomed, i);
    RestMembers(s, doomed, i);
    ghost var r, k := Rest(s, doomed, i), |Keep(s[..i], doomed)|;
    assert k > 0 ==> r[k - 1] in r;
    assert k + 1 < |r| ==> r[k + 1] in r;
    if pos in doomed {
      ListDel(pos, head, Rest(s, doomed, i), |Keep(s[..i], doomed)|);
    }
  }

  /** Behind an element not yet visited stands the next one. */
  lemma NextUnvisited(head: ListHead, doomed: set<ListHead>, s: seq<ListHead>, i: nat)
    requires i < |s| && Ring(head, Rest(s, doomed, i))
    ensures s[i].next == At(head, s, i + 1)
  {
    var r, k := Rest(s, doomed, i), |Keep(s[..i], doomed)|;
    assert Joined(At(head, r, k), At(head, r, k + 1));
  }

  lemma FirstOfRing(head: ListHead, s: seq<ListHead>)
    requires Ring(head, s)
    ensures head.next == At(head, s, 0) && head !in s
  {
    assert Joined(At(head, s, -1), At(head, s, 0));
  }

  lemma RestEnds(s: seq<ListHead>, doomed: set<ListHead>)
    ensures Rest(s, doomed, 0) == s && Rest(s, doomed, |s|) == Keep(s, doomed)
  {
    assert s[..|s|] == s;
  }

  /** `list_for_each_entry_safe` whose body unlinks the current element if it is doomed: every
      element is visited once, in order, and the others stay in the list. */
  method ForEachSafe(head: ListHead, doomed: set<ListHead>, ghost s: seq<ListHead>) returns (visited: seq<ListHead>)
    requires Ring(head, s)
    modifies head, s
    ensures visited == s && Ring(head, Keep(s, doomed))
  {
    visited := [];
    ghost var i := 0;
    hide Ring, Rest, Keep;
    FirstOfRing(head, s);
    RestEnds(s, doomed);
    var pos := head.next;
    if s != [] {
      NextUnvisited(head, doomed, s, 0);
    }
    var n := pos.next;
    while pos != head
      invariant 0 <= i <= |s| && visited == s[..i] && pos == At(head, s, i) && (pos == head <==> i == |s|)
      invariant Ring(head, Rest(s, doomed, i))
      invariant pos != head ==> n == At(head, s, i + 1)
      decreases |s| - i
    {
      visited := visited + [pos];
      Visit(pos, head, doomed, s, i);
      i := i + 1;
      pos := n;
      if i < |s| {
        NextUnvisited(head, doomed, s, i);
      }
      n := if pos != head then pos.next else pos;
    }
  }
}
