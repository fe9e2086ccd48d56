/** The intrusive doubly linked ring of rtservice.h: a head node and the nodes linked to it stand
    for a sequence. */
module IntrusiveList {

  class ListNode {
    var next: ListNode
    var prev: ListNode

    /** rt_list_init. */
    constructor ()
      ensures IsRing(this, [])
    {
      next, prev := this, this;
    }
  }

  function Nodes(h: ListNode, s: seq<ListNode>): seq<ListNode> {
    [h] + s
  }

  ghost predicate LinkedAt(h: ListNode, s: seq<ListNode>, i: int)
    requires 0 <= i <= |s|
    reads Nodes(h, s)
  {
    var t := Nodes(h, s);
    && t[i].next == (if i < |s| then t[i + 1] else h)
    && t[i].prev == (if i > 0 then t[i - 1] else t[|s|])
  }

  /** The nodes of `s`, in order, hang on the head `h`. */
  ghost predicate IsRing(h: ListNode, s: seq<ListNode>)
    reads Nodes(h, s)
  {
    && (forall i, j | 0 <= i < j <= |s| :: Nodes(h, s)[i] != Nodes(h, s)[j])
    && (forall i | 0 <= i <= |s| :: LinkedAt(h, s, i))
  }

  /** Where the nodes are after inserting `n` at position `k`. */
  lemma Inserted(h: ListNode, s: seq<ListNode>, k: nat, n: ListNode)
    requires IsRing(h, s) && k <= |s| && n !in Nodes(h, s)
    ensures var t, t' := Nodes(h, s), Nodes(h, s[..k] + [n] + s[k..]);
            && |t'| == |t| + 1 && t'[k + 1] == n
            && (forall i | 0 <= i <= k :: t'[i] == t[i])
            && (forall i | k + 1 < i < |t'| :: t'[i] == t[i - 1])
            && (forall i, j | 0 <= i < j < |t'| :: t'[i] != t'[j])
  {
    var t, t' := Nodes(h, s), Nodes(h, s[..k] + [n] + s[k..]);
    forall i, j | 0 <= i < j < |t'| ensures t'[i] != t'[j] {
      assert i != k + 1 ==> t'[i] == t[if i <= k then i else i - 1] && t'[i] in t;
      assert j != k + 1 ==> t'[j] == t[if j <= k then j else j - 1] && t'[j] in t;
    }
  }

  /** rt_list_insert_after: `l` is the head (k == 0) or node k - 1. */
  method InsertAfter(l: ListNode, n: ListNode, ghost h: ListNode, ghost s: seq<ListNode>, ghost k: nat)
    requires IsRing(h, s) && k <= |s| && l == Nodes(h, s)[k] && n !in Nodes(h, s)
    modifies Nodes(h, s), n
    ensures IsRing(h, s[..k] + [n] + s[k..])
  {
    assert LinkedAt(h, s, k);
    ghost var t, t' := Nodes(h, s), Nodes(h, s[..k] + [n] + s[k..]);
    Inserted(h, s, k, n);
    assert l.next == t[if k < |s| then k + 1 else 0] && l.next in t;
    l.next.prev := n;
    n.next := l.next;
    l.next := n;
    n.prev := l;
    forall i | 0 <= i < |t'| ensures LinkedAt(h, s[..k] + [n] + s[k..], i) {
      assert i <= k ==> t'[i] == t[i] && old(LinkedAt(h, s, i));
      assert i > k + 1 ==> t'[i] == t[i - 1] && old(LinkedAt(h, s, i - 1));
    }
  }

  /** rt_list_insert_before: before node k, or at the end when `l` is the head (k == |s|). */
  method InsertBefore(l: ListNode, n: ListNode, ghost h: ListNode, ghost s: seq<ListNode>, ghost k: nat)
    requires IsRing(h, s) && k <= |s| && l == (if k < |s| then s[k] else h) && n !in Nodes(h, s)
    modifies Nodes(h, s), n
    ensures IsRing(h, s[..k] + [n] + s[k..])
  {
    assert LinkedAt(h, s, if k < |s| then k + 1 else 0);
    ghost var t, t' := Nodes(h, s), Nodes(h, s[..k] + [n] + s[k..]);
    Inserted(h, s, k, n);
    assert l.prev == t[k] && l.prev in t;
    l.prev.next := n;
    n.prev := l.prev;
    l.prev := n;
    n.next := l;
    forall i | 0 <= i < |t'| ensures LinkedAt(h, s[..k] + [n] + s[k..], i) {
      assert i <= k ==> t'[i] == t[i] && old(LinkedAt(h, s, i));
      assert i > k + 1 ==> t'[i] == t[i - 1] && old(LinkedAt(h, s, i - 1));
    }
  }

  /** rt_list_remove of node k: it becomes a ring of its own. */
  method Remove(n: ListNode, ghost h: ListNode, ghost s: seq<ListNode>, ghost k: nat)
    requires IsRing(h, s) && k < |s| && n == s[k]
    modifies Nodes(h, s)
    ensures IsRing(h, s[..k] + s[k + 1..]) && IsRing(n, [])
  {
    assert LinkedAt(h, s, k + 1);
    ghost var s' := s[..k] + s[k + 1..];
    ghost var t, t' := Nodes(h, s), Nodes(h, s');
    assert forall i | 0 <= i < |t'| :: t'[i] == t[if i <= k then i else i + 1];
    assert n.next == t[if k + 1 < |s| then k + 2 else 0] && n.next in t && n.prev == t[k] && n.prev in t;
    n.next.prev := n.prev;
    n.prev.next := n.next;
    n.next, n.prev := n, n;
    forall i | 0 <= i <= |s'| ensures LinkedAt(h, s', i) {
      assert i <= k ==> t'[i] == t[i] && old(LinkedAt(h, s, i));
      assert i > k ==> t'[i] == t[i + 1] && old(LinkedAt(h, s, i + 1));
    }
  }

  /** rt_list_remove of a node that hangs on no list changes nothing. */
  method RemoveUnlinked(n: ListNode)
    requires IsRing(n, [])
    modifies n
    ensures IsRing(n, [])
  {
    assert LinkedAt(n, [], 0);
    n.next.prev := n.prev;
    n.prev.next := n.next;
    n.next, n.prev := n, n;
  }

  /** rt_list_isempty. */
  method IsEmpty(l: ListNode, ghost s: seq<ListNode>) returns (empty: bool)
    requires IsRing(l, s)
    ensures empty <==> s == []
  {
    assert LinkedAt(l, s, 0);
    empty := l.next == l;
  }

  /** rt_list_len. */
  method Len(l: ListNode, ghost s: seq<ListNode>) returns (len: nat)
    requires IsRing(l, s)
    ensures len == |s|
  {
    len := 0;
    var p := l;
    assert LinkedAt(l, s, 0);
    while p.next != l
      invariant len <= |s| && p == Nodes(l, s)[len] && LinkedAt(l, s, len)
      decreases |s| - len
    {
      p := p.next;
      len := len + 1;
      assert LinkedAt(l, s, len);
    }
  }

  /** The test of rt_thread_yield, that the two neighbours of a queued thread differ, means that
      another thread is queued. */
  lemma NeighboursDiffer(h: ListNode, s: seq<ListNode>, k: nat)
    requires IsRing(h, s) && k < |s|
    ensures s[k].next != s[k].prev <==> |s| > 1
  {
    assert LinkedAt(h, s, k + 1);
    var t := Nodes(h, s);
    assert s[k] == t[k + 1];
    assert |s| > 1 ==> t[k] != t[if k + 1 < |s| then k + 2 else 0];
  }
}
