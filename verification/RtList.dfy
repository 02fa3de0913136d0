/**
 The intrusive doubly linked rings of os/thread.c, lines 42-76. A node is an address; its next and
 prev pointers are two maps. A list is a head node and the nodes linked behind it; a node in no list
 is a ring of its own.
 */
module RtList {

  /** The index behind i, going round. */
  function Succ(i: nat, n: nat): nat {
    if i + 1 == n then 0 else i + 1
  }

  predicate LinkedAt<N(==)>(next: map<N, N>, prev: map<N, N>, c: seq<N>, i: nat)
    requires i < |c|
  {
    && c[i] in next && next[c[i]] == c[Succ(i, |c|)]
    && c[Succ(i, |c|)] in prev && prev[c[Succ(i, |c|)]] == c[i]
  }

  ghost predicate Distinct<N>(c: seq<N>) {
    forall i, j | 0 <= i < j < |c| :: c[i] != c[j]
  }

  /** The nodes c, in this order, form a ring; c[0] is the list head. */
  ghost predicate Ring<N>(next: map<N, N>, prev: map<N, N>, c: seq<N>) {
    c != [] && Distinct(c) && forall i: nat | i < |c| :: LinkedAt(next, prev, c, i)
  }

  /** The links of all nodes outside c are the same. */
  ghost predicate OnlyIn<N(!new)>(next: map<N, N>, prev: map<N, N>, next': map<N, N>, prev': map<N, N>, c: seq<N>) {
    forall x | x !in c :: (x in next ==> x in next' && next'[x] == next[x]) && (x in prev ==> x in prev' && prev'[x] == prev[x])
  }

  /** A ring that shares no node with the changed ones is still a ring. */
  lemma OtherRing<N(!new)>(next: map<N, N>, prev: map<N, N>, next': map<N, N>, prev': map<N, N>, c: seq<N>, d: seq<N>)
    requires Ring(next, prev, d) && OnlyIn(next, prev, next', prev', c)
    requires forall i | 0 <= i < |d| :: d[i] !in c
    ensures Ring(next', prev', d)
  {
    forall i: nat | i < |d|
      ensures LinkedAt(next', prev', d, i)
    {
      assert LinkedAt(next, prev, d, i);
      assert d[i] !in c && d[Succ(i, |d|)] !in c;
    }
  }

  /** In a ring the pointers lead from each node to the next one and back. */
  lemma Follow<N>(next: map<N, N>, prev: map<N, N>, c: seq<N>, i: nat)
    requires Ring(next, prev, c) && i < |c|
    ensures c[i] in next && next[c[i]] == c[Succ(i, |c|)]
    ensures c[i] in prev && prev[c[i]] == c[if i == 0 then |c| - 1 else i - 1]
  {
    assert LinkedAt(next, prev, c, i);
    assert LinkedAt(next, prev, c, if i == 0 then |c| - 1 else i - 1);
  }

  class Links<N(==, !new)> {
    var next: map<N, N>
    var prev: map<N, N>

    constructor ()
      ensures next == map[] && prev == map[]
    {
      next, prev := map[], map[];
    }

    /** rt_list_init, lines 42-45. */
    method Init(n: N)
      modifies this
      ensures Ring(next, prev, [n]) && OnlyIn(old(next), old(prev), next, prev, [n])
    {
      next, prev := next[n := n], prev[n := n];
      assert LinkedAt(next, prev, [n], 0);
    }

    /** rt_list_insert_before, lines 47-54: n goes to the end of the list. */
    method InsertBefore(l: N, n: N, ghost c: seq<N>)
      requires Ring(next, prev, c) && c[0] == l && n !in c
      modifies this
      ensures Ring(next, prev, c + [n]) && OnlyIn(old(next), old(prev), next, prev, c + [n])
    {
      Follow(next, prev, c, 0);
      next := next[prev[l] := n];
      prev := prev[n := prev[l]];
      prev := prev[l := n];
      next := next[n := l];
      ghost var d := c + [n];
      forall i: nat | i < |d|
        ensures LinkedAt(next, prev, d, i)
      {
        if i < |c| {
          assert LinkedAt(old(next), old(prev), c, i);
        }
      }
    }

    /** rt_list_insert_after, lines 69-76: n goes to the front. */
    method InsertAfter(l: N, n: N, ghost c: seq<N>)
      requires Ring(next, prev, c) && c[0] == l && n !in c
      modifies this
      ensures Ring(next, prev, [l, n] + c[1..]) && OnlyIn(old(next), old(prev), next, prev, c + [n])
    {
      Follow(next, prev, c, 0);
      prev := prev[next[l] := n];
      next := next[n := next[l]];
      next := next[l := n];
      prev := prev[n := l];
      ghost var d := [l, n] + c[1..];
      assert forall i | 2 <= i < |d| :: d[i] == c[i - 1];
      forall i: nat | i < |d|
        ensures LinkedAt(next, prev, d, i)
      {
        if i > 0 {
          assert LinkedAt(old(next), old(prev), c, i - 1);
        }
      }
    }

    /**
     rt_list_remove, lines 56-62: node k of the ring leaves it and is a ring of its own. A node that
     is in no list may be removed again.
     */
    method Remove(n: N, ghost c: seq<N>, ghost k: nat)
      requires Ring(next, prev, c) && k < |c| && c[k] == n && (k > 0 || |c| == 1)
      modifies this
      ensures Ring(next, prev, [n]) && OnlyIn(old(next), old(prev), next, prev, c)
      ensures k > 0 ==> Ring(next, prev, c[..k] + c[k + 1..])
    {
      Follow(next, prev, c, k);
      prev := prev[next[n] := prev[n]];
      next := next[prev[n] := next[n]];
      next, prev := next[n := n], prev[n := n];
      assert LinkedAt(next, prev, [n], 0);
      if k > 0 {
        ghost var d := c[..k] + c[k + 1..];
        assert forall i | k <= i < |d| :: d[i] == c[i + 1];
        forall i: nat | i < |d|
          ensures LinkedAt(next, prev, d, i)
        {
          Follow(old(next), old(prev), c, k);
          assert LinkedAt(old(next), old(prev), c, if i < k then i else i + 1);
        }
      }
    }

    /** rt_list_isempty, lines 64-67. */
    method IsEmpty(l: N, ghost c: seq<N>) returns (empty: bool)
      requires Ring(next, prev, c) && c[0] == l
      ensures empty <==> c == [l]
    {
      Follow(next, prev, c, 0);
      assert c == [l] <==> |c| == 1;
      return next[l] == l;
    }
  }
}
