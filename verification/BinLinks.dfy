/** The doubly linked lists of src/cmalloc.c:54-77, as sequences of span records from the head. */
module BinLinks {
  import opened HeapState

  datatype Link = Link(next: nat, prev: nat)

  function Nth(l: seq<nat>, i: int): nat {
    if 0 <= i < |l| then l[i] else 0
  }

  /** The records of the list are chained in its order, forwards and backwards. */
  ghost predicate Chained(l: seq<nat>, links: map<nat, Link>) {
    NoDup(l) && 0 !in l &&
    forall i {:trigger l[i]} :: 0 <= i < |l| ==> l[i] in links && links[l[i]] == Link(Nth(l, i + 1), Nth(l, i - 1))
  }

  /** bin_push's stores to a, and to the head if there is one. */
  function Prepended(links: map<nat, Link>, head: nat, a: nat): map<nat, Link> {
    var m := links[a := Link(head, 0)];
    if head != 0 && head in m then m[head := m[head].(prev := a)] else m
  }

  /** The stores one by one. */
  lemma {:induction false} PrependedIs(links: map<nat, Link>, head: nat, a: nat)
    requires a in links && head != a && (head != 0 ==> head in links)
    ensures var m := links[a := Link(links[a].next, 0)][a := Link(head, 0)];
      Prepended(links, head, a) == if head != 0 then m[head := Link(m[head].next, a)] else m
  {
    assert links[a := Link(links[a].next, 0)][a := Link(head, 0)] == links[a := Link(head, 0)];
  }

  lemma {:induction false} PushChained(l: seq<nat>, links: map<nat, Link>, a: nat)
    requires Chained(l, links) && a !in l && a != 0
    ensures Chained([a] + l, Prepended(links, Nth(l, 0), a))
  {
    var m := Prepended(links, Nth(l, 0), a);
    var l' := [a] + l;
    NoDupPushed(l, a);
    forall i | 0 <= i < |l'| ensures l'[i] in m && m[l'[i]] == Link(Nth(l', i + 1), Nth(l', i - 1)) {
      if i > 0 { assert l'[i] == l[i - 1]; }
    }
  }

  /** Pushing a onto l leaves every list without them alone. */
  lemma {:induction false} PushElsewhere(l: seq<nat>, links: map<nat, Link>, a: nat, o: seq<nat>)
    requires Chained(o, links) && a !in o && (l != [] ==> l[0] !in o)
    ensures Chained(o, Prepended(links, Nth(l, 0), a))
  {}

  /** bin_remove's stores to the neighbours of a, and to a. */
  function Detached(links: map<nat, Link>, a: nat): map<nat, Link>
    requires a in links
  {
    var prev, next := links[a].prev, links[a].next;
    var m1 := if prev != 0 && prev in links then links[prev := links[prev].(next := next)] else links;
    var m2 := if next != 0 && next in m1 then m1[next := m1[next].(prev := prev)] else m1;
    m2[a := Link(0, 0)]
  }

  /** The stores one by one. */
  lemma {:induction false} DetachedIs(links: map<nat, Link>, a: nat)
    requires a in links && links[a].prev != a && links[a].next != a
    requires links[a].prev != 0 ==> links[a].prev in links
    requires links[a].next != 0 ==> links[a].next in links && links[a].next != links[a].prev
    ensures var prev, next := links[a].prev, links[a].next;
      var m1 := if prev != 0 then links[prev := Link(next, links[prev].prev)] else links;
      var m2 := if next != 0 then m1[next := Link(m1[next].next, prev)] else m1;
      Detached(links, a) == m2[a := Link(m2[a].next, 0)][a := Link(0, 0)]
  {
    var prev, next := links[a].prev, links[a].next;
    var m1 := if prev != 0 then links[prev := Link(next, links[prev].prev)] else links;
    var m2 := if next != 0 then m1[next := Link(m1[next].next, prev)] else m1;
    assert m2[a := Link(m2[a].next, 0)][a := Link(0, 0)] == m2[a := Link(0, 0)];
  }

  /** a is the i-th of the list; its neighbours are its list's. */
  ghost function Place(l: seq<nat>, a: nat): (i: nat)
    requires a in l
    ensures i < |l| && l[i] == a
  {
    var i :| 0 <= i < |l| && l[i] == a;
    i
  }

  lemma {:induction false} WithoutAt(l: seq<nat>, a: nat, i: nat)
    requires NoDup(l) && i < |l| && l[i] == a
    ensures Without(l, a) == l[..i] + l[i + 1..]
  {
    if i == 0 {
      assert l[..0] + l[1..] == l[1..];
    } else {
      assert l[0] != a;
      var tail := l[1..];
      assert tail[i - 1] == a;
      assert forall j, k :: 0 <= j < k < |tail| ==> tail[j] == l[j + 1] && tail[k] == l[k + 1];
      WithoutAt(tail, a, i - 1);
      assert [l[0]] + (tail[..i - 1] + tail[i..]) == l[..i] + l[i + 1..];
    }
  }

  lemma {:induction false} RemoveChained(l: seq<nat>, links: map<nat, Link>, a: nat)
    requires Chained(l, links) && a in l
    ensures a in links && Chained(Without(l, a), Detached(links, a))
    ensures links[a].prev == 0 <==> l[0] == a
    ensures Nth(Without(l, a), 0) == if l[0] == a then links[a].next else l[0]
    ensures links[a].prev != 0 ==> links[a].prev in l && links[a].prev != a && links[a].prev in links
    ensures links[a].next != 0 ==> links[a].next in l && links[a].next != a && links[a].next in links
    ensures links[a].next != 0 ==> links[a].next != links[a].prev
  {
    var i := Place(l, a);
    WithoutFacts(l, a);
    WithoutAt(l, a, i);
    var l', m := Without(l, a), Detached(links, a);
    Neighbours(l, links, i);
    forall j | 0 <= j < |l'| ensures l'[j] in m && m[l'[j]] == Link(Nth(l', j + 1), Nth(l', j - 1)) {
      DetachedEntry(l, links, i, j);
    }
  }

  lemma {:induction false} Neighbours(l: seq<nat>, links: map<nat, Link>, i: nat)
    requires Chained(l, links) && i < |l|
    ensures l[i] in links && links[l[i]] == Link(Nth(l, i + 1), Nth(l, i - 1))
    ensures i > 0 ==> l[i - 1] != 0 && l[i - 1] != l[i] && l[i - 1] in links
    ensures i + 1 < |l| ==> l[i + 1] != 0 && l[i + 1] != l[i] && l[i + 1] in links
    ensures 0 < i && i + 1 < |l| ==> l[i - 1] != l[i + 1]
    ensures i > 0 ==> l[0] != l[i]
  {}

  lemma {:induction false} DetachedAt(links: map<nat, Link>, a: nat, x: nat)
    requires a in links && x in links && x != a && x != 0
    requires links[a].prev != 0 ==> links[a].prev != links[a].next
    ensures var m := Detached(links, a);
      x in m &&
      m[x] == Link(if x == links[a].prev then links[a].next else links[x].next,
                   if x == links[a].next then links[a].prev else links[x].prev)
  {}

  lemma {:induction false} DetachedEntry(l: seq<nat>, links: map<nat, Link>, i: nat, j: nat)
    requires Chained(l, links) && i < |l| && j < |l| - 1 && l[i] in links
    ensures var l' := l[..i] + l[i + 1..];
      var m := Detached(links, l[i]);
      l'[j] in m && m[l'[j]] == Link(Nth(l', j + 1), Nth(l', j - 1))
  {
    hide Detached, Chained;
    var l' := l[..i] + l[i + 1..];
    Neighbours(l, links, i);
    var k := if j < i then j else j + 1;
    Neighbours(l, links, k);
    ChainedOnce(l, links);
    Distinct(l, i, k);
    DetachedAt(links, l[i], l[k]);
    DetachedNth(l, i, j);
    DetachedNth(l, i, j + 1);
    DetachedNth(l, i, j - 1);
  }

  lemma {:induction false} ChainedOnce(l: seq<nat>, links: map<nat, Link>)
    requires Chained(l, links)
    ensures NoDup(l) && 0 !in l
  {}

  lemma {:induction false} DetachedNth(l: seq<nat>, i: nat, j: int)
    requires i < |l| && -1 <= j < |l|
    ensures Nth(l[..i] + l[i + 1..], j) == if j < i then Nth(l, j) else Nth(l, j + 1)
  {}

  lemma {:induction false} Distinct(l: seq<nat>, i: nat, k: nat)
    requires NoDup(l) && 0 !in l && i < |l| && k < |l| && i != k
    ensures l[k] != 0 && l[k] != l[i]
    ensures l[k] == Nth(l, i - 1) <==> k == i - 1
    ensures l[k] == Nth(l, i + 1) <==> k == i + 1
  {}

  /** Removing a from l leaves every list without l's records alone. */
  lemma {:induction false} RemoveElsewhere(l: seq<nat>, links: map<nat, Link>, a: nat, o: seq<nat>)
    requires Chained(l, links) && a in l && Chained(o, links) && a in links && forall x :: x in l ==> x !in o
    ensures Chained(o, Detached(links, a))
  {
    var i := Place(l, a);
    Neighbours(l, links, i);
    assert links[a].prev != 0 ==> links[a].prev in l;
    assert links[a].next != 0 ==> links[a].next in l;
  }
}
