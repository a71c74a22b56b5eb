/** The intrusive lists the queries are on, node by node, and the iterator over all of them. */
module QueryLists {
  import opened QueryTable
  import opened Sequences

  class QueryNode {
    const id: QId
    /** Whether the query has a parent. */
    const child: bool
    var back: QueryNode?
    var next: QueryNode?

    constructor (id: QId, child: bool)
      ensures this.id == id && this.child == child && back == null && next == null
    {
      this.id, this.child, back, next := id, child, null, null;
    }
  }

  ghost predicate Chain(q: seq<QueryNode>)
    reads q`back, q`next
  {
    forall i, j {:trigger q[i], q[j]} :: 0 <= i && j == i + 1 < |q| ==> q[i].next == q[j] && q[j].back == q[i]
  }

  /** The queries on a list, as the queues of Resolver hold them. */
  function Ids(q: seq<QueryNode>): (ids: seq<QId>)
    ensures |ids| == |q| && forall i :: 0 <= i < |q| ==> ids[i] == q[i].id
  {
    seq(|q|, i requires 0 <= i < |q| => q[i].id)
  }

  class QueryList {
    var head: QueryNode?
    var tail: QueryNode?
    ghost var nodes: seq<QueryNode>

    ghost predicate Valid()
      reads this, nodes`back, nodes`next
    {
      && NoDup(nodes) && Chain(nodes)
      && (nodes == [] ==> head == null && tail == null)
      && (nodes != [] ==>
        head == nodes[0] && tail == nodes[|nodes| - 1] && nodes[0].back == null && nodes[|nodes| - 1].next == null)
    }

    /** ALIST_INIT. */
    constructor ()
      ensures Valid() && nodes == []
    {
      head, tail, nodes := null, null, [];
    }

    /** ALIST_LINK_TAIL. */
    method LinkTail(node: QueryNode)
      requires Valid() && node !in nodes
      modifies this, nodes`next, node`next, node`back
      ensures Valid() && nodes == old(nodes) + [node] && Ids(nodes) == old(Ids(nodes)) + [node.id]
    {
      node.next := null;
      node.back := tail;
      if tail != null {
        tail.next := node;
      } else {
        head := node;
      }
      tail := node;
      nodes := nodes + [node];
    }

    /** ALIST_UNLINK: the node need not be looked for. */
    method Unlink(node: QueryNode, ghost k: nat)
      requires Valid() && k < |nodes| && nodes[k] == node
      modifies this, nodes`back, nodes`next
      ensures Valid() && nodes == Drop(old(nodes), k) && node !in nodes
      ensures NoDup(Ids(old(nodes))) ==> Ids(nodes) == Without(Ids(old(nodes)), node.id)
    {
      hide Drop, Ids, Without;
      Neighbours(nodes, k);
      if node.back != null {
        node.back.next := node.next;
      } else {
        head := node.next;
      }
      if node.next != null {
        node.next.back := node.back;
      } else {
        tail := node.back;
      }
      Joined(nodes, k);
      DropIds(nodes, k);
      nodes := Drop(nodes, k);
    }
  }

  lemma Neighbours(q: seq<QueryNode>, k: nat)
    requires k < |q| && Chain(q)
    ensures k > 0 ==> q[k - 1].next == q[k] && q[k].back == q[k - 1]
    ensures k + 1 < |q| ==> q[k].next == q[k + 1] && q[k + 1].back == q[k]
  {
  }

  /** With the neighbours of q[k] joined, the other nodes form a chain. */
  lemma Joined(q: seq<QueryNode>, k: nat)
    requires k < |q| && NoDup(q)
    requires forall i, j {:trigger q[i], q[j]} :: 0 <= i && j == i + 1 < |q| && i != k && j != k ==>
      q[i].next == q[j] && q[j].back == q[i]
    requires 0 < k < |q| - 1 ==> q[k - 1].next == q[k + 1] && q[k + 1].back == q[k - 1]
    ensures Chain(Drop(q, k)) && NoDup(Drop(q, k)) && q[k] !in Drop(q, k)
  {
    hide Drop;
    var r := Drop(q, k);
    forall i, j {:trigger r[i], r[j]} | 0 <= i && j == i + 1 < |r|
      ensures r[i].next == r[j] && r[j].back == r[i]
    {
      assert r[i] == q[if i < k then i else i + 1] && r[j] == q[if j < k then j else j + 1];
    }
  }

  /** Dropping a node is dropping the first, and only, occurrence of its query. */
  lemma DropIds(q: seq<QueryNode>, k: nat)
    requires k < |q|
    ensures NoDup(Ids(q)) ==> Ids(Drop(q, k)) == Without(Ids(q), q[k].id)
  {
    if NoDup(Ids(q)) {
      DropWithout(Ids(q), k);
      assert Ids(Drop(q, k)) == Drop(Ids(q), k);
    }
  }

  // ---------------------------------------------------------------- adns_forallqueries

  class AllQueries {
    const udpw: QueryList
    const tcpw: QueryList
    const childw: QueryList
    const output: QueryList
    var forallnext: QueryNode?
    /** How far the iteration has come. */
    ghost var at: nat

    constructor (udpw: QueryList, tcpw: QueryList, childw: QueryList, output: QueryList)
      ensures this.udpw == udpw && this.tcpw == tcpw && this.childw == childw && this.output == output
    {
      this.udpw, this.tcpw, this.childw, this.output, forallnext, at := udpw, tcpw, childw, output, null, 0;
    }

    ghost function All(): seq<QueryNode>
      reads udpw, tcpw, childw, output
    {
      udpw.nodes + tcpw.nodes + childw.nodes + output.nodes
    }

    ghost predicate Lists()
      reads udpw, udpw.nodes, tcpw, tcpw.nodes, childw, childw.nodes, output, output.nodes
    {
      udpw.Valid() && tcpw.Valid() && childw.Valid() && output.Valid() && NoDup(All())
    }

    /** The node from which iteration goes on is the one at the position reached. */
    ghost predicate Valid()
      reads this, udpw, udpw.nodes, tcpw, tcpw.nodes, childw, childw.nodes, output, output.nodes
    {
      Lists() && at <= |All()| && forallnext == if at < |All()| then All()[at] else null
    }

    /** adns_forallqueries_begin. */
    method Begin()
      requires Lists()
      modifies this
      ensures Valid() && at == 0
    {
      forallnext, at :=
        if udpw.head != null then udpw.head
        else if tcpw.head != null then tcpw.head
        else if childw.head != null then childw.head
        else output.head, 0;
    }

    /** adns_forallqueries_next: the next query without a parent, in the order of the queues. */
    method Next() returns (qu: QueryNode?)
      requires Valid()
      modifies this
      ensures Valid()
      ensures qu == null ==> at == old(at) && forall i :: at <= i < |All()| ==> All()[i].child
      ensures qu != null ==>
        && old(at) < at && qu == All()[at - 1] && !qu.child
        && forall i :: old(at) <= i < at - 1 ==> All()[i].child
    {
      hide QueryList.Valid, NoDup, Chain;
      var nqu := forallnext;
      ghost var i, all := at, All();
      while true
        invariant at <= i <= |all| && nqu == (if i < |all| then all[i] else null)
        invariant forall k :: at <= k < i ==> all[k].child
        invariant at == old(at) && forallnext == old(forallnext) && All() == all
        decreases |all| - i
      {
        qu := nqu;
        if qu == null {
          return;
        }
        nqu := Following(qu, i);
        if !qu.child {
          break;
        }
        i := i + 1;
      }
      forallnext, at := nqu, i + 1;
    }

    /** The node after qu: on its list, or the first of the lists after it. */
    method Following(qu: QueryNode, ghost i: nat) returns (nqu: QueryNode?)
      requires Lists() && i < |All()| && qu == All()[i]
      ensures nqu == if i + 1 < |All()| then All()[i + 1] else null
    {
      hide QueryList.Valid, NoDup, Chain;
      ghost var u, t, c, o := |udpw.nodes|, |tcpw.nodes|, |childw.nodes|, |output.nodes|;
      Where(udpw, All(), 0, i);
      Where(tcpw, All(), u, i);
      Where(childw, All(), u + t, i);
      Where(output, All(), u + t + c, i);
      if qu.next != null {
        nqu := qu.next;
      } else if qu == udpw.tail {
        nqu := if tcpw.head != null then tcpw.head else if childw.head != null then childw.head else output.head;
      } else if qu == tcpw.tail {
        nqu := if childw.head != null then childw.head else output.head;
      } else if qu == childw.tail {
        nqu := output.head;
      } else {
        nqu := null;
      }
    }
  }

  /** What next, tail and head say about a position, for one of several lists laid end to end. */
  lemma Where(l: QueryList, all: seq<QueryNode>, base: nat, i: nat)
    requires l.Valid() && NoDup(all) && base + |l.nodes| <= |all| && i < |all|
    requires forall k :: 0 <= k < |l.nodes| ==> all[base + k] == l.nodes[k]
    ensures base <= i < base + |l.nodes| - 1 ==> all[i].next == all[i + 1]
    ensures base <= i == base + |l.nodes| - 1 ==> all[i].next == null
    ensures all[i] == l.tail <==> base <= i == base + |l.nodes| - 1
    ensures l.head == if l.nodes == [] then null else all[base]
  {
    if base <= i < base + |l.nodes| {
      assert all[i] == l.nodes[i - base];
      if i + 1 < base + |l.nodes| {
        assert all[i + 1] == l.nodes[i + 1 - base];
      }
    }
    if l.nodes != [] {
      assert l.tail == all[base + |l.nodes| - 1];
      assert l.head == all[base + 0];
    }
  }
}
