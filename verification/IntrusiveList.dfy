/** The intrusive circular lists of memory/ummalloc_decl.h: list operations change two links,
    and act on the sequence of nodes behind a list head as on a stack. */
module IntrusiveList {
  import opened Basics

  datatype Link = Link(prev: nat, next: nat)

  type Links = map<nat, Link>

  /** The k-th node of the ring, counting from the head. */
  function Node(head: nat, s: seq<nat>, k: nat): nat {
    if 0 < k <= |s| then s[k - 1] else head
  }

  ghost predicate Apart(head: nat, s: seq<nat>) {
    head !in s && Distinct(s)
  }

  /** The nodes behind `head` are s, linked both ways. */
  ghost predicate IsRing(links: Links, head: nat, s: seq<nat>) {
    && Apart(head, s) && head in links && (forall i :: 0 <= i < |s| ==> s[i] in links)
    && forall k :: 0 <= k <= |s| ==> Joined(links, Node(head, s, k), Node(head, s, k + 1))
  }

  predicate Joined(links: Links, a: nat, b: nat) {
    a in links && b in links && links[a].next == b && links[b].prev == a
  }

  /** node_link */
  function NodeLink(links: Links, a: nat, b: nat): (r: Links)
    requires a in links && b in links
    ensures Joined(r, a, b) && r.Keys == links.Keys
    ensures forall x :: x in links && x != a ==> r[x].next == links[x].next
    ensures forall x :: x in links && x != b ==> r[x].prev == links[x].prev
  {
    var l := links[a := links[a].(next := b)];
    l[b := l[b].(prev := a)]
  }

  /** Linking the neighbours of node k takes it out of the ring. */
  lemma EraseRing(links: Links, head: nat, s: seq<nat>, k: nat)
    requires IsRing(links, head, s) && k < |s|
    ensures var p, n := links[s[k]].prev, links[s[k]].next;
            && p in links && n in links && p == Node(head, s, k) && n == Node(head, s, k + 2)
            && IsRing(NodeLink(links, p, n), head, s[..k] + s[k + 1..]) && (p == n <==> |s| == 1)
  {
    var p, n := links[s[k]].prev, links[s[k]].next;
    assert Joined(links, Node(head, s, k), Node(head, s, k + 1)) && Joined(links, Node(head, s, k + 1), Node(head, s, k + 2));
    var t, r := s[..k] + s[k + 1..], NodeLink(links, p, n);
    assert Apart(head, t);
    forall j | 0 <= j <= |t|
      ensures Joined(r, Node(head, t, j), Node(head, t, j + 1))
    {
      var i := if j <= k then j else j + 1;
      assert Node(head, t, j) == Node(head, s, i);
      if j != k {
        assert Node(head, t, j + 1) == Node(head, s, i + 1) && Joined(links, Node(head, s, i), Node(head, s, i + 1));
        NodesDiffer(head, s, i, k);
        NodesDiffer(head, s, i + 1, k + 2);
      }
    }
  }

  /** Nodes at different places of a ring are different. */
  lemma NodesDiffer(head: nat, s: seq<nat>, i: nat, j: nat)
    requires Apart(head, s) && i <= |s| + 1 && j <= |s| + 1
    ensures Node(head, s, i) == Node(head, s, j) <==> i == j || (i % (|s| + 1) == 0 && j % (|s| + 1) == 0)
  {
  }

  /** Linking a new node behind the head pushes it. */
  lemma PushRing(links: Links, head: nat, s: seq<nat>, node: nat)
    requires IsRing(links, head, s) && node in links && node != head && node !in s
    ensures links[head].next in links
    ensures IsRing(NodeLink(NodeLink(links, node, links[head].next), head, node), head, [node] + s)
  {
    var n := links[head].next;
    assert Joined(links, Node(head, s, 0), Node(head, s, 1));
    var t, r := [node] + s, NodeLink(NodeLink(links, node, n), head, node);
    assert Apart(head, t);
    forall j | 0 <= j <= |t|
      ensures Joined(r, Node(head, t, j), Node(head, t, j + 1))
    {
      if j >= 2 {
        assert Node(head, t, j) == Node(head, s, j - 1) && Node(head, t, j + 1) == Node(head, s, j);
        assert Joined(links, Node(head, s, j - 1), Node(head, s, j));
        NodesDiffer(head, s, j, 1);
      }
    }
  }

  /** A ring none of whose nodes changed. */
  lemma RingKept(links: Links, links': Links, head: nat, s: seq<nat>)
    requires IsRing(links, head, s) && forall x :: x == head || x in s ==> x in links' && links'[x] == links[x]
    ensures IsRing(links', head, s)
  {
    forall k | 0 <= k <= |s|
      ensures Joined(links', Node(head, s, k), Node(head, s, k + 1))
    {
      assert Joined(links, Node(head, s, k), Node(head, s, k + 1));
    }
  }
}
