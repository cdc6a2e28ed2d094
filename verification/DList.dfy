/**
 Circular doubly linked lists through two pointer fields, as h/buf.h threads buffers: node to next
 and node to previous.  `s` lists a ring's nodes from its head onwards.
 */
module DList {

  type Node = nat
  type Links = map<Node, Node>

  ghost predicate NoDup(s: seq<Node>) {
    forall i, j :: 0 <= i < j < |s| ==> s[i] != s[j]
  }

  ghost function NextOf(s: seq<Node>, i: nat): Node
    requires i < |s|
  {
    if i + 1 < |s| then s[i + 1] else s[0]
  }

  ghost function PrevOf(s: seq<Node>, i: nat): Node
    requires i < |s|
  {
    if i > 0 then s[i - 1] else s[|s| - 1]
  }

  ghost predicate LinkedAt(f: Links, b: Links, s: seq<Node>, i: nat)
    requires i < |s|
  {
    s[i] in f && s[i] in b && f[s[i]] == NextOf(s, i) && b[s[i]] == PrevOf(s, i)
  }

  ghost predicate DRing(f: Links, b: Links, s: seq<Node>) {
    s != [] && NoDup(s) && forall i :: 0 <= i < |s| ==> LinkedAt(f, b, s, i)
  }

  /** Unlink node `k`, not the head: around it in both directions. */
  lemma Unlink(f: Links, b: Links, s: seq<Node>, k: nat, f': Links, b': Links)
    requires DRing(f, b, s) && 1 <= k < |s|
    requires s[k] in f && s[k] in b && f' == f[b[s[k]] := f[s[k]]] && b' == b[f[s[k]] := b[s[k]]]
    ensures DRing(f', b', s[..k] + s[k + 1..])
  {
    var t := s[..k] + s[k + 1..];
    assert LinkedAt(f, b, s, k);
    forall i | 0 <= i < |t|
      ensures LinkedAt(f', b', t, i)
    {
      var j := if i < k then i else i + 1;
      assert t[i] == s[j];
      assert LinkedAt(f, b, s, j);
    }
  }

  /** Link `x` in right after the head. */
  lemma LinkFront(f: Links, b: Links, s: seq<Node>, x: Node, f': Links, b': Links)
    requires DRing(f, b, s) && x !in s && s[0] in f
    requires f' == f[x := f[s[0]]][s[0] := x] && b' == b[x := s[0]][f[s[0]] := x]
    ensures DRing(f', b', [s[0], x] + s[1..])
  {
    var t := [s[0], x] + s[1..];
    assert LinkedAt(f, b, s, 0);
    assert s[0] in s && NextOf(s, 0) in s;
    forall i | 0 <= i < |t|
      ensures LinkedAt(f', b', t, i)
    {
      if i == 1 {
        assert t[1] == x;
      } else {
        var j := if i == 0 then 0 else i - 1;
        assert t[i] == s[j] && s[j] in s;
        assert LinkedAt(f, b, s, j);
      }
    }
  }

  /** Link `x` in right before the head, that is at the end. */
  lemma LinkBack(f: Links, b: Links, s: seq<Node>, x: Node, f': Links, b': Links)
    requires DRing(f, b, s) && x !in s && s[0] in b
    requires f' == f[b[s[0]] := x][x := s[0]] && b' == b[x := b[s[0]]][s[0] := x]
    ensures DRing(f', b', s + [x])
  {
    var t := s + [x];
    assert LinkedAt(f, b, s, 0);
    assert s[0] in s && PrevOf(s, 0) in s;
    forall i | 0 <= i < |t|
      ensures LinkedAt(f', b', t, i)
    {
      if i < |s| {
        assert t[i] == s[i] && s[i] in s;
        assert LinkedAt(f, b, s, i);
      }
    }
  }

  /** Rings that share no node with those touched stay. */
  lemma RingKept(f: Links, b: Links, s: seq<Node>, f': Links, b': Links, touched: set<Node>)
    requires DRing(f, b, s) && forall x :: x in s ==> x !in touched
    requires forall x :: x in f && x !in touched ==> x in f' && f'[x] == f[x]
    requires forall x :: x in b && x !in touched ==> x in b' && b'[x] == b[x]
    ensures DRing(f', b', s)
  {
    forall i | 0 <= i < |s|
      ensures LinkedAt(f', b', s, i)
    {
      assert LinkedAt(f, b, s, i);
      assert s[i] in s;
    }
  }

  lemma Neighbours(f: Links, b: Links, s: seq<Node>, k: nat)
    requires DRing(f, b, s) && k < |s|
    ensures NextOf(s, k) in s && PrevOf(s, k) in s && s[k] in s
  {
  }
}
