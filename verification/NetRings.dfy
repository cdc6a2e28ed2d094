/**
 The pointer shape of network messages.  Memory is the set of netbufs carved out of the kernel
 blocks the network holds, addressed as in the kernel; b_qlink joins them into circular lists whose
 handle is the address of the last buffer.  `Parts` says which buffer is in which list, and
 `Partition` that every buffer is in exactly one.
 */
module NetRings {
  import opened NetChunks

  /** A core address; 0 is the null pointer. */
  type Addr = nat

  /** h/netbuf.h: `member`, `raw` and `eom` are the fields packed in b_resv. */
  datatype Netbuf = Netbuf(qlink: Addr, len: nat, member: nat, raw: bool, eom: bool, data: seq<Byte>)

  type Memory = map<Addr, Netbuf>

  ghost predicate Distinct(s: seq<Addr>) {
    forall i, j :: 0 <= i < j < |s| ==> s[i] != s[j]
  }

  ghost function Handle(s: seq<Addr>): Addr {
    if s == [] then 0 else s[|s| - 1]
  }

  /** The b_qlinks of `s` form one ring, in this order. */
  ghost predicate Linked(mem: Memory, s: seq<Addr>) {
    forall i {:trigger mem[s[i]]} {:trigger s[i] in mem} :: 0 <= i < |s| ==>
      s[i] in mem && mem[s[i]].qlink == (if i + 1 < |s| then s[i + 1] else s[0])
  }

  /** Same buffers with the same contents; only the links of `changed` may differ. */
  ghost predicate OnlyLinks(m: Memory, m': Memory, changed: set<Addr>) {
    && m.Keys == m'.Keys
    && forall a {:trigger m'[a]} :: a in m ==>
         m'[a] == m[a].(qlink := m'[a].qlink) && (a !in changed ==> m'[a] == m[a])
  }

  lemma LinkAtEnd(mem: Memory, s: seq<Addr>, b: Addr, mem': Memory)
    requires s != [] && Distinct(s) && Linked(mem, s) && b in mem && b !in s
    requires mem' == mem[b := mem[b].(qlink := s[0])][Handle(s) := mem[Handle(s)].(qlink := b)]
    ensures Linked(mem', s + [b]) && OnlyLinks(mem, mem', {b, Handle(s)})
  {
    var t := s + [b];
    forall i | 0 <= i < |t|
      ensures t[i] in mem' && mem'[t[i]].qlink == (if i + 1 < |t| then t[i + 1] else t[0])
    {
      assert i < |s| ==> s[i] in mem && s[i] in s;
    }
  }

  lemma UnlinkFirst(mem: Memory, s: seq<Addr>, mem': Memory)
    requires |s| > 1 && Distinct(s) && Linked(mem, s)
    requires mem' == mem[Handle(s) := mem[Handle(s)].(qlink := mem[s[0]].qlink)][s[0] := mem[s[0]].(qlink := s[0])]
    ensures Linked(mem', s[1..]) && Distinct(s[1..]) && OnlyLinks(mem, mem', {s[0], Handle(s)})
  {
    RestDistinct(s);
    assert s[0] in mem && s[|s| - 1] in mem && mem[s[0]].qlink == s[1];
    forall i | 0 <= i < |s[1..]|
      ensures s[1..][i] in mem' && mem'[s[1..][i]].qlink == (if i + 1 < |s[1..]| then s[1..][i + 1] else s[1..][0])
    {
      UnlinkAt(mem, s, mem', i);
    }
  }

  lemma RestDistinct(s: seq<Addr>)
    requires Distinct(s) && s != []
    ensures Distinct(s[1..])
  {
  }

  lemma UnlinkAt(mem: Memory, s: seq<Addr>, mem': Memory, i: nat)
    requires i + 1 < |s| && Distinct(s) && Linked(mem, s)
    requires mem' == mem[Handle(s) := mem[Handle(s)].(qlink := mem[s[0]].qlink)][s[0] := mem[s[0]].(qlink := s[0])]
    ensures var t := s[1..];
      t[i] in mem' && mem'[t[i]].qlink == (if i + 1 < |t| then t[i + 1] else t[0])
  {
    var j := i + 1;
    assert s[0] in mem && s[j] in mem && s[j] != s[0] && mem[s[0]].qlink == s[1];
    if j + 1 < |s| {
      assert s[j] != Handle(s);
    }
  }

  lemma JoinRings(mem: Memory, s: seq<Addr>, t: seq<Addr>, mem': Memory)
    requires s != [] && t != [] && Distinct(s) && Distinct(t) && Linked(mem, s) && Linked(mem, t)
    requires forall a :: a in s ==> a !in t
    requires mem' == mem[Handle(s) := mem[Handle(s)].(qlink := t[0])][Handle(t) := mem[Handle(t)].(qlink := s[0])]
    ensures Linked(mem', s + t) && OnlyLinks(mem, mem', {Handle(s), Handle(t)})
  {
    var u := s + t;
    forall i | 0 <= i < |u|
      ensures u[i] in mem' && mem'[u[i]].qlink == (if i + 1 < |u| then u[i + 1] else u[0])
    {
      if i < |s| {
        assert u[i] == s[i] && s[i] in mem && s[i] in s;
      } else {
        assert u[i] == t[i - |s|] && t[i - |s|] in mem && t[i - |s|] in t;
      }
    }
  }

  /** A ring may be entered anywhere: turning it keeps it a ring. */
  lemma TurnRing(mem: Memory, s: seq<Addr>, k: nat)
    requires Distinct(s) && Linked(mem, s) && k <= |s|
    ensures Linked(mem, s[k..] + s[..k]) && Distinct(s[k..] + s[..k])
    ensures forall a :: a in s <==> a in s[k..] + s[..k]
  {
    var t := s[k..] + s[..k];
    forall i | 0 <= i < |t|
      ensures t[i] in mem && mem[t[i]].qlink == (if i + 1 < |t| then t[i + 1] else t[0])
    {
      var j := if i < |s| - k then i + k else i - (|s| - k);
      assert t[i] == s[j] && s[j] in mem;
    }
    forall a | a in s ensures a in t {
      var j :| 0 <= j < |s| && s[j] == a;
      assert t[if j >= k then j - k else j + (|s| - k)] == a;
    }
  }

  // ------------------------------------------------------------------ who owns which buffer

  /** The free list, the message rings by handle, and buffers in the hands of running code. */
  datatype Parts = Parts(free: seq<Addr>, msgs: map<Addr, seq<Addr>>, loose: set<Addr>)

  ghost predicate InMsg(msgs: map<Addr, seq<Addr>>, a: Addr) {
    exists h :: h in msgs && a in msgs[h]
  }

  /** Every buffer of `keys` is free, in one message, or loose, and in one place only. */
  ghost predicate Partition(keys: set<Addr>, p: Parts) {
    && Distinct(p.free)
    && (forall a :: a in p.free ==> a in keys && a !in p.loose)
    && (forall a :: a in p.loose ==> a in keys)
    && (forall h :: h in p.msgs ==> p.msgs[h] != [] && Distinct(p.msgs[h]) && Handle(p.msgs[h]) == h)
    && (forall h, a :: h in p.msgs && a in p.msgs[h] ==> a in keys && a !in p.free && a !in p.loose)
    && (forall g, h, a :: g in p.msgs && h in p.msgs && a in p.msgs[g] && a in p.msgs[h] ==> g == h)
    && (forall a :: a in keys ==> a in p.free || a in p.loose || InMsg(p.msgs, a))
  }

  lemma TakeFree(keys: set<Addr>, p: Parts)
    requires Partition(keys, p) && p.free != []
    ensures Partition(keys, p.(free := p.free[1..], loose := p.loose + {p.free[0]}))
  {
    assert forall a :: a in p.free ==> a == p.free[0] || a in p.free[1..];
  }

  lemma PutFree(keys: set<Addr>, p: Parts, a: Addr)
    requires Partition(keys, p) && a in p.loose
    ensures Partition(keys, p.(free := p.free + [a], loose := p.loose - {a}))
  {
    assert forall b :: b in p.free + [a] <==> b in p.free || b == a;
  }

  /** A loose buffer becomes a message of its own. */
  lemma NewMessage(keys: set<Addr>, p: Parts, a: Addr)
    requires Partition(keys, p) && a in p.loose
    ensures a !in p.msgs
    ensures Partition(keys, p.(msgs := p.msgs[a := [a]], loose := p.loose - {a}))
  {
    var q := p.(msgs := p.msgs[a := [a]], loose := p.loose - {a});
    forall b | b in keys ensures b in q.free || b in q.loose || InMsg(q.msgs, b) {
      if b == a {
        assert b in q.msgs[a];
      } else if InMsg(p.msgs, b) {
        var h :| h in p.msgs && b in p.msgs[h];
        assert h in q.msgs && b in q.msgs[h];
      }
    }
  }

  ghost function Rehandled(msgs: map<Addr, seq<Addr>>, gone: set<Addr>, s: seq<Addr>): map<Addr, seq<Addr>>
    requires s != []
  {
    (msgs - gone)[Handle(s) := s]
  }

  /** Joining two messages, or giving one a further loose buffer, or turning one: the rings `gone`
      (and loose buffers `used`) are replaced by one ring `s` with the same buffers. */
  lemma Regroup(keys: set<Addr>, p: Parts, gone: set<Addr>, used: set<Addr>, s: seq<Addr>)
    requires Partition(keys, p) && gone <= p.msgs.Keys && used <= p.loose
    requires s != [] && Distinct(s)
    requires forall a :: a in s <==> a in used || exists h :: h in gone && a in p.msgs[h]
    ensures Partition(keys, p.(msgs := Rehandled(p.msgs, gone, s), loose := p.loose - used))
    ensures Handle(s) !in p.msgs.Keys - gone
  {
    var q := p.(msgs := Rehandled(p.msgs, gone, s), loose := p.loose - used);
    var e := Handle(s);
    assert e in s;
    if e in p.msgs && e !in gone {
      assert false;
    }
    forall h | h in q.msgs && h != e ensures h in p.msgs && h !in gone && q.msgs[h] == p.msgs[h] {
    }
    assert q.msgs[e] == s;
    forall b | b in keys ensures b in q.free || b in q.loose || InMsg(q.msgs, b) {
      if b in s {
        assert b in q.msgs[e];
      } else if InMsg(p.msgs, b) {
        var h :| h in p.msgs && b in p.msgs[h];
        assert h in q.msgs && b in q.msgs[h];
      }
    }
    forall g, h, b | g in q.msgs && h in q.msgs && b in q.msgs[g] && b in q.msgs[h] ensures g == h {
    }
  }

  /** The first buffer of a message is unlinked; the message keeps the others, if any. */
  ghost function Beheaded(p: Parts, h: Addr): Parts
    requires h in p.msgs && p.msgs[h] != []
  {
    var s := p.msgs[h];
    p.(msgs := if |s| == 1 then p.msgs - {h} else p.msgs[h := s[1..]], loose := p.loose + {s[0]})
  }

  lemma Behead(keys: set<Addr>, p: Parts, h: Addr)
    requires Partition(keys, p) && h in p.msgs
    ensures Partition(keys, Beheaded(p, h))
  {
    var s := p.msgs[h];
    var q := Beheaded(p, h);
    assert s[0] in s;
    assert forall a :: a in s <==> a == s[0] || a in s[1..];
    forall b | b in keys ensures b in q.free || b in q.loose || InMsg(q.msgs, b) {
      if InMsg(p.msgs, b) && b != s[0] {
        var g :| g in p.msgs && b in p.msgs[g];
        assert g in q.msgs && b in q.msgs[g];
      }
    }
  }
}
