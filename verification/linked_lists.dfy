/** Singly linked lists threaded through a table, as the kernel keeps them: an array of list heads
    and one link per table slot, edited through pointers to pointers. */
module LinkedLists {
  import opened Options
  import opened KernelState
  import opened KernelGraph

  type Ptr = Option<Pid>

  /** Where a `struct proc **` points: to the head of list `q`, or to the link of slot `p`. */
  datatype Place = Head(q: nat) | LinkOf(p: Pid)

  predicate PlaceOk(heads: seq<Ptr>, link: seq<Ptr>, at: Place) {
    match at
    case Head(q) => q < |heads|
    case LinkOf(p) => p < |link|
  }

  function Deref(heads: seq<Ptr>, link: seq<Ptr>, at: Place): Ptr
    requires PlaceOk(heads, link, at)
  {
    match at
    case Head(q) => heads[q]
    case LinkOf(p) => link[p]
  }

  /** The element that follows element `k`. */
  function After(q: seq<Pid>, k: nat): Ptr
    requires k < |q|
  {
    if k + 1 < |q| then Some(q[k + 1]) else None
  }

  /** Following the links from `head` visits exactly `q`, in order. */
  ghost predicate Chain(head: Ptr, link: seq<Ptr>, q: seq<Pid>) {
    && (forall k :: 0 <= k < |q| ==> q[k] < |link|)
    && head == (if q == [] then None else Some(q[0]))
    && (forall k :: 0 <= k < |q| ==> link[q[k]] == After(q, k))
  }

  ghost predicate Chains(heads: seq<Ptr>, link: seq<Ptr>, qs: seq<seq<Pid>>) {
    && |heads| == |qs|
    && (forall d :: 0 <= d < |qs| ==> Chain(heads[d], link, qs[d]))
  }

  /** No process is on two lists, or twice on one. */
  ghost predicate Separate(qs: seq<seq<Pid>>) {
    && (forall d :: 0 <= d < |qs| ==> NoDup(qs[d]))
    && (forall d, e, x :: 0 <= d < |qs| && 0 <= e < |qs| && d != e && x in qs[d] ==> x !in qs[e])
  }

  ghost predicate OnNone(qs: seq<seq<Pid>>, p: Pid) {
    forall d :: 0 <= d < |qs| ==> p !in qs[d]
  }

  /** The place that holds the pointer to element `k` of list `d`. */
  function PlaceAt(qs: seq<seq<Pid>>, d: nat, k: nat): Place
    requires d < |qs| && k <= |qs[d]|
  {
    if k == 0 then Head(d) else LinkOf(qs[d][k - 1])
  }

  lemma DerefAt(heads: seq<Ptr>, link: seq<Ptr>, qs: seq<seq<Pid>>, d: nat, k: nat)
    requires Chains(heads, link, qs) && d < |qs| && k <= |qs[d]|
    ensures PlaceOk(heads, link, PlaceAt(qs, d, k))
    ensures Deref(heads, link, PlaceAt(qs, d, k)) == if k < |qs[d]| then Some(qs[d][k]) else None
  {
    assert Chain(heads[d], link, qs[d]);
    if k > 0 {
      assert link[qs[d][k - 1]] == After(qs[d], k - 1);
    }
  }

  // One list.

  lemma ChainKept(head: Ptr, link: seq<Ptr>, link': seq<Ptr>, q: seq<Pid>)
    requires Chain(head, link, q) && |link'| == |link|
    requires forall x :: x in q && x < |link| ==> link'[x] == link[x]
    ensures Chain(head, link', q)
  {
    forall k | 0 <= k < |q|
      ensures link'[q[k]] == After(q, k)
    {
      assert q[k] in q;
    }
  }

  lemma ChainFront(head: Ptr, link: seq<Ptr>, q: seq<Pid>, p: Pid)
    requires Chain(head, link, q) && p < |link| && p !in q
    ensures Chain(Some(p), link[p := head], [p] + q)
  {
    var link' := link[p := head];
    forall k | 0 <= k < |q| + 1
      ensures link'[([p] + q)[k]] == After([p] + q, k)
    {
      if k > 0 {
        assert ([p] + q)[k] == q[k - 1] && q[k - 1] in q;
        assert link[q[k - 1]] == After(q, k - 1);
      }
    }
  }

  lemma ChainBack(head: Ptr, link: seq<Ptr>, q: seq<Pid>, p: Pid)
    requires Chain(head, link, q) && p < |link| && p !in q && NoDup(q) && q != []
    ensures q[|q| - 1] < |link| && Chain(head, link[q[|q| - 1] := Some(p)][p := None], q + [p])
  {
    var last := q[|q| - 1];
    var link' := link[last := Some(p)][p := None];
    forall k | 0 <= k < |q| + 1
      ensures link'[(q + [p])[k]] == After(q + [p], k)
    {
      if k < |q| - 1 {
        assert q[k] != last && q[k] != p;
        assert link[q[k]] == After(q, k);
      }
    }
  }

  lemma ChainDropHead(head: Ptr, link: seq<Ptr>, q: seq<Pid>)
    requires Chain(head, link, q) && q != []
    ensures Chain(link[q[0]], link, q[1..])
  {
    forall k | 0 <= k < |q| - 1
      ensures link[q[1..][k]] == After(q[1..], k)
    {
      assert link[q[k + 1]] == After(q, k + 1);
    }
  }

  lemma ChainDrop(head: Ptr, link: seq<Ptr>, q: seq<Pid>, k: nat)
    requires Chain(head, link, q) && NoDup(q) && 0 < k < |q|
    ensures Chain(head, link[q[k - 1] := link[q[k]]], q[..k] + q[k + 1..])
  {
    ChainAt(head, link, q, k);
    ChainAt(head, link, q, k - 1);
    ChainAt(head, link, q, 0);
    ChainHead(head, link, q);
    hide NoDup;
    var link', r := link[q[k - 1] := link[q[k]]], q[..k] + q[k + 1..];
    assert r[0] == q[0];
    forall j | 0 <= j < |r|
      ensures r[j] < |link'| && link'[r[j]] == After(r, j)
    {
      DropOne(head, link, q, k, j);
    }
  }

  lemma ChainHead(head: Ptr, link: seq<Ptr>, q: seq<Pid>)
    requires Chain(head, link, q) && q != []
    ensures head == Some(q[0])
  {
  }

  lemma ChainAt(head: Ptr, link: seq<Ptr>, q: seq<Pid>, k: nat)
    requires Chain(head, link, q) && k < |q|
    ensures q[k] < |link| && link[q[k]] == After(q, k)
  {
  }

  lemma NoDupAt(q: seq<Pid>, j: nat, k: nat)
    requires NoDup(q) && j < |q| && k < |q| && j != k
    ensures q[j] != q[k]
  {
    if j < k {
      assert q[j] != q[k];
    } else {
      assert q[k] != q[j];
    }
  }

  lemma DropOne(head: Ptr, link: seq<Ptr>, q: seq<Pid>, k: nat, j: nat)
    requires Chain(head, link, q) && NoDup(q) && 0 < k < |q| && j < |q| - 1
    ensures var r := q[..k] + q[k + 1..];
            r[j] < |link| && q[k] < |link| && q[k - 1] < |link| && link[q[k - 1] := link[q[k]]][r[j]] == After(r, j)
  {
    hide Chain, NoDup;
    var r := q[..k] + q[k + 1..];
    var n := if j < k then j else j + 1;
    assert r[j] == q[n];
    ChainAt(head, link, q, n);
    ChainAt(head, link, q, k);
    ChainAt(head, link, q, k - 1);
    if n != k - 1 {
      NoDupAt(q, n, k - 1);
    }
    if j + 1 < |r| {
      assert r[j + 1] == q[if j + 1 < k then j + 1 else j + 2];
    }
  }

  // All lists.

  lemma SeparatePush(qs: seq<seq<Pid>>, d: nat, p: Pid, q: seq<Pid>)
    requires Separate(qs) && d < |qs| && OnNone(qs, p)
    requires q == [p] + qs[d] || q == qs[d] + [p]
    ensures Separate(qs[d := q])
  {
    assert forall x :: x in q <==> x == p || x in qs[d];
  }

  lemma ChainsPushFront(heads: seq<Ptr>, link: seq<Ptr>, qs: seq<seq<Pid>>, d: nat, p: Pid)
    requires Chains(heads, link, qs) && OnNone(qs, p) && d < |qs| && p < |link|
    ensures Chains(heads[d := Some(p)], link[p := heads[d]], qs[d := [p] + qs[d]])
  {
    var heads', link', qs' := heads[d := Some(p)], link[p := heads[d]], qs[d := [p] + qs[d]];
    forall e | 0 <= e < |qs'|
      ensures Chain(heads'[e], link', qs'[e])
    {
      if e == d {
        ChainFront(heads[d], link, qs[d], p);
      } else {
        ChainKept(heads[e], link, link', qs[e]);
      }
    }
  }

  lemma ChainsPushBack(heads: seq<Ptr>, link: seq<Ptr>, qs: seq<seq<Pid>>, d: nat, p: Pid)
    requires Chains(heads, link, qs) && Separate(qs) && OnNone(qs, p) && d < |qs| && p < |link|
    requires qs[d] != []
    ensures qs[d][|qs[d]| - 1] < |link|
    ensures Chains(heads, link[qs[d][|qs[d]| - 1] := Some(p)][p := None], qs[d := qs[d] + [p]])
  {
    var qs' := qs[d := qs[d] + [p]];
    var last := qs[d][|qs[d]| - 1];
    assert last in qs[d];
    ChainBack(heads[d], link, qs[d], p);
    var link' := link[last := Some(p)][p := None];
    forall e | 0 <= e < |qs'|
      ensures Chain(heads[e], link', qs'[e])
    {
      if e != d {
        ChainKept(heads[e], link, link', qs[e]);
      }
    }
  }

  /** `*xpp = (*xpp)->link` at the place that points to the first element removes it. */
  lemma ChainsRemoveHead(heads: seq<Ptr>, link: seq<Ptr>, qs: seq<seq<Pid>>, d: nat)
    requires Chains(heads, link, qs) && d < |qs| && qs[d] != []
    ensures qs[d][0] < |link|
    ensures Chains(heads[d := link[qs[d][0]]], link, qs[d := qs[d][..0] + qs[d][1..]])
  {
    assert qs[d][..0] + qs[d][1..] == qs[d][1..];
    ChainDropHead(heads[d], link, qs[d]);
  }

  /** `*xpp = (*xpp)->link` at the place that points to element `k` removes it. */
  lemma ChainsRemove(heads: seq<Ptr>, link: seq<Ptr>, qs: seq<seq<Pid>>, d: nat, k: nat)
    requires Chains(heads, link, qs) && Separate(qs) && d < |qs| && 0 < k < |qs[d]|
    ensures qs[d][k] < |link| && qs[d][k - 1] < |link|
    ensures Chains(heads, link[qs[d][k - 1] := link[qs[d][k]]], qs[d := qs[d][..k] + qs[d][k + 1..]])
  {
    var q := qs[d][..k] + qs[d][k + 1..];
    assert Chain(heads[d], link, qs[d]) && NoDup(qs[d]);
    ChainDrop(heads[d], link, qs[d], k);
    var link' := link[qs[d][k - 1] := link[qs[d][k]]];
    assert qs[d][k - 1] in qs[d];
    forall e | 0 <= e < |qs|
      ensures Chain(heads[e], link', qs[d := q][e])
    {
      if e != d {
        ChainKept(heads[e], link, link', qs[e]);
      }
    }
  }

  lemma SeparateRemove(qs: seq<seq<Pid>>, d: nat, k: nat)
    requires Separate(qs) && d < |qs| && k < |qs[d]|
    ensures Separate(qs[d := qs[d][..k] + qs[d][k + 1..]])
    ensures OnNone(qs[d := qs[d][..k] + qs[d][k + 1..]], qs[d][k])
  {
    var q := qs[d][..k] + qs[d][k + 1..];
    forall x
      ensures x in q <==> x in qs[d] && x != qs[d][k]
    {
      RemoveAt(qs[d], k, x);
    }
    RemoveAt(qs[d], k, qs[d][k]);
    assert qs[d][k] in qs[d];
  }
}
