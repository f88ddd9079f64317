/** Notifications, interrupts and signals are kept until they are delivered. */
module KernelNotices {
  import opened KernelState

  /** The privilege structure of `p` is used by no other process. */
  ghost predicate Exclusive(i: Ipc, p: Pid)
    requires WfIpc(i) && p < |i.procs|
  {
    forall x :: IsPid(i, x) && i.procs[x].priv == i.procs[p].priv ==> x == p
  }

  ghost predicate Owns(i: Ipc, p: Pid)
    requires WfIpc(i) && p < |i.procs|
  {
    Exclusive(i, p) && i.privs[i.procs[p].priv].owner == Nr(p)
  }

  /** What the boot image fixes for the whole run: the kernel tasks have their own privileges,
      IDLE makes no calls, SYSTEM may only trap to receive, and processes that share a privilege
      structure are user processes, which may not trap to receive. */
  ghost predicate Config(i: Ipc)
    requires WfIpc(i)
  {
    && Owns(i, SYSTEM) && Owns(i, HARDWARE) && Exclusive(i, IDLE)
    && i.privs[i.procs[SYSTEM].priv].traps <= {RECEIVE}
    && i.privs[i.procs[IDLE].priv].traps == {}
    && (forall p :: IsPid(i, p) && !Exclusive(i, p) ==> RECEIVE !in i.privs[i.procs[p].priv].traps)
  }

  ghost predicate SameConfig(i: Ipc, j: Ipc)
    requires WfIpc(i) && WfIpc(j)
  {
    && |i.procs| == |j.procs| && |i.privs| == |j.privs|
    && (forall p :: IsPid(i, p) ==> j.procs[p].priv == i.procs[p].priv)
    && (forall v :: 0 <= v < |i.privs| ==> j.privs[v].owner == i.privs[v].owner && j.privs[v].traps == i.privs[v].traps)
  }

  lemma ConfigKept(i: Ipc, j: Ipc)
    requires WfIpc(i) && WfIpc(j) && Config(i) && SameConfig(i, j)
    ensures Config(j)
  {
    forall p | IsPid(i, p)
      ensures Exclusive(i, p) <==> Exclusive(j, p)
    {
      assert forall x :: IsPid(j, x) <==> IsPid(i, x);
    }
  }

  predicate Bit(i: Ipc, v: nat, id: nat)
    requires WfIpc(i) && v < |i.privs| && id < MapBits(|i.privs|)
  {
    i.privs[v].pending[id]
  }

  lemma IdFits(i: Ipc)
    requires WfIpc(i)
    ensures |i.privs| <= MapBits(|i.privs|)
  {
  }

  /** s_sig_pending is not empty only while SYSTEM's notification is pending, and s_int_pending
      only while HARDWARE's is.  The structure `but` is exempt as far as `src` is concerned. */
  ghost predicate ArgsPending(i: Ipc, but: int, src: Pid)
    requires WfIpc(i)
  {
    forall v :: 0 <= v < |i.privs| ==>
      && (i.privs[v].sigs == {} || Bit(i, v, i.procs[SYSTEM].priv) || (v == but && src == SYSTEM))
      && (i.privs[v].ints == {} || Bit(i, v, i.procs[HARDWARE].priv) || (v == but && src == HARDWARE))
  }

  ghost predicate SpareBitsClear(i: Ipc)
    requires WfIpc(i)
  {
    forall v, id :: 0 <= v < |i.privs| && |i.privs| <= id < MapBits(|i.privs|) ==> !Bit(i, v, id)
  }

  /** `p` is blocked in a plain receive from anybody. */
  predicate Idles(i: Ipc, p: Pid)
    requires WfIpc(i) && p < |i.procs|
  {
    && i.procs[p].rts.receiving && !i.procs[p].rts.sending
    && i.procs[p].getfrom == Any && !i.privs[i.procs[p].priv].busy
  }

  predicate MapClear(i: Ipc, v: nat)
    requires WfIpc(i) && v < |i.privs|
  {
    forall id :: 0 <= id < MapBits(|i.privs|) ==> !Bit(i, v, id)
  }

  /** A system process that is blocked in a plain receive from anybody has nothing pending. */
  ghost predicate IdleMapsClear(i: Ipc)
    requires WfIpc(i)
  {
    forall p :: IsPid(i, p) && Exclusive(i, p) && Idles(i, p) ==> MapClear(i, i.procs[p].priv)
  }

  ghost predicate NoticeInv(i: Ipc, but: int, src: Pid) {
    WfIpc(i) && Config(i) && ArgsPending(i, but, src) && SpareBitsClear(i) && IdleMapsClear(i)
  }

  lemma IdleMapsFrom(i: Ipc, j: Ipc)
    requires WfIpc(i) && WfIpc(j) && SameConfig(i, j) && IdleMapsClear(i)
    requires forall p :: IsPid(i, p) && Exclusive(i, p) && Idles(j, p) ==>
               Idles(i, p) && forall id :: 0 <= id < MapBits(|i.privs|) ==>
                 (Bit(j, i.procs[p].priv, id) ==> Bit(i, i.procs[p].priv, id))
    ensures IdleMapsClear(j)
  {
    forall p | IsPid(j, p) && Exclusive(j, p) && Idles(j, p)
      ensures MapClear(j, j.procs[p].priv)
    {
      forall x | IsPid(i, x) && i.procs[x].priv == i.procs[p].priv
        ensures x == p
      {
        assert IsPid(j, x);
      }
      assert IsPid(i, p) && Exclusive(i, p) && Idles(i, p);
      assert MapClear(i, i.procs[p].priv);
    }
  }

  /** Nothing about pending notifications changed and nobody started to idle. */
  ghost predicate SameNotices(i: Ipc, j: Ipc)
    requires WfIpc(i) && WfIpc(j)
  {
    && SameConfig(i, j)
    && (forall v :: 0 <= v < |i.privs| ==>
          && j.privs[v].pending == i.privs[v].pending
          && j.privs[v].sigs == i.privs[v].sigs && j.privs[v].ints == i.privs[v].ints)
    && (forall p :: IsPid(i, p) && Exclusive(i, p) && Idles(j, p) ==> Idles(i, p))
  }

  lemma NoticesSame(i: Ipc, j: Ipc, but: int, src: Pid)
    requires NoticeInv(i, but, src) && WfIpc(j) && SameNotices(i, j)
    ensures NoticeInv(j, but, src)
  {
    ConfigKept(i, j);
    forall v, id | 0 <= v < |i.privs| && 0 <= id < MapBits(|i.privs|)
      ensures Bit(j, v, id) == Bit(i, v, id)
    {
    }
    IdleMapsFrom(i, j);
  }

  lemma NoticesSendNow(i: Ipc, s: Pid, d: Pid, addr: nat, waits: bool)
    requires NoticeInv(i, -1, 0) && s < |i.procs| && d < |i.procs|
    ensures NoticeInv(SendNow(i, s, d, addr, waits), -1, 0)
  {
    NoticesSame(i, SendNow(i, s, d, addr, waits), -1, 0);
  }

  lemma NoticesSendLater(i: Ipc, s: Pid, d: Pid, addr: nat)
    requires NoticeInv(i, -1, 0) && s < |i.procs| && d < |i.procs|
    ensures NoticeInv(SendLater(i, s, d, addr), -1, 0)
  {
    NoticesSame(i, SendLater(i, s, d, addr), -1, 0);
  }

  /** A sender that is served goes on to wait for its destination, not for anybody. */
  lemma NoticesTakeQueued(i: Ipc, r: Pid, k: nat, addr: nat)
    requires NoticeInv(i, -1, 0) && r < |i.procs| && k < |i.callers[r]|
    requires i.procs[i.callers[r][k]].rts.receiving ==> i.procs[i.callers[r][k]].getfrom != Any
    ensures NoticeInv(TakeQueued(i, r, k, addr), -1, 0)
  {
    NoticesSame(i, TakeQueued(i, r, k, addr), -1, 0);
  }

  /** A receive from anybody tries every chunk, so it blocks only when nothing is pending. */
  lemma {:induction false} AnyFindsAll(i: Ipc, v: nat, c: nat)
    requires WfIpc(i) && v < |i.privs| && c * BITCHUNK_BITS <= MapBits(|i.privs|)
    requires SpareBitsClear(i)
    requires FindNotify(i, v, Any, c) == MapBits(|i.privs|)
    ensures forall id :: c * BITCHUNK_BITS <= id < MapBits(|i.privs|) ==> !Bit(i, v, id)
    decreases MapBits(|i.privs|) - c * BITCHUNK_BITS
  {
    var size := MapBits(|i.privs|);
    if c * BITCHUNK_BITS < size {
      var hi := (c + 1) * BITCHUNK_BITS;
      var id := LowestBit(i.privs[v].pending, c * BITCHUNK_BITS, hi);
      if id == hi {
        AnyFindsAll(i, v, c + 1);
      } else {
        assert Bit(i, v, id);
        assert false;
      }
    }
  }

  lemma NoticesReceiveLater(i: Ipc, r: Pid, src: Endpoint, addr: nat)
    requires NoticeInv(i, -1, 0) && r < |i.procs|
    requires Sending(i, r) || i.privs[i.procs[r].priv].busy ||
             FindNotify(i, i.procs[r].priv, src, 0) == MapBits(|i.privs|)
    ensures NoticeInv(ReceiveLater(i, r, src, addr), -1, 0)
  {
    var j := ReceiveLater(i, r, src, addr);
    ConfigKept(i, j);
    if src == Any && !Sending(i, r) && !i.privs[i.procs[r].priv].busy {
      AnyFindsAll(i, i.procs[r].priv, 0);
    }
    forall v, id | 0 <= v < |i.privs| && 0 <= id < MapBits(|i.privs|)
      ensures Bit(j, v, id) == Bit(i, v, id)
    {
    }
    forall p | IsPid(j, p) && Exclusive(j, p) && Idles(j, p)
      ensures MapClear(j, j.procs[p].priv)
    {
      forall x | IsPid(i, x) && i.procs[x].priv == i.procs[p].priv
        ensures x == p
      {
        assert IsPid(j, x);
      }
      assert IsPid(i, p) && Exclusive(i, p);
      if p != r {
        assert Idles(i, p) && MapClear(i, i.procs[p].priv);
      } else {
        assert MapClear(i, i.procs[p].priv);
      }
    }
  }

  lemma NoticesClear(i: Ipc, p: Pid)
    requires NoticeInv(i, -1, 0) && p < |i.procs|
    ensures NoticeInv(Clear(i, p), -1, 0)
  {
    NoticesSame(i, Clear(i, p), -1, 0);
  }

  lemma NoticesSetBusy(i: Ipc, p: Pid, busy: bool)
    requires NoticeInv(i, -1, 0) && p < |i.procs| && Runnable(i, p)
    ensures NoticeInv(SetBusy(i, p, busy), -1, 0)
  {
    var j := SetBusy(i, p, busy);
    forall x | IsPid(i, x) && Exclusive(i, x) && Idles(j, x)
      ensures Idles(i, x)
    {
      assert IsPid(i, p);
      assert j.procs[x].priv == i.procs[p].priv ==> p == x;
    }
    NoticesSame(i, j, -1, 0);
  }

  lemma NoticesStore(i: Ipc, p: Pid, addr: nat, m: Message)
    requires NoticeInv(i, -1, 0) && p < |i.procs|
    ensures NoticeInv(Store(i, p, addr, m), -1, 0)
  {
    NoticesSame(i, Store(i, p, addr, m), -1, 0);
  }

  lemma NoticesSetFlags(i: Ipc, p: Pid, rts: Rts, sigs: set<nat>)
    requires NoticeInv(i, -1, 0) && p < |i.procs|
    requires rts.sending == i.procs[p].rts.sending && rts.receiving == i.procs[p].rts.receiving
    ensures NoticeInv(SetFlags(i, p, rts, sigs), -1, 0)
  {
    NoticesSame(i, SetFlags(i, p, rts, sigs), -1, 0);
  }

  lemma NoticesSetSigs(i: Ipc, v: nat, sigs: set<nat>)
    requires NoticeInv(i, -1, 0) && v < |i.privs|
    ensures NoticeInv(SetSigs(i, v, sigs), v, SYSTEM)
  {
    var j := SetSigs(i, v, sigs);
    ArgsChanged(i, j, v, SYSTEM);
  }

  lemma NoticesSetInts(i: Ipc, v: nat, ints: set<nat>)
    requires NoticeInv(i, -1, 0) && v < |i.privs|
    ensures NoticeInv(SetInts(i, v, ints), v, HARDWARE)
  {
    var j := SetInts(i, v, ints);
    ArgsChanged(i, j, v, HARDWARE);
  }

  lemma ArgsChanged(i: Ipc, j: Ipc, but: nat, src: Pid)
    requires NoticeInv(i, -1, 0) && WfIpc(j) && SameConfig(i, j) && but < |i.privs|
    requires j.procs == i.procs
    requires forall v :: 0 <= v < |i.privs| ==>
             j.privs[v].pending == i.privs[v].pending &&
             j.privs[v].busy == i.privs[v].busy
    requires forall v :: 0 <= v < |i.privs| && !(v == but && src == SYSTEM) ==> j.privs[v].sigs == i.privs[v].sigs
    requires forall v :: 0 <= v < |i.privs| && !(v == but && src == HARDWARE) ==> j.privs[v].ints == i.privs[v].ints
    ensures NoticeInv(j, but, src)
  {
    hide Config, IdleMapsClear;
    ConfigKept(i, j);
    forall v, id | 0 <= v < |i.privs| && 0 <= id < MapBits(|i.privs|)
      ensures Bit(j, v, id) == Bit(i, v, id)
    {
    }
    IdleMapsFrom(i, j);
  }

  lemma NoticesNow(i: Ipc, src: Pid, d: Pid, now: int)
    requires WfIpc(i) && src < |i.procs| && d < |i.procs|
    requires NoticeInv(i, i.procs[d].priv, src)
    ensures NoticeInv(NoticeNow(i, src, d, now), -1, 0)
  {
    hide Config, IdleMapsClear;
    var j := NoticeNow(i, src, d, now);
    ConfigKept(i, j);
    forall v, id | 0 <= v < |i.privs| && 0 <= id < MapBits(|i.privs|)
      ensures Bit(j, v, id) == Bit(i, v, id)
    {
    }
    IdleMapsFrom(i, j);
  }

  lemma NoticesLater(i: Ipc, src: Pid, d: Pid)
    requires WfIpc(i) && src < |i.procs| && d < |i.procs|
    requires NoticeInv(i, i.procs[d].priv, src)
    requires !WaitsFor(i, d, src) || i.privs[i.procs[d].priv].busy
    ensures NoticeInv(NoticeLater(i, src, d), -1, 0)
  {
    hide Config, IdleMapsClear;
    var j := NoticeLater(i, src, d);
    ConfigKept(i, j);
    var id0 := i.procs[src].priv;
    forall v, id | 0 <= v < |i.privs| && 0 <= id < MapBits(|i.privs|)
      ensures Bit(j, v, id) == (Bit(i, v, id) || (v == i.procs[d].priv && id == id0))
    {
    }
    forall p | IsPid(i, p) && Exclusive(i, p) && Idles(j, p)
      ensures Idles(i, p) && i.procs[d].priv != i.procs[p].priv
    {
      assert IsPid(i, d);
    }
    IdleMapsFrom(i, j);
  }

  lemma BitTaken(i: Ipc, j: Ipc, v0: nat, id: nat)
    requires NoticeInv(i, -1, 0) && WfIpc(j) && SameConfig(i, j) && v0 < |i.privs| && id < |i.privs|
    requires forall v :: 0 <= v < |i.privs| && v != v0 ==> j.privs[v] == i.privs[v]
    requires j.privs[v0].pending == i.privs[v0].pending[id := false] && j.privs[v0].busy == i.privs[v0].busy
    requires j.privs[v0].sigs == if i.privs[id].owner == Nr(SYSTEM) then {} else i.privs[v0].sigs
    requires j.privs[v0].ints == if i.privs[id].owner == Nr(HARDWARE) then {} else i.privs[v0].ints
    requires forall p :: IsPid(i, p) && Exclusive(i, p) && Idles(j, p) ==> Idles(i, p)
    ensures NoticeInv(j, -1, 0)
  {
    ConfigKept(i, j);
    assert forall v, k :: 0 <= v < |i.privs| && 0 <= k < MapBits(|i.privs|) ==>
      Bit(j, v, k) == (Bit(i, v, k) && !(v == v0 && k == id));
    IdleMapsFrom(i, j);
  }

  lemma NoticesTake(i: Ipc, r: Pid, id: nat, addr: nat, now: int)
    requires NoticeInv(i, -1, 0) && r < |i.procs| && id < |i.privs|
    ensures NoticeInv(TakeNotice(i, r, id, addr, now), -1, 0)
  {
    BitTaken(i, TakeNotice(i, r, id, addr, now), i.procs[r].priv, id);
  }

  // Receiving from one source.

  /** Which pending notification a receive from the single process `s` takes. */
  ghost predicate LowestOfItsChunk(i: Ipc, v: nat, id: nat)
    requires WfIpc(i) && v < |i.privs| && id < |i.privs|
  {
    && Bit(i, v, id)
    && forall k :: id / BITCHUNK_BITS * BITCHUNK_BITS <= k < id ==> !Bit(i, v, k)
  }

  lemma SpareClear(i: Ipc, v: nat, id: nat)
    requires WfIpc(i) && SpareBitsClear(i) && v < |i.privs| && id < MapBits(|i.privs|) && Bit(i, v, id)
    ensures id < |i.privs|
  {
  }

  /** One chunk of the search. */
  lemma ChunkStep(i: Ipc, v: nat, src: Endpoint, c: nat)
    requires WfIpc(i) && v < |i.privs| && c * BITCHUNK_BITS < MapBits(|i.privs|)
    ensures (c + 1) * BITCHUNK_BITS <= MapBits(|i.privs|) == |i.privs[v].pending|
    ensures var size, hi := MapBits(|i.privs|), (c + 1) * BITCHUNK_BITS;
            var id := LowestBit(i.privs[v].pending, c * BITCHUNK_BITS, hi);
            FindNotify(i, v, src, c) ==
            if id == hi then FindNotify(i, v, src, c + 1)
            else if id >= |i.privs| then size
            else if src != Any && src != i.privs[id].owner then FindNotify(i, v, src, c + 1)
            else id
  {
    hide LowestBit;
  }

  lemma {:induction false} NamedFinds(i: Ipc, v: nat, src: Endpoint, c: nat, id: nat)
    requires WfIpc(i) && SpareBitsClear(i) && v < |i.privs| && c * BITCHUNK_BITS <= MapBits(|i.privs|)
    requires id < |i.privs| && c <= id / BITCHUNK_BITS
    requires LowestOfItsChunk(i, v, id) && i.privs[id].owner == src
    ensures FindNotify(i, v, src, c) < |i.privs|
    decreases MapBits(|i.privs|) - c * BITCHUNK_BITS
  {
    hide FindNotify, LowestBit, SpareBitsClear;
    var hi := (c + 1) * BITCHUNK_BITS;
    IdFits(i);
    ChunkStep(i, v, src, c);
    var low := LowestBit(i.privs[v].pending, c * BITCHUNK_BITS, hi);
    if low < hi {
      assert Bit(i, v, low);
      SpareClear(i, v, low);
    }
    if c == id / BITCHUNK_BITS {
      // Bit `low` is set, so `low` is not below `id`.
      assert Bit(i, v, id);
    } else {
      NamedFinds(i, v, src, c + 1, id);
    }
  }

  lemma {:induction false} FoundIsLowest(i: Ipc, v: nat, src: Endpoint, c: nat)
    requires WfIpc(i) && v < |i.privs| && c * BITCHUNK_BITS <= MapBits(|i.privs|)
    requires FindNotify(i, v, src, c) < |i.privs|
    ensures LowestOfItsChunk(i, v, FindNotify(i, v, src, c))
    decreases MapBits(|i.privs|) - c * BITCHUNK_BITS
  {
    var hi := (c + 1) * BITCHUNK_BITS;
    var low := LowestBit(i.privs[v].pending, c * BITCHUNK_BITS, hi);
    if low < hi && low < |i.privs| && (src == Any || src == i.privs[low].owner) {
      assert low / BITCHUNK_BITS == c;
    } else {
      FoundIsLowest(i, v, src, c + 1);
    }
  }

  /** A receive from a named source looks at the lowest bit of each chunk only.  So it takes a
      pending notification exactly when some notification of that source is the lowest of its
      chunk; a lower bit in the same chunk hides it. */
  lemma NamedSourceTakesLowest(i: Ipc, v: nat, s: Pid)
    requires WfIpc(i) && SpareBitsClear(i) && v < |i.privs|
    ensures FindNotify(i, v, Nr(s), 0) < |i.privs| <==>
            exists id :: 0 <= id < |i.privs| && i.privs[id].owner == Nr(s) && LowestOfItsChunk(i, v, id)
  {
    if FindNotify(i, v, Nr(s), 0) < |i.privs| {
      FoundIsLowest(i, v, Nr(s), 0);
    } else {
      forall id | 0 <= id < |i.privs| && i.privs[id].owner == Nr(s)
        ensures !LowestOfItsChunk(i, v, id)
      {
        if LowestOfItsChunk(i, v, id) {
          NamedFinds(i, v, Nr(s), 0, id);
        }
      }
    }
  }
}
