/** What holds in every reachable state of the protocol, and why each step keeps it. */
module ProtocolInvariant {
  import opened Machine
  import opened Settings
  import opened LocatorItems
  import opened LocatorHeaders
  import opened Alignment
  import opened Protocol

  /** The whole range belongs to `o`, hence to nothing else. */
  ghost predicate Owns(owner: map<nat, Owner>, base: nat, size: nat, o: Owner) {
    forall x: nat :: base <= x < base + size ==> x in owner && owner[x] == o
  }

  /** The item is sound, its buffer ends where a page does, and is its own. */
  ghost predicate SlotOk(s: State, h: nat, i: nat, v: LocatorItem) {
    v.Sound(s.sys) && (v.baseAddress + v.size) % MAX_ALIGNMENT == 0
    && Owns(s.owner, v.baseAddress, v.size, SlotOf(h, i))
  }

  /** The granule of a locator that is not set up yet is its own. */
  ghost predicate OwnsGranule(s: State, address: nat, h: nat) {
    && 0 < address && address + s.sys.granularity <= s.sys.WordMax() && address % MAX_ALIGNMENT == 0
    && forall x: nat :: address <= x < address + s.sys.granularity ==>
         x in s.owner && s.owner[x] == OwnerIn(address, h, x)
  }

  /** Once set up: a locator is full before it gets a successor, and the successor is the next one ever created. At
      most one slot is written and not yet published, and only while the locator is locked. */
  ghost predicate SetUpOk(s: State, h: nat, header: Header) {
    && header.num <= MaxItemCount(s.sys)
    && header.num <= |header.slots| <= header.num + 1
    && (!header.locked ==> |header.slots| == header.num)
    && header.next == (if h + 1 < |s.headers| then Some(h + 1) else None)
    && (header.next.Some? ==> header.IsFull(s.sys))
    && forall i :: 0 <= i < |header.slots| ==> SlotOk(s, h, i, header.slots[i])
  }

  /** Only the last locator may still have to be set up. */
  ghost predicate HeaderOk(s: State, h: nat)
    requires h < |s.headers|
  {
    var header := s.headers[h];
    && Owns(s.owner, header.address, LENGTH, HeaderOf(h))
    && if header.setUp then SetUpOk(s, h, header) else h == |s.headers| - 1 && OwnsGranule(s, header.address, h)
  }

  /** The item lies within the limits of the request, now and later. */
  ghost predicate InLimits(v: LocatorItem, want: BufferSearchSettings) {
    want.minAddress <= v.baseAddress + v.position && v.baseAddress + v.size <= want.maxAddress
  }

  /** What an agent knows about the locator it works on. */
  ghost predicate Knows(s: State, header: Header, p: Pc) {
    match p
    case SettingUp(_) => true
    case Idle => true
    case Scan(_, h, i, final) => final <= header.num
    case TryItem(want, h, i, final) => i < final <= header.num && i < |header.slots| && InLimits(header.slots[i], want)
    case CheckFull(_, _) => true
    case LockToRegister(_, _) => true
    case RecheckFull(_, _) => |header.slots| == header.num
    case Allocating(want, _) => |header.slots| == header.num && !header.IsFull(s.sys)
    case Writing(want, h, v) =>
      && |header.slots| == header.num && !header.IsFull(s.sys)
      && SlotOk(s, h, header.num, v) && v.isTaken && v.position == 0 && v.Serves(want)
    case Counting(want, h, i) =>
      && i == header.num && |header.slots| == header.num + 1 && !header.IsFull(s.sys) && header.slots[i].Serves(want)
    case UnlockRegistered(want, h, outcome) =>
      && |header.slots| == header.num
      && (outcome.NoSpace? ==> header.IsFull(s.sys))
      && (outcome.Registered? ==> outcome.i < header.num && header.slots[outcome.i].Serves(want))
    case CheckNext(_, _) => header.IsFull(s.sys)
    case LockToLink(_, _) => header.IsFull(s.sys)
    case RecheckNext(_, _) => header.IsFull(s.sys) && |header.slots| == header.num
    case Creating(_, _) => header.IsFull(s.sys) && |header.slots| == header.num && header.next.None?
    case Initializing(_, h) => |header.slots| == header.num && header.next == Some(h + 1)
    case UnlockLinked(_, _, ok) => |header.slots| == header.num && (ok ==> header.next.Some?)
    case FollowNext(_, _) => header.next.Some?
    case Holding(want, _, i) => i < header.num <= |header.slots| && InLimits(header.slots[i], want)
    case Copying(want, _, i, at, data, done) =>
      && i < header.num <= |header.slots| && InLimits(header.slots[i], want)
      && at == header.slots[i].position && at + |data| <= header.slots[i].size && done <= |data|
      && Copied(s.bytes, header.slots[i].baseAddress + at, data[..done])
  }

  /** The data can be read at the address. */
  ghost predicate Copied(bytes: map<nat, bv8>, address: nat, data: seq<bv8>) {
    forall x: nat :: address <= x < address + |data| ==> x in bytes && bytes[x] == data[x - address]
  }

  /** An agent works on a locator that is set up, or sets one up. In a critical section it sees
      the lock taken; the item it holds is marked so. */
  ghost predicate AgentOk(s: State, p: Pc) {
    && 0 < |s.headers|
    && (!p.Idle? ==> p.h < |s.headers| && (p.SettingUp? || s.headers[p.h].setUp) && Knows(s, s.headers[p.h], p))
    && (p.Makes().Some? ==> p.Makes().value < |s.headers| && !s.headers[p.Makes().value].setUp)
    && (p.Crit().Some? ==> s.headers[p.h].locked)
    && (p.Held().Some? ==> p.Held().value.1 < |s.headers[p.h].slots| && s.headers[p.h].slots[p.Held().value.1].isTaken)
  }

  /** No two agents are in the same critical section, hold the same item or set up the same locator. */
  predicate Exclusive(p: Pc, q: Pc) {
    && (p.Crit().Some? ==> p.Crit() != q.Crit())
    && (p.Held().Some? ==> p.Held() != q.Held())
    && (p.Makes().Some? ==> p.Makes() != q.Makes())
  }

  /** An append lies behind the write position of its buffer, and its data is still there. */
  ghost predicate EntryOk(s: State, e: Entry) {
    && e.h < |s.headers| && s.headers[e.h].setUp && e.i < |s.headers[e.h].slots|
    && var v := s.headers[e.h].slots[e.i];
    && v.baseAddress <= e.address && e.address + |e.data| <= v.baseAddress + v.position
    && Copied(s.bytes, e.address, e.data)
  }

  /** Appends to the same buffer follow one another. */
  ghost predicate InSequence(e: Entry, f: Entry) {
    e.h == f.h && e.i == f.i ==> e.address + |e.data| <= f.address
  }

  ghost predicate Inv(s: State) {
    && RoomBesideChunks(s.sys) && s.sys.granularity % MAX_ALIGNMENT == 0 && 0 < |s.headers|
    && (forall h: nat :: h < |s.headers| ==> HeaderOk(s, h))
    && (forall t :: t in s.agents ==> AgentOk(s, s.agents[t]))
    && (forall t, u :: t in s.agents && u in s.agents && t != u ==> Exclusive(s.agents[t], s.agents[u]))
    && LogOk(s)
  }

  ghost predicate LogOk(s: State) {
    && (forall k :: 0 <= k < |s.log| ==> EntryOk(s, s.log[k]))
    && (forall k, l :: 0 <= k < l < |s.log| ==> InSequence(s.log[k], s.log[l]))
  }

  /** The agent can always take its next step. */
  lemma AgentIsReady(s: State, t: nat)
    requires Inv(s) && t in s.agents
    ensures Ready(s, s.agents[t])
  {
    var p := s.agents[t];
    assert AgentOk(s, p);
    if !p.Idle? {
      assert HeaderOk(s, p.h);
    }
  }

  // What a step may do to the rest.

  /** How one locator may change: it stays where it is; once set up it stays so, publishes more
      slots, keeps every slot's address and size, and gets its successor once. */
  ghost predicate HeaderGrows(a: Header, b: Header) {
    && b.address == a.address
    && (a.setUp ==>
          && b.setUp && a.num <= b.num && |a.slots| <= |b.slots|
          && (a.next.Some? ==> b.next == a.next)
          && forall i :: 0 <= i < |a.slots| ==> SameBuffer(a.slots[i], b.slots[i]))
  }

  /** Everything that was shared stays where it is: what any step, and so any run, does. */
  ghost predicate Grows(s: State, n: State) {
    && n.sys == s.sys && |s.headers| <= |n.headers|
    && (forall h :: 0 <= h < |s.headers| ==> HeaderGrows(s.headers[h], n.headers[h]))
    && (forall x :: x in s.owner ==> x in n.owner && n.owner[x] == s.owner[x])
    && s.log <= n.log
  }

  /** A locator outside the acting agent's critical section can only become locked. */
  ghost predicate HeaderUntouched(a: Header, b: Header) {
    (a.locked ==> b.locked) && b.num == a.num && |b.slots| == |a.slots| && b.next == a.next
  }

  /** What the agent at `p` leaves alone. */
  ghost predicate LeavesAlone(s: State, p: Pc, n: State) {
    && |s.headers| <= |n.headers|
    && (forall h: nat :: h < |s.headers| && s.headers[h].setUp && p.Crit() != Some(h) ==>
          HeaderUntouched(s.headers[h], n.headers[h]))
    && (forall h: nat :: h < |s.headers| && !s.headers[h].setUp && p.Makes() != Some(h) ==>
         n.headers[h] == s.headers[h])
    && (forall h: nat, i: nat :: h < |s.headers| && s.headers[h].setUp && i < |s.headers[h].slots|
                                 && s.headers[h].slots[i].isTaken && p.Held() != Some((h, i)) ==>
          i < |n.headers[h].slots| && n.headers[h].slots[i] == s.headers[h].slots[i])
    && (forall x: nat :: x in s.bytes && !Writes(s, p, x) ==> x in n.bytes && n.bytes[x] == s.bytes[x])
  }

  /** The agent may write the byte: it lies behind the write position of the item it holds. */
  ghost predicate Writes(s: State, p: Pc, x: nat) {
    && p.Held().Some? && x in s.owner && s.owner[x] == SlotOf(p.Held().value.0, p.Held().value.1)
    && p.Held().value.0 < |s.headers| && p.Held().value.1 < |s.headers[p.Held().value.0].slots|
    && var v := s.headers[p.Held().value.0].slots[p.Held().value.1];
       v.baseAddress + v.position <= x
  }

  /** Agent `t` has given up no lock without freeing it, and no lock has been taken by anybody else;
      likewise for the locators that are not set up. */
  ghost predicate LocksPassOn(s: State, t: nat, n: State) {
    && t in s.agents && t in n.agents
    && (forall u :: u in s.agents && u != t ==> u in n.agents && n.agents[u] == s.agents[u])
    && (forall h: nat :: h < |n.headers| && !n.headers[h].setUp ==>
          || n.agents[t].Makes() == Some(h)
          || (h < |s.headers| && !s.headers[h].setUp && s.agents[t].Makes() != Some(h)))
    && (forall h: nat :: h < |n.headers| && n.headers[h].setUp && n.headers[h].locked ==>
          || n.agents[t].Crit() == Some(h)
          || (h < |s.headers| && s.headers[h].setUp && s.headers[h].locked && s.agents[t].Crit() != Some(h)))
    && (forall h: nat, i: nat :: h < |n.headers| && n.headers[h].setUp && i < |n.headers[h].slots|
                                 && n.headers[h].slots[i].isTaken ==>
          || n.agents[t].Held() == Some((h, i))
          || (h < |s.headers| && s.headers[h].setUp && i < |s.headers[h].slots|
              && s.headers[h].slots[i].isTaken && s.agents[t].Held() != Some((h, i))))
  }

  /** Data in the block of an item stays, unless it lies behind the write position of the item the acting agent
      holds. */
  lemma CopiedKept(s: State, n: State, p: Pc, h: nat, i: nat, v: LocatorItem, address: nat, data: seq<bv8>)
    requires LeavesAlone(s, p, n) && SlotOk(s, h, i, v) && Copied(s.bytes, address, data)
    requires h < |s.headers| && i < |s.headers[h].slots| && s.headers[h].slots[i] == v
    requires v.baseAddress <= address && address + |data| <= v.baseAddress + v.size
    requires p.Held() == Some((h, i)) ==> address + |data| <= v.baseAddress + v.position
    ensures Copied(n.bytes, address, data)
  {
    forall x: nat | address <= x < address + |data| ensures x in n.bytes && n.bytes[x] == data[x - address] {
      assert x in s.bytes && x in s.owner && s.owner[x] == SlotOf(h, i);
      assert !Writes(s, p, x);
    }
  }

  /** What an agent knows survives the steps of the others. */
  lemma KnowsKept(s: State, n: State, a: Header, b: Header, p: Pc)
    requires Knows(s, a, p) && HeaderGrows(a, b) && a.setUp && n.sys == s.sys && b.num <= MaxItemCount(s.sys)
             && b.num <= |b.slots|
    requires forall x :: x in s.owner ==> x in n.owner && n.owner[x] == s.owner[x]
    requires p.Crit().Some? ==> HeaderUntouched(a, b)
    requires p.Held().Some? && p.Held().value.1 < |a.slots| ==> b.slots[p.Held().value.1] == a.slots[p.Held().value.1]
    requires p.Copying? ==> Copied(n.bytes, a.slots[p.i].baseAddress + p.at, p.data[..p.done])
    ensures Knows(n, b, p)
  {
    match p
    case TryItem(_, _, i, _) =>
      assert SameBuffer(a.slots[i], b.slots[i]);
    case _ =>
  }

  lemma CopyKept(s: State, n: State, p: Pc, q: Pc)
    requires Inv(s) && LeavesAlone(s, p, n) && Exclusive(p, q) && AgentOk(s, q) && q.Copying?
    ensures Copied(n.bytes, s.headers[q.h].slots[q.i].baseAddress + q.at, q.data[..q.done])
  {
    var v := s.headers[q.h].slots[q.i];
    assert HeaderOk(s, q.h) && SlotOk(s, q.h, q.i, v);
    CopiedKept(s, n, p, q.h, q.i, v, v.baseAddress + q.at, q.data[..q.done]);
  }

  /** Nobody else touches the item an agent holds. */
  lemma HeldKept(s: State, n: State, p: Pc, q: Pc)
    requires LeavesAlone(s, p, n) && Exclusive(p, q) && AgentOk(s, q) && q.Held().Some?
    ensures var i := q.Held().value.1; i < |n.headers[q.h].slots| && n.headers[q.h].slots[i] == s.headers[q.h].slots[i]
  {
    assert p.Held() != Some((q.h, q.Held().value.1));
  }

  lemma OtherKnows(s: State, n: State, p: Pc, q: Pc)
    requires Inv(s) && Grows(s, n) && LeavesAlone(s, p, n) && Exclusive(p, q) && AgentOk(s, q) && !q.Idle?
    requires !q.SettingUp? && q.h < |n.headers| && n.headers[q.h].num <= MaxItemCount(s.sys)
             && n.headers[q.h].num <= |n.headers[q.h].slots|
    ensures Knows(n, n.headers[q.h], q)
  {
    var a, b := s.headers[q.h], n.headers[q.h];
    assert HeaderGrows(a, b);
    if q.Copying? {
      CopyKept(s, n, p, q);
    }
    if q.Held().Some? {
      HeldKept(s, n, p, q);
    }
    KnowsKept(s, n, a, b, q);
  }

  lemma OtherKept(s: State, n: State, t: nat, u: nat)
    requires Inv(s) && Grows(s, n) && t in s.agents && LeavesAlone(s, s.agents[t], n)
    requires forall h: nat :: h < |n.headers| ==> HeaderOk(n, h)
    requires u in s.agents && u != t
    ensures AgentOk(n, s.agents[u])
  {
    var p, q := s.agents[t], s.agents[u];
    assert Exclusive(p, q) && AgentOk(s, q);
    if q.Makes().Some? {
      assert n.headers[q.Makes().value] == s.headers[q.Makes().value];
    }
    if !q.Idle? && !q.SettingUp? {
      assert HeaderGrows(s.headers[q.h], n.headers[q.h]);
      assert HeaderOk(n, q.h);
      OtherKnows(s, n, p, q);
      if q.Held().Some? {
        HeldKept(s, n, p, q);
      }
    }
  }

  lemma LogKept(s: State, n: State, t: nat)
    requires Inv(s) && Grows(s, n) && t in s.agents && LeavesAlone(s, s.agents[t], n)
    ensures forall k :: 0 <= k < |s.log| ==> EntryOk(n, s.log[k])
  {
    forall k | 0 <= k < |s.log| ensures EntryOk(n, s.log[k]) {
      var e := s.log[k];
      assert EntryOk(s, e) && HeaderOk(s, e.h) && HeaderGrows(s.headers[e.h], n.headers[e.h]);
      var v := s.headers[e.h].slots[e.i];
      assert SlotOk(s, e.h, e.i, v) && SameBuffer(v, n.headers[e.h].slots[e.i]);
      CopiedKept(s, n, s.agents[t], e.h, e.i, v, e.address, e.data);
    }
  }

  ghost predicate ApartFromOthers(s: State, t: nat, q: Pc) {
    forall u :: u in s.agents && u != t ==> Exclusive(q, s.agents[u])
  }

  /** An agent that takes no new lock stays apart from the others. */
  lemma NothingNewTaken(s: State, t: nat, q: Pc)
    requires Inv(s) && t in s.agents
    requires q.Crit().None? || q.Crit() == s.agents[t].Crit()
    requires q.Held().None? || q.Held() == s.agents[t].Held()
    requires q.Makes().None? || q.Makes() == s.agents[t].Makes()
    ensures ApartFromOthers(s, t, q)
  {
    forall u | u in s.agents && u != t ensures Exclusive(q, s.agents[u]) {
      assert Exclusive(s.agents[t], s.agents[u]);
    }
  }

  /** The parts of the invariant, put together after a step of agent `t`. */
  lemma Assemble(s: State, n: State, t: nat, q: Pc)
    requires Inv(s) && Grows(s, n) && t in s.agents && LeavesAlone(s, s.agents[t], n)
    requires n.agents == s.agents[t := q] && AgentOk(n, q) && ApartFromOthers(s, t, q)
    requires forall h: nat :: h < |n.headers| ==> HeaderOk(n, h)
    requires n.log == s.log
    ensures Inv(n)
  {
    forall u | u in n.agents ensures AgentOk(n, n.agents[u]) {
      if u != t {
        OtherKept(s, n, t, u);
      }
    }
    forall u, v | u in n.agents && v in n.agents && u != v ensures Exclusive(n.agents[u], n.agents[v]) {
      if u == t {
        assert Exclusive(q, s.agents[v]);
      } else if v == t {
        assert Exclusive(q, s.agents[u]);
      } else {
        assert Exclusive(s.agents[u], s.agents[v]);
      }
    }
    LogKept(s, n, t);
  }
}
