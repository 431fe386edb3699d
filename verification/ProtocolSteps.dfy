/** Every step of every agent keeps the invariant. */
module ProtocolSteps {
  import opened Machine
  import opened LocatorItems
  import opened LocatorHeaders
  import opened Alignment
  import opened Protocol
  import opened ProtocolInvariant

  lemma SameHeaderOk(s: State, n: State, h: nat)
    requires h < |s.headers| == |n.headers| && n.headers[h] == s.headers[h] && HeaderOk(s, h)
    requires n.sys == s.sys && forall x :: x in s.owner ==> x in n.owner && n.owner[x] == s.owner[x]
    ensures HeaderOk(n, h)
  {
    if s.headers[h].setUp {
      forall i | 0 <= i < |n.headers[h].slots| ensures SlotOk(n, h, i, n.headers[h].slots[i]) {
        assert SlotOk(s, h, i, s.headers[h].slots[i]);
      }
    }
  }

  lemma SameHeadersPassOn(s: State, t: nat, n: State, q: Pc)
    requires Inv(s) && t in s.agents && n.headers == s.headers && n.agents == s.agents[t := q]
    requires q.Crit() == s.agents[t].Crit() && q.Held() == s.agents[t].Held() && q.Makes() == s.agents[t].Makes()
    ensures LocksPassOn(s, t, n)
  {
    assert AgentOk(s, s.agents[t]);
  }

  /** A step that changes nothing that is shared. */
  lemma LocalStep(s: State, t: nat, q: Pc)
    requires Inv(s) && t in s.agents && AgentOk(s, q)
    requires q.Crit() == s.agents[t].Crit() && q.Held() == s.agents[t].Held() && q.Makes() == s.agents[t].Makes()
    ensures var n := s.Go(t, q); Inv(n) && Grows(s, n) && LocksPassOn(s, t, n)
  {
    var n := s.Go(t, q);
    SameHeadersPassOn(s, t, n, q);
    forall h: nat | h < |n.headers| ensures HeaderOk(n, h) {
      SameHeaderOk(s, n, h);
    }
    NothingNewTaken(s, t, q);
    assert AgentOk(n, q);
    Assemble(s, n, t, q);
  }

  /** A locator may change to `b` when its agent goes to `q`, as far as locks are concerned. */
  ghost predicate LocksFit(a: Header, p: Pc, h: nat, b: Header, q: Pc) {
    && (b.locked ==> q.Crit() == Some(h) || (a.locked && p.Crit() != Some(h)))
    && forall i: nat :: i < |b.slots| && b.slots[i].isTaken ==>
         q.Held() == Some((h, i)) || (i < |a.slots| && a.slots[i].isTaken && p.Held() != Some((h, i)))
  }

  lemma HeaderLeavesAlone(s: State, t: nat, h: nat, b: Header, q: Pc)
    requires Inv(s) && t in s.agents && h < |s.headers| && s.headers[h].setUp
    requires HeaderGrows(s.headers[h], b) && (s.agents[t].Crit() == Some(h) || HeaderUntouched(s.headers[h], b))
    requires forall i :: 0 <= i < |s.headers[h].slots| && s.headers[h].slots[i].isTaken
                         && s.agents[t].Held() != Some((h, i)) ==>
               b.slots[i] == s.headers[h].slots[i]
    ensures var n := s.Put(h, b).Go(t, q); Grows(s, n) && LeavesAlone(s, s.agents[t], n)
  {
  }

  lemma HeaderPassesOn(s: State, t: nat, h: nat, b: Header, q: Pc)
    requires Inv(s) && t in s.agents && !s.agents[t].Idle? && s.agents[t].h == h < |s.headers| && s.headers[h].setUp
    requires q.Makes().None? && s.agents[t].Makes().None? && b.setUp && LocksFit(s.headers[h], s.agents[t], h, b, q)
    ensures LocksPassOn(s, t, s.Put(h, b).Go(t, q))
  {
  }

  /** A step that changes one locator. */
  lemma HeaderStep(s: State, t: nat, h: nat, b: Header, q: Pc)
    requires Inv(s) && t in s.agents && !s.agents[t].Idle? && s.agents[t].h == h < |s.headers| && s.headers[h].setUp
    requires q.Makes().None? && s.agents[t].Makes().None?
    requires HeaderGrows(s.headers[h], b) && (s.agents[t].Crit() == Some(h) || HeaderUntouched(s.headers[h], b))
    requires forall i :: 0 <= i < |s.headers[h].slots| && s.headers[h].slots[i].isTaken
                         && s.agents[t].Held() != Some((h, i)) ==>
               b.slots[i] == s.headers[h].slots[i]
    requires var n := s.Put(h, b).Go(t, q); HeaderOk(n, h) && AgentOk(n, q)
    requires ApartFromOthers(s, t, q) && LocksFit(s.headers[h], s.agents[t], h, b, q)
    ensures var n := s.Put(h, b).Go(t, q); Inv(n) && Grows(s, n) && LocksPassOn(s, t, n)
  {
    var n := s.Put(h, b).Go(t, q);
    forall g: nat | g < |n.headers| ensures HeaderOk(n, g) {
      if g != h {
        SameHeaderOk(s, n, g);
      }
    }
    HeaderLeavesAlone(s, t, h, b, q);
    HeaderPassesOn(s, t, h, b, q);
    Assemble(s, n, t, q);
  }

  ghost predicate Keeps(s: State, t: nat, c: Choice)
    requires Enabled(s, t, c)
  {
    Inv(After(s, t, c)) && Grows(s, After(s, t, c)) && LocksPassOn(s, t, After(s, t, c))
  }

  lemma FirstHeader(s: State)
    requires Inv(s)
    ensures HeaderOk(s, 0)
  {
  }

  lemma ScanStep(s: State, t: nat, c: Choice)
    requires Inv(s) && Enabled(s, t, c) && s.agents[t].Scan?
    ensures Keeps(s, t, c)
  {
    var Scan(want, h, i, final) := s.agents[t];
    assert AgentOk(s, s.agents[t]) && HeaderOk(s, h);
    var q := After(s, t, c).agents[t];
    assert After(s, t, c) == s.Go(t, q);
    if i < final {
      assert SlotOk(s, h, i, s.headers[h].slots[i]);
      CanUseServes(s.sys, s.headers[h].slots[i], want);
    }
    LocalStep(s, t, q);
  }

  lemma CheckSteps(s: State, t: nat, c: Choice)
    requires Inv(s) && Enabled(s, t, c) && (s.agents[t].CheckFull? || s.agents[t].CheckNext?)
    ensures Keeps(s, t, c)
  {
    var p := s.agents[t];
    assert AgentOk(s, p);
    match p
    case CheckFull(want, h) =>
      LocalStep(s, t, if s.headers[h].IsFull(s.sys) then CheckNext(want, h) else LockToRegister(want, h));
    case CheckNext(want, h) =>
      LocalStep(s, t, if s.headers[h].next.Some? then FollowNext(want, h) else LockToLink(want, h));
  }

  /** A locator is entered, the first one or the next. */
  lemma EnterSteps(s: State, t: nat, c: Choice)
    requires Inv(s) && Enabled(s, t, c) && (s.agents[t].Idle? || s.agents[t].FollowNext?)
    ensures Keeps(s, t, c)
  {
    var p := s.agents[t];
    assert AgentOk(s, p);
    match p
    case Idle =>
      FirstHeader(s);
      LocalStep(s, t, Scan(c.want, 0, 0, s.headers[0].num));
    case FollowNext(want, h) =>
      var n := s.headers[h].next.value;
      assert HeaderOk(s, n);
      LocalStep(s, t, Scan(want, n, 0, s.headers[n].num));
  }

  /** An item that is not taken is held by nobody. */
  lemma FreeItem(s: State, t: nat, q: Pc, h: nat, i: nat)
    requires Inv(s) && h < |s.headers| && s.headers[h].setUp && q.Crit().None? && q.Makes().None?
             && q.Held() == Some((h, i))
    requires i >= |s.headers[h].slots| || !s.headers[h].slots[i].isTaken
    ensures ApartFromOthers(s, t, q)
  {
    forall u | u in s.agents && u != t ensures Exclusive(q, s.agents[u]) {
      assert AgentOk(s, s.agents[u]);
    }
  }

  /** A locator that is not locked has no agent in its critical section. */
  lemma FreeHeader(s: State, t: nat, q: Pc, h: nat)
    requires Inv(s) && h < |s.headers| && s.headers[h].setUp && !s.headers[h].locked
    requires q.Crit() == Some(h) && q.Held().None? && q.Makes().None?
    ensures ApartFromOthers(s, t, q)
  {
    forall u | u in s.agents && u != t ensures Exclusive(q, s.agents[u]) {
      assert AgentOk(s, s.agents[u]);
    }
  }

  lemma TakeItemState(s: State, t: nat, b: Header, q: Pc)
    requires Inv(s) && t in s.agents && s.agents[t].TryItem? && Ready(s, s.agents[t])
    requires var TryItem(want, h, i, final) := s.agents[t];
      && !s.headers[h].slots[i].isTaken && q == Holding(want, h, i)
      && b == s.headers[h].(slots := s.headers[h].slots[i := s.headers[h].slots[i].(isTaken := true)])
    ensures var n := s.Put(q.h, b).Go(t, q); Inv(n) && Grows(s, n) && LocksPassOn(s, t, n)
  {
    assert AgentOk(s, s.agents[t]) && HeaderOk(s, q.h);
    FreeItem(s, t, q, q.h, q.i);
    assert SlotOk(s, q.h, q.i, s.headers[q.h].slots[q.i]);
    HeaderStep(s, t, q.h, b, q);
  }

  lemma TakeItemStep(s: State, t: nat, c: Choice)
    requires Inv(s) && Enabled(s, t, c) && s.agents[t].TryItem?
    requires var p := s.agents[t]; !s.headers[p.h].slots[p.i].isTaken
    ensures Keeps(s, t, c)
  {
    var TryItem(want, h, i, final) := s.agents[t];
    var b := s.headers[h].(slots := s.headers[h].slots[i := s.headers[h].slots[i].(isTaken := true)]);
    var q := Holding(want, h, i);
    assert After(s, t, c) == s.Put(h, b).Go(t, q);
    TakeItemState(s, t, b, q);
  }

  lemma Rescans(s: State, t: nat, q: Pc)
    requires Inv(s) && t in s.agents && s.agents[t].TryItem?
    requires var TryItem(want, h, i, final) := s.agents[t]; q == Scan(want, h, i + 1, final)
    ensures AgentOk(s, q) && q.Crit() == s.agents[t].Crit() && q.Held() == s.agents[t].Held()
            && q.Makes() == s.agents[t].Makes()
  {
    assert AgentOk(s, s.agents[t]);
  }

  lemma MissItemState(s: State, t: nat, q: Pc)
    requires Inv(s) && t in s.agents && s.agents[t].TryItem?
    requires var TryItem(want, h, i, final) := s.agents[t]; q == Scan(want, h, i + 1, final)
    ensures var n := s.Go(t, q); Inv(n) && Grows(s, n) && LocksPassOn(s, t, n)
  {
    Rescans(s, t, q);
    LocalStep(s, t, q);
  }

  lemma ItemMissed(s: State, t: nat, c: Choice)
    requires Possible(s, t, c) && s.agents[t].TryItem?
    requires var p := s.agents[t]; s.headers[p.h].slots[p.i].isTaken
    ensures var TryItem(want, h, i, final) := s.agents[t];
            After(s, t, c) == s.Go(t, Scan(want, h, i + 1, final))
  {
  }

  lemma MissItemStep(s: State, t: nat, c: Choice)
    requires Inv(s) && Enabled(s, t, c) && s.agents[t].TryItem?
    requires var p := s.agents[t]; s.headers[p.h].slots[p.i].isTaken
    ensures Keeps(s, t, c)
  {
    var TryItem(want, h, i, final) := s.agents[t];
    ItemMissed(s, t, c);
    MissItemState(s, t, Scan(want, h, i + 1, final));
  }

  lemma TryItemStep(s: State, t: nat, c: Choice)
    requires Inv(s) && Enabled(s, t, c) && s.agents[t].TryItem?
    ensures Keeps(s, t, c)
  {
    var p := s.agents[t];
    if s.headers[p.h].slots[p.i].isTaken {
      MissItemStep(s, t, c);
    } else {
      TakeItemStep(s, t, c);
    }
  }

  lemma LockSteps(s: State, t: nat, c: Choice)
    requires Inv(s) && Enabled(s, t, c) && (s.agents[t].LockToRegister? || s.agents[t].LockToLink?)
    ensures Keeps(s, t, c)
  {
    var p := s.agents[t];
    assert AgentOk(s, p) && HeaderOk(s, p.h);
    if !s.headers[p.h].locked {
      var b := s.headers[p.h].(locked := true);
      var q := if p.LockToRegister? then RecheckFull(p.want, p.h) else RecheckNext(p.want, p.h);
      FreeHeader(s, t, q, p.h);
      HeaderStep(s, t, p.h, b, q);
    }
  }

  lemma RecheckSteps(s: State, t: nat, c: Choice)
    requires Inv(s) && Enabled(s, t, c) && (s.agents[t].RecheckFull? || s.agents[t].RecheckNext?)
    ensures Keeps(s, t, c)
  {
    var p := s.agents[t];
    assert AgentOk(s, p) && HeaderOk(s, p.h);
    if p.RecheckFull? {
      LocalStep(s, t, if s.headers[p.h].IsFull(s.sys) then UnlockRegistered(p.want, p.h, NoSpace)
                      else Allocating(p.want, p.h));
    } else {
      LocalStep(s, t, if s.headers[p.h].next.Some? then UnlockLinked(p.want, p.h, true) else Creating(p.want, p.h));
    }
  }

  function Unlocked(p: Pc): Pc
    requires p.UnlockRegistered? || p.UnlockLinked?
  {
    match p
    case UnlockRegistered(want, h, Registered(i)) => Holding(want, h, i)
    case UnlockRegistered(want, h, NoSpace) => CheckNext(want, h)
    case UnlockLinked(want, h, true) => FollowNext(want, h)
    case _ => Idle
  }

  lemma UnlockState(s: State, t: nat, b: Header, q: Pc)
    requires Inv(s) && t in s.agents && (s.agents[t].UnlockRegistered? || s.agents[t].UnlockLinked?)
    requires s.agents[t].h < |s.headers| && b == s.headers[s.agents[t].h].(locked := false)
             && q == Unlocked(s.agents[t])
    ensures var n := s.Put(s.agents[t].h, b).Go(t, q); Inv(n) && Grows(s, n) && LocksPassOn(s, t, n)
  {
    var p := s.agents[t];
    assert AgentOk(s, p) && HeaderOk(s, p.h);
    NothingNewTaken(s, t, q);
    HeaderStep(s, t, p.h, b, q);
  }

  lemma UnlockSteps(s: State, t: nat, c: Choice)
    requires Inv(s) && Enabled(s, t, c) && (s.agents[t].UnlockRegistered? || s.agents[t].UnlockLinked?)
    ensures Keeps(s, t, c)
  {
    var p := s.agents[t];
    var b := s.headers[p.h].(locked := false);
    assert After(s, t, c) == s.Put(p.h, b).Go(t, Unlocked(p));
    UnlockState(s, t, b, Unlocked(p));
  }

  /** Fresh memory is claimed for the slot that will be written next. */
  lemma ClaimStep(s: State, t: nat, v: LocatorItem, q: Pc, n: State)
    requires Inv(s) && t in s.agents && s.agents[t].Allocating? && s.agents[t].h < |s.headers|
    requires v.Sound(s.sys) && v.Serves(s.agents[t].want) && v.isTaken && v.position == 0
    requires (v.baseAddress + v.size) % MAX_ALIGNMENT == 0 && s.Unclaimed(v.baseAddress, v.size)
    requires var Allocating(want, h) := s.agents[t];
      && q == Writing(want, h, v)
      && n == s.(owner := Claim(s.owner, v.baseAddress, v.size, SlotOf(h, s.headers[h].num))).Go(t, q)
    ensures Inv(n) && Grows(s, n) && LocksPassOn(s, t, n)
  {
    assert AgentOk(s, s.agents[t]);
    assert SlotOk(n, q.h, s.headers[q.h].num, v);
    forall g: nat | g < |n.headers| ensures HeaderOk(n, g) {
      SameHeaderOk(s, n, g);
    }
    NothingNewTaken(s, t, q);
    SameHeadersPassOn(s, t, n, q);
    Assemble(s, n, t, q);
  }

  lemma GivenStep(s: State, t: nat, c: Choice)
    requires Inv(s) && Enabled(s, t, c) && s.agents[t].Allocating? && c.Given?
    ensures Keeps(s, t, c)
  {
    var v := LocatorItem(c.base, c.size, 0, true);
    ClaimStep(s, t, v, Writing(s.agents[t].want, s.agents[t].h, v), After(s, t, c));
  }

  lemma AllocatingStep(s: State, t: nat, c: Choice)
    requires Inv(s) && Enabled(s, t, c) && s.agents[t].Allocating?
    ensures Keeps(s, t, c)
  {
    if c.Refused? {
      var q := UnlockRegistered(s.agents[t].want, s.agents[t].h, NoMemory);
      assert After(s, t, c) == s.Go(t, q);
      assert AgentOk(s, s.agents[t]);
      LocalStep(s, t, q);
    } else {
      GivenStep(s, t, c);
    }
  }

  lemma WriteState(s: State, t: nat, b: Header, q: Pc)
    requires Inv(s) && t in s.agents && s.agents[t].Writing? && s.agents[t].h < |s.headers|
    requires var Writing(want, h, v) := s.agents[t];
             b == s.headers[h].(slots := s.headers[h].slots + [v]) && q == Counting(want, h, s.headers[h].num)
    ensures var n := s.Put(q.h, b).Go(t, q); Inv(n) && Grows(s, n) && LocksPassOn(s, t, n)
  {
    assert AgentOk(s, s.agents[t]) && HeaderOk(s, q.h);
    NewHold(s, t, q, q.h, q.i);
    HeaderStep(s, t, q.h, b, q);
  }

  lemma WritingStep(s: State, t: nat, c: Choice)
    requires Inv(s) && Enabled(s, t, c) && s.agents[t].Writing?
    ensures Keeps(s, t, c)
    ensures var h := s.agents[t].h; After(s, t, c).headers[h].slots == s.headers[h].slots + [s.agents[t].v]
  {
    var Writing(want, h, v) := s.agents[t];
    assert |s.headers[h].slots| == s.headers[h].num by {
      assert AgentOk(s, s.agents[t]);
    }
    var b, q := s.headers[h].(slots := s.headers[h].slots + [v]), Counting(want, h, s.headers[h].num);
    assert After(s, t, c) == s.Put(h, b).Go(t, q);
    WriteState(s, t, b, q);
  }

  /** A slot that has not been written is held by nobody. */
  lemma NewHold(s: State, t: nat, q: Pc, h: nat, i: nat)
    requires Inv(s) && t in s.agents && h < |s.headers| && q.Held() == Some((h, i)) && i >= |s.headers[h].slots|
    requires q.Crit() == s.agents[t].Crit() && q.Makes().None?
    ensures ApartFromOthers(s, t, q)
  {
    forall u | u in s.agents && u != t ensures Exclusive(q, s.agents[u]) {
      assert AgentOk(s, s.agents[u]) && Exclusive(s.agents[t], s.agents[u]);
    }
  }

  lemma CountState(s: State, t: nat, b: Header, q: Pc)
    requires Inv(s) && t in s.agents && s.agents[t].Counting? && s.agents[t].h < |s.headers|
    requires var Counting(want, h, i) := s.agents[t];
             b == s.headers[h].(num := s.headers[h].num + 1) && q == UnlockRegistered(want, h, Registered(i))
    ensures var n := s.Put(q.h, b).Go(t, q); Inv(n) && Grows(s, n) && LocksPassOn(s, t, n)
  {
    assert AgentOk(s, s.agents[t]) && HeaderOk(s, q.h);
    NothingNewTaken(s, t, q);
    HeaderStep(s, t, q.h, b, q);
  }

  lemma CountingStep(s: State, t: nat, c: Choice)
    requires Inv(s) && Enabled(s, t, c) && s.agents[t].Counting?
    ensures Keeps(s, t, c)
  {
    var Counting(want, h, i) := s.agents[t];
    var b, q := s.headers[h].(num := s.headers[h].num + 1), UnlockRegistered(want, h, Registered(i));
    assert After(s, t, c) == s.Put(h, b).Go(t, q);
    CountState(s, t, b, q);
  }

  /** Chunks that begin and end where pages do all end where pages do. */
  lemma {:induction false} ChunksEndOnPages(address: nat, remaining: nat)
    requires address % MAX_ALIGNMENT == 0 && remaining % MAX_ALIGNMENT == 0
    ensures var c := Chunks(address, remaining);
            forall i :: 0 <= i < |c| ==> (c[i].baseAddress + c[i].size) % MAX_ALIGNMENT == 0
    decreases remaining
  {
    if remaining > 0 {
      var length := ChunkLength(remaining);
      assert Chunks(address, remaining) == [NewItem(address, length)] + Chunks(address + length, remaining - length);
      assert (address + length) % MAX_ALIGNMENT == 0 && (remaining - length) % MAX_ALIGNMENT == 0;
      ChunksEndOnPages(address + length, remaining - length);
    }
  }

  lemma ChunksSound(sys: SysInfo, address: nat)
    requires RoomBesideChunks(sys) && 0 < address && address + sys.granularity <= sys.WordMax()
    ensures var items := Chunks(address + LENGTH, sys.granularity - LENGTH);
      && |items| < MaxItemCount(sys)
      && (forall i :: 0 <= i < |items| ==> items[i].Sound(sys))
      && (forall i :: 0 <= i < |items| ==> items[i].baseAddress == address + LENGTH + LENGTH_OF_PREALLOCATED_CHUNKS * i)
      && forall i :: 0 <= i < |items| ==>
           items[i].size <= LENGTH_OF_PREALLOCATED_CHUNKS
           && items[i].baseAddress + items[i].size <= address + sys.granularity
  {
    var items := Chunks(address + LENGTH, sys.granularity - LENGTH);
    ChunksPartition(address + LENGTH, sys.granularity - LENGTH);
    forall i | 0 <= i < |items| ensures items[i].size <= LENGTH_OF_PREALLOCATED_CHUNKS {
      if i == |items| - 1 {
        assert items[i].baseAddress + items[i].size == address + sys.granularity;
      }
    }
  }

  /** The chunks of a new locator, slot by slot. */
  lemma NewHeaderOk(sys: SysInfo, address: nat, n: nat, owner: map<nat, Owner>)
    requires RoomBesideChunks(sys) && 0 < address && address + sys.granularity <= sys.WordMax()
    requires sys.granularity % MAX_ALIGNMENT == 0 && address % MAX_ALIGNMENT == 0
    requires forall x: nat :: address <= x < address + sys.granularity ==>
               x in owner && owner[x] == OwnerIn(address, n, x)
    ensures var header := NewHeader(sys, address);
      && Owns(owner, address, LENGTH, HeaderOf(n)) && header.num < MaxItemCount(sys)
      && (forall i :: 0 <= i < |header.slots| ==> header.slots[i].Sound(sys))
      && (forall i :: 0 <= i < |header.slots| ==>
           (header.slots[i].baseAddress + header.slots[i].size) % MAX_ALIGNMENT == 0)
      && forall i :: 0 <= i < |header.slots| ==>
           Owns(owner, header.slots[i].baseAddress, header.slots[i].size, SlotOf(n, i))
  {
    ChunksEndOnPages(address + LENGTH, sys.granularity - LENGTH);
    ChunksSound(sys, address);
    var items := NewHeader(sys, address).slots;
    forall i | 0 <= i < |items| ensures Owns(owner, items[i].baseAddress, items[i].size, SlotOf(n, i)) {
      ChunkOwned(address, sys.granularity, n, owner, i, items[i]);
    }
  }

  lemma ChunkOwned(address: nat, length: nat, n: nat, owner: map<nat, Owner>, i: nat, v: LocatorItem)
    requires forall x: nat :: address <= x < address + length ==> x in owner && owner[x] == OwnerIn(address, n, x)
    requires v.baseAddress == address + LENGTH + LENGTH_OF_PREALLOCATED_CHUNKS * i
    requires v.size <= LENGTH_OF_PREALLOCATED_CHUNKS && v.baseAddress + v.size <= address + length
    ensures Owns(owner, v.baseAddress, v.size, SlotOf(n, i))
  {
    forall x: nat | v.baseAddress <= x < v.baseAddress + v.size ensures x in owner && owner[x] == SlotOf(n, i) {
      assert owner[x] == OwnerIn(address, n, x);
    }
  }

  /** A locator that has been linked to the last one, and has to be set up. */
  lemma LinkedOk(s: State, n: State, address: nat)
    requires Inv(s) && 0 < address && address + s.sys.granularity <= s.sys.WordMax() && n.sys == s.sys
             && address % MAX_ALIGNMENT == 0
    requires var k := |s.headers|;
      && s.headers[k - 1].setUp && s.headers[k - 1].IsFull(s.sys) && |n.headers| == k + 1
      && n.headers[..k] == s.headers[k - 1 := s.headers[k - 1].(next := Some(k))]
      && !n.headers[k].setUp && n.headers[k].address == address
      && n.owner == ClaimLocator(s.owner, address, s.sys.granularity, k)
    requires s.Unclaimed(address, s.sys.granularity)
    ensures forall h: nat :: h < |n.headers| ==> HeaderOk(n, h)
  {
    var k := |s.headers|;
    forall h: nat | h < |n.headers| ensures HeaderOk(n, h) {
      if h < k {
        assert HeaderOk(s, h) && n.headers[h] == n.headers[..k][h];
        assert s.headers[h].setUp;
        forall i | 0 <= i < |s.headers[h].slots| ensures SlotOk(n, h, i, n.headers[h].slots[i]) {
          assert SlotOk(s, h, i, s.headers[h].slots[i]);
        }
      }
    }
  }

  /** Only the last locator can get a successor, so the new one is the next in order. */
  lemma CreatingStep(s: State, t: nat, c: Choice)
    requires Inv(s) && Enabled(s, t, c) && s.agents[t].Creating?
    ensures Keeps(s, t, c)
  {
    if c.Refused? {
      var q := UnlockLinked(s.agents[t].want, s.agents[t].h, false);
      assert After(s, t, c) == s.Go(t, q);
      assert AgentOk(s, s.agents[t]);
      LocalStep(s, t, q);
    } else {
      LinkStep(s, t, c);
    }
  }

  predicate SameLocks(a: Header, b: Header) {
    b.setUp == a.setUp && b.locked == a.locked && b.slots == a.slots
  }

  /** Linking changes no lock, and adds a locator that the linking agent sets up. */
  lemma LinkedPassesOn(s: State, t: nat, n: State, added: Header, q: Pc)
    requires t in s.agents && n.agents == s.agents[t := q]
    requires |n.headers| == |s.headers| + 1 && n.headers[|s.headers|] == added && !added.setUp
    requires forall g: nat :: g < |s.headers| ==> SameLocks(s.headers[g], n.headers[g])
    requires q.Crit() == s.agents[t].Crit() && q.Held() == s.agents[t].Held()
    requires q.Makes() == Some(|s.headers|) && s.agents[t].Makes().None?
    ensures LocksPassOn(s, t, n)
  {
  }

  /** Linking touches the last locator only, which is the agent's own. */
  lemma LinkLeavesAlone(s: State, t: nat, n: State, h: nat, added: Header)
    requires Inv(s) && t in s.agents && s.agents[t].Crit() == Some(h) && h < |s.headers| && s.headers[h].setUp
             && s.headers[h].next.None?
    requires n.headers == s.headers[h := s.headers[h].(next := Some(|s.headers|))] + [added]
    requires n.sys == s.sys && n.bytes == s.bytes && n.log == s.log
    requires forall x :: x in s.owner ==> x in n.owner && n.owner[x] == s.owner[x]
    ensures Grows(s, n) && LeavesAlone(s, s.agents[t], n)
  {
    forall g | 0 <= g < |s.headers| ensures HeaderGrows(s.headers[g], n.headers[g]) {
    }
  }

  /** A locator that has just been created is set up by nobody else. */
  lemma NewMaker(s: State, t: nat, q: Pc)
    requires Inv(s) && t in s.agents && q.Makes() == Some(|s.headers|) && q.Held().None?
             && q.Crit() == s.agents[t].Crit()
    ensures ApartFromOthers(s, t, q)
  {
    forall u | u in s.agents && u != t ensures Exclusive(q, s.agents[u]) {
      assert AgentOk(s, s.agents[u]) && Exclusive(s.agents[t], s.agents[u]);
    }
  }

  lemma LinkState(s: State, t: nat, address: nat, added: Header, q: Pc, n: State)
    requires Inv(s) && t in s.agents && s.agents[t].Creating? && s.agents[t].h < |s.headers|
    requires 0 < address && address + s.sys.granularity <= s.sys.WordMax() && address % MAX_ALIGNMENT == 0
    requires s.Unclaimed(address, s.sys.granularity) && !added.setUp && added.address == address
    requires var Creating(want, h) := s.agents[t]; var k := |s.headers|;
      && q == Initializing(want, h)
      && n == s.(headers := s.headers[h := s.headers[h].(next := Some(k))] + [added],
                 owner := ClaimLocator(s.owner, address, s.sys.granularity, k)).Go(t, q)
    ensures Inv(n) && Grows(s, n) && LocksPassOn(s, t, n)
  {
    assert AgentOk(s, s.agents[t]) && HeaderOk(s, q.h);
    assert q.h == |s.headers| - 1;
    assert n.headers[..|s.headers|] == s.headers[q.h := s.headers[q.h].(next := Some(|s.headers|))];
    LinkedOk(s, n, address);
    NewMaker(s, t, q);
    LinkLeavesAlone(s, t, n, q.h, added);
    LinkedPassesOn(s, t, n, added, q);
    Assemble(s, n, t, q);
  }

  lemma LinkStep(s: State, t: nat, c: Choice)
    requires Inv(s) && Enabled(s, t, c) && s.agents[t].Creating? && c.GivenHeader?
    ensures Keeps(s, t, c)
  {
    var added := c.junk.(address := c.address, setUp := false);
    LinkState(s, t, c.address, added, Initializing(s.agents[t].want, s.agents[t].h), After(s, t, c));
  }

  lemma NewSlotsFree(sys: SysInfo, address: nat)
    requires LENGTH <= sys.granularity
    ensures forall i :: 0 <= i < |NewHeader(sys, address).slots| ==> !NewHeader(sys, address).slots[i].isTaken
  {
    ChunksPartition(address + LENGTH, sys.granularity - LENGTH);
  }

  /** The last locator is set up. */
  lemma SetUpHeaders(s: State, n: State, k: nat)
    requires Inv(s) && k < |s.headers| && !s.headers[k].setUp && n.sys == s.sys && n.owner == s.owner
    requires n.headers == s.headers[k := NewHeader(s.sys, s.headers[k].address)]
    ensures forall h: nat :: h < |n.headers| ==> HeaderOk(n, h)
  {
    assert HeaderOk(s, k);
    NewHeaderOk(s.sys, s.headers[k].address, k, s.owner);
    forall h: nat | h < |n.headers| ensures HeaderOk(n, h) {
      if h != k {
        SameHeaderOk(s, n, h);
      }
    }
  }

  lemma SetUpLeavesAlone(s: State, t: nat, k: nat, q: Pc, n: State)
    requires Inv(s) && t in s.agents && s.agents[t].Makes() == Some(k) && k < |s.headers| && !s.headers[k].setUp
    requires LENGTH <= s.sys.granularity && n == s.Put(k, NewHeader(s.sys, s.headers[k].address)).Go(t, q)
    requires q.Crit() == s.agents[t].Crit() && q.Held().None? && s.agents[t].Held().None?
    ensures Grows(s, n) && LeavesAlone(s, s.agents[t], n) && LocksPassOn(s, t, n)
  {
    assert AgentOk(s, s.agents[t]);
    NewSlotsFree(s.sys, s.headers[k].address);
  }

  lemma SetUpState(s: State, t: nat, k: nat, q: Pc, n: State)
    requires Inv(s) && t in s.agents && s.agents[t].Makes() == Some(k) && k < |s.headers|
    requires n == s.Put(k, NewHeader(s.sys, s.headers[k].address)).Go(t, q) && AgentOk(n, q)
    requires q.Crit() == s.agents[t].Crit() && q.Held().None? && q.Makes().None?
    ensures Inv(n) && Grows(s, n) && LocksPassOn(s, t, n)
  {
    assert AgentOk(s, s.agents[t]);
    SetUpHeaders(s, n, k);
    NothingNewTaken(s, t, q);
    SetUpLeavesAlone(s, t, k, q, n);
    Assemble(s, n, t, q);
  }

  /** The first locator is set up, or the one that has just been linked. */
  lemma SetUpSteps(s: State, t: nat, c: Choice)
    requires Inv(s) && Enabled(s, t, c) && (s.agents[t].SettingUp? || s.agents[t].Initializing?)
    ensures Keeps(s, t, c)
  {
    var p := s.agents[t];
    assert AgentOk(s, p);
    var k := p.Makes().value;
    var q := if p.SettingUp? then Idle else UnlockLinked(p.want, p.h, true);
    SetUpState(s, t, k, q, After(s, t, c));
  }

  /** A careful move to the next aligned address stays in the buffer: by the caller's check, or because buffers
      end on pages. */
  lemma CarefulMove(s: State, t: nat, alignment: nat)
    requires Inv(s) && Enabled(s, t, Align(alignment)) && s.agents[t].Holding?
    ensures var p := s.agents[t];
      && p.h < |s.headers| && p.i < |s.headers[p.h].slots|
      && var v := s.headers[p.h].slots[p.i]; var w := AlignedItem(s.sys, v, alignment);
         w == v.(position := w.position) && v.position <= w.position <= v.size
  {
    var p := s.agents[t];
    assert AgentOk(s, p) && HeaderOk(s, p.h);
    var v := s.headers[p.h].slots[p.i];
    assert SlotOk(s, p.h, p.i, v);
    if Regular(alignment) {
      RegularStaysInside(v, alignment);
    }
    AlignedItemExact(s.sys, v, alignment);
  }

  lemma AlignStep(s: State, t: nat, c: Choice)
    requires Inv(s) && Enabled(s, t, c) && s.agents[t].Holding? && c.Align?
    ensures Keeps(s, t, c)
  {
    var q := s.agents[t];
    var w := AlignedItem(s.sys, s.headers[q.h].slots[q.i], c.alignment);
    assert After(s, t, c) == s.PutItem(q.h, q.i, w).Go(t, q) by {
      assert s.agents[t := q] == s.agents;
    }
    CarefulMove(s, t, c.alignment);
    ItemMoves(s, t, w, q);
  }

  lemma MoverOk(s: State, t: nat, w: LocatorItem, q: Pc, n: State)
    requires Inv(s) && t in s.agents && (s.agents[t].Holding? || s.agents[t].Copying?) && Ready(s, s.agents[t])
    requires var p := s.agents[t]; var v := s.headers[p.h].slots[p.i];
      && q == Holding(p.want, p.h, p.i) && w == v.(position := w.position) && v.position <= w.position <= v.size
      && n == s.PutItem(q.h, q.i, w).Go(t, q)
    ensures AgentOk(n, q)
  {
    assert AgentOk(s, s.agents[t]);
  }

  lemma MovedItemOk(s: State, t: nat, w: LocatorItem, q: Pc, n: State)
    requires Inv(s) && t in s.agents && (s.agents[t].Holding? || s.agents[t].Copying?) && Ready(s, s.agents[t])
    requires var p := s.agents[t]; var v := s.headers[p.h].slots[p.i];
      && q == Holding(p.want, p.h, p.i) && w == v.(position := w.position) && v.position <= w.position <= v.size
      && n == s.PutItem(q.h, q.i, w).Go(t, q)
    ensures HeaderOk(n, q.h) && HeaderGrows(s.headers[q.h], n.headers[q.h])
  {
    assert AgentOk(s, s.agents[t]) && HeaderOk(s, q.h);
    forall i | 0 <= i < |n.headers[q.h].slots| ensures SlotOk(n, q.h, i, n.headers[q.h].slots[i]) {
      assert SlotOk(s, q.h, i, s.headers[q.h].slots[i]);
    }
  }

  /** A held item whose position moves on in its buffer. */
  lemma ItemMoves(s: State, t: nat, w: LocatorItem, q: Pc)
    requires Inv(s) && t in s.agents && (s.agents[t].Holding? || s.agents[t].Copying?) && Ready(s, s.agents[t])
    requires var p := s.agents[t]; var v := s.headers[p.h].slots[p.i];
             q == Holding(p.want, p.h, p.i) && w == v.(position := w.position) && v.position <= w.position <= v.size
    ensures var n := s.PutItem(q.h, q.i, w).Go(t, q); Inv(n) && Grows(s, n) && LocksPassOn(s, t, n)
  {
    assert AgentOk(s, s.agents[t]);
    MoverOk(s, t, w, q, s.PutItem(q.h, q.i, w).Go(t, q));
    MovedItemOk(s, t, w, q, s.PutItem(q.h, q.i, w).Go(t, q));
    NothingNewTaken(s, t, q);
    HeaderStep(s, t, q.h, s.headers[q.h].(slots := s.headers[q.h].slots[q.i := w]), q);
  }

  lemma DropState(s: State, t: nat, h: nat, b: Header)
    requires Inv(s) && t in s.agents && s.agents[t].Holding? && Ready(s, s.agents[t])
    requires var p := s.agents[t];
      h == p.h && b == s.headers[h].(slots := s.headers[h].slots[p.i := s.headers[h].slots[p.i].(isTaken := false)])
    ensures var n := s.Put(h, b).Go(t, Idle); Inv(n) && Grows(s, n) && LocksPassOn(s, t, n)
  {
    var p := s.agents[t];
    assert AgentOk(s, p) && HeaderOk(s, h);
    assert SlotOk(s, h, p.i, s.headers[h].slots[p.i]);
    NothingNewTaken(s, t, Idle);
    HeaderStep(s, t, h, b, Idle);
  }

  lemma DropStep(s: State, t: nat, c: Choice)
    requires Inv(s) && Enabled(s, t, c) && s.agents[t].Holding? && c.Drop?
    ensures Keeps(s, t, c)
  {
    var Holding(want, h, i) := s.agents[t];
    var b := s.headers[h].(slots := s.headers[h].slots[i := s.headers[h].slots[i].(isTaken := false)]);
    assert After(s, t, c) == s.Put(h, b).Go(t, Idle);
    DropState(s, t, h, b);
  }

  lemma HoldingStep(s: State, t: nat, c: Choice)
    requires Inv(s) && Enabled(s, t, c) && s.agents[t].Holding?
    ensures Keeps(s, t, c)
  {
    if c.Append? {
      var Holding(want, h, i) := s.agents[t];
      assert AgentOk(s, s.agents[t]) && HeaderOk(s, h);
      assert SlotOk(s, h, i, s.headers[h].slots[i]);
      LocalStep(s, t, Copying(want, h, i, s.headers[h].slots[i].position, c.data, 0));
    } else if c.Align? {
      AlignStep(s, t, c);
    } else {
      DropStep(s, t, c);
    }
  }

  /** A step that writes one byte behind the write position of the item held. */
  lemma ByteStep(s: State, t: nat, x: nat, b: bv8, q: Pc)
    requires Inv(s) && t in s.agents && Writes(s, s.agents[t], x)
    requires q.Crit() == s.agents[t].Crit() && q.Held() == s.agents[t].Held() && q.Makes() == s.agents[t].Makes()
    requires AgentOk(s.(bytes := s.bytes[x := b]).Go(t, q), q)
    ensures var n := s.(bytes := s.bytes[x := b]).Go(t, q); Inv(n) && Grows(s, n) && LocksPassOn(s, t, n)
  {
    var n := s.(bytes := s.bytes[x := b]).Go(t, q);
    forall g: nat | g < |n.headers| ensures HeaderOk(n, g) {
      SameHeaderOk(s, n, g);
    }
    NothingNewTaken(s, t, q);
    SameHeadersPassOn(s, t, n, q);
    Assemble(s, n, t, q);
  }

  lemma WritesOwn(s: State, t: nat, x: nat)
    requires Inv(s) && t in s.agents && s.agents[t].Copying? && s.agents[t].done < |s.agents[t].data|
             && Ready(s, s.agents[t])
    requires var Copying(want, h, i, at, data, done) := s.agents[t];
             x == s.headers[h].slots[i].baseAddress + at + done
    ensures Writes(s, s.agents[t], x)
  {
    var Copying(want, h, i, at, data, done) := s.agents[t];
    assert AgentOk(s, s.agents[t]) && HeaderOk(s, h);
    assert SlotOk(s, h, i, s.headers[h].slots[i]);
    assert x in s.owner && s.owner[x] == SlotOf(h, i);
  }

  lemma NextByte(s: State, t: nat, x: nat, q: Pc)
    requires Inv(s) && t in s.agents && s.agents[t].Copying? && s.agents[t].done < |s.agents[t].data|
             && Ready(s, s.agents[t])
    requires var Copying(want, h, i, at, data, done) := s.agents[t];
             x == s.headers[h].slots[i].baseAddress + at + done && q == Copying(want, h, i, at, data, done + 1)
    ensures AgentOk(s.(bytes := s.bytes[x := s.agents[t].data[s.agents[t].done]]).Go(t, q), q)
  {
    var Copying(want, h, i, at, data, done) := s.agents[t];
    assert AgentOk(s, s.agents[t]) && HeaderOk(s, h);
    assert SlotOk(s, h, i, s.headers[h].slots[i]);
    assert Copied(s.bytes[x := data[done]], s.headers[h].slots[i].baseAddress + at, data[..done + 1]);
  }

  lemma CopyByteStep(s: State, t: nat, c: Choice)
    requires Inv(s) && Enabled(s, t, c) && s.agents[t].Copying? && s.agents[t].done < |s.agents[t].data|
    ensures Keeps(s, t, c)
  {
    var Copying(want, h, i, at, data, done) := s.agents[t];
    var x := s.headers[h].slots[i].baseAddress + at + done;
    var q := Copying(want, h, i, at, data, done + 1);
    assert After(s, t, c) == s.(bytes := s.bytes[x := data[done]]).Go(t, q);
    WritesOwn(s, t, x);
    NextByte(s, t, x, q);
    ByteStep(s, t, x, data[done], q);
  }

  /** What is appended is logged behind everything that was appended to the same buffer before. */
  lemma NewEntry(s: State, t: nat, m: State, e: Entry)
    requires Inv(s) && t in s.agents && Ready(s, s.agents[t]) && s.agents[t].Copying?
             && s.agents[t].done == |s.agents[t].data|
    requires var Copying(want, h, i, at, data, done) := s.agents[t];
      var v := s.headers[h].slots[i];
      && e == Entry(h, i, v.baseAddress + at, data)
      && m == s.PutItem(h, i, v.Advanced(|data|)).Go(t, Holding(want, h, i))
    ensures EntryOk(m, e) && forall k :: 0 <= k < |s.log| ==> InSequence(s.log[k], e)
  {
    var p := s.agents[t];
    assert AgentOk(s, p);
    assert p.data[..p.done] == p.data;
    forall k | 0 <= k < |s.log| ensures InSequence(s.log[k], e) {
      assert EntryOk(s, s.log[k]);
    }
  }

  /** The position is moved behind the data, which is then logged. */
  lemma AppendDone(s: State, t: nat, n: State)
    requires Inv(s) && t in s.agents && Ready(s, s.agents[t]) && s.agents[t].Copying?
             && s.agents[t].done == |s.agents[t].data|
    requires var Copying(want, h, i, at, data, done) := s.agents[t];
      var v := s.headers[h].slots[i];
      n == s.PutItem(h, i, v.Advanced(|data|)).(log := s.log + [Entry(h, i, v.baseAddress + at, data)])
            .Go(t, Holding(want, h, i))
    ensures Inv(n) && Grows(s, n) && LocksPassOn(s, t, n)
  {
    var Copying(want, h, i, at, data, done) := s.agents[t];
    assert AgentOk(s, s.agents[t]);
    var v := s.headers[h].slots[i];
    var q, e := Holding(want, h, i), Entry(h, i, v.baseAddress + at, data);
    var m := s.PutItem(h, i, v.Advanced(|data|)).Go(t, q);
    ItemMoves(s, t, v.Advanced(|data|), q);
    NewEntry(s, t, m, e);
    Logged(s, t, m, e);
  }

  lemma FinishStep(s: State, t: nat, c: Choice)
    requires Inv(s) && Enabled(s, t, c) && s.agents[t].Copying? && s.agents[t].done == |s.agents[t].data|
    ensures Keeps(s, t, c)
  {
    AppendDone(s, t, After(s, t, c));
  }

  lemma Logged(s: State, t: nat, m: State, e: Entry)
    requires Inv(m) && Grows(s, m) && LocksPassOn(s, t, m)
    requires EntryOk(m, e) && forall k :: 0 <= k < |m.log| ==> InSequence(m.log[k], e)
    ensures var n := m.(log := m.log + [e]); Inv(n) && Grows(s, n) && LocksPassOn(s, t, n)
  {
    var n := m.(log := m.log + [e]);
    forall h: nat | h < |n.headers| ensures HeaderOk(n, h) {
      SameHeaderOk(m, n, h);
    }
    forall u | u in n.agents ensures AgentOk(n, n.agents[u]) {
      assert AgentOk(m, m.agents[u]);
    }
    forall k | 0 <= k < |n.log| ensures EntryOk(n, n.log[k]) {
      assert k < |m.log| ==> EntryOk(m, m.log[k]);
    }
  }

  /** Every step keeps the invariant, and what is shared stays where it is. */
  lemma StepKeeps(s: State, t: nat, c: Choice)
    requires Inv(s) && Enabled(s, t, c)
    ensures Inv(After(s, t, c)) && Grows(s, After(s, t, c)) && LocksPassOn(s, t, After(s, t, c))
  {
    match s.agents[t]
    case SettingUp(_) => SetUpSteps(s, t, c);
    case Initializing(_, _) => SetUpSteps(s, t, c);
    case Scan(_, _, _, _) => ScanStep(s, t, c);
    case TryItem(_, _, _, _) => TryItemStep(s, t, c);
    case LockToRegister(_, _) => LockSteps(s, t, c);
    case LockToLink(_, _) => LockSteps(s, t, c);
    case RecheckFull(_, _) => RecheckSteps(s, t, c);
    case RecheckNext(_, _) => RecheckSteps(s, t, c);
    case UnlockRegistered(_, _, _) => UnlockSteps(s, t, c);
    case UnlockLinked(_, _, _) => UnlockSteps(s, t, c);
    case Allocating(_, _) => AllocatingStep(s, t, c);
    case Writing(_, _, _) => WritingStep(s, t, c);
    case Counting(_, _, _) => CountingStep(s, t, c);
    case Creating(_, _) => CreatingStep(s, t, c);
    case Holding(_, _, _) => HoldingStep(s, t, c);
    case Copying(_, _, _, _, data, done) =>
      assert AgentOk(s, s.agents[t]);
      if done < |data| {
        CopyByteStep(s, t, c);
      } else {
        FinishStep(s, t, c);
      }
    case CheckFull(_, _) => CheckSteps(s, t, c);
    case CheckNext(_, _) => CheckSteps(s, t, c);
    case _ => EnterSteps(s, t, c);
  }

  predicate OnlyReads(p: Pc) {
    p.Idle? || p.Scan? || p.CheckFull? || p.RecheckFull? || p.Allocating? || p.CheckNext? || p.RecheckNext?
    || p.FollowNext?
  }

  lemma ReadersChangeNoHeader(s: State, t: nat, c: Choice)
    requires Enabled(s, t, c) && OnlyReads(s.agents[t])
    ensures After(s, t, c).headers == s.headers
  {
  }

  /** Only counting and setting up change what is published. */
  lemma CountStays(s: State, t: nat, c: Choice, h: nat)
    requires Enabled(s, t, c) && h < |s.headers|
    requires var p := s.agents[t];
      p.TryItem? || p.LockToRegister? || p.LockToLink? || p.Writing? || p.UnlockRegistered? || p.UnlockLinked?
      || p.Creating? || p.Holding? || p.Copying?
    ensures var n := After(s, t, c);
            h < |n.headers| && n.headers[h].num == s.headers[h].num && n.headers[h].setUp == s.headers[h].setUp
  {
  }
}
