/** What the protocol promises over whole runs: any number of agents, any interleaving. */
module ProtocolRuns {
  import opened Machine
  import opened OperatingSystem
  import opened LocatorItems
  import opened LocatorHeaders
  import opened Protocol
  import opened ProtocolInvariant
  import opened ProtocolSteps

  datatype Move = Move(agent: nat, choice: Choice)

  ghost predicate Run(states: seq<State>, moves: seq<Move>) {
    && |states| == |moves| + 1 && Init(states[0])
    && forall i :: 0 <= i < |moves| ==> Moved(states[i], moves[i], states[i + 1])
  }

  ghost predicate Moved(s: State, m: Move, n: State) {
    Enabled(s, m.agent, m.choice) && n == After(s, m.agent, m.choice)
  }

  lemma InitInv(s: State)
    requires Init(s)
    ensures Inv(s)
  {
    forall t | t in s.agents ensures AgentOk(s, s.agents[t]) {
    }
    assert HeaderOk(s, 0);
  }

  lemma {:induction false} RunInv(states: seq<State>, moves: seq<Move>, i: nat)
    requires Run(states, moves) && i < |states|
    ensures Inv(states[i])
  {
    if i == 0 {
      InitInv(states[0]);
    } else {
      RunInv(states, moves, i - 1);
      assert Moved(states[i - 1], moves[i - 1], states[i]);
      StepKeeps(states[i - 1], moves[i - 1].agent, moves[i - 1].choice);
    }
  }

  lemma GrowsTransitive(a: State, b: State, c: State)
    requires Grows(a, b) && Grows(b, c)
    ensures Grows(a, c)
  {
    forall h | 0 <= h < |a.headers| ensures HeaderGrows(a.headers[h], c.headers[h]) {
      var x, y, z := a.headers[h], b.headers[h], c.headers[h];
      assert HeaderGrows(x, y) && HeaderGrows(y, z);
      if x.setUp {
        forall i | 0 <= i < |x.slots| ensures SameBuffer(x.slots[i], z.slots[i]) {
          assert SameBuffer(x.slots[i], y.slots[i]) && SameBuffer(y.slots[i], z.slots[i]);
        }
      }
    }
  }

  lemma GrowsReflexive(a: State)
    ensures Grows(a, a)
  {
  }

  lemma NextGrows(states: seq<State>, moves: seq<Move>, k: nat)
    requires Run(states, moves) && k < |moves|
    ensures Grows(states[k], states[k + 1])
  {
    RunInv(states, moves, k);
    assert Moved(states[k], moves[k], states[k + 1]);
    StepKeeps(states[k], moves[k].agent, moves[k].choice);
  }

  ghost predicate NextKeeps(states: seq<State>, k: nat)
    requires k + 1 < |states|
  {
    Grows(states[k], states[k + 1])
  }

  lemma {:induction false} Chained(states: seq<State>, i: nat, j: nat)
    requires i <= j < |states| && forall k: nat :: k + 1 < |states| ==> NextKeeps(states, k)
    ensures Grows(states[i], states[j])
    decreases j
  {
    if i == j {
      GrowsReflexive(states[i]);
    } else {
      Chained(states, i, j - 1);
      assert NextKeeps(states, j - 1);
      GrowsTransitive(states[i], states[j - 1], states[j]);
    }
  }

  /** Buffers are static: over any stretch of a run no locator or buffer moves or changes its size, no published
      item disappears, a successor is set once, and the log of finished appends only gets longer. */
  lemma RunGrows(states: seq<State>, moves: seq<Move>, i: nat, j: nat)
    requires Run(states, moves) && i <= j < |states|
    ensures Grows(states[i], states[j])
  {
    forall k: nat | k + 1 < |states| ensures NextKeeps(states, k) {
      NextGrows(states, moves, k);
    }
    Chained(states, i, j);
  }

  /** No two agents hold the same item, are in the same locator's critical section, or set up the same locator. */
  lemma MutualExclusion(states: seq<State>, moves: seq<Move>, k: nat, t: nat, u: nat)
    requires Run(states, moves) && k < |states| && t in states[k].agents && u in states[k].agents && t != u
    ensures var p, q := states[k].agents[t], states[k].agents[u];
            && (p.Held().Some? ==> p.Held() != q.Held()) && (p.Crit().Some? ==> p.Crit() != q.Crit())
            && (p.Makes().Some? ==> p.Makes() != q.Makes())
  {
    RunInv(states, moves, k);
    assert Exclusive(states[k].agents[t], states[k].agents[u]);
  }

  /** The ranges of memory that belong to the chain: its headers and all their buffers. */
  ghost predicate Range(s: State, o: Owner, base: nat, size: nat) {
    match o
    case HeaderOf(h) => h < |s.headers| && base == s.headers[h].address && size == LENGTH
    case SlotOf(h, i) => h < |s.headers| && s.headers[h].setUp && i < |s.headers[h].slots|
                         && base == s.headers[h].slots[i].baseAddress && size == s.headers[h].slots[i].size
  }

  /** All headers and all buffers of the whole chain are pairwise disjoint. */
  lemma Disjoint(states: seq<State>, moves: seq<Move>, k: nat, o: Owner, base: nat, size: nat, o': Owner, base': nat,
                 size': nat)
    requires Run(states, moves) && k < |states| && o != o'
    requires Range(states[k], o, base, size) && Range(states[k], o', base', size')
    ensures Block(base, size) !! Block(base', size')
  {
    RunInv(states, moves, k);
    RangeOwned(states[k], o, base, size);
    RangeOwned(states[k], o', base', size');
    OwnedApart(states[k].owner, base, size, o, base', size', o');
  }

  lemma RangeOwned(s: State, o: Owner, base: nat, size: nat)
    requires Inv(s) && Range(s, o, base, size)
    ensures Owns(s.owner, base, size, o)
  {
    assert HeaderOk(s, o.h);
    if o.SlotOf? {
      assert SlotOk(s, o.h, o.i, s.headers[o.h].slots[o.i]);
    }
  }

  lemma InBuffer(s: State, e: Entry)
    requires Inv(s) && EntryOk(s, e)
    ensures Owns(s.owner, e.address, |e.data|, SlotOf(e.h, e.i))
    ensures var v := s.headers[e.h].slots[e.i];
            v.baseAddress <= e.address && e.address + |e.data| <= v.baseAddress + v.size
  {
    assert HeaderOk(s, e.h) && SlotOk(s, e.h, e.i, s.headers[e.h].slots[e.i]);
  }

  lemma OwnedApart(owner: map<nat, Owner>, base: nat, size: nat, o: Owner, base': nat, size': nat, o': Owner)
    requires Owns(owner, base, size, o) && Owns(owner, base', size', o') && o != o'
    ensures Block(base, size) !! Block(base', size')
  {
    forall x | x in Block(base, size) ensures x !in Block(base', size') {
      assert owner[x] == o;
    }
  }

  lemma EntriesApart(s: State, a: nat, b: nat)
    requires Inv(s) && a < b < |s.log|
    ensures Block(s.log[a].address, |s.log[a].data|) !! Block(s.log[b].address, |s.log[b].data|)
  {
    var e, f := s.log[a], s.log[b];
    assert EntryOk(s, e) && EntryOk(s, f) && InSequence(e, f);
    if e.h != f.h || e.i != f.i {
      InBuffer(s, e);
      InBuffer(s, f);
      OwnedApart(s.owner, e.address, |e.data|, SlotOf(e.h, e.i), f.address, |f.data|, SlotOf(f.h, f.i));
    }
  }

  /** Everything ever appended stays in the log, lies in its buffer, and can be read at any later time. */
  lemma AppendedStays(states: seq<State>, moves: seq<Move>, k: nat, l: nat, a: nat)
    requires Run(states, moves) && k <= l < |states| && a < |states[k].log|
    ensures var s, e := states[l], states[k].log[a];
      && a < |s.log| && s.log[a] == e && Copied(s.bytes, e.address, e.data)
      && e.h < |s.headers| && e.i < |s.headers[e.h].slots|
      && var v := s.headers[e.h].slots[e.i];
         v.baseAddress <= e.address && e.address + |e.data| <= v.baseAddress + v.size
  {
    RunInv(states, moves, l);
    RunGrows(states, moves, k, l);
    assert EntryOk(states[l], states[l].log[a]);
    InBuffer(states[l], states[l].log[a]);
  }

  /** No two appends of a run share a byte, whichever agents made them. */
  lemma AppendsDisjoint(states: seq<State>, moves: seq<Move>, k: nat, a: nat, b: nat)
    requires Run(states, moves) && k < |states| && a < |states[k].log| && b < |states[k].log| && a != b
    ensures var e, f := states[k].log[a], states[k].log[b]; Block(e.address, |e.data|) !! Block(f.address, |f.data|)
  {
    RunInv(states, moves, k);
    EntriesApart(states[k], if a < b then a else b, if a < b then b else a);
  }

  /** Registration: a locator that is set up never has more items than it has room for, every published slot is
      initialised, and whoever holds the lock and is about to write a slot writes one that was never written. */
  lemma Registration(states: seq<State>, moves: seq<Move>, k: nat, h: nat)
    requires Run(states, moves) && k < |states| && h < |states[k].headers| && states[k].headers[h].setUp
    ensures var s, header := states[k], states[k].headers[h];
      && header.num <= MaxItemCount(s.sys) && header.num <= |header.slots|
      && (forall i :: 0 <= i < |header.slots| ==> header.slots[i].Sound(s.sys))
      && (forall t :: t in s.agents && s.agents[t].Writing? && s.agents[t].h == h ==>
            |header.slots| == header.num < MaxItemCount(s.sys))
  {
    RunInv(states, moves, k);
    var s := states[k];
    assert HeaderOk(s, h);
    forall i | 0 <= i < |s.headers[h].slots| ensures s.headers[h].slots[i].Sound(s.sys) {
      assert SlotOk(s, h, i, s.headers[h].slots[i]);
    }
    forall t | t in s.agents && s.agents[t].Writing? && s.agents[t].h == h
      ensures |s.headers[h].slots| == s.headers[h].num < MaxItemCount(s.sys)
    {
      assert AgentOk(s, s.agents[t]);
    }
  }

  /** Only the agent that has written a slot publishes it. */
  lemma OnlyCountingCounts(s: State, t: nat, c: Choice, h: nat)
    requires Inv(s) && Enabled(s, t, c) && h < |s.headers| && s.headers[h].setUp && h < |After(s, t, c).headers|
    requires After(s, t, c).headers[h].num != s.headers[h].num
    ensures s.agents[t].Counting? && s.agents[t].h == h
  {
    var p := s.agents[t];
    if OnlyReads(p) {
      ReadersChangeNoHeader(s, t, c);
    } else if !p.Counting? && !p.SettingUp? && !p.Initializing? {
      CountStays(s, t, c, h);
    } else {
      assert AgentOk(s, p);
    }
  }

  lemma PublicationStep(s: State, t: nat, c: Choice)
    requires Inv(s) && Enabled(s, t, c) && s.agents[t].Counting?
    ensures var n, h := After(s, t, c), s.agents[t].h;
      && h < |s.headers| && h < |n.headers|
      && var i := s.headers[h].num;
      && n.headers[h].num == i + 1 && n.headers[h].slots == s.headers[h].slots && i < |n.headers[h].slots|
      && s.agents[t].Held() == Some((h, i)) && t in n.agents && n.agents[t].Held() == Some((h, i))
      && n.headers[h].slots[i].isTaken && n.headers[h].slots[i].Serves(s.agents[t].want)
  {
    assert AgentOk(s, s.agents[t]);
  }

  /** An item becomes visible only by the step of the agent that wrote it, which already holds it; it serves
      that agent's whole request. */
  lemma Publication(states: seq<State>, moves: seq<Move>, k: nat, h: nat)
    requires Run(states, moves) && k < |moves| && h < |states[k].headers| && states[k].headers[h].setUp
    requires h < |states[k + 1].headers| && states[k + 1].headers[h].num != states[k].headers[h].num
    ensures var s, n, t, i := states[k], states[k + 1], moves[k].agent, states[k].headers[h].num;
      && n.headers[h].num == i + 1 && n.headers[h].slots == s.headers[h].slots && i < |n.headers[h].slots|
      && t in s.agents && s.agents[t].Held() == Some((h, i)) && t in n.agents && n.agents[t].Held() == Some((h, i))
      && n.headers[h].slots[i].isTaken && n.headers[h].slots[i].Serves(s.agents[t].want)
  {
    RunInv(states, moves, k);
    assert Moved(states[k], moves[k], states[k + 1]);
    OnlyCountingCounts(states[k], moves[k].agent, moves[k].choice, h);
    PublicationStep(states[k], moves[k].agent, moves[k].choice);
  }

  /** A request that is answered with a fresh item is served in full, whatever the others do. */
  lemma FreshItemServes(states: seq<State>, moves: seq<Move>, k: nat)
    requires Run(states, moves) && k < |moves|
    requires var s, t := states[k], moves[k].agent;
             t in s.agents && s.agents[t].UnlockRegistered? && s.agents[t].outcome.Registered?
    ensures var p, n, t := states[k].agents[moves[k].agent], states[k + 1], moves[k].agent;
      && t in n.agents && n.agents[t] == Holding(p.want, p.h, p.outcome.i)
      && p.h < |n.headers| && p.outcome.i < |n.headers[p.h].slots| && n.headers[p.h].slots[p.outcome.i].Serves(p.want)
  {
    RunInv(states, moves, k);
    assert Moved(states[k], moves[k], states[k + 1]);
    assert AgentOk(states[k], states[k].agents[moves[k].agent]);
  }

  /** The chain: every locator's successor is the one created right after it, is there exactly when there is a
      later one, and only a full locator has one. So the chain has no cycle and no branch. Only the last may have
      to be set up. */
  lemma Chain(states: seq<State>, moves: seq<Move>, k: nat, h: nat)
    requires Run(states, moves) && k < |states| && h < |states[k].headers|
    ensures var s := states[k];
      && (!s.headers[h].setUp ==> h == |s.headers| - 1)
      && (s.headers[h].setUp ==> s.headers[h].next == (if h + 1 < |s.headers| then Some(h + 1) else None))
      && (h + 1 < |s.headers| ==> s.headers[h].num == MaxItemCount(s.sys))
  {
    RunInv(states, moves, k);
    assert HeaderOk(states[k], h);
  }

  lemma OnlyCreatingCreates(s: State, t: nat, c: Choice)
    requires Enabled(s, t, c) && |After(s, t, c).headers| != |s.headers|
    ensures s.agents[t].Creating? && c.GivenHeader?
  {
    if OnlyReads(s.agents[t]) {
      ReadersChangeNoHeader(s, t, c);
    }
  }

  lemma CreationStep(s: State, t: nat, c: Choice)
    requires Inv(s) && Enabled(s, t, c) && s.agents[t].Creating? && c.GivenHeader?
    ensures var n, k := After(s, t, c), |s.headers|;
      && |n.headers| == k + 1 && s.agents[t].Crit() == Some(k - 1)
      && s.headers[k - 1].next == None && n.headers[k - 1].next == Some(k)
      && !n.headers[k].setUp && t in n.agents && n.agents[t].Makes() == Some(k)
  {
    assert AgentOk(s, s.agents[t]) && HeaderOk(s, s.agents[t].h);
  }

  /** A locator is created only behind the last one, by the agent in its critical section, one
      at a time; that agent goes on to set it up. */
  lemma Creation(states: seq<State>, moves: seq<Move>, k: nat)
    requires Run(states, moves) && k < |moves| && |states[k + 1].headers| != |states[k].headers|
    ensures var s, n, t := states[k], states[k + 1], moves[k].agent;
      && |n.headers| == |s.headers| + 1 && t in s.agents && s.agents[t].Crit() == Some(|s.headers| - 1)
      && s.headers[|s.headers| - 1].next == None && n.headers[|s.headers| - 1].next == Some(|s.headers|)
      && !n.headers[|s.headers|].setUp && t in n.agents && n.agents[t].Makes() == Some(|s.headers|)
  {
    RunInv(states, moves, k);
    assert Moved(states[k], moves[k], states[k + 1]);
    OnlyCreatingCreates(states[k], moves[k].agent, moves[k].choice);
    CreationStep(states[k], moves[k].agent, moves[k].choice);
  }

  lemma OnlyMakersSetUp(s: State, t: nat, c: Choice, h: nat)
    requires Inv(s) && Enabled(s, t, c) && h < |s.headers| && !s.headers[h].setUp
    requires h < |After(s, t, c).headers| && After(s, t, c).headers[h].setUp
    ensures s.agents[t].Makes() == Some(h)
  {
    var p := s.agents[t];
    if OnlyReads(p) {
      ReadersChangeNoHeader(s, t, c);
    } else if !p.Counting? && !p.SettingUp? && !p.Initializing? {
      CountStays(s, t, c, h);
    } else {
      assert AgentOk(s, p);
    }
  }

  lemma SetUpStep(s: State, t: nat, c: Choice)
    requires Inv(s) && Enabled(s, t, c) && s.agents[t].Makes().Some?
    ensures var n, h := After(s, t, c), s.agents[t].Makes().value;
            h < |s.headers| && h < |n.headers| && LENGTH <= s.sys.granularity
            && n.headers[h] == NewHeader(s.sys, s.headers[h].address)
  {
    assert AgentOk(s, s.agents[t]);
  }

  /** A locator is set up once, by the agent that created it: unlocked, without successor, not
      full, and with exactly the chunks of its granule registered. */
  lemma SetUp(states: seq<State>, moves: seq<Move>, k: nat, h: nat)
    requires Run(states, moves) && k < |moves| && h < |states[k].headers| && h < |states[k + 1].headers|
    requires !states[k].headers[h].setUp && states[k + 1].headers[h].setUp
    ensures var s, t, header := states[k], moves[k].agent, states[k + 1].headers[h];
      && t in s.agents && s.agents[t].Makes() == Some(h) && LENGTH <= s.sys.granularity
      && header == NewHeader(s.sys, s.headers[h].address) && header.num < MaxItemCount(s.sys)
  {
    RunInv(states, moves, k);
    assert Moved(states[k], moves[k], states[k + 1]);
    OnlyMakersSetUp(states[k], moves[k].agent, moves[k].choice, h);
    SetUpStep(states[k], moves[k].agent, moves[k].choice);
    ChunksPartition(states[k].headers[h].address + LENGTH, states[k].sys.granularity - LENGTH);
  }
}
