/** Locks are never lost: a lock that is taken has an owner that is on its way to give it back. */
module ProtocolProgress {
  import opened Machine
  import opened Settings
  import opened Protocol
  import opened ProtocolInvariant
  import opened ProtocolSteps
  import opened ProtocolRuns

  ghost predicate HasCrit(s: State, h: nat) {
    exists t :: t in s.agents && s.agents[t].Crit() == Some(h)
  }

  ghost predicate HasHolder(s: State, h: nat, i: nat) {
    exists t :: t in s.agents && s.agents[t].Held() == Some((h, i))
  }

  ghost predicate HasMaker(s: State, h: nat) {
    exists t :: t in s.agents && s.agents[t].Makes() == Some(h)
  }

  /** Every lock that is taken, of a locator or of an item, is some agent's, and every
      locator that is not set up has somebody who is about to do that. */
  ghost predicate Owned(s: State) {
    && (forall h: nat :: h < |s.headers| && !s.headers[h].setUp ==> HasMaker(s, h))
    && (forall h: nat :: h < |s.headers| && s.headers[h].setUp && s.headers[h].locked ==> HasCrit(s, h))
    && (forall h: nat, i: nat :: h < |s.headers| && s.headers[h].setUp && i < |s.headers[h].slots|
                                 && s.headers[h].slots[i].isTaken ==>
          HasHolder(s, h, i))
  }

  /** If the locks of `s` are owned and pass on, those of `n` are owned. */
  lemma OwnedPassesOn(s: State, t: nat, n: State)
    requires Owned(s) && LocksPassOn(s, t, n)
    ensures Owned(n)
  {
    forall h: nat | h < |n.headers| && !n.headers[h].setUp ensures HasMaker(n, h) {
      if n.agents[t].Makes() != Some(h) {
        assert HasMaker(s, h);
        var u :| u in s.agents && s.agents[u].Makes() == Some(h);
        assert n.agents[u] == s.agents[u];
      }
    }
    forall h: nat | h < |n.headers| && n.headers[h].setUp && n.headers[h].locked ensures HasCrit(n, h) {
      if n.agents[t].Crit() != Some(h) {
        assert HasCrit(s, h);
        var u :| u in s.agents && s.agents[u].Crit() == Some(h);
        assert n.agents[u] == s.agents[u];
      }
    }
    forall h: nat, i: nat | h < |n.headers| && n.headers[h].setUp && i < |n.headers[h].slots|
                            && n.headers[h].slots[i].isTaken
      ensures HasHolder(n, h, i)
    {
      if n.agents[t].Held() != Some((h, i)) {
        assert HasHolder(s, h, i);
        var u :| u in s.agents && s.agents[u].Held() == Some((h, i));
        assert n.agents[u] == s.agents[u];
      }
    }
  }

  lemma InitOwned(s: State)
    requires Init(s)
    ensures Owned(s)
  {
    var t :| t in s.agents && s.agents[t] == SettingUp(0);
    assert s.agents[t].Makes() == Some(0);
    assert HasMaker(s, 0);
  }

  lemma NextOwned(states: seq<State>, moves: seq<Move>, k: nat)
    requires Run(states, moves) && k < |moves| && Owned(states[k])
    ensures Owned(states[k + 1])
  {
    RunInv(states, moves, k);
    assert Moved(states[k], moves[k], states[k + 1]);
    StepKeeps(states[k], moves[k].agent, moves[k].choice);
    OwnedPassesOn(states[k], moves[k].agent, states[k + 1]);
  }

  /** In every reachable state every lock that is taken has an owner, and every locator still to be set up a maker. */
  lemma {:induction false} RunOwned(states: seq<State>, moves: seq<Move>, k: nat)
    requires Run(states, moves) && k < |states|
    ensures Owned(states[k])
  {
    if k == 0 {
      InitOwned(states[0]);
    } else {
      RunOwned(states, moves, k - 1);
      NextOwned(states, moves, k - 1);
    }
  }

  /** How many of its own steps an agent is away from giving back its locator's lock. */
  function StepsToUnlock(p: Pc): nat {
    match p
    case RecheckFull(_, _) => 5
    case Allocating(_, _) => 4
    case Writing(_, _, _) => 3
    case Counting(_, _, _) => 2
    case UnlockRegistered(_, _, _) => 1
    case RecheckNext(_, _) => 4
    case Creating(_, _) => 3
    case Initializing(_, _) => 2
    case UnlockLinked(_, _, _) => 1
    case _ => 0
  }

  lemma CheckerMovesOn(s: State, u: nat, c: Choice)
    requires Possible(s, u, c) && (s.agents[u].RecheckFull? || s.agents[u].RecheckNext?)
    ensures var p, n := s.agents[u], After(s, u, c);
            u in n.agents && n.agents[u].Crit() == p.Crit() && StepsToUnlock(n.agents[u]) < StepsToUnlock(p) <= 5
  {
  }

  lemma AllocatorMovesOn(s: State, u: nat, c: Choice)
    requires Possible(s, u, c) && s.agents[u].Allocating?
    ensures var p, n := s.agents[u], After(s, u, c);
            u in n.agents && n.agents[u].Crit() == p.Crit() && StepsToUnlock(n.agents[u]) < StepsToUnlock(p) <= 5
  {
  }

  lemma CreatorMovesOn(s: State, u: nat, c: Choice)
    requires Possible(s, u, c) && s.agents[u].Creating?
    ensures var p, n := s.agents[u], After(s, u, c);
            u in n.agents && n.agents[u].Crit() == p.Crit() && StepsToUnlock(n.agents[u]) < StepsToUnlock(p) <= 5
  {
  }

  lemma WriterMovesOn(s: State, u: nat, c: Choice)
    requires Possible(s, u, c) && (s.agents[u].Writing? || s.agents[u].Counting?)
    ensures var p, n := s.agents[u], After(s, u, c);
            u in n.agents && n.agents[u].Crit() == p.Crit() && StepsToUnlock(n.agents[u]) < StepsToUnlock(p) <= 5
  {
  }

  lemma InitializerMovesOn(s: State, u: nat, c: Choice)
    requires Possible(s, u, c) && s.agents[u].Initializing?
    ensures var p, n := s.agents[u], After(s, u, c);
            u in n.agents && n.agents[u].Crit() == p.Crit() && StepsToUnlock(n.agents[u]) < StepsToUnlock(p) <= 5
  {
  }

  lemma UnlockerMovesOn(s: State, u: nat, c: Choice)
    requires Possible(s, u, c) && (s.agents[u].UnlockRegistered? || s.agents[u].UnlockLinked?)
    ensures var p, n := s.agents[u], After(s, u, c);
            u in n.agents && n.agents[u].Crit().None? && p.h < |n.headers| && !n.headers[p.h].locked
            && StepsToUnlock(n.agents[u]) == 0
  {
  }

  /** Whatever the system answers, a step of a lock's owner brings it closer to giving the lock back, and the last
      one does. */
  lemma OwnerMovesOn(s: State, u: nat, c: Choice)
    requires Possible(s, u, c) && s.agents[u].Crit().Some?
    ensures var p, n := s.agents[u], After(s, u, c);
      && u in n.agents && StepsToUnlock(n.agents[u]) < StepsToUnlock(p) <= 5
      && (n.agents[u].Crit().None? ==> p.h < |n.headers| && !n.headers[p.h].locked)
  {
    var p := s.agents[u];
    if p.Writing? || p.Counting? {
      WriterMovesOn(s, u, c);
    } else if p.Initializing? {
      InitializerMovesOn(s, u, c);
    } else if p.UnlockRegistered? || p.UnlockLinked? {
      UnlockerMovesOn(s, u, c);
    } else if p.Allocating? {
      AllocatorMovesOn(s, u, c);
    } else if p.Creating? {
      CreatorMovesOn(s, u, c);
    } else {
      CheckerMovesOn(s, u, c);
    }
  }

  /** The agent spins on the lock of its locator. */
  predicate Waits(s: State, p: Pc) {
    (p.LockToRegister? || p.LockToLink?) && p.h < |s.headers| && s.headers[p.h].locked
  }

  /** The agent has a next step that takes it on in the code. */
  ghost predicate CanMoveOn(s: State, t: nat) {
    exists c :: Enabled(s, t, c) && t in After(s, t, c).agents && After(s, t, c).agents[t] != s.agents[t]
  }

  /** The agent is about to enter a locator that is not set up, which a careful one does not. */
  predicate WaitsForSetUp(s: State, p: Pc, h: nat) {
    && 0 < |s.headers| && h < |s.headers| && !s.headers[h].setUp
    && ((p.Idle? && h == 0) || (p.FollowNext? && p.h < |s.headers| && s.headers[p.h].next == Some(h)))
  }

  /** What an agent can do next whatever the system answers. */
  function NextChoice(p: Pc): Choice {
    match p
    case Idle => Ask(BufferSearchSettings(0, 0, 0))
    case Allocating(_, _) => Refused
    case Creating(_, _) => Refused
    case Holding(_, _, _) => Drop
    case _ => Auto
  }

  lemma ChoiceMovesOn(s: State, t: nat)
    requires t in s.agents && Possible(s, t, NextChoice(s.agents[t])) && !Waits(s, s.agents[t])
    ensures var n := After(s, t, NextChoice(s.agents[t])); t in n.agents && n.agents[t] != s.agents[t]
  {
  }

  lemma MovesOn(s: State, t: nat)
    requires Inv(s) && t in s.agents && !Waits(s, s.agents[t]) && forall h: nat :: !WaitsForSetUp(s, s.agents[t], h)
    ensures CanMoveOn(s, t)
  {
    AgentIsReady(s, t);
    var p := s.agents[t];
    assert s.sys.IsWord(0);
    assert !WaitsForSetUp(s, p, if p.FollowNext? then s.headers[p.h].next.value else 0);
    assert Enabled(s, t, NextChoice(p));
    ChoiceMovesOn(s, t);
  }

  /** Somebody who can move on has the locator's lock. */
  ghost predicate OwnerCanMoveOn(s: State, h: nat) {
    exists u :: u in s.agents && s.agents[u].Crit() == Some(h) && CanMoveOn(s, u) && 0 < StepsToUnlock(s.agents[u]) <= 5
  }

  /** Somebody who can move on is about to set the locator up. */
  ghost predicate MakerCanMoveOn(s: State, h: nat) {
    exists u :: u in s.agents && s.agents[u].Makes() == Some(h) && CanMoveOn(s, u)
  }

  lemma WaitedFor(s: State, t: nat)
    requires Inv(s) && Owned(s) && t in s.agents && Waits(s, s.agents[t])
    ensures OwnerCanMoveOn(s, s.agents[t].h)
  {
    var p := s.agents[t];
    assert AgentOk(s, p) && HasCrit(s, p.h);
    var u :| u in s.agents && s.agents[u].Crit() == Some(p.h);
    MovesOn(s, u);
  }

  lemma MakerMovesOn(s: State, t: nat, h: nat)
    requires Inv(s) && Owned(s) && t in s.agents && WaitsForSetUp(s, s.agents[t], h)
    ensures MakerCanMoveOn(s, h)
  {
    assert HasMaker(s, h);
    var u :| u in s.agents && s.agents[u].Makes() == Some(h);
    MovesOn(s, u);
  }

  /** No agent is stuck: it can move on; or it waits for a lock whose owner can move on, and that gives
      the lock back within five steps of its own; or for a locator that another agent can set up now. */
  lemma NeverStuck(states: seq<State>, moves: seq<Move>, k: nat, t: nat)
    requires Run(states, moves) && k < |states| && t in states[k].agents
    ensures var s, p := states[k], states[k].agents[t];
      || CanMoveOn(s, t)
      || (Waits(s, p) && OwnerCanMoveOn(s, p.h))
      || exists h: nat :: WaitsForSetUp(s, p, h) && MakerCanMoveOn(s, h)
  {
    RunInv(states, moves, k);
    RunOwned(states, moves, k);
    var s, p := states[k], states[k].agents[t];
    if Waits(s, p) {
      WaitedFor(s, t);
    } else if exists h: nat :: WaitsForSetUp(s, p, h) {
      var h: nat :| WaitsForSetUp(s, p, h);
      MakerMovesOn(s, t, h);
    } else {
      MovesOn(s, t);
    }
  }
}
