/** What a request may rely on when others run at the same time. The room left in an item is read before its
    lock is tried, so it may have shrunk by the time the lock is taken; the limits on the place always hold. */
module ProtocolRace {
  import opened Machine
  import opened Settings
  import opened LocatorItems
  import opened LocatorHeaders
  import opened Alignment
  import opened Protocol
  import opened ProtocolInvariant
  import opened ProtocolSteps
  import opened ProtocolRuns

  /** Whoever holds an item can write only within the limits of its request. */
  lemma HeldWithinLimits(states: seq<State>, moves: seq<Move>, k: nat, t: nat)
    requires Run(states, moves) && k < |states| && t in states[k].agents && states[k].agents[t].Holding?
    ensures var s, p := states[k], states[k].agents[t];
      && p.h < |s.headers| && p.i < |s.headers[p.h].slots|
      && var v := s.headers[p.h].slots[p.i];
         p.want.minAddress <= v.baseAddress + v.position && v.baseAddress + v.size <= p.want.maxAddress
  {
    RunInv(states, moves, k);
    assert AgentOk(states[k], states[k].agents[t]);
  }

  lemma SlotsStay(s: State, u: nat, c: Choice, h: nat)
    requires Inv(s) && Enabled(s, u, c) && h < |s.headers| && s.headers[h].setUp
    requires var p := s.agents[u]; !p.Writing? && !p.TryItem? && !p.Holding? && !p.Copying?
    ensures h < |After(s, u, c).headers| && After(s, u, c).headers[h].slots == s.headers[h].slots
  {
    assert AgentOk(s, s.agents[u]);
  }

  lemma WrittenSlots(s: State, u: nat, c: Choice, h: nat)
    requires Inv(s) && Enabled(s, u, c) && h < |s.headers| && s.headers[h].setUp && s.agents[u].Writing?
    ensures h < |After(s, u, c).headers| && s.headers[h].slots <= After(s, u, c).headers[h].slots
  {
    assert AgentOk(s, s.agents[u]);
  }

  lemma TriedSlots(s: State, u: nat, c: Choice, h: nat, i: nat)
    requires Inv(s) && Enabled(s, u, c) && h < |s.headers| && s.headers[h].setUp && i < |s.headers[h].slots|
             && s.agents[u].TryItem?
    ensures var n := After(s, u, c);
      h < |n.headers| && i < |n.headers[h].slots| && n.headers[h].slots[i].position == s.headers[h].slots[i].position
  {
  }

  lemma HeldSlots(s: State, u: nat, c: Choice, h: nat, i: nat)
    requires Inv(s) && Enabled(s, u, c) && h < |s.headers| && s.headers[h].setUp && i < |s.headers[h].slots|
    requires (s.agents[u].Holding? || s.agents[u].Copying?) && s.agents[u].Held() != Some((h, i))
    ensures var n := After(s, u, c);
            h < |n.headers| && i < |n.headers[h].slots| && n.headers[h].slots[i] == s.headers[h].slots[i]
  {
  }

  /** Only the holder of an item moves its position. */
  lemma PositionMovesByHolder(s: State, u: nat, c: Choice, h: nat, i: nat)
    requires Inv(s) && Enabled(s, u, c) && h < |s.headers| && s.headers[h].setUp && i < |s.headers[h].slots|
             && s.agents[u].Held() != Some((h, i))
    ensures var n := After(s, u, c);
      h < |n.headers| && i < |n.headers[h].slots| && n.headers[h].slots[i].position == s.headers[h].slots[i].position
  {
    var p := s.agents[u];
    if p.Writing? {
      WrittenSlots(s, u, c, h);
    } else if p.TryItem? {
      TriedSlots(s, u, c, h, i);
    } else if p.Holding? || p.Copying? {
      HeldSlots(s, u, c, h, i);
    } else {
      SlotsStay(s, u, c, h);
    }
  }

  lemma OthersStay(s: State, u: nat, c: Choice, t: nat)
    requires Inv(s) && Enabled(s, u, c) && t in s.agents && t != u
    ensures t in After(s, u, c).agents && After(s, u, c).agents[t] == s.agents[t]
  {
    StepKeeps(s, u, c);
  }

  lemma NextWhileWaiting(states: seq<State>, moves: seq<Move>, k: nat, t: nat, h: nat, i: nat)
    requires Run(states, moves) && k < |moves| && moves[k].agent != t
    ensures CalmAt(states, moves, k, t, h, i)
  {
    RunInv(states, moves, k);
    NextGrows(states, moves, k);
    var s, m := states[k], moves[k];
    assert Moved(s, m, states[k + 1]);
    if t in s.agents {
      OthersStay(s, m.agent, m.choice, t);
    }
    if h < |s.headers| && s.headers[h].setUp && i < |s.headers[h].slots| {
      assert HeaderGrows(s.headers[h], states[k + 1].headers[h]);
      if s.agents[m.agent].Held() != Some((h, i)) {
        PositionMovesByHolder(s, m.agent, m.choice, h, i);
      }
    }
  }

  /** The move at `k` leaves agent `t` where it is, and the item's position too unless its holder moves. */
  ghost predicate CalmAt(states: seq<State>, moves: seq<Move>, k: nat, t: nat, h: nat, i: nat)
    requires k < |moves| && k + 1 < |states|
  {
    && (t in states[k].agents ==> t in states[k + 1].agents && states[k + 1].agents[t] == states[k].agents[t])
    && (h < |states[k].headers| && states[k].headers[h].setUp && i < |states[k].headers[h].slots| ==>
          && h < |states[k + 1].headers| && states[k + 1].headers[h].setUp && i < |states[k + 1].headers[h].slots|
          && (HeldByMover(states, moves, k, h, i)
              || states[k + 1].headers[h].slots[i].position == states[k].headers[h].slots[i].position))
  }

  lemma {:induction false} Calm(states: seq<State>, moves: seq<Move>, j: nat, k: nat, t: nat, h: nat, i: nat)
    requires |states| == |moves| + 1 && j <= k < |states| && t in states[j].agents
    requires h < |states[j].headers| && states[j].headers[h].setUp && i < |states[j].headers[h].slots|
    requires forall m: nat :: j <= m < k ==> CalmAt(states, moves, m, t, h, i)
    ensures t in states[k].agents && states[k].agents[t] == states[j].agents[t]
    ensures h < |states[k].headers| && states[k].headers[h].setUp && i < |states[k].headers[h].slots|
    ensures (exists m :: j <= m < k && HeldByMover(states, moves, m, h, i))
            || states[k].headers[h].slots[i].position == states[j].headers[h].slots[i].position
    decreases k
  {
    if j < k {
      Calm(states, moves, j, k - 1, t, h, i);
      assert CalmAt(states, moves, k - 1, t, h, i);
    }
  }

  /** An agent that does not move stays where it is; and if an item's position differs at the end,
      some agent moved while it held the item. */
  lemma WhileWaiting(states: seq<State>, moves: seq<Move>, j: nat, k: nat, t: nat, h: nat, i: nat)
    requires Run(states, moves) && j <= k < |states| && t in states[j].agents
    requires h < |states[j].headers| && states[j].headers[h].setUp && i < |states[j].headers[h].slots|
    requires forall m :: j <= m < k ==> moves[m].agent != t
    ensures t in states[k].agents && states[k].agents[t] == states[j].agents[t]
    ensures h < |states[k].headers| && states[k].headers[h].setUp && i < |states[k].headers[h].slots|
    ensures (exists m :: j <= m < k && HeldByMover(states, moves, m, h, i))
            || states[k].headers[h].slots[i].position == states[j].headers[h].slots[i].position
  {
    forall m: nat | j <= m < k ensures CalmAt(states, moves, m, t, h, i) {
      NextWhileWaiting(states, moves, m, t, h, i);
    }
    Calm(states, moves, j, k, t, h, i);
  }

  /** The agent that makes the move at `m` holds the item. */
  ghost predicate HeldByMover(states: seq<State>, moves: seq<Move>, m: nat, h: nat, i: nat)
    requires m < |states| && m < |moves|
  {
    moves[m].agent in states[m].agents && states[m].agents[moves[m].agent].Held() == Some((h, i))
  }

  /** Between the check of an item and its lock. The item served the request when it was checked. It still does when it
      is locked exactly if what has been used up since then does not exceed what was to spare at the check;
      and anything used up was used by other agents, while they held the item. */
  lemma LockedAsChecked(states: seq<State>, moves: seq<Move>, j: nat, k: nat)
    requires Run(states, moves) && j < k < |moves|
    requires var t := moves[j].agent;
      && moves[k].agent == t && (forall m :: j < m < k ==> moves[m].agent != t)
      && t in states[j].agents && states[j].agents[t].Scan?
      && t in states[j + 1].agents && states[j + 1].agents[t].TryItem?
      && t in states[k + 1].agents && states[k + 1].agents[t].Holding?
    ensures var p := states[j + 1].agents[moves[j].agent];
      && states[k + 1].agents[moves[j].agent] == Holding(p.want, p.h, p.i)
      && p.h < |states[j].headers| && p.i < |states[j].headers[p.h].slots|
      && p.h < |states[k + 1].headers| && p.i < |states[k + 1].headers[p.h].slots|
      && var checked, held := states[j].headers[p.h].slots[p.i], states[k + 1].headers[p.h].slots[p.i];
      && checked.Serves(p.want)
      && (held.Serves(p.want) <==> held.position - checked.position <= checked.BytesLeft() - p.want.size)
      && (held.position != checked.position ==>
           exists m :: j < m < k && moves[m].agent != moves[j].agent && HeldByMover(states, moves, m, p.h, p.i))
  {
    var t := moves[j].agent;
    var p := states[j + 1].agents[t];
    RunInv(states, moves, j);
    assert Moved(states[j], moves[j], states[j + 1]);
    Checked(states[j], t, moves[j].choice);
    WhileWaiting(states, moves, j + 1, k, t, p.h, p.i);
    RunInv(states, moves, k);
    assert Moved(states[k], moves[k], states[k + 1]);
    Taken(states[k], t, moves[k].choice);
    RunGrows(states, moves, j, k + 1);
    assert HeaderGrows(states[j].headers[p.h], states[k + 1].headers[p.h]);
  }

  /** Taking the lock of an item moves no position. */
  lemma Taken(s: State, t: nat, c: Choice)
    requires Inv(s) && Enabled(s, t, c) && s.agents[t].TryItem? && After(s, t, c).agents[t].Holding?
    ensures var p, n := s.agents[t], After(s, t, c);
      && n.agents[t] == Holding(p.want, p.h, p.i) && p.i < |s.headers[p.h].slots|
      && n.headers[p.h].slots == s.headers[p.h].slots[p.i := s.headers[p.h].slots[p.i].(isTaken := true)]
  {
  }

  /** The check that an item can be used means that it serves the request at that moment. */
  lemma Checked(s: State, t: nat, c: Choice)
    requires Inv(s) && Enabled(s, t, c) && s.agents[t].Scan? && After(s, t, c).agents[t].TryItem?
    ensures var p, q := s.agents[t], After(s, t, c).agents[t];
      && After(s, t, c).headers == s.headers
      && q.want == p.want && q.h == p.h < |s.headers| && s.headers[p.h].setUp
      && q.i == p.i < |s.headers[p.h].slots| && s.headers[p.h].slots[p.i].Serves(p.want)
  {
    var p := s.agents[t];
    assert AgentOk(s, p) && HeaderOk(s, p.h);
    assert SlotOk(s, p.h, p.i, s.headers[p.h].slots[p.i]);
    CanUseServes(s.sys, s.headers[p.h].slots[p.i], p.want);
  }

  const SYS := SysInfo(W64, Linux, 0x7FFF_FFFF_FFFF, 8192, 4096)
  const WANT := BufferSearchSettings(0, 0xFFFF_FFFF_FFFF_FFFF, 4096)

  /** One locator with one buffer, and two agents. */
  ghost predicate Two(s: State, p: Pc, q: Pc, v: LocatorItem) {
    && s.sys == SYS && s.agents == map[1 := p, 2 := q]
    && s.headers == [Header(65536, true, false, 1, [v], None)]
  }

  /** What a step does to its agent and to the buffer. */
  ghost function Local(r: Pc, c: Choice, v: LocatorItem): (Pc, LocatorItem)
  {
    match r
    case Idle => if c.Ask? then (Scan(c.want, 0, 0, 1), v) else (r, v)
    case Scan(want, h, i, final) => (TryItem(want, h, i, final), v)
    case TryItem(want, h, i, _) => (Holding(want, h, i), v.(isTaken := true))
    case Holding(want, h, i) =>
      if c.Append? then (Copying(want, h, i, v.position, c.data, 0), v) else (Idle, v.(isTaken := false))
    case Copying(want, h, i, at, data, done) =>
      if done < |data| then (Copying(want, h, i, at, data, done + 1), v) else (Holding(want, h, i), v.Advanced(|data|))
    case _ => (r, v)
  }

  ghost predicate CanMove(r: Pc, c: Choice, v: LocatorItem) {
    && (r.Idle? ==> c.Ask? && c.want.Words(SYS))
    && (!r.Idle? ==> r.h == 0)
    && match r
       case Idle => true
       case Scan(want, _, i, final) => c.Auto? && i == 0 && final == 1 && v.CanUse(SYS, want)
       case TryItem(_, _, i, final) => c.Auto? && i == 0 && final == 1 && !v.isTaken
       case Holding(_, _, i) => i == 0 && (c.Drop? || (c.Append? && |c.data| <= v.BytesLeft()))
       case Copying(_, _, i, _, _, _) => c.Auto? && i == 0
       case _ => false
  }

  lemma CanMoveIsEnabled(s: State, t: nat, c: Choice, p: Pc, q: Pc, v: LocatorItem)
    requires Two(s, p, q, v) && (t == 1 || t == 2) && CanMove(if t == 1 then p else q, c, v)
    ensures Enabled(s, t, c)
  {
  }

  lemma ReadOfTwo(s: State, t: nat, c: Choice, p: Pc, q: Pc, v: LocatorItem)
    requires Two(s, p, q, v) && (t == 1 || t == 2) && CanMove(if t == 1 then p else q, c, v) && Enabled(s, t, c)
    requires var r := if t == 1 then p else q; r.Idle? || r.Scan?
    ensures var (r, w) := Local(if t == 1 then p else q, c, v);
            Two(After(s, t, c), if t == 1 then r else p, if t == 2 then r else q, w)
  {
  }

  lemma WriteOfTwo(s: State, t: nat, c: Choice, p: Pc, q: Pc, v: LocatorItem)
    requires Two(s, p, q, v) && (t == 1 || t == 2) && CanMove(if t == 1 then p else q, c, v) && Enabled(s, t, c)
    requires var r := if t == 1 then p else q; r.TryItem? || r.Holding? || r.Copying?
    ensures var (r, w) := Local(if t == 1 then p else q, c, v);
            Two(After(s, t, c), if t == 1 then r else p, if t == 2 then r else q, w)
  {
    var (r, w) := Local(if t == 1 then p else q, c, v);
    assert [v][0 := w] == [w];
    assert After(s, t, c).headers == [Header(65536, true, false, 1, [w], None)];
  }

  lemma StepOfTwo(s: State, t: nat, c: Choice, p: Pc, q: Pc, v: LocatorItem)
    requires Two(s, p, q, v) && (t == 1 || t == 2) && CanMove(if t == 1 then p else q, c, v)
    ensures Enabled(s, t, c)
    ensures var (r, w) := Local(if t == 1 then p else q, c, v);
            Two(After(s, t, c), if t == 1 then r else p, if t == 2 then r else q, w)
  {
    CanMoveIsEnabled(s, t, c, p, q, v);
    var r := if t == 1 then p else q;
    if r.Idle? || r.Scan? {
      ReadOfTwo(s, t, c, p, q, v);
    } else {
      WriteOfTwo(s, t, c, p, q, v);
    }
  }

  ghost predicate RunOfTwo(states: seq<State>, moves: seq<Move>, p: Pc, q: Pc, v: LocatorItem) {
    Run(states, moves) && Two(states[|moves|], p, q, v)
  }

  /** A run with one more step. */
  lemma Extend(states: seq<State>, moves: seq<Move>, t: nat, c: Choice, p: Pc, q: Pc, v: LocatorItem)
    returns (states': seq<State>, moves': seq<Move>)
    requires RunOfTwo(states, moves, p, q, v) && (t == 1 || t == 2) && CanMove(if t == 1 then p else q, c, v)
    ensures var (r, w) := Local(if t == 1 then p else q, c, v);
            RunOfTwo(states', moves', if t == 1 then r else p, if t == 2 then r else q, w)
  {
    var s := states[|moves|];
    StepOfTwo(s, t, c, p, q, v);
    states', moves' := states + [After(s, t, c)], moves + [Move(t, c)];
    forall i | 0 <= i < |moves'| ensures Moved(states'[i], moves'[i], states'[i + 1]) {
      if i < |moves| {
        assert Moved(states[i], moves[i], states[i + 1]);
      }
    }
  }

  /** The first agent is about to set up the locator. */
  const START := State(SYS, [Zeros(65536)], map[1 := SettingUp(0), 2 := Idle],
                       ClaimLocator(map[], 65536, 8192, 0), map[], [])

  lemma StartIsInit()
    ensures Init(START)
  {
    assert START.agents[1] == SettingUp(0);
  }

  lemma NewHeaderOfStart()
    ensures NewHeader(SYS, 65536) == Header(65536, true, false, 1, [NewItem(69632, 4096)], None)
  {
    assert Chunks(69632, 4096) == [NewItem(69632, 4096)];
  }

  /** The first agent sets up the locator. */
  lemma Start() returns (states: seq<State>, moves: seq<Move>)
    ensures RunOfTwo(states, moves, Idle, Idle, NewItem(69632, 4096))
  {
    StartIsInit();
    NewHeaderOfStart();
    states, moves := [START, After(START, 1, Auto)], [Move(1, Auto)];
    assert [Zeros(65536)][0 := NewHeader(SYS, 65536)] == [NewHeader(SYS, 65536)];
  }

  /** The first agent checks the item, and then the second one takes it. */
  lemma BothCheck(want: BufferSearchSettings) returns (states: seq<State>, moves: seq<Move>)
    requires want.Words(SYS) && NewItem(69632, 4096).CanUse(SYS, want)
    ensures RunOfTwo(states, moves, TryItem(want, 0, 0, 1), Holding(want, 0, 0), NewItem(69632, 4096).(isTaken := true))
  {
    var scan, check, free := Scan(want, 0, 0, 1), TryItem(want, 0, 0, 1), NewItem(69632, 4096);
    states, moves := Start();
    states, moves := Extend(states, moves, 1, Ask(want), Idle, Idle, free);
    states, moves := Extend(states, moves, 1, Auto, scan, Idle, free);
    states, moves := Extend(states, moves, 2, Ask(want), check, Idle, free);
    states, moves := Extend(states, moves, 2, Auto, check, scan, free);
    states, moves := Extend(states, moves, 2, Auto, check, check, free);
  }

  /** The second agent finishes an append. */
  lemma CopyAll(states: seq<State>, moves: seq<Move>, p: Pc, want: BufferSearchSettings, data: seq<bv8>, done: nat,
                v: LocatorItem)
    returns (states': seq<State>, moves': seq<Move>)
    requires done <= |data| && RunOfTwo(states, moves, p, Copying(want, 0, 0, 0, data, done), v)
    ensures RunOfTwo(states', moves', p, Holding(want, 0, 0), v.Advanced(|data|))
    decreases |data| - done
  {
    states', moves' := Extend(states, moves, 2, Auto, p, Copying(want, 0, 0, 0, data, done), v);
    if done < |data| {
      states', moves' := CopyAll(states', moves', p, want, data, done + 1, v);
    }
  }

  /** The first agent checks the item; the second takes it, appends some data and gives it back; the first takes it. */
  lemma Overtaken(want: BufferSearchSettings, data: seq<bv8>) returns (states: seq<State>, moves: seq<Move>)
    requires want.Words(SYS) && NewItem(69632, 4096).CanUse(SYS, want) && |data| <= 4096
    ensures RunOfTwo(states, moves, Holding(want, 0, 0), Idle, LocatorItem(69632, 4096, |data|, true))
  {
    var check, hold, v := TryItem(want, 0, 0, 1), Holding(want, 0, 0), LocatorItem(69632, 4096, 0, true);
    states, moves := BothCheck(want);
    states, moves := Extend(states, moves, 2, Append(data), check, hold, v);
    states, moves := CopyAll(states, moves, check, want, data, 0, v);
    states, moves := Extend(states, moves, 2, Drop, check, hold, v.Advanced(|data|));
    states, moves := Extend(states, moves, 1, Auto, check, Idle, v.Advanced(|data|).(isTaken := false));
  }

  /** A run in which a request for 4096 bytes is given an item that has only 4095 left. */
  lemma RoomMayShrink() returns (states: seq<State>, moves: seq<Move>)
    ensures Run(states, moves) && |states[|moves|].headers| == 1 && |states[|moves|].headers[0].slots| == 1
    ensures var s := states[|moves|]; 1 in s.agents && s.agents[1] == Holding(WANT, 0, 0)
    ensures states[|moves|].headers[0].slots[0].BytesLeft() == 4095 < WANT.size
  {
    states, moves := Overtaken(WANT, [7]);
  }

  /** So an append of just the bytes that were asked for need not fit. */
  lemma AppendOfRequestMayOverrun() returns (states: seq<State>, moves: seq<Move>, data: seq<bv8>)
    ensures Run(states, moves)
    ensures var s := states[|moves|];
      && Possible(s, 1, Append(data)) && s.agents[1] == Holding(WANT, 0, 0) && |data| == WANT.size
      && !Careful(s, 1, Append(data))
  {
    states, moves := Overtaken(WANT, [7]);
    data := seq(4096, _ => 7);
  }

  // Aligned requests under the same race.

  /** One byte at a multiple of five, as it is searched for. */
  const WANT_ALIGNED := Enlarged(BufferSearchSettings(0, 0xFFFF_FFFF_FFFF_FFFF, 1), 5)

  lemma MoveLeaves(s: State)
    requires Two(s, Holding(WANT_ALIGNED, 0, 0), Idle, LocatorItem(69632, 4096, 4095, true))
    ensures Possible(s, 1, Align(5)) && !Careful(s, 1, Align(5))
    ensures var n := After(s, 1, Align(5));
            |n.headers| == 1 && |n.headers[0].slots| == 1 && n.headers[0].slots[0].size == 4096
            && n.headers[0].slots[0].position == 4098
  {
  }

  /** A run in which an aligned request finds room for its enlarged size, and by the time it holds the item
      a step that the code takes without a check would move the position two bytes past the end. */
  lemma AlignedMoveMayLeave() returns (states: seq<State>, moves: seq<Move>)
    ensures Run(states, moves)
    ensures var s := states[|moves|];
      && Possible(s, 1, Align(5)) && s.agents[1] == Holding(WANT_ALIGNED, 0, 0) && !Careful(s, 1, Align(5))
      && var n := After(s, 1, Align(5));
         |n.headers| == 1 && |n.headers[0].slots| == 1 && n.headers[0].slots[0].size == 4096
         && n.headers[0].slots[0].position == 4098
  {
    states, moves := Overtaken(WANT_ALIGNED, seq(4095, _ => 7));
    MoveLeaves(states[|moves|]);
  }

  /** The move, exactly: in any interleaving it leaves the item in order if and only if the next aligned address
      lies in its buffer. */
  lemma AlignedMoveExact(states: seq<State>, moves: seq<Move>, k: nat, t: nat, alignment: nat)
    requires Run(states, moves) && k < |states|
    requires Possible(states[k], t, Align(alignment)) && states[k].agents[t].Holding?
    ensures var s, p, n := states[k], states[k].agents[t], After(states[k], t, Align(alignment));
      && p.h < |n.headers| && p.i < |n.headers[p.h].slots|
      && var v, w := s.headers[p.h].slots[p.i], n.headers[p.h].slots[p.i];
         v.position <= w.position <= w.size <==> AlignsInside(v, alignment)
  {
    RunInv(states, moves, k);
    var s, p := states[k], states[k].agents[t];
    assert AgentOk(s, p) && HeaderOk(s, p.h) && SlotOk(s, p.h, p.i, s.headers[p.h].slots[p.i]);
    AlignedItemExact(s.sys, s.headers[p.h].slots[p.i], alignment);
  }

  /** Every power of two up to the documented maximum is safe in every interleaving, however much room the race has
      taken, because all buffers end where pages do. */
  lemma RegularMoveIsSafe(states: seq<State>, moves: seq<Move>, k: nat, t: nat, alignment: nat)
    requires Run(states, moves) && k < |states| && Regular(alignment)
    requires Possible(states[k], t, Align(alignment)) && states[k].agents[t].Holding?
    ensures var p := states[k].agents[t]; AlignsInside(states[k].headers[p.h].slots[p.i], alignment)
    ensures Inv(After(states[k], t, Align(alignment)))
  {
    RunInv(states, moves, k);
    var s, p := states[k], states[k].agents[t];
    assert AgentOk(s, p) && HeaderOk(s, p.h) && SlotOk(s, p.h, p.i, s.headers[p.h].slots[p.i]);
    RegularStaysInside(s.headers[p.h].slots[p.i], alignment);
    StepKeeps(s, t, Align(alignment));
  }

  /** What the code does not check is exactly what the promises need: a step that the code can take keeps the
      invariant and leaves everything shared in its place if and only if it is careful. */
  lemma CareIsExact(s: State, t: nat, c: Choice)
    requires Inv(s) && Possible(s, t, c)
    ensures Inv(After(s, t, c)) && Grows(s, After(s, t, c)) <==> Careful(s, t, c)
  {
    if Careful(s, t, c) {
      StepKeeps(s, t, c);
    }
    if Inv(After(s, t, c)) && Grows(s, After(s, t, c)) {
      if s.agents[t].Holding? && c.Align? {
        AlignNeedsCare(s, t, c);
      } else if s.agents[t].Holding? && c.Append? {
        AppendNeedsCare(s, t, c);
      } else if s.agents[t].Idle? || s.agents[t].FollowNext? {
        EntryNeedsCare(s, t, c);
      }
    }
  }

  lemma AlignNeedsCare(s: State, t: nat, c: Choice)
    requires Inv(s) && Possible(s, t, c) && s.agents[t].Holding? && c.Align?
    requires Inv(After(s, t, c)) && Grows(s, After(s, t, c))
    ensures Careful(s, t, c)
  {
    var n, p := After(s, t, c), s.agents[t];
    assert HeaderOk(s, p.h) && HeaderGrows(s.headers[p.h], n.headers[p.h]) && HeaderOk(n, p.h);
    assert AgentOk(s, p);
    var v, w := s.headers[p.h].slots[p.i], n.headers[p.h].slots[p.i];
    assert SlotOk(s, p.h, p.i, v) && SlotOk(n, p.h, p.i, w) && SameBuffer(v, w);
    AlignedItemExact(s.sys, v, c.alignment);
  }

  lemma EntryNeedsCare(s: State, t: nat, c: Choice)
    requires Inv(s) && Possible(s, t, c) && (s.agents[t].Idle? || s.agents[t].FollowNext?) && Inv(After(s, t, c))
    ensures Careful(s, t, c)
  {
    assert AgentOk(After(s, t, c), After(s, t, c).agents[t]);
  }

  lemma AppendNeedsCare(s: State, t: nat, c: Choice)
    requires Inv(s) && Possible(s, t, c) && s.agents[t].Holding? && c.Append? && Inv(After(s, t, c))
    ensures Careful(s, t, c)
  {
    assert AgentOk(After(s, t, c), After(s, t, c).agents[t]);
  }

  // A locator that is entered before it is set up.

  /** A run of the code of which only the first move may be careless. */
  ghost predicate LooseRun(states: seq<State>, moves: seq<Move>) {
    && |states| == |moves| + 1 && Init(states[0])
    && forall i :: 0 <= i < |moves| ==> LooselyMoved(states[i], moves[i], states[i + 1], i)
  }

  ghost predicate LooselyMoved(s: State, m: Move, n: State, i: nat) {
    && Possible(s, m.agent, m.choice) && n == After(s, m.agent, m.choice)
    && (0 < i ==> Careful(s, m.agent, m.choice))
  }

  lemma Go(states: seq<State>, moves: seq<Move>, t: nat, c: Choice) returns (states': seq<State>, moves': seq<Move>)
    requires LooseRun(states, moves) && Possible(states[|moves|], t, c)
             && (0 < |moves| ==> Careful(states[|moves|], t, c))
    ensures LooseRun(states', moves') && states'[|moves'|] == After(states[|moves|], t, c)
    ensures states <= states' && moves <= moves' && |moves'| == |moves| + 1
  {
    states', moves' := states + [After(states[|moves|], t, c)], moves + [Move(t, c)];
    forall i | 0 <= i < |moves'| ensures LooselyMoved(states'[i], moves'[i], states'[i + 1], i) {
      if i < |moves| {
        assert LooselyMoved(states[i], moves[i], states[i + 1], i);
      }
    }
  }

  /** Where the two agents are, and what the one locator contains. */
  ghost predicate At(s: State, p: Pc, q: Pc, header: Header) {
    && s.sys == SYS && s.headers == [header] && s.agents == map[1 := p, 2 := q]
    && (s.owner == ClaimLocator(map[], 65536, 8192, 0) || !q.Allocating?)
  }

  /** The first move of the run enters the locator before it is set up. */
  ghost predicate EntersEarly(states: seq<State>, moves: seq<Move>) {
    |moves| > 0 && |states| > 0 && states[0] == START && moves[0] == Move(2, Ask(WANT))
  }

  lemma EntryIsCareless()
    ensures Possible(START, 2, Ask(WANT)) && !Careful(START, 2, Ask(WANT))
  {
  }

  const FRESH := LocatorItem(131072, 4096, 0, true)

  /** The second agent reads the locator. */
  lemma ReadsZeros(s: State, p: Pc, c: Choice, a: Header, q: Pc)
    requires At(s, SettingUp(0), p, a) && a.num == 0
    requires
      || (p.Idle? && c == Ask(WANT) && q == Scan(WANT, 0, 0, 0))
      || (p == Scan(WANT, 0, 0, 0) && c.Auto? && q == CheckFull(WANT, 0))
      || (p == CheckFull(WANT, 0) && c.Auto? && q == LockToRegister(WANT, 0))
      || (p == RecheckFull(WANT, 0) && c.Auto? && q == Allocating(WANT, 0) && s.owner == START.owner)
    ensures Possible(s, 2, c) && (!p.Idle? ==> Careful(s, 2, c))
    ensures At(After(s, 2, c), SettingUp(0), q, a) && After(s, 2, c).owner == s.owner
  {
  }

  /** The second agent writes to the locator. */
  lemma WritesZeros(s: State, p: Pc, a: Header, q: Pc, b: Header)
    requires At(s, SettingUp(0), p, a)
    requires
      || (p == LockToRegister(WANT, 0) && !a.locked && q == RecheckFull(WANT, 0) && b == a.(locked := true))
      || (p == Writing(WANT, 0, FRESH) && a.num == |a.slots| == 0 && q == Counting(WANT, 0, 0)
          && b == a.(slots := [FRESH]))
      || (p == Counting(WANT, 0, 0) && q == UnlockRegistered(WANT, 0, Registered(0)) && b == a.(num := a.num + 1))
      || (p == UnlockRegistered(WANT, 0, Registered(0)) && q == Holding(WANT, 0, 0) && b == a.(locked := false))
    ensures Possible(s, 2, Auto) && Careful(s, 2, Auto)
    ensures At(After(s, 2, Auto), SettingUp(0), q, b) && After(s, 2, Auto).owner == s.owner
  {
    assert a.slots == [] ==> a.slots + [FRESH] == [FRESH];
  }

  lemma AllocatesForZeros(s: State, a: Header)
    requires At(s, SettingUp(0), Allocating(WANT, 0), a)
    ensures Possible(s, 2, Given(131072, 4096)) && Careful(s, 2, Given(131072, 4096))
    ensures At(After(s, 2, Given(131072, 4096)), SettingUp(0), Writing(WANT, 0, FRESH), a)
  {
  }

  /** The second agent enters a locator that contains zeros. */
  lemma LooksAtZeros() returns (states: seq<State>, moves: seq<Move>)
    ensures LooseRun(states, moves) && EntersEarly(states, moves)
    ensures At(states[|moves|], SettingUp(0), CheckFull(WANT, 0), Zeros(65536)) && states[|moves|].owner == START.owner
  {
    StartIsInit();
    ReadsZeros(START, Idle, Ask(WANT), Zeros(65536), Scan(WANT, 0, 0, 0));
    states, moves := Go([START], [], 2, Ask(WANT));
    ReadsZeros(states[|moves|], Scan(WANT, 0, 0, 0), Auto, Zeros(65536), CheckFull(WANT, 0));
    states, moves := Go(states, moves, 2, Auto);
  }

  /** It locks it. */
  lemma EntersZeros() returns (states: seq<State>, moves: seq<Move>)
    ensures LooseRun(states, moves) && EntersEarly(states, moves)
    ensures At(states[|moves|], SettingUp(0), RecheckFull(WANT, 0), Zeros(65536).(locked := true))
    ensures states[|moves|].owner == START.owner
  {
    var zeros := Zeros(65536);
    states, moves := LooksAtZeros();
    ReadsZeros(states[|moves|], CheckFull(WANT, 0), Auto, zeros, LockToRegister(WANT, 0));
    states, moves := Go(states, moves, 2, Auto);
    WritesZeros(states[|moves|], LockToRegister(WANT, 0), zeros, RecheckFull(WANT, 0), zeros.(locked := true));
    states, moves := Go(states, moves, 2, Auto);
  }

  /** It registers an item in the first slot and holds it. */
  lemma RegistersInZeros() returns (states: seq<State>, moves: seq<Move>)
    ensures LooseRun(states, moves) && EntersEarly(states, moves)
    ensures At(states[|moves|], SettingUp(0), Holding(WANT, 0, 0), Header(65536, false, false, 1, [FRESH], None))
  {
    var locked := Zeros(65536).(locked := true);
    states, moves := EntersZeros();
    ReadsZeros(states[|moves|], RecheckFull(WANT, 0), Auto, locked, Allocating(WANT, 0));
    states, moves := Go(states, moves, 2, Auto);
    AllocatesForZeros(states[|moves|], locked);
    states, moves := Go(states, moves, 2, Given(131072, 4096));
    WritesZeros(states[|moves|], Writing(WANT, 0, FRESH), locked, Counting(WANT, 0, 0), locked.(slots := [FRESH]));
    states, moves := Go(states, moves, 2, Auto);
    WritesZeros(states[|moves|], Counting(WANT, 0, 0), locked.(slots := [FRESH]),
                UnlockRegistered(WANT, 0, Registered(0)), locked.(slots := [FRESH], num := 1));
    states, moves := Go(states, moves, 2, Auto);
    WritesZeros(states[|moves|], UnlockRegistered(WANT, 0, Registered(0)), locked.(slots := [FRESH], num := 1),
                Holding(WANT, 0, 0), Zeros(65536).(slots := [FRESH], num := 1));
    states, moves := Go(states, moves, 2, Auto);
  }

  const SETUP := Header(65536, true, false, 1, [NewItem(69632, 4096)], None)

  /** The first agent sets the locator up, and then makes a request. */
  lemma SetsUp(s: State, a: Header)
    requires At(s, SettingUp(0), Holding(WANT, 0, 0), a) && a.address == 65536
    ensures Possible(s, 1, Auto) && Careful(s, 1, Auto) && At(After(s, 1, Auto), Idle, Holding(WANT, 0, 0), SETUP)
  {
    NewHeaderOfStart();
    assert [a][0 := SETUP] == [SETUP];
  }

  lemma Searches(s: State, p: Pc, c: Choice, q: Pc)
    requires At(s, p, Holding(WANT, 0, 0), SETUP)
    requires (p.Idle? && c == Ask(WANT) && q == Scan(WANT, 0, 0, 1))
             || (p == Scan(WANT, 0, 0, 1) && c.Auto? && q == TryItem(WANT, 0, 0, 1))
    ensures Possible(s, 1, c) && Careful(s, 1, c) && At(After(s, 1, c), q, Holding(WANT, 0, 0), SETUP)
  {
  }

  lemma TakesOverwritten(s: State)
    requires At(s, TryItem(WANT, 0, 0, 1), Holding(WANT, 0, 0), SETUP)
    ensures Possible(s, 1, Auto) && Careful(s, 1, Auto)
    ensures After(s, 1, Auto).agents == map[1 := Holding(WANT, 0, 0), 2 := Holding(WANT, 0, 0)]
  {
  }

  /** The first agent finds the slot free. */
  lemma FindsOverwritten() returns (states: seq<State>, moves: seq<Move>)
    ensures LooseRun(states, moves) && EntersEarly(states, moves)
    ensures At(states[|moves|], TryItem(WANT, 0, 0, 1), Holding(WANT, 0, 0), SETUP)
  {
    states, moves := RegistersInZeros();
    SetsUp(states[|moves|], Header(65536, false, false, 1, [FRESH], None));
    states, moves := Go(states, moves, 1, Auto);
    Searches(states[|moves|], Idle, Ask(WANT), Scan(WANT, 0, 0, 1));
    states, moves := Go(states, moves, 1, Ask(WANT));
    Searches(states[|moves|], Scan(WANT, 0, 0, 1), Auto, TryItem(WANT, 0, 0, 1));
    states, moves := Go(states, moves, 1, Auto);
  }

  /** If an agent enters the first locator before it is set up, its item is overwritten, and another agent can take
      the same slot: a run in which only the entry was careless, and two agents hold one item. */
  lemma EnteredTooEarly() returns (states: seq<State>, moves: seq<Move>)
    ensures LooseRun(states, moves) && EntersEarly(states, moves)
    ensures !Careful(states[0], 2, Ask(WANT))
    ensures states[|moves|].agents == map[1 := Holding(WANT, 0, 0), 2 := Holding(WANT, 0, 0)]
  {
    EntryIsCareless();
    states, moves := FindsOverwritten();
    TakesOverwritten(states[|moves|]);
    states, moves := Go(states, moves, 1, Auto);
  }
}
