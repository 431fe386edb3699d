/** How the threads of one process find the first locator: a cached address, a global lock, and,
    unless the build is private, a memory-mapped file that stores where the locator lies. */
module Finder {
  import opened Machine

  datatype Mode = Shared | Private

  /** Where a thread is in its call. */
  datatype Pc =
    | CheckCache
    | ReadCache
    | Waiting
    | Opening
    | Creating
    | Caching(address: nat)
    | Initializing(address: nat)
    | ReadingStored
    | ReadResult
    | Unlocking(result: nat)
    | Done(result: nat)
  {
    /** Between taking the global lock and giving it back. */
    predicate Inside() {
      Opening? || Creating? || Caching? || Initializing? || ReadingStored? || ReadResult? || Unlocking?
    }
  }

  /** `cached` is the static address, null at first; `stored` is the address in the file, if there is a
      file. `made` lists the locators created, `makers` who created them, `ready` those that are initialised, and
      `misses` who found no cached address. */
  datatype State = State(mode: Mode, cached: nat, locked: bool, stored: Option<nat>, threads: map<nat, Pc>,
                         made: seq<nat>, makers: seq<nat>, ready: set<nat>, misses: set<nat>)
  {
    function Go(t: nat, p: Pc): State {
      this.(threads := threads[t := p])
    }
  }

  /** `place` is where a new mapping or allocation comes to lie, when the step makes one. */
  ghost predicate Enabled(s: State, t: nat, place: nat) {
    t in s.threads && !s.threads[t].Done? && (s.threads[t].Creating? ==> place != 0 && place !in s.made)
  }

  ghost function After(s: State, t: nat, place: nat): State
    requires Enabled(s, t, place)
  {
    match s.threads[t]
    case CheckCache =>
      if s.cached != 0 then s.Go(t, ReadCache) else s.(misses := s.misses + {t}).Go(t, Waiting)
    case ReadCache => s.Go(t, Done(s.cached))
    case Waiting =>
      if s.locked then s else s.(locked := true).Go(t, if s.mode == Shared then Opening else Creating)
    case Opening => s.Go(t, if s.stored.Some? then ReadingStored else Creating)
    case Creating =>
      s.(stored := if s.mode == Shared then Some(0) else s.stored, made := s.made + [place], makers := s.makers + [t])
       .Go(t, Caching(place))
    case Caching(a) => s.(cached := a).Go(t, Initializing(a))
    case Initializing(a) =>
      s.(stored := if s.mode == Shared then Some(a) else s.stored, ready := s.ready + {a}).Go(t, ReadResult)
    case ReadingStored => s.(cached := if s.stored.Some? then s.stored.value else 0).Go(t, ReadResult)
    case ReadResult => s.Go(t, Unlocking(s.cached))
    case Unlocking(r) => s.(locked := false).Go(t, Done(r))
    case Done(_) => s
  }

  /** Nothing cached and no call begun; `stale` is the address in a file left by an earlier process, if there is one. */
  ghost predicate Init(s: State, stale: Option<nat>) {
    && s.cached == 0 && !s.locked && s.stored == stale && s.made == [] && s.makers == [] && s.ready == {}
    && s.misses == {}
    && forall t :: t in s.threads ==> s.threads[t] == CheckCache
  }

  ghost predicate Run(states: seq<State>, moves: seq<(nat, nat)>, stale: Option<nat>) {
    && |states| == |moves| + 1 && Init(states[0], stale)
    && forall i :: 0 <= i < |moves| ==> Moved(states[i], moves[i], states[i + 1])
  }

  ghost predicate Moved(s: State, m: (nat, nat), n: State) {
    Enabled(s, m.0, m.1) && n == After(s, m.0, m.1)
  }

  /** The address all calls agree on: that of a stale file, else that of the one locator created. */
  ghost function Agreed(made: seq<nat>, stale: Option<nat>): nat {
    if stale.Some? then stale.value else if |made| > 0 then made[0] else 0
  }

  /** The global lock works. */
  ghost predicate OneInside(s: State) {
    && (forall t :: t in s.threads && s.threads[t].Inside() ==> s.locked)
    && (forall t, u :: t in s.threads && u in s.threads && t != u ==> !(s.threads[t].Inside() && s.threads[u].Inside()))
  }

  lemma OneInsideStep(s: State, t: nat, place: nat)
    requires OneInside(s) && Enabled(s, t, place)
    ensures OneInside(After(s, t, place))
  {
    var n := After(s, t, place);
    forall u, v | u in n.threads && v in n.threads && u != v ensures !(n.threads[u].Inside() && n.threads[v].Inside()) {
      assert !(s.threads[u].Inside() && s.threads[v].Inside());
    }
  }

  /** What is known about a thread inside or behind the global lock, in the shared mode. */
  ghost predicate SharedThreadOk(s: State, p: Pc, stale: Option<nat>) {
    var a := Agreed(s.made, stale);
    && (p.Opening? || p.ReadingStored? || p.ReadResult? || p.Unlocking? ==> s.stored.Some? ==> s.stored == Some(a))
    && (p.ReadingStored? || p.ReadResult? || p.Unlocking? || p.Done? ==> s.stored.Some?)
    && (p.Creating? ==> s.stored.None?)
    && (p.Caching? || p.Initializing? ==> stale.None? && s.stored.Some? && p.address == a)
    && (p.Initializing? || p.ReadResult? || p.Unlocking? || p.ReadCache? ==> s.cached == a)
    && (p.Unlocking? || p.Done? ==> p.result == a)
    && (p.ReadCache? ==> s.stored.Some?)
  }

  ghost predicate SharedInv(s: State, stale: Option<nat>) {
    && s.mode == Shared
    && (stale.Some? ==> s.made == [] && s.stored == stale)
    && (stale.None? ==> |s.made| == (if s.stored.Some? then 1 else 0) && forall a :: a in s.made ==> a != 0)
    && (s.cached == 0 || (s.stored.Some? && s.cached == Agreed(s.made, stale)))
    && (!s.locked && s.stored.Some? ==> s.stored == Some(Agreed(s.made, stale)))
    && (forall t :: t in s.threads ==> SharedThreadOk(s, s.threads[t], stale))
    && OneInside(s)
  }

  lemma OtherSharedThread(s: State, t: nat, place: nat, stale: Option<nat>, u: nat)
    requires SharedInv(s, stale) && Enabled(s, t, place) && u in s.threads && u != t
    ensures SharedThreadOk(After(s, t, place), s.threads[u], stale)
  {
    assert SharedThreadOk(s, s.threads[t], stale) && SharedThreadOk(s, s.threads[u], stale);
    assert !(s.threads[t].Inside() && s.threads[u].Inside());
  }

  lemma SharedStep(s: State, t: nat, place: nat, stale: Option<nat>)
    requires SharedInv(s, stale) && Enabled(s, t, place)
    ensures SharedInv(After(s, t, place), stale)
  {
    var n := After(s, t, place);
    assert SharedThreadOk(s, s.threads[t], stale);
    forall u | u in n.threads ensures SharedThreadOk(n, n.threads[u], stale) {
      if u != t {
        OtherSharedThread(s, t, place, stale, u);
      }
    }
    OneInsideStep(s, t, place);
  }

  lemma {:induction false} SharedRun(states: seq<State>, moves: seq<(nat, nat)>, stale: Option<nat>, k: nat)
    requires Run(states, moves, stale) && states[0].mode == Shared && k < |states|
    ensures SharedInv(states[k], stale)
  {
    if k > 0 {
      SharedRun(states, moves, stale, k - 1);
      assert Moved(states[k - 1], moves[k - 1], states[k]);
      SharedStep(states[k - 1], moves[k - 1].0, moves[k - 1].1, stale);
    }
  }

  /** In the shared mode all calls return the same address, whichever threads make them in whichever order, and at
      most one locator is created: the returned one, unless a stale file was there; then its address is returned. */
  lemma FindsAgree(states: seq<State>, moves: seq<(nat, nat)>, stale: Option<nat>, k: nat, t: nat, u: nat)
    requires Run(states, moves, stale) && states[0].mode == Shared && k < |states|
    requires t in states[k].threads && u in states[k].threads && states[k].threads[t].Done?
             && states[k].threads[u].Done?
    ensures var s := states[k];
      && s.threads[t].result == s.threads[u].result && |s.made| <= 1
      && (stale.None? ==> s.made == [s.threads[t].result] && s.threads[t].result != 0)
      && (stale.Some? ==> s.made == [] && s.threads[t].result == stale.value)
  {
    SharedRun(states, moves, stale, k);
    assert SharedThreadOk(states[k], states[k].threads[t], stale)
           && SharedThreadOk(states[k], states[k].threads[u], stale);
    assert stale.None? ==> states[k].made[0] in states[k].made;
  }

  // The private mode: the cache is not checked again under the lock.

  /** Whoever made the locator at `a` goes on to return it. */
  ghost predicate Returns(s: State, p: Pc, a: nat) {
    match p
    case Caching(b) => b == a
    case Initializing(b) => b == a && s.cached == a
    case ReadResult => s.cached == a
    case Unlocking(b) => b == a
    case Done(b) => b == a
    case _ => false
  }

  ghost predicate PrivateThreadOk(s: State, t: nat) {
    var p := if t in s.threads then s.threads[t] else CheckCache;
    && !p.Opening? && !p.ReadingStored?
    && (p.ReadCache? ==> s.cached != 0)
    && (p.Done? ==> p.result in s.made)
    && (p.Waiting? || p.Creating? || p.Inside() ==> t in s.misses)
    && (p.Waiting? || p.Creating? || p.CheckCache? || p.ReadCache? ==> t !in s.makers)
    && (t in s.misses && !p.Waiting? && !p.Creating? ==> t in s.makers)
    && (t in s.makers ==> t in s.misses && t in s.threads)
    && (t in s.misses ==> !p.CheckCache? && !p.ReadCache?)
  }

  ghost predicate PrivateInv(s: State) {
    && s.mode == Private && |s.makers| == |s.made|
    && (s.cached == 0 || s.cached in s.made)
    && (forall i, j :: 0 <= i < j < |s.made| ==> s.made[i] != s.made[j] && s.makers[i] != s.makers[j])
    && (forall i :: 0 <= i < |s.made| ==>
         s.makers[i] in s.threads && s.made[i] != 0 && Returns(s, s.threads[s.makers[i]], s.made[i]))
    && (forall t :: t in s.threads || t in s.misses || t in s.makers ==> t in s.threads && PrivateThreadOk(s, t))
    && OneInside(s)
  }

  lemma MakersDiffer(s: State, t: nat, place: nat)
    requires PrivateInv(s) && Enabled(s, t, place)
    ensures var n := After(s, t, place);
      && |n.makers| == |n.made|
      && forall i, j :: 0 <= i < j < |n.made| ==>
           n.made[i] != n.made[j] && n.makers[i] != n.makers[j]
  {
    assert PrivateThreadOk(s, t);
  }

  lemma MakersReturn(s: State, t: nat, place: nat)
    requires PrivateInv(s) && Enabled(s, t, place)
    ensures var n := After(s, t, place);
      && |n.makers| == |n.made|
      && forall i :: 0 <= i < |n.made| ==>
           n.makers[i] in n.threads && n.made[i] != 0 && Returns(n, n.threads[n.makers[i]], n.made[i])
  {
    var n := After(s, t, place);
    assert PrivateThreadOk(s, t);
    forall i | 0 <= i < |n.made|
      ensures n.makers[i] in n.threads && n.made[i] != 0 && Returns(n, n.threads[n.makers[i]], n.made[i])
    {
      if i < |s.made| && s.makers[i] != t {
        assert Returns(s, s.threads[s.makers[i]], s.made[i]);
        assert !(s.threads[t].Inside() && s.threads[s.makers[i]].Inside());
      }
    }
  }

  lemma OtherThread(s: State, t: nat, place: nat, u: nat)
    requires PrivateInv(s) && Enabled(s, t, place) && u != t
    requires u in s.threads
    ensures PrivateThreadOk(After(s, t, place), u)
  {
    assert PrivateThreadOk(s, t) && PrivateThreadOk(s, u);
    assert !(s.threads[t].Inside() && s.threads[u].Inside());
  }

  lemma OwnThread(s: State, t: nat, place: nat)
    requires PrivateInv(s) && Enabled(s, t, place)
    ensures PrivateThreadOk(After(s, t, place), t)
  {
    assert PrivateThreadOk(s, t);
  }

  lemma NoStrangers(s: State, t: nat, place: nat, u: nat)
    requires PrivateInv(s) && Enabled(s, t, place)
    ensures var n := After(s, t, place); u in n.misses || u in n.makers ==> u in n.threads
  {
    assert PrivateThreadOk(s, t);
  }

  lemma CachedIsMade(s: State, t: nat, place: nat)
    requires PrivateInv(s) && Enabled(s, t, place)
    ensures var n := After(s, t, place); n.mode == Private && (n.cached == 0 || n.cached in n.made)
  {
    assert PrivateThreadOk(s, t);
  }

  lemma PrivateStep(s: State, t: nat, place: nat)
    requires PrivateInv(s) && Enabled(s, t, place)
    ensures PrivateInv(After(s, t, place))
  {
    var n := After(s, t, place);
    MakersDiffer(s, t, place);
    MakersReturn(s, t, place);
    CachedIsMade(s, t, place);
    forall u | u in n.threads || u in n.misses || u in n.makers ensures u in n.threads && PrivateThreadOk(n, u) {
      NoStrangers(s, t, place, u);
      if u == t {
        OwnThread(s, t, place);
      } else {
        OtherThread(s, t, place, u);
      }
    }
    OneInsideStep(s, t, place);
  }

  lemma {:induction false} PrivateRun(states: seq<State>, moves: seq<(nat, nat)>, stale: Option<nat>, k: nat)
    requires Run(states, moves, stale) && states[0].mode == Private && k < |states|
    ensures PrivateInv(states[k])
  {
    if k > 0 {
      PrivateRun(states, moves, stale, k - 1);
      assert Moved(states[k - 1], moves[k - 1], states[k]);
      PrivateStep(states[k - 1], moves[k - 1].0, moves[k - 1].1);
    }
  }

  lemma TwoMakersMissed(s: State)
    requires PrivateInv(s)
    ensures |s.made| > 1 ==> exists t, u :: t in s.misses && u in s.misses && t != u
  {
    if |s.made| > 1 {
      assert PrivateThreadOk(s, s.makers[0]) && PrivateThreadOk(s, s.makers[1]);
      assert s.makers[0] in s.misses && s.makers[1] in s.misses && s.makers[0] != s.makers[1];
    }
  }

  lemma MissesDiffer(s: State, t: nat, u: nat)
    requires PrivateInv(s) && t in s.misses && u in s.misses
    requires t in s.threads && u in s.threads && s.threads[t].Done? && s.threads[u].Done?
    ensures s.threads[t].result == s.threads[u].result ==> t == u
  {
    assert PrivateThreadOk(s, t) && PrivateThreadOk(s, u);
    var i :| 0 <= i < |s.makers| && s.makers[i] == t;
    var j :| 0 <= j < |s.makers| && s.makers[j] == u;
    assert Returns(s, s.threads[t], s.made[i]) && Returns(s, s.threads[u], s.made[j]);
  }

  ghost predicate AllAgree(s: State) {
    forall t, u :: t in s.threads && u in s.threads && s.threads[t].Done? && s.threads[u].Done? ==>
         s.threads[t].result == s.threads[u].result
  }

  /** At most one call found the cache empty. */
  ghost predicate OneMiss(s: State) {
    forall t, u :: t in s.misses && u in s.misses ==> t == u
  }

  lemma OneMissAgrees(s: State)
    requires PrivateInv(s) && OneMiss(s)
    ensures AllAgree(s)
  {
    TwoMakersMissed(s);
    forall t, u | t in s.threads && u in s.threads && s.threads[t].Done? && s.threads[u].Done?
      ensures s.threads[t].result == s.threads[u].result
    {
      assert PrivateThreadOk(s, t) && PrivateThreadOk(s, u);
    }
  }

  /** In the private mode every call that found the cache empty creates a locator of its own and returns that
      one. So, when all calls are over, they agree exactly if at most one of them found the cache empty. */
  lemma PrivateFindsAgree(states: seq<State>, moves: seq<(nat, nat)>, stale: Option<nat>, k: nat)
    requires Run(states, moves, stale) && states[0].mode == Private && k < |states|
    requires forall t :: t in states[k].threads ==> states[k].threads[t].Done?
    ensures AllAgree(states[k]) <==> OneMiss(states[k])
  {
    PrivateRun(states, moves, stale, k);
    var s := states[k];
    if OneMiss(s) {
      OneMissAgrees(s);
    }
    if AllAgree(s) {
      forall t, u | t in s.misses && u in s.misses ensures t == u {
        MissesDiffer(s, t, u);
      }
    }
  }

  /** A run with one more step. */
  lemma Extend(states: seq<State>, moves: seq<(nat, nat)>, t: nat, place: nat)
    returns (states': seq<State>, moves': seq<(nat, nat)>)
    requires Run(states, moves, None) && Enabled(states[|moves|], t, place)
    ensures Run(states', moves', None) && states'[0] == states[0]
            && states'[|moves'|] == After(states[|moves|], t, place)
  {
    states', moves' := states + [After(states[|moves|], t, place)], moves + [(t, place)];
    forall i | 0 <= i < |moves'| ensures Moved(states'[i], moves'[i], states'[i + 1]) {
      if i < |moves| {
        assert Moved(states[i], moves[i], states[i + 1]);
      }
    }
  }

  /** From waiting for the lock to the end of the call, in the private mode, undisturbed. */
  lemma WholeCreation(states: seq<State>, moves: seq<(nat, nat)>, t: nat, place: nat)
    returns (states': seq<State>, moves': seq<(nat, nat)>)
    requires Run(states, moves, None)
    requires var s := states[|moves|];
      s.mode == Private && !s.locked && t in s.threads && s.threads[t] == Waiting && place != 0 && place !in s.made
    ensures Run(states', moves', None) && states'[0] == states[0]
    ensures var s, n := states[|moves|], states'[|moves'|];
      n.mode == Private && !n.locked && n.made == s.made + [place] && n.threads == s.threads[t := Done(place)]
  {
    states', moves' := Extend(states, moves, t, 0);
    states', moves' := Extend(states', moves', t, place);
    states', moves' := Extend(states', moves', t, 0);
    states', moves' := Extend(states', moves', t, 0);
    states', moves' := Extend(states', moves', t, 0);
    states', moves' := Extend(states', moves', t, 0);
  }

  /** Two calls that overlap from the start return two different locators in the private mode. */
  lemma PrivateFindsDiffer() returns (states: seq<State>, moves: seq<(nat, nat)>)
    ensures Run(states, moves, None) && states[0].mode == Private
    ensures states[|moves|].threads == map[1 := Done(4096), 2 := Done(8192)]
  {
    var s := State(Private, 0, false, None, map[1 := CheckCache, 2 := CheckCache], [], [], {}, {});
    states, moves := Extend([s], [], 1, 0);
    states, moves := Extend(states, moves, 2, 0);
    assert states[|moves|].threads == map[1 := Waiting, 2 := Waiting];
    states, moves := WholeCreation(states, moves, 1, 4096);
    states, moves := WholeCreation(states, moves, 2, 8192);
  }

  // The address is cached before the locator it belongs to is initialised.

  predicate SetsUp(p: Pc, a: nat) {
    p == Caching(a) || p == Initializing(a)
  }

  ghost predicate StoredIsReady(s: State) {
    s.stored.Some? ==> s.stored.value in s.ready
  }

  ghost predicate SetUpThreadOk(s: State, t: nat, p: Pc) {
    && (p.CheckCache? || p.ReadCache? ==> t !in s.misses)
    && (p.Waiting? || p.Inside() ==> t in s.misses)
    && match p
       case ReadCache => s.cached in s.made
       case Opening => StoredIsReady(s)
       case ReadingStored => s.stored.Some? && StoredIsReady(s)
       case Caching(a) => a in s.made && a !in s.ready && s.cached != a
       case Initializing(a) => a in s.made && a !in s.ready && s.cached == a
       case ReadResult => s.cached in s.ready && StoredIsReady(s)
       case Unlocking(r) => r in s.ready && StoredIsReady(s)
       case Done(r) => r in s.made && (t in s.misses ==> r in s.ready)
       case _ => true
  }

  /** Without a stale file: what is known about who is still setting up which locator. */
  ghost predicate SetUpInv(s: State) {
    && OneInside(s) && (!s.locked ==> StoredIsReady(s)) && (s.mode == Private ==> s.stored.None?)
    && (forall a :: a in s.ready ==> a in s.made)
    && (s.cached == 0 || s.cached in s.made)
    && |s.makers| == |s.made|
    && (forall i :: 0 <= i < |s.made| ==>
          s.makers[i] in s.threads && (s.made[i] in s.ready || SetsUp(s.threads[s.makers[i]], s.made[i])))
    && (forall t :: t in s.threads ==> SetUpThreadOk(s, t, s.threads[t]))
    && (forall t, u :: t in s.threads && u in s.threads && s.threads[t].Done? ==>
         s.threads[u] != Caching(s.threads[t].result))
  }

  lemma OtherSetUpThread(s: State, t: nat, place: nat, u: nat)
    requires SetUpInv(s) && Enabled(s, t, place) && u in s.threads && u != t
    ensures SetUpThreadOk(After(s, t, place), u, s.threads[u])
  {
    assert SetUpThreadOk(s, t, s.threads[t]) && SetUpThreadOk(s, u, s.threads[u]);
    assert !(s.threads[t].Inside() && s.threads[u].Inside());
  }

  lemma MakersSetUp(s: State, t: nat, place: nat)
    requires SetUpInv(s) && Enabled(s, t, place)
    ensures var n := After(s, t, place);
      && |n.makers| == |n.made|
      && forall i :: 0 <= i < |n.made| ==>
           n.makers[i] in n.threads && (n.made[i] in n.ready || SetsUp(n.threads[n.makers[i]], n.made[i]))
  {
    assert SetUpThreadOk(s, t, s.threads[t]);
  }

  /** Nobody returns a locator before its address is cached. */
  lemma NotBeforeCached(s: State, t: nat, place: nat, u: nat, v: nat)
    requires SetUpInv(s) && Enabled(s, t, place) && u in s.threads && v in s.threads
    requires After(s, t, place).threads[u].Done?
    ensures After(s, t, place).threads[v] != Caching(After(s, t, place).threads[u].result)
  {
    assert SetUpThreadOk(s, t, s.threads[t]) && SetUpThreadOk(s, u, s.threads[u]) && SetUpThreadOk(s, v, s.threads[v]);
  }

  lemma OwnSetUpThread(s: State, t: nat, place: nat)
    requires SetUpInv(s) && Enabled(s, t, place)
    ensures SetUpThreadOk(After(s, t, place), t, After(s, t, place).threads[t])
  {
    assert SetUpThreadOk(s, t, s.threads[t]);
  }

  lemma SetUpStep(s: State, t: nat, place: nat)
    requires SetUpInv(s) && Enabled(s, t, place)
    ensures SetUpInv(After(s, t, place))
  {
    var n := After(s, t, place);
    assert SetUpThreadOk(s, t, s.threads[t]);
    OneInsideStep(s, t, place);
    MakersSetUp(s, t, place);
    forall u | u in n.threads ensures SetUpThreadOk(n, u, n.threads[u]) {
      if u == t {
        OwnSetUpThread(s, t, place);
      } else {
        OtherSetUpThread(s, t, place, u);
      }
    }
    forall u, v | u in n.threads && v in n.threads && n.threads[u].Done?
      ensures n.threads[v] != Caching(n.threads[u].result)
    {
      NotBeforeCached(s, t, place, u, v);
    }
  }

  lemma {:induction false} SetUpRun(states: seq<State>, moves: seq<(nat, nat)>, k: nat)
    requires Run(states, moves, None) && k < |states|
    ensures SetUpInv(states[k])
  {
    if k > 0 {
      SetUpRun(states, moves, k - 1);
      assert Moved(states[k - 1], moves[k - 1], states[k]);
      SetUpStep(states[k - 1], moves[k - 1].0, moves[k - 1].1);
    }
  }

  /** When a returned locator is initialised, in both modes: always for a call that missed the cache, and for
      a call that hit it exactly when nobody is initialising that locator any more. */
  lemma ReturnedIsReady(states: seq<State>, moves: seq<(nat, nat)>, k: nat, t: nat)
    requires Run(states, moves, None) && k < |states|
    requires t in states[k].threads && states[k].threads[t].Done?
    ensures var s, r := states[k], states[k].threads[t].result;
      && (t in s.misses ==> r in s.ready)
      && (r in s.ready <==> forall u :: u in s.threads ==> s.threads[u] != Initializing(r))
  {
    SetUpRun(states, moves, k);
    var s, r := states[k], states[k].threads[t].result;
    assert SetUpThreadOk(s, t, s.threads[t]);
    forall u | u in s.threads && s.threads[u] == Initializing(r) ensures r !in s.ready {
      assert SetUpThreadOk(s, u, s.threads[u]);
    }
    var i :| 0 <= i < |s.made| && s.made[i] == r;
    assert r in s.ready || SetsUp(s.threads[s.makers[i]], r);
  }

  lemma CachesEarly() returns (states: seq<State>, moves: seq<(nat, nat)>)
    ensures Run(states, moves, None) && states[0].mode == Shared
    ensures var s := states[|moves|];
      s.threads == map[1 := Initializing(4096), 2 := CheckCache] && s.ready == {} && s.cached == 4096
  {
    var s := State(Shared, 0, false, None, map[1 := CheckCache, 2 := CheckCache], [], [], {}, {});
    states, moves := Extend([s], [], 1, 0);
    states, moves := Extend(states, moves, 1, 0);
    states, moves := Extend(states, moves, 1, 0);
    states, moves := Extend(states, moves, 1, 4096);
    states, moves := Extend(states, moves, 1, 0);
  }

  /** A call that hits the cache can return a locator that its creator has not initialised yet. */
  lemma ReturnedTooEarly() returns (states: seq<State>, moves: seq<(nat, nat)>)
    ensures Run(states, moves, None) && states[0].mode == Shared
    ensures var s := states[|moves|]; s.threads == map[1 := Initializing(4096), 2 := Done(4096)] && s.ready == {}
  {
    states, moves := CachesEarly();
    states, moves := Extend(states, moves, 2, 0);
    states, moves := Extend(states, moves, 2, 0);
  }
}
