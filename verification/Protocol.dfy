/** The registration protocol as a state machine: any number of agents take atomic steps in any
    order on shared locators. An agent is one request in flight, or one held item; a thread that
    does several of these at a time is as many agents. */
module Protocol {
  import opened Machine
  import opened OperatingSystem
  import opened Settings
  import opened LocatorItems
  import opened LocatorHeaders
  import opened Alignment

  /** A locator in shared memory. `slots` are those that have been written; only the first `num` are published.
      As long as it is not set up, all but the address is whatever the memory contains. */
  datatype Header = Header(address: nat, setUp: bool, locked: bool, num: nat, slots: seq<LocatorItem>,
                           next: Option<nat>) {
    predicate IsFull(sys: SysInfo) {
      num >= MaxItemCount(sys)
    }
  }

  /** What a byte of memory belongs to. */
  datatype Owner = HeaderOf(h: nat) | SlotOf(h: nat, i: nat)

  datatype Outcome = Registered(i: nat) | NoSpace | NoMemory

  /** Where an agent is in the code, with its local variables; `h` is the locator it works on. */
  datatype Pc =
    | SettingUp(h: nat)
    | Idle
    | Scan(want: BufferSearchSettings, h: nat, i: nat, final: nat)
    | TryItem(want: BufferSearchSettings, h: nat, i: nat, final: nat)
    | CheckFull(want: BufferSearchSettings, h: nat)
    | LockToRegister(want: BufferSearchSettings, h: nat)
    | RecheckFull(want: BufferSearchSettings, h: nat)
    | Allocating(want: BufferSearchSettings, h: nat)
    | Writing(want: BufferSearchSettings, h: nat, v: LocatorItem)
    | Counting(want: BufferSearchSettings, h: nat, i: nat)
    | UnlockRegistered(want: BufferSearchSettings, h: nat, outcome: Outcome)
    | CheckNext(want: BufferSearchSettings, h: nat)
    | LockToLink(want: BufferSearchSettings, h: nat)
    | RecheckNext(want: BufferSearchSettings, h: nat)
    | Creating(want: BufferSearchSettings, h: nat)
    | Initializing(want: BufferSearchSettings, h: nat)
    | UnlockLinked(want: BufferSearchSettings, h: nat, ok: bool)
    | FollowNext(want: BufferSearchSettings, h: nat)
    | Holding(want: BufferSearchSettings, h: nat, i: nat)
    | Copying(want: BufferSearchSettings, h: nat, i: nat, at: nat, data: seq<bv8>, done: nat)
  {
    /** The header lock this agent has. */
    function Crit(): (r: Option<nat>)
      ensures r.Some? ==> !Idle? && r.value == h
    {
      match this
      case RecheckFull(_, h) => Some(h)
      case Allocating(_, h) => Some(h)
      case Writing(_, h, _) => Some(h)
      case Counting(_, h, _) => Some(h)
      case UnlockRegistered(_, h, _) => Some(h)
      case RecheckNext(_, h) => Some(h)
      case Creating(_, h) => Some(h)
      case Initializing(_, h) => Some(h)
      case UnlockLinked(_, h, _) => Some(h)
      case _ => None
    }

    /** The locator this agent is about to set up: the first one, or the one behind its own. */
    function Makes(): Option<nat> {
      match this
      case SettingUp(h) => Some(h)
      case Initializing(_, h) => Some(h + 1)
      case _ => None
    }

    /** The item this agent has locked. */
    function Held(): (r: Option<(nat, nat)>)
      ensures r.Some? ==> !Idle? && r.value.0 == h
    {
      match this
      case Counting(_, h, i) => Some((h, i))
      case UnlockRegistered(_, h, Registered(i)) => Some((h, i))
      case Holding(_, h, i) => Some((h, i))
      case Copying(_, h, i, _, _, _) => Some((h, i))
      case _ => None
    }
  }

  /** One finished append. */
  datatype Entry = Entry(h: nat, i: nat, address: nat, data: seq<bv8>)

  /** What is not determined by the state: the caller's wishes and the system's answers. */
  datatype Choice =
    | Auto
    | Ask(want: BufferSearchSettings)
    | Append(data: seq<bv8>)
    | Align(alignment: nat)
    | Drop
    | Given(base: nat, size: nat)
    | GivenHeader(address: nat, junk: Header)
    | Refused

  datatype State = State(sys: SysInfo, headers: seq<Header>, agents: map<nat, Pc>, owner: map<nat, Owner>,
                         bytes: map<nat, bv8>, log: seq<Entry>)
  {
    function Go(t: nat, p: Pc): State {
      this.(agents := agents[t := p])
    }

    function Put(h: nat, header: Header): State
      requires h < |headers|
    {
      this.(headers := headers[h := header])
    }

    function PutItem(h: nat, i: nat, v: LocatorItem): State
      requires h < |headers| && i < |headers[h].slots|
    {
      Put(h, headers[h].(slots := headers[h].slots[i := v]))
    }

    function SetLock(h: nat, locked: bool): State
      requires h < |headers|
    {
      Put(h, headers[h].(locked := locked))
    }

    /** No byte of the range belongs to a header or a buffer: the system only hands out unmapped memory. */
    ghost predicate Unclaimed(base: nat, size: nat) {
      forall x: nat :: base <= x < base + size ==> x !in owner
    }
  }

  function Claim(owner: map<nat, Owner>, base: nat, size: nat, o: Owner): (r: map<nat, Owner>)
    ensures forall x :: x in r <==> x in owner || base <= x < base + size
    ensures forall x :: x in r ==> r[x] == if base <= x < base + size then o else owner[x]
  {
    owner + map x | x in Block(base, size) :: o
  }

  /** The granule of locator `h`: the header, then its chunks. */
  function ClaimLocator(owner: map<nat, Owner>, address: nat, length: nat, h: nat): (r: map<nat, Owner>)
    ensures forall x :: x in r <==> x in owner || address <= x < address + length
    ensures forall x :: x in r ==> r[x] == if address <= x < address + length then OwnerIn(address, h, x) else owner[x]
  {
    owner + map x | x in Block(address, length) :: OwnerIn(address, h, x)
  }

  function OwnerIn(address: nat, h: nat, x: nat): Owner
    requires address <= x
  {
    if x < address + LENGTH then HeaderOf(h) else SlotOf(h, (x - (address + LENGTH)) / LENGTH_OF_PREALLOCATED_CHUNKS)
  }

  function NewHeader(sys: SysInfo, address: nat): Header
    requires LENGTH <= sys.granularity
  {
    var items := Chunks(address + LENGTH, sys.granularity - LENGTH);
    Header(address, true, false, |items|, items, None)
  }

  /** The indices an agent is about to use exist. */
  ghost predicate Ready(s: State, p: Pc) {
    && 0 < |s.headers|
    && (!p.Idle? ==> p.h < |s.headers|)
    && (p.Scan? ==> p.final <= |s.headers[p.h].slots|)
    && (p.TryItem? ==> p.i < p.final <= |s.headers[p.h].slots|)
    && (p.Writing? ==> s.headers[p.h].num <= |s.headers[p.h].slots|)
    && (p.FollowNext? || p.Initializing? ==> s.headers[p.h].next.Some? && s.headers[p.h].next.value < |s.headers|)
    && (p.Holding? || p.Copying? ==> p.i < |s.headers[p.h].slots|)
    && LENGTH <= s.sys.granularity
  }

  /** Which choices the code leaves to an agent's next step. New memory is unclaimed and ends where a page does. */
  ghost predicate Possible(s: State, t: nat, c: Choice) {
    && t in s.agents && Ready(s, s.agents[t])
    && match s.agents[t]
       case Idle => c.Ask? && c.want.Words(s.sys)
       case Allocating(want, h) =>
         || c.Refused?
         || (c.Given? && s.Unclaimed(c.base, c.size) && (c.base + c.size) % MAX_ALIGNMENT == 0
             && NewItem(c.base, c.size).Sound(s.sys) && NewItem(c.base, c.size).Serves(want))
       case Creating(_, h) =>
         || c.Refused?
         || (c.GivenHeader? && s.Unclaimed(c.address, s.sys.granularity) && c.address % MAX_ALIGNMENT == 0
             && 0 < c.address && c.address + s.sys.granularity <= s.sys.WordMax())
       case Holding(_, h, i) => c.Append? || (c.Align? && c.alignment <= U32_MAX) || c.Drop?
       case _ => c.Auto?
  }

  /** What the code does not check and the promises rest on: a locator is entered only when it is set up,
      appended data fits, and so does a move to the next aligned address, which regular alignments see to. */
  ghost predicate Careful(s: State, t: nat, c: Choice)
    requires Possible(s, t, c)
  {
    match s.agents[t]
    case Idle => s.headers[0].setUp
    case FollowNext(_, h) => s.headers[s.headers[h].next.value].setUp
    case Holding(_, h, i) =>
      var v := s.headers[h].slots[i];
      && (c.Append? ==> |c.data| <= v.BytesLeft())
      && (c.Align? ==> Regular(c.alignment) || AlignsInside(v, c.alignment))
    case _ => true
  }

  ghost predicate Enabled(s: State, t: nat, c: Choice) {
    Possible(s, t, c) && Careful(s, t, c)
  }

  /** One atomic step of agent `t`. */
  ghost function After(s: State, t: nat, c: Choice): State
    requires Possible(s, t, c)
  {
    match s.agents[t]
    case SettingUp(h) => s.Put(h, NewHeader(s.sys, s.headers[h].address)).Go(t, Idle)
    case Idle => s.Go(t, Scan(c.want, 0, 0, s.headers[0].num))
    case Scan(want, h, i, final) =>
      if i >= final then s.Go(t, CheckFull(want, h))
      else if s.headers[h].slots[i].CanUse(s.sys, want) then s.Go(t, TryItem(want, h, i, final))
      else s.Go(t, Scan(want, h, i + 1, final))
    case TryItem(want, h, i, final) =>
      var v := s.headers[h].slots[i];
      if v.isTaken then s.Go(t, Scan(want, h, i + 1, final))
      else s.PutItem(h, i, v.(isTaken := true)).Go(t, Holding(want, h, i))
    case CheckFull(want, h) =>
      s.Go(t, if s.headers[h].IsFull(s.sys) then CheckNext(want, h) else LockToRegister(want, h))
    case LockToRegister(want, h) =>
      if s.headers[h].locked then s else s.SetLock(h, true).Go(t, RecheckFull(want, h))
    case RecheckFull(want, h) =>
      s.Go(t, if s.headers[h].IsFull(s.sys) then UnlockRegistered(want, h, NoSpace) else Allocating(want, h))
    case Allocating(want, h) =>
      if c.Refused? then s.Go(t, UnlockRegistered(want, h, NoMemory))
      else s.(owner := Claim(s.owner, c.base, c.size, SlotOf(h, s.headers[h].num)))
            .Go(t, Writing(want, h, LocatorItem(c.base, c.size, 0, true)))
    case Writing(want, h, v) =>
      var header := s.headers[h];
      var slots := if header.num < |header.slots| then header.slots[header.num := v] else header.slots + [v];
      s.Put(h, header.(slots := slots)).Go(t, Counting(want, h, header.num))
    case Counting(want, h, i) =>
      s.Put(h, s.headers[h].(num := s.headers[h].num + 1)).Go(t, UnlockRegistered(want, h, Registered(i)))
    case UnlockRegistered(want, h, outcome) =>
      s.SetLock(h, false).Go(t, match outcome
                                case Registered(i) => Holding(want, h, i)
                                case NoSpace => CheckNext(want, h)
                                case NoMemory => Idle)
    case CheckNext(want, h) =>
      s.Go(t, if s.headers[h].next.Some? then FollowNext(want, h) else LockToLink(want, h))
    case LockToLink(want, h) =>
      if s.headers[h].locked then s else s.SetLock(h, true).Go(t, RecheckNext(want, h))
    case RecheckNext(want, h) =>
      s.Go(t, if s.headers[h].next.Some? then UnlockLinked(want, h, true) else Creating(want, h))
    case Creating(want, h) =>
      if c.Refused? then s.Go(t, UnlockLinked(want, h, false))
      else
        var n := |s.headers|;
        s.(headers := s.headers[h := s.headers[h].(next := Some(n))] + [c.junk.(address := c.address, setUp := false)],
           owner := ClaimLocator(s.owner, c.address, s.sys.granularity, n))
         .Go(t, Initializing(want, h))
    case Initializing(want, h) =>
      var n := s.headers[h].next.value;
      s.Put(n, NewHeader(s.sys, s.headers[n].address)).Go(t, UnlockLinked(want, h, true))
    case UnlockLinked(want, h, ok) =>
      s.SetLock(h, false).Go(t, if ok then FollowNext(want, h) else Idle)
    case FollowNext(want, h) =>
      var n := s.headers[h].next.value;
      s.Go(t, Scan(want, n, 0, s.headers[n].num))
    case Holding(want, h, i) =>
      var v := s.headers[h].slots[i];
      if c.Append? then s.Go(t, Copying(want, h, i, v.position, c.data, 0))
      else if c.Align? then s.PutItem(h, i, AlignedItem(s.sys, v, c.alignment))
      else s.PutItem(h, i, v.(isTaken := false)).Go(t, Idle)
    case Copying(want, h, i, at, data, done) =>
      var v := s.headers[h].slots[i];
      if done < |data| then
        s.(bytes := s.bytes[v.baseAddress + at + done := data[done]]).Go(t, Copying(want, h, i, at, data, done + 1))
      else
        s.PutItem(h, i, v.Advanced(|data|)).(log := s.log + [Entry(h, i, v.baseAddress + at, data)])
         .Go(t, Holding(want, h, i))
  }

  /** A fresh mapping contains zeros. */
  function Zeros(address: nat): Header {
    Header(address, false, false, 0, [], None)
  }

  /** One agent is about to set up the first locator, in a fresh mapping of one granule; the others have not started. */
  ghost predicate Init(s: State) {
    && RoomBesideChunks(s.sys) && s.sys.granularity % MAX_ALIGNMENT == 0
    && (exists address: nat ::
          && 0 < address && address % MAX_ALIGNMENT == 0 && address + s.sys.granularity <= s.sys.WordMax()
          && s.headers == [Zeros(address)] && s.owner == ClaimLocator(map[], address, s.sys.granularity, 0))
    && (exists t :: t in s.agents && s.agents[t] == SettingUp(0)
                    && forall u :: u in s.agents && u != t ==> s.agents[u] == Idle)
    && s.log == []
  }
}
