/** The transaction watcher's poll loop (internal/usecase/watcher/
    watch_transactions.go): the block cursor with its lookback, the bounded
    dedup set and the deferral map for half-indexed swaps. */
module WatcherTick {
  import opened Text
  import opened PendingRegistry
  import opened WatcherLegs

  const LOOKBACK_BLOCKS: nat := 3
  const MAX_DEFERRAL: nat := 30_000_000_000
  const EMITTED_CAP: nat := 512

  // ------------------------------------------------------- bounded FIFO set

  function PushBounded(order: seq<string>, capacity: nat, h: string): seq<string>
    requires 0 < capacity
  {
    if h in order then order
    else if |order| >= capacity then order[1..] + [h]
    else order + [h]
  }

  class EmittedSet {
    var members: set<string>
    var order: seq<string>
    const capacity: nat

    ghost predicate Valid() reads this {
      0 < capacity && |order| <= capacity && NoDup(order) && members == Elems(order)
    }

    constructor (maxSize: nat)
      requires 0 < maxSize
      ensures Valid() && order == [] && capacity == maxSize
    {
      members, order, capacity := {}, [], maxSize;
    }

    method Has(h: string) returns (found: bool)
      requires Valid()
      ensures found == (h in order)
    {
      found := h in members;
    }

    method Add(h: string)
      requires Valid()
      modifies this
      ensures Valid() && order == PushBounded(old(order), capacity, h)
    {
      if h in members {
        return;
      }
      if |order| >= capacity {
        var evict := order[0];
        assert order == [evict] + order[1..];
        order := order[1..];
        members := members - {evict};
      }
      members := members + {h};
      order := order + [h];
    }
  }

  // ------------------------------------------------------------- one visit

  datatype View = View(order: seq<string>, deferred: map<string, Time>)

  datatype Config = Config(capacity: nat, maxDeferral: nat)

  const PRODUCTION := Config(EMITTED_CAP, MAX_DEFERRAL)

  /** What one tick knows about one hash. */
  datatype Sighting = Sighting(ev: Event, kind: string, spam: bool)

  /** A hash that leaves the machine: as an event, or dropped as spam. */
  datatype Note = Emitted(ev: Event) | Dropped(hash: string)

  function HashOf(n: Note): string {
    match n
    case Emitted(ev) => ev.hash
    case Dropped(h) => h
  }

  predicate Incomplete(s: Sighting) {
    s.kind == "swap" && s.ev.role != Swap && s.ev.role != SelfTransfer
  }

  /** shouldDefer's answer, before it records a first sighting. */
  predicate Holds(deferred: map<string, Time>, maxDeferral: nat, now: Time, h: string, s: Sighting) {
    Incomplete(s) && (h !in deferred || now - deferred[h] < maxDeferral)
  }

  function Visit(cfg: Config, v: View, now: Time, h: string, s: Sighting): View
    requires 0 < cfg.capacity
  {
    if h in v.order then v
    else if !s.spam && Holds(v.deferred, cfg.maxDeferral, now, h, s) then
      View(v.order, if h in v.deferred then v.deferred else v.deferred[h := now])
    else
      View(PushBounded(v.order, cfg.capacity, h), v.deferred - {h})
  }

  function NotesOf(cfg: Config, v: View, now: Time, h: string, s: Sighting): seq<Note> {
    if h in v.order then []
    else if s.spam then [Dropped(h)]
    else if Holds(v.deferred, cfg.maxDeferral, now, h, s) then []
    else [Emitted(s.ev)]
  }

  // -------------------------------------------------------------- one tick

  function VisitAll(cfg: Config, v: View, now: Time, seen: map<string, Sighting>, order: seq<string>): View
    requires 0 < cfg.capacity && forall h :: h in order ==> h in seen
  {
    if order == [] then v
    else
      var w := VisitAll(cfg, v, now, seen, order[..|order| - 1]);
      Visit(cfg, w, now, order[|order| - 1], seen[order[|order| - 1]])
  }

  function AllNotes(cfg: Config, v: View, now: Time, seen: map<string, Sighting>, order: seq<string>): seq<Note>
    requires 0 < cfg.capacity && forall h :: h in order ==> h in seen
  {
    if order == [] then []
    else
      var init, h := order[..|order| - 1], order[|order| - 1];
      AllNotes(cfg, v, now, seen, init) + NotesOf(cfg, VisitAll(cfg, v, now, seen, init), now, h, seen[h])
  }

  lemma {:induction false} OneMoreVisit(cfg: Config, v: View, now: Time, seen: map<string, Sighting>,
      order: seq<string>, h: string)
    requires 0 < cfg.capacity && h in seen && forall g :: g in order ==> g in seen
    ensures forall g :: g in order + [h] ==> g in seen
    ensures VisitAll(cfg, v, now, seen, order + [h]) ==
      Visit(cfg, VisitAll(cfg, v, now, seen, order), now, h, seen[h])
    ensures AllNotes(cfg, v, now, seen, order + [h]) ==
      AllNotes(cfg, v, now, seen, order) + NotesOf(cfg, VisitAll(cfg, v, now, seen, order), now, h, seen[h])
    ensures NoDup(order) && h !in Elems(order) ==> NoDup(order + [h])
    ensures Elems(order + [h]) == Elems(order) + {h}
  {
    assert (order + [h])[..|order|] == order;
  }

  ghost function Sight(lk: Lookups, wallet: Address, now: Time, hash: string, legs: seq<Transfer>,
                       index: map<string, PendingTx>): Sighting {
    var ev := EventOf(lk, wallet, now, hash, legs, index.Keys);
    Sighting(ev, KindOf(index, hash), IsSpam(lk, ev))
  }

  /** Everything the loop over the grouped hashes will see. */
  ghost function Sightings(lk: Lookups, wallet: Address, now: Time, transfers: seq<Transfer>,
                           pending: seq<PendingTx>): (seen: map<string, Sighting>)
    ensures seen.Keys == Groups(transfers).Keys
    ensures forall h :: h in seen ==> seen[h].ev.hash == h
  {
    map h | h in Groups(transfers) :: Sight(lk, wallet, now, h, Groups(transfers)[h], PendingIndex(pending))
  }

  /** The sweep of deferrals that were never observed again. */
  function SweepDeferred(deferred: map<string, Time>, now: Time, maxDeferral: nat): map<string, Time> {
    map h | h in deferred && !(now - deferred[h] > maxDeferral * 2) :: deferred[h]
  }

  /** What the outside answers at one tick: the chain head, the transfers of the
      queried window (None: the call failed), the pending registry and the token
      lookups. */
  datatype Poll = Poll(now: Time, head: Option<nat>, fetched: Option<seq<Transfer>>,
                       pending: seq<PendingTx>, lk: Lookups)

  /** The same tick with the fetched legs read as sightings. */
  datatype Look = Look(now: Time, head: Option<nat>, seen: Option<map<string, Sighting>>)

  ghost function LookOf(wallet: Address, p: Poll): (l: Look)
    ensures OwnHashes(l)
  {
    Look(p.now, p.head,
         if p.fetched.Some? then Some(Sightings(p.lk, wallet, p.now, p.fetched.value, p.pending)) else None)
  }

  /** Every event is filed under its own hash. */
  predicate OwnHashes(l: Look) {
    l.seen.Some? ==> forall h :: h in l.seen.value ==> l.seen.value[h].ev.hash == h
  }

  datatype Cursor = Cursor(lastBlock: nat, initialized: bool)

  datatype State = State(cursor: Cursor, view: View)

  const START := State(Cursor(0, false), View([], map[]))

  /** The first block of the window queried from cursor `lastBlock`. */
  function FromBlock(lastBlock: nat): nat {
    if lastBlock > LOOKBACK_BLOCKS then lastBlock - LOOKBACK_BLOCKS + 1 else 1
  }

  predicate Queries(c: Cursor, l: Look) {
    c.initialized && l.head.Some? && l.head.value > c.lastBlock
  }

  predicate Completes(c: Cursor, l: Look) {
    Queries(c, l) && l.seen.Some?
  }

  function CursorAfter(c: Cursor, l: Look): Cursor {
    if l.head.None? then c
    else if !c.initialized then Cursor(l.head.value, true)
    else if Completes(c, l) then Cursor(l.head.value, true)
    else c
  }

  /** `order` is one way the Go map of groups may be ranged over. */
  ghost predicate IsVisitOrder(l: Look, order: seq<string>) {
    l.seen.Some? ==> NoDup(order) && Elems(order) == l.seen.value.Keys
  }

  lemma {:induction false} VisitOrderIn(l: Look, order: seq<string>)
    requires IsVisitOrder(l, order)
    ensures l.seen.Some? ==> forall h :: h in order <==> h in l.seen.value
  {
    assert forall h :: h in order <==> h in Elems(order);
  }

  ghost function TickView(cfg: Config, s: State, l: Look, order: seq<string>): View
    requires 0 < cfg.capacity && IsVisitOrder(l, order)
  {
    if Completes(s.cursor, l) then
      VisitOrderIn(l, order);
      var w := VisitAll(cfg, s.view, l.now, l.seen.value, order);
      View(w.order, SweepDeferred(w.deferred, l.now, cfg.maxDeferral))
    else s.view
  }

  ghost function TickNotes(cfg: Config, s: State, l: Look, order: seq<string>): seq<Note>
    requires 0 < cfg.capacity && IsVisitOrder(l, order)
  {
    if Completes(s.cursor, l) then
      VisitOrderIn(l, order);
      AllNotes(cfg, s.view, l.now, l.seen.value, order)
    else []
  }

  ghost function TickState(cfg: Config, s: State, l: Look, order: seq<string>): State
    requires 0 < cfg.capacity && IsVisitOrder(l, order)
  {
    State(CursorAfter(s.cursor, l), TickView(cfg, s, l, order))
  }

  // ------------------------------------------------------------- the loop

  /** The variables of watchTransactions. */
  class Watcher {
    const wallet: Address
    const cfg: Config
    var lastBlock: nat
    var initialized: bool
    const emitted: EmittedSet
    var deferred: map<string, Time>

    ghost predicate Valid() reads this, emitted {
      emitted.Valid() && emitted.capacity == cfg.capacity
    }

    ghost function Seen(): View reads this, emitted { View(emitted.order, deferred) }

    ghost function Machine(): State reads this, emitted {
      State(Cursor(lastBlock, initialized), Seen())
    }

    constructor (wallet: Address, cfg: Config)
      requires 0 < cfg.capacity
      ensures Valid() && fresh(emitted) && Machine() == START && this.wallet == wallet && this.cfg == cfg
    {
      this.wallet, this.cfg := wallet, cfg;
      lastBlock, initialized, deferred := 0, false, map[];
      emitted := new EmittedSet(cfg.capacity);
    }

    method ShouldDefer(hash: string, ev: Event, index: map<string, PendingTx>, now: Time) returns (hold: bool)
      modifies this`deferred
      ensures hold == Holds(old(deferred), cfg.maxDeferral, now, hash, Sighting(ev, KindOf(index, hash), false))
      ensures deferred == if hold && hash !in old(deferred) then old(deferred)[hash := now] else old(deferred)
    {
      var kind := if Lower(hash) in index then index[Lower(hash)].kind else "";
      var looksIncomplete := kind == "swap" && ev.role != Swap && ev.role != SelfTransfer;
      if !looksIncomplete {
        return false;
      }
      if hash !in deferred {
        deferred := deferred[hash := now];
        return true;
      }
      return now - deferred[hash] < cfg.maxDeferral;
    }

    /** The body of processTick's loop, for one group of legs. */
    method VisitHash(lk: Lookups, now: Time, hash: string, legs: seq<Transfer>, index: map<string, PendingTx>)
      returns (notes: seq<Note>)
      requires Valid()
      modifies this`deferred, emitted
      ensures Valid()
      ensures Seen() == Visit(cfg, old(Seen()), now, hash, Sight(lk, wallet, now, hash, legs, index))
      ensures notes == NotesOf(cfg, old(Seen()), now, hash, Sight(lk, wallet, now, hash, legs, index))
    {
      notes := [];
      var known := emitted.Has(hash);
      if known {
        return;
      }
      var ev := BuildTransactionEvent(lk, wallet, now, hash, legs, index.Keys);
      if IsSpam(lk, ev) {
        emitted.Add(hash);
        deferred := deferred - {hash};
        return [Dropped(hash)];
      }
      var hold := ShouldDefer(hash, ev, index, now);
      if hold {
        return;
      }
      emitted.Add(hash);
      deferred := deferred - {hash};
      return [Emitted(ev)];
    }

    method VisitGroups(lk: Lookups, now: Time, grouped: map<string, seq<Transfer>>,
                       index: map<string, PendingTx>, ghost seen: map<string, Sighting>)
      returns (ghost order: seq<string>, notes: seq<Note>)
      requires Valid() && seen.Keys == grouped.Keys
      requires forall h :: h in grouped ==> seen[h] == Sight(lk, wallet, now, h, grouped[h], index)
      modifies this`deferred, emitted
      ensures Valid() && NoDup(order) && Elems(order) == seen.Keys
      ensures Seen() == VisitAll(cfg, old(Seen()), now, seen, order)
      ensures notes == AllNotes(cfg, old(Seen()), now, seen, order)
    {
      order, notes := [], [];
      var todo := grouped.Keys;
      while todo != {}
        invariant todo <= grouped.Keys && NoDup(order) && Elems(order) == seen.Keys - todo
        invariant Valid() && forall h :: h in order ==> h in seen
        invariant Seen() == VisitAll(cfg, old(Seen()), now, seen, order)
        invariant notes == AllNotes(cfg, old(Seen()), now, seen, order)
      {
        var hash :| hash in todo;
        OneMoreVisit(cfg, old(Seen()), now, seen, order, hash);
        var more := VisitHash(lk, now, hash, grouped[hash], index);
        notes := notes + more;
        todo := todo - {hash};
        order := order + [hash];
      }
    }

    method ProcessTick(lk: Lookups, now: Time, transfers: seq<Transfer>, pending: seq<PendingTx>)
      returns (ghost order: seq<string>, notes: seq<Note>)
      requires Valid()
      modifies this`deferred, emitted
      ensures Valid()
      ensures NoDup(order) && Elems(order) == Groups(transfers).Keys
      ensures Seen() == VisitAll(cfg, old(Seen()), now, Sightings(lk, wallet, now, transfers, pending), order)
      ensures notes == AllNotes(cfg, old(Seen()), now, Sightings(lk, wallet, now, transfers, pending), order)
    {
      var grouped := GroupByHash(transfers);
      var index := IndexPendingByHash(pending);
      order, notes := VisitGroups(lk, now, grouped, index, Sightings(lk, wallet, now, transfers, pending));
    }

    method SweepStale(now: Time)
      modifies this`deferred
      ensures deferred == SweepDeferred(old(deferred), now, cfg.maxDeferral)
    {
      var todo := deferred.Keys;
      while todo != {}
        invariant todo <= old(deferred).Keys
        invariant deferred == map h |
          h in old(deferred) && (h in todo || !(now - old(deferred)[h] > cfg.maxDeferral * 2)) :: old(deferred)[h]
      {
        var hash :| hash in todo;
        if now - deferred[hash] > cfg.maxDeferral * 2 {
          deferred := deferred - {hash};
        }
        todo := todo - {hash};
      }
    }

    /** One turn of the ticker.  `window` is the block range queried, if any. */
    method Tick(p: Poll) returns (window: Option<(nat, nat)>, ghost order: seq<string>, notes: seq<Note>)
      requires Valid()
      modifies this`lastBlock, this`initialized, this`deferred, emitted
      ensures Valid() && IsVisitOrder(LookOf(wallet, p), order)
      ensures Machine() == TickState(cfg, old(Machine()), LookOf(wallet, p), order)
      ensures notes == TickNotes(cfg, old(Machine()), LookOf(wallet, p), order)
      ensures window == if Queries(old(Machine()).cursor, LookOf(wallet, p))
                        then Some((FromBlock(old(lastBlock)), p.head.value)) else None
    {
      window, notes := None, [];
      order := AnyOrder(LookOf(wallet, p));
      if p.head.None? {
        return;
      }
      var cur := p.head.value;
      if !initialized {
        lastBlock := cur;
        initialized := true;
        return;
      }
      if cur <= lastBlock {
        return;
      }
      var from := 1;
      if lastBlock > LOOKBACK_BLOCKS {
        from := lastBlock - LOOKBACK_BLOCKS + 1;
      }
      window := Some((from, cur));
      if p.fetched.None? {
        return;
      }
      order, notes := ProcessTick(p.lk, p.now, p.fetched.value, p.pending);
      SweepStale(p.now);
      lastBlock := cur;
    }
  }

  ghost function AnyOrder(l: Look): (order: seq<string>)
    ensures IsVisitOrder(l, order)
  {
    if l.seen.Some? then
      OrderExists(l.seen.value.Keys);
      var order :| NoDup(order) && Elems(order) == l.seen.value.Keys;
      order
    else []
  }

  lemma {:induction false} OrderExists(hs: set<string>)
    ensures exists order: seq<string> :: NoDup(order) && Elems(order) == hs
  {
    if hs == {} {
      var none: seq<string> := [];
      assert NoDup(none) && Elems(none) == hs;
    } else {
      var h :| h in hs;
      OrderExists(hs - {h});
      var rest: seq<string> :| NoDup(rest) && Elems(rest) == hs - {h};
      assert h !in Elems(rest) && h !in rest;
      var order := rest + [h];
      assert Elems(order) == Elems(rest) + {h};
      assert NoDup(order);
    }
  }

  // ------------------------------------------------ what a tick knows of a hash

  /** A hash is seen when a fetched transfer has it; it is ours when an entry of the
      pending registry has it, in any letter case, and has the kind of the last such
      entry; it is spam when it is not ours and a leg moves an unlisted token. */
  lemma {:induction false} SightIs(wallet: Address, p: Poll, h: string)
    requires p.fetched.Some?
    ensures
      var seen := LookOf(wallet, p).seen.value;
      && (h in seen <==> exists k: nat :: First(p.fetched.value, k) && p.fetched.value[k].hash == h)
      && (h in seen ==>
            && h in Groups(p.fetched.value)
            && var s, legs := seen[h], Groups(p.fetched.value)[h];
               && s.ev == EventOf(p.lk, wallet, p.now, h, legs, PendingIndex(p.pending).Keys)
               && (s.ev.isOurs <==> exists i :: 0 <= i < |p.pending| && EqualFold(p.pending[i].hash, h))
               && (forall i: nat :: LastPending(p.pending, h, i) ==> s.kind == p.pending[i].kind)
               && (!s.ev.isOurs ==> s.kind == "")
               && (s.spam <==>
                     && !s.ev.isOurs && p.lk.catalogue.Some?
                     && exists t :: t in legs && t.token.Some? && t.token.value.address !in p.lk.catalogue.value))
  {
    var ts := p.fetched.value;
    HashesFetched(ts, h);
    if h in Groups(ts) {
      SpamIs(p.lk, wallet, p.now, h, Groups(ts)[h], PendingIndex(p.pending).Keys);
      KindKnown(p.pending, h);
    }
  }

  lemma {:induction false} HashesFetched(ts: seq<Transfer>, h: string)
    ensures h in Groups(ts) <==> exists k: nat :: First(ts, k) && ts[k].hash == h
  {
    if h in Groups(ts) {
      var t :| t in Dedup(ts) && t.hash == h;
      DedupIs(ts, t);
    }
    if k: nat :| First(ts, k) && ts[k].hash == h {
      DedupIs(ts, ts[k]);
    }
  }

  lemma {:induction false} LastOf(pending: seq<PendingTx>, h: string, i: nat) returns (last: nat)
    requires i < |pending| && EqualFold(pending[i].hash, h)
    ensures LastPending(pending, h, last)
    decreases |pending| - i
  {
    last := i;
    if j :| i < j < |pending| && EqualFold(pending[j].hash, h) {
      last := LastOf(pending, h, j);
    }
  }

  lemma {:induction false} KindKnown(pending: seq<PendingTx>, h: string)
    ensures Lower(h) in PendingIndex(pending) <==> exists i :: 0 <= i < |pending| && EqualFold(pending[i].hash, h)
    ensures forall i: nat :: LastPending(pending, h, i) ==> KindOf(PendingIndex(pending), h) == pending[i].kind
    ensures Lower(h) !in PendingIndex(pending) ==> KindOf(PendingIndex(pending), h) == ""
  {
    forall i: nat | LastPending(pending, h, i)
      ensures Lower(h) in PendingIndex(pending) && KindOf(PendingIndex(pending), h) == pending[i].kind
    {
      KindOfLast(pending, h, i);
    }
    if i :| 0 <= i < |pending| && EqualFold(pending[i].hash, h) {
      var last := LastOf(pending, h, i);
      KindOfLast(pending, h, last);
    } else {
      KindOfNone(pending, h);
    }
  }
}
