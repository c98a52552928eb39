/** Whole runs of the pending registry: both implementations mean the same
    thing, and a restart rebuilds the registry from its table. */
module PendingRuns {
  import opened Text
  import opened PendingRegistry

  /** One call, with the clock readings it makes.  `Gc` is the store's one-minute
      sweep, `Restart` a crash followed by hydration from the surviving rows. */
  datatype Op =
    | Add(tx: PendingTx)
    | Remove(hash: string, t1: Time, t2: Time)
    | Gc(t1: Time, t2: Time)
    | Restart(t: Time)

  predicate OnTime(clock: Time, op: Op) {
    match op
    case Add(_) => true
    case Remove(_, t1, t2) => 0 < t1 && clock <= t1 <= t2
    case Gc(t1, t2) => 0 < t1 && clock <= t1 <= t2
    case Restart(t) => 0 < t && clock <= t
  }

  function ClockAfter(clock: Time, op: Op): Time {
    match op
    case Add(_) => clock
    case Remove(_, _, t2) => t2
    case Gc(_, t2) => t2
    case Restart(t) => t
  }

  /** The clock never runs backwards over the calls of `ops`. */
  predicate Ordered(clock: Time, ops: seq<Op>)
    decreases ops
  {
    ops != [] ==> OnTime(clock, ops[0]) && Ordered(ClockAfter(clock, ops[0]), ops[1..])
  }

  function EndClock(clock: Time, ops: seq<Op>): Time
    decreases ops
  {
    if ops == [] then clock else EndClock(ClockAfter(clock, ops[0]), ops[1..])
  }

  predicate NoRestart(ops: seq<Op>) {
    forall i :: 0 <= i < |ops| ==> !ops[i].Restart?
  }

  function StoreStep(ck: Checksum, d: Durable, op: Op): Durable {
    match op
    case Add(tx) => StoreAdd(d, ck, tx)
    case Remove(h, t1, t2) => StoreRemove(d, h, t1, t2)
    case Gc(t1, t2) => StoreGc(d, t1, t2)
    case Restart(t) => Hydrate(d.rows, t)
  }

  function StoreRun(ck: Checksum, d: Durable, ops: seq<Op>): Durable
    decreases ops
  {
    if ops == [] then d else StoreRun(ck, StoreStep(ck, d, ops[0]), ops[1..])
  }

  /** The tracker has no sweep of its own; it collects inside Remove. */
  function TrackerStep(r: Registry, op: Op): Registry {
    match op
    case Add(tx) => Enlist(r, tx)
    case Remove(h, t1, t2) => TrackerRemove(r, h, t1, t2)
    case Gc(_, _) => r
    case Restart(_) => EMPTY
  }

  function TrackerRun(r: Registry, ops: seq<Op>): Registry
    decreases ops
  {
    if ops == [] then r else TrackerRun(TrackerStep(r, ops[0]), ops[1..])
  }

  // ---------------------------------------------------- the simple meaning

  /** Everything ever added, with the instant it stopped being active; nothing is
      ever collected. */
  datatype LedgerEntry = LedgerEntry(tx: PendingTx, removedAt: Option<Time>)
  type Ledger = map<string, LedgerEntry>

  function LedgerStep(l: Ledger, op: Op): Ledger {
    match op
    case Add(tx) => l[tx.hash := LedgerEntry(tx, None)]
    case Remove(h, t1, _) =>
      if h in l && l[h].removedAt.None? then l[h := LedgerEntry(l[h].tx, Some(t1))] else l
    case Gc(_, _) => l
    case Restart(_) => map[]
  }

  function LedgerRun(l: Ledger, ops: seq<Op>): Ledger
    decreases ops
  {
    if ops == [] then l else LedgerRun(LedgerStep(l, ops[0]), ops[1..])
  }

  ghost function LedgerListed(l: Ledger): set<PendingTx> {
    set h | h in l && l[h].removedAt.None? :: l[h].tx
  }

  /** Still active, or removed at most RecentTTL ago. */
  ghost function LedgerVisible(l: Ledger, now: Time): set<PendingTx> {
    set h | h in l && (l[h].removedAt.None? || now - l[h].removedAt.value <= RECENT_TTL) :: l[h].tx
  }

  function EntryOf(e: LedgerEntry): RecentEntry {
    RecentEntry(e.tx, if e.removedAt.Some? then e.removedAt.value else 0)
  }

  ghost predicate TracksAt(h: string, r: Registry, l: Ledger, clock: Time) {
    && (h in l && l[h].removedAt.Some? ==> 0 < l[h].removedAt.value <= clock)
    && (h in r.active <==> h in l && l[h].removedAt.None?)
    && (h in r.active ==> r.active[h] == l[h].tx)
    && (h in r.recent ==> h in l && r.recent[h] == EntryOf(l[h]))
    && (h in l && h !in r.recent ==> Expired(EntryOf(l[h]), clock))
  }

  ghost predicate Tracks(r: Registry, l: Ledger, clock: Time) {
    forall h :: TracksAt(h, r, l, clock)
  }

  lemma {:induction false} TracksMeans(r: Registry, l: Ledger, clock: Time, now: Time)
    requires Tracks(r, l, clock) && clock <= now
    ensures Listed(r) == LedgerListed(l)
    ensures Visible(r.recent, now) == LedgerVisible(l, now)
  {
    forall tx | tx in LedgerVisible(l, now) ensures tx in Visible(r.recent, now) {
      var h :| h in l && (l[h].removedAt.None? || now - l[h].removedAt.value <= RECENT_TTL) && l[h].tx == tx;
      assert TracksAt(h, r, l, clock);
      assert h in r.recent && !Expired(r.recent[h], now);
    }
    forall tx | tx in Visible(r.recent, now) ensures tx in LedgerVisible(l, now) {
      var h :| h in r.recent && !Expired(r.recent[h], now) && r.recent[h].tx == tx;
      assert TracksAt(h, r, l, clock);
    }
    forall tx | tx in LedgerListed(l) ensures tx in Listed(r) {
      var h :| h in l && l[h].removedAt.None? && l[h].tx == tx;
      assert TracksAt(h, r, l, clock);
      assert h in r.active && r.active[h] == tx;
    }
    forall tx | tx in Listed(r) ensures tx in LedgerListed(l) {
      var h :| h in r.active && r.active[h] == tx;
      assert TracksAt(h, r, l, clock);
    }
  }

  lemma {:induction false} TrackerTracks(r: Registry, l: Ledger, clock: Time, ops: seq<Op>)
    requires Tracks(r, l, clock) && Ordered(clock, ops)
    ensures Tracks(TrackerRun(r, ops), LedgerRun(l, ops), EndClock(clock, ops))
    decreases ops
  {
    if ops != [] {
      var r', l', c' := TrackerStep(r, ops[0]), LedgerStep(l, ops[0]), ClockAfter(clock, ops[0]);
      forall h ensures TracksAt(h, r', l', c') {
        assert TracksAt(h, r, l, clock);
      }
      TrackerTracks(r', l', c', ops[1..]);
    }
  }

  lemma {:induction false} StoreTracks(ck: Checksum, d: Durable, l: Ledger, clock: Time, ops: seq<Op>)
    requires Tracks(d.mem, l, clock) && Ordered(clock, ops) && NoRestart(ops)
    ensures Tracks(StoreRun(ck, d, ops).mem, LedgerRun(l, ops), EndClock(clock, ops))
    decreases ops
  {
    if ops != [] {
      var d', l', c' := StoreStep(ck, d, ops[0]), LedgerStep(l, ops[0]), ClockAfter(clock, ops[0]);
      forall h ensures TracksAt(h, d'.mem, l', c') {
        assert TracksAt(h, d.mem, l, clock);
      }
      StoreTracks(ck, d', l', c', ops[1..]);
    }
  }

  /** Two implementations, one meaning: after any calls, with sweeps at any times,
      List and Recent of the tracker and of the store are those of the ledger. */
  lemma {:induction false} SameMeaning(ck: Checksum, ops: seq<Op>, now: Time)
    requires Ordered(0, ops) && NoRestart(ops) && EndClock(0, ops) <= now
    ensures
      var tracker := TrackerRun(EMPTY, ops);
      var store := StoreRun(ck, Durable(EMPTY, map[]), ops).mem;
      var ledger := LedgerRun(map[], ops);
      && Listed(tracker) == Listed(store) == LedgerListed(ledger)
      && Visible(tracker.recent, now) == Visible(store.recent, now) == LedgerVisible(ledger, now)
  {
    TrackerTracks(EMPTY, map[], 0, ops);
    StoreTracks(ck, Durable(EMPTY, map[]), map[], 0, ops);
    TracksMeans(TrackerRun(EMPTY, ops), LedgerRun(map[], ops), EndClock(0, ops), now);
    TracksMeans(StoreRun(ck, Durable(EMPTY, map[]), ops).mem, LedgerRun(map[], ops), EndClock(0, ops), now);
  }

  // -------------------------------------------------------- what is collected

  /** An entry stamped more than five minutes before `t` is collected. */
  predicate Stale(stamp: Time, t: Time) {
    stamp + 300_000_000_000 < t
  }

  /** Memory and table stay bounded: the tracker's Remove, the store's sweep and a
      restart drop the entries and rows stamped more than five minutes ago, those and
      no others, and never one that is still pending. */
  lemma {:induction false} CollectsExactlyTheStale(ck: Checksum, r: Registry, d: Durable, op: Op, h: string)
    requires op.Remove? ==> 0 < op.t1
    ensures op.Remove? ==>
      var s := TrackerStep(r, op);
      var e := if h == op.hash && h in r.active then Some(RecentEntry(r.active[h], op.t1))
               else if h in r.recent then Some(r.recent[h]) else None;
      && (h in s.recent <==> e.Some? && (e.value.removedAt == 0 || !Stale(e.value.removedAt, op.t2)))
      && (h in s.recent ==> s.recent[h] == e.value)
      && s.active == r.active - {op.hash}
    ensures op.Gc? ==>
      var e := StoreStep(ck, d, op);
      && (h in e.rows <==> h in d.rows && (d.rows[h].removedAt.None? || !Stale(d.rows[h].removedAt.value, op.t1)))
      && (h in e.rows ==> e.rows[h] == d.rows[h]) && e.mem.active == d.mem.active
      && (h in e.mem.recent <==>
            h in d.mem.recent && (d.mem.recent[h].removedAt == 0 || !Stale(d.mem.recent[h].removedAt, op.t2)))
      && (h in e.mem.recent ==> e.mem.recent[h] == d.mem.recent[h])
    ensures op.Restart? ==>
      var e := StoreStep(ck, d, op);
      && (h in e.rows <==> h in d.rows && (d.rows[h].removedAt.None? || !Stale(d.rows[h].removedAt.value, op.t)))
      && (h in e.rows ==> e.rows[h] == d.rows[h])
  {
  }

  /** A removal stamps the row of the hash at its second reading, active or not, and
      touches no other row; an addition writes an unstamped row. */
  lemma {:induction false} RowsWritten(ck: Checksum, d: Durable, op: Op, h: string)
    ensures op.Remove? ==>
      var rows := StoreStep(ck, d, op).rows;
      && rows.Keys == d.rows.Keys
      && (h in rows && h != op.hash ==> rows[h] == d.rows[h])
      && (h in rows && h == op.hash ==> rows[h] == d.rows[h].(removedAt := Some(op.t2)))
    ensures op.Add? ==>
      var rows := StoreStep(ck, d, op).rows;
      && rows.Keys == d.rows.Keys + {op.tx.hash} && rows[op.tx.hash].removedAt.None?
      && Decode(op.tx.hash, rows[op.tx.hash]) == Some(op.tx)
      && (h in rows && h != op.tx.hash ==> rows[h] == d.rows[h])
  {
    if op.Add? {
      DecodeEncode(ck, op.tx, None);
    }
  }

  // -------------------------------------------------------- crash recovery

  /** Row and snapshot agree about one hash; memory may have dropped a removed
      entry, or stamped it earlier than the row, but never while it is visible. */
  ghost predicate MirrorsAt(h: string, rows: map<string, Row>, mem: Registry, clock: Time, decode: Decoder) {
    && (h in rows ==> decode(h, rows[h]).Some?)
    && (h in rows && rows[h].removedAt.Some? ==> 0 < rows[h].removedAt.value <= clock)
    && (h in mem.active <==> h in rows && rows[h].removedAt.None?)
    && (h in mem.active ==> decode(h, rows[h]) == Some(mem.active[h]))
    && (h in mem.active ==> h in mem.recent && mem.recent[h] == RecentEntry(mem.active[h], 0))
    && (h in mem.recent && mem.recent[h].removedAt == 0 ==> h in mem.active)
    && (h in mem.recent && h !in mem.active && !Expired(mem.recent[h], clock) ==>
          && h in rows && decode(h, rows[h]) == Some(mem.recent[h].tx)
          && rows[h].removedAt.Some? && mem.recent[h].removedAt <= rows[h].removedAt.value)
  }

  ghost predicate Mirrors(rows: map<string, Row>, mem: Registry, clock: Time, decode: Decoder) {
    forall h :: MirrorsAt(h, rows, mem, clock, decode)
  }

  /** A removal of a hash that is not active but still has a row re-stamps the row. */
  predicate Restamps(d: Durable, op: Op) {
    op.Remove? && op.hash !in d.mem.active && op.hash in d.rows
  }

  /** A removal that stamps memory and row alike. */
  predicate OneReading(op: Op) {
    op.Remove? ==> op.t1 == op.t2
  }

  predicate Plain(ck: Checksum, d: Durable, ops: seq<Op>)
    decreases ops
  {
    ops != [] ==>
      !Restamps(d, ops[0]) && OneReading(ops[0]) && Plain(ck, StoreStep(ck, d, ops[0]), ops[1..])
  }

  /** A row whose stamp is still recent at `t` has a memory entry with the same stamp. */
  ghost predicate StampKeptAt(h: string, rows: map<string, Row>, mem: Registry, t: Time) {
    h in rows && rows[h].removedAt.Some? && t - rows[h].removedAt.value <= RECENT_TTL ==>
      h in mem.recent && mem.recent[h].removedAt == rows[h].removedAt.value
  }

  ghost predicate StampsKept(rows: map<string, Row>, mem: Registry, t: Time) {
    forall h :: StampKeptAt(h, rows, mem, t)
  }

  /** The decoder reads a row's tx and ignores its stamp. */
  ghost predicate IgnoresStamp(rows: map<string, Row>, decode: Decoder) {
    forall h, s :: h in rows ==> decode(h, rows[h].(removedAt := s)) == decode(h, rows[h])
  }

  /** The decoder files a row under the hash it was stored by. */
  ghost predicate KeepsHash(rows: map<string, Row>, decode: Decoder) {
    forall h :: h in rows && decode(h, rows[h]).Some? ==> decode(h, rows[h]).value.hash == h
  }

  lemma {:induction false} MirrorAdd(d: Durable, clock: Time, tx: PendingTx, row: Row, decode: Decoder)
    requires Mirrors(d.rows, d.mem, clock, decode)
    requires decode(tx.hash, row) == Some(tx) && row.removedAt.None?
    ensures Mirrors(d.rows[tx.hash := row], Enlist(d.mem, tx), clock, decode)
    ensures StampsKept(d.rows, d.mem, clock) ==> StampsKept(d.rows[tx.hash := row], Enlist(d.mem, tx), clock)
  {
    var rows, mem := d.rows[tx.hash := row], Enlist(d.mem, tx);
    forall h ensures MirrorsAt(h, rows, mem, clock, decode) {
      assert MirrorsAt(h, d.rows, d.mem, clock, decode);
    }
    if StampsKept(d.rows, d.mem, clock) {
      forall h ensures StampKeptAt(h, rows, mem, clock) {
        assert StampKeptAt(h, d.rows, d.mem, clock);
      }
    }
  }

  lemma {:induction false} MirrorRemove(d: Durable, clock: Time, hash: string, t1: Time, t2: Time, decode: Decoder)
    requires Mirrors(d.rows, d.mem, clock, decode) && IgnoresStamp(d.rows, decode)
    requires 0 < t1 && clock <= t1 <= t2
    ensures
      var e := StoreRemove(d, hash, t1, t2);
      && Mirrors(e.rows, e.mem, t2, decode)
      && (StampsKept(d.rows, d.mem, clock) && t1 == t2 && (hash in d.mem.active || hash !in d.rows) ==>
            StampsKept(e.rows, e.mem, t2))
  {
    var e := StoreRemove(d, hash, t1, t2);
    forall h ensures MirrorsAt(h, e.rows, e.mem, t2, decode) {
      assert MirrorsAt(h, d.rows, d.mem, clock, decode);
    }
    if StampsKept(d.rows, d.mem, clock) && t1 == t2 && (hash in d.mem.active || hash !in d.rows) {
      forall h ensures StampKeptAt(h, e.rows, e.mem, t2) {
        assert StampKeptAt(h, d.rows, d.mem, clock) && MirrorsAt(h, d.rows, d.mem, clock, decode);
      }
    }
  }

  lemma {:induction false} MirrorGc(d: Durable, clock: Time, t1: Time, t2: Time, decode: Decoder)
    requires Mirrors(d.rows, d.mem, clock, decode)
    requires 0 < t1 && clock <= t1 <= t2
    ensures
      var e := StoreGc(d, t1, t2);
      && Mirrors(e.rows, e.mem, t2, decode)
      && (StampsKept(d.rows, d.mem, clock) ==> StampsKept(e.rows, e.mem, t2))
  {
    var e := StoreGc(d, t1, t2);
    forall h ensures MirrorsAt(h, e.rows, e.mem, t2, decode) {
      assert MirrorsAt(h, d.rows, d.mem, clock, decode);
    }
    if StampsKept(d.rows, d.mem, clock) {
      forall h ensures StampKeptAt(h, e.rows, e.mem, t2) {
        assert StampKeptAt(h, d.rows, d.mem, clock);
      }
    }
  }

  /** Hydrating at `t` rebuilds exactly the active map, and shows at least what
      memory would have shown. */
  lemma {:induction false} MirrorRestart(d: Durable, clock: Time, t: Time, decode: Decoder)
    requires Mirrors(d.rows, d.mem, clock, decode) && clock <= t
    ensures
      var kept := Purge(d.rows, t);
      var r := LoadedBy(kept, decode);
      && Mirrors(kept, r, t, decode) && StampsKept(kept, r, t)
      && r.active == d.mem.active
      && (forall now :: t <= now ==> Visible(d.mem.recent, now) <= Visible(r.recent, now))
  {
    var kept := Purge(d.rows, t);
    var r := LoadedBy(kept, decode);
    forall h ensures MirrorsAt(h, kept, r, t, decode) && StampKeptAt(h, kept, r, t)
      ensures h in r.active <==> h in d.mem.active
      ensures h in r.active ==> r.active[h] == d.mem.active[h]
    {
      assert MirrorsAt(h, d.rows, d.mem, clock, decode);
    }
    forall now, tx | t <= now && tx in Visible(d.mem.recent, now) ensures tx in Visible(r.recent, now) {
      var h :| h in d.mem.recent && !Expired(d.mem.recent[h], now) && d.mem.recent[h].tx == tx;
      assert MirrorsAt(h, d.rows, d.mem, clock, decode);
      assert h in kept && r.recent[h].tx == tx && !Expired(r.recent[h], now);
    }
  }

  /** What Recent shows from `t` on, live and recovered at `t`. */
  ghost predicate SameRecent(d: Durable, t: Time, decode: Decoder) {
    forall now :: t <= now ==> Visible(d.mem.recent, now) == Visible(LoadedBy(Purge(d.rows, t), decode).recent, now)
  }

  lemma {:induction false} KeptStampsShowAlike(d: Durable, clock: Time, t: Time, decode: Decoder)
    requires Mirrors(d.rows, d.mem, clock, decode) && clock <= t && StampsKept(d.rows, d.mem, t)
    ensures SameRecent(d, t, decode)
  {
    MirrorRestart(d, clock, t, decode);
    var r := LoadedBy(Purge(d.rows, t), decode);
    forall now, tx | t <= now && tx in Visible(r.recent, now) ensures tx in Visible(d.mem.recent, now) {
      var h :| h in r.recent && !Expired(r.recent[h], now) && r.recent[h].tx == tx;
      assert StampKeptAt(h, d.rows, d.mem, t) && MirrorsAt(h, d.rows, d.mem, clock, decode);
      assert h in d.mem.recent && d.mem.recent[h].tx == tx && !Expired(d.mem.recent[h], now);
    }
  }

  lemma {:induction false} SameRecentKeepsStamp(d: Durable, clock: Time, t: Time, decode: Decoder, h: string)
    requires Mirrors(d.rows, d.mem, clock, decode) && clock <= t && SameRecent(d, t, decode)
    requires Keyed(d.mem) && KeepsHash(d.rows, decode)
    ensures StampKeptAt(h, d.rows, d.mem, t)
  {
    if h in d.rows && d.rows[h].removedAt.Some? && t - d.rows[h].removedAt.value <= RECENT_TTL {
      assert MirrorsAt(h, d.rows, d.mem, clock, decode);
      var last := d.rows[h].removedAt.value + RECENT_TTL;
      var r := LoadedBy(Purge(d.rows, t), decode);
      var tx := decode(h, d.rows[h]).value;
      assert h in r.recent && !Expired(r.recent[h], last) && r.recent[h].tx == tx;
      assert tx in Visible(r.recent, last) && tx in Visible(d.mem.recent, last);
      var g :| g in d.mem.recent && !Expired(d.mem.recent[g], last) && d.mem.recent[g].tx == tx;
      assert g == h;
    }
  }

  /** The recovered Recent is the live one from `t` on exactly when every row whose
      stamp is still recent at `t` carries the stamp memory has. */
  lemma {:induction false} RecentRecoveredIff(d: Durable, clock: Time, t: Time, decode: Decoder)
    requires Mirrors(d.rows, d.mem, clock, decode) && clock <= t
    requires Keyed(d.mem) && KeepsHash(d.rows, decode)
    ensures SameRecent(d, t, decode) <==> StampsKept(d.rows, d.mem, t)
  {
    if SameRecent(d, t, decode) {
      forall h ensures StampKeptAt(h, d.rows, d.mem, t) {
        SameRecentKeepsStamp(d, clock, t, decode, h);
      }
    }
    if StampsKept(d.rows, d.mem, t) {
      KeptStampsShowAlike(d, clock, t, decode);
    }
  }

  lemma {:induction false} DecodeIgnoresStamp(rows: map<string, Row>)
    ensures IgnoresStamp(rows, Decode)
  {
  }

  /** Every run of the store, restarts included, keeps the table a mirror. */
  lemma {:induction false} RunMirrors(ck: Checksum, d: Durable, clock: Time, ops: seq<Op>)
    requires Mirrors(d.rows, d.mem, clock, Decode) && Ordered(clock, ops)
    ensures
      var e := StoreRun(ck, d, ops);
      && Mirrors(e.rows, e.mem, EndClock(clock, ops), Decode)
      && (StampsKept(d.rows, d.mem, clock) && Plain(ck, d, ops) ==>
            StampsKept(e.rows, e.mem, EndClock(clock, ops)))
    decreases ops
  {
    if ops != [] {
      match ops[0] {
        case Add(tx) =>
          DecodeEncode(ck, tx, None);
          MirrorAdd(d, clock, tx, Encode(ck, tx, None), Decode);
        case Remove(h, t1, t2) =>
          DecodeIgnoresStamp(d.rows);
          MirrorRemove(d, clock, h, t1, t2, Decode);
        case Gc(t1, t2) =>
          MirrorGc(d, clock, t1, t2, Decode);
        case Restart(t) =>
          MirrorRestart(d, clock, t, Decode);
      }
      RunMirrors(ck, StoreStep(ck, d, ops[0]), ClockAfter(clock, ops[0]), ops[1..]);
    }
  }

  lemma {:induction false} DecodeKeepsHash(rows: map<string, Row>)
    ensures KeepsHash(rows, Decode)
  {
  }

  lemma {:induction false} LoadedIsKeyed(rows: map<string, Row>, decode: Decoder)
    requires KeepsHash(rows, decode)
    ensures Keyed(LoadedBy(rows, decode))
  {
  }

  lemma {:induction false} RunKeyed(ck: Checksum, d: Durable, ops: seq<Op>)
    requires Keyed(d.mem)
    ensures Keyed(StoreRun(ck, d, ops).mem)
    decreases ops
  {
    if ops != [] {
      if ops[0].Restart? {
        DecodeKeepsHash(Purge(d.rows, ops[0].t));
        LoadedIsKeyed(Purge(d.rows, ops[0].t), Decode);
      }
      RunKeyed(ck, StoreStep(ck, d, ops[0]), ops[1..]);
    }
  }

  /** Crash recovery, after any run from an empty store: the active map is rebuilt, no
      recent transaction is lost, and Recent is the same from then on exactly when the
      stamps still recent agree; they do when no removal hits a hash that is not active
      but has a row, and each removal stamps memory and row alike. */
  lemma {:induction false} CrashRecovery(ck: Checksum, ops: seq<Op>, t: Time, now: Time)
    requires Ordered(0, ops) && EndClock(0, ops) <= t <= now
    ensures
      var live := StoreRun(ck, Durable(EMPTY, map[]), ops);
      var back := Hydrate(live.rows, t).mem;
      && back.active == live.mem.active
      && Visible(live.mem.recent, now) <= Visible(back.recent, now)
      && (SameRecent(live, t, Decode) <==> StampsKept(live.rows, live.mem, t))
      && (Plain(ck, Durable(EMPTY, map[]), ops) ==> SameRecent(live, t, Decode))
  {
    var d := Durable(EMPTY, map[]);
    var live := StoreRun(ck, d, ops);
    RunMirrors(ck, d, 0, ops);
    RunKeyed(ck, d, ops);
    DecodeKeepsHash(live.rows);
    MirrorRestart(live, EndClock(0, ops), t, Decode);
    RecentRecoveredIff(live, EndClock(0, ops), t, Decode);
    if Plain(ck, d, ops) {
      StillKept(live.rows, live.mem, EndClock(0, ops), t);
    }
  }

  lemma {:induction false} StillKept(rows: map<string, Row>, mem: Registry, clock: Time, t: Time)
    requires StampsKept(rows, mem, clock) && clock <= t
    ensures StampsKept(rows, mem, t)
  {
    forall h ensures StampKeptAt(h, rows, mem, t) {
      assert StampKeptAt(h, rows, mem, clock);
    }
  }

  lemma {:induction false} RemovedTwice(ck: Checksum, tx: PendingTx)
    ensures
      var ops := [Add(tx), Remove(tx.hash, 1, 1), Remove(tx.hash, 2, 2)];
      && Ordered(0, ops) && EndClock(0, ops) == 2
      && StoreRun(ck, Durable(EMPTY, map[]), ops) ==
           Durable(Registry(map[], map[tx.hash := RecentEntry(tx, 1)]),
                   map[tx.hash := Encode(ck, tx, None).(removedAt := Some(2))])
  {
    var ops := [Add(tx), Remove(tx.hash, 1, 1), Remove(tx.hash, 2, 2)];
    var d1 := StoreAdd(Durable(EMPTY, map[]), ck, tx);
    var d2 := StoreRemove(d1, tx.hash, 1, 1);
    assert ops[1..] == [ops[1], ops[2]] && ops[1..][1..] == [ops[2]];
    assert StoreRun(ck, Durable(EMPTY, map[]), ops) == StoreRun(ck, d1, ops[1..]) == StoreRun(ck, d2, ops[1..][1..])
        == StoreRun(ck, StoreRemove(d2, tx.hash, 2, 2), []);
    assert d2.mem == Registry(map[], map[tx.hash := RecentEntry(tx, 1)]);
    assert StoreRemove(d2, tx.hash, 2, 2).mem == d2.mem;
    assert Ordered(1, ops[1..][1..]) && Ordered(0, ops[1..]);
    assert EndClock(0, ops) == EndClock(0, ops[1..]) == EndClock(1, ops[1..][1..]) == EndClock(2, []);
  }

  lemma {:induction false} StaleRowShown(tx: PendingTx, ck: Checksum, decode: Decoder)
    requires IgnoresStamp(map[tx.hash := Encode(ck, tx, None)], decode)
    requires decode(tx.hash, Encode(ck, tx, None)) == Some(tx)
    ensures
      var live := StoreRun(ck, Durable(EMPTY, map[]), [Add(tx), Remove(tx.hash, 1, 1), Remove(tx.hash, 2, 2)]);
      var now := RECENT_TTL + 2;
      && Visible(live.mem.recent, now) == {}
      && Visible(LoadedBy(Purge(live.rows, now), decode).recent, now) == {tx}
  {
    RemovedTwice(ck, tx);
    var now := RECENT_TTL + 2;
    var row := Encode(ck, tx, None);
    var rows := map[tx.hash := row.(removedAt := Some(2))];
    assert map[tx.hash := row][tx.hash] == row;
    assert decode(tx.hash, rows[tx.hash]) == Some(tx);
    assert Purge(rows, now) == rows;
    assert LoadedBy(rows, decode).recent == map[tx.hash := RecentEntry(tx, 2)];
    assert tx.hash in LoadedBy(rows, decode).recent;
  }

  /** A second Remove of the same hash (the janitor's, then SendTx's own) makes the
      recovered Recent show an entry the live one has already dropped. */
  lemma {:induction false} SecondRemoveOutlivesMemory(ck: Checksum, tx: PendingTx)
    ensures
      var live := StoreRun(ck, Durable(EMPTY, map[]), [Add(tx), Remove(tx.hash, 1, 1), Remove(tx.hash, 2, 2)]);
      var now := RECENT_TTL + 2;
      && Visible(live.mem.recent, now) == {}
      && Visible(Hydrate(live.rows, now).mem.recent, now) == {tx}
  {
    DecodeEncode(ck, tx, None);
    DecodeIgnoresStamp(map[tx.hash := Encode(ck, tx, None)]);
    StaleRowShown(tx, ck, Decode);
  }
}
