/** The registry of broadcast-but-unmined transactions: the in-memory tracker
    (pkg/ethkit/pending.go) and the store that mirrors it into the table
    `pending_txs` (internal/adapter/eth/pending_store.go).  Each class is
    proved against functions on the value types below; PendingRuns states what
    whole runs of those functions guarantee.

    An instant is a count of nanoseconds and 0 is Go's zero time.  Every method
    takes the clock readings it makes as parameters. */
module PendingRegistry {
  import opened Text

  type Time = nat
  type u64 = n: nat | n < U64

  const RECENT_TTL: nat := 300_000_000_000

  datatype PendingTx = PendingTx(
    hash: string, from: Address, to: Address, value: int, nonce: u64,
    gasTip: int, gasCap: int, submittedAt: Time, kind: string)

  /** `removedAt == 0` marks an entry that is still pending. */
  datatype RecentEntry = RecentEntry(tx: PendingTx, removedAt: Time)

  datatype Registry = Registry(active: map<string, PendingTx>, recent: map<string, RecentEntry>)

  const EMPTY := Registry(map[], map[])

  // ------------------------------------------------ the two maps in memory

  predicate Expired(e: RecentEntry, now: Time) {
    e.removedAt != 0 && now - e.removedAt > RECENT_TTL
  }

  function Enlist(r: Registry, tx: PendingTx): Registry {
    Registry(r.active[tx.hash := tx], r.recent[tx.hash := RecentEntry(tx, 0)])
  }

  function Retire(r: Registry, hash: string, now: Time): Registry {
    Registry(r.active - {hash},
             if hash in r.active then r.recent[hash := RecentEntry(r.active[hash], now)] else r.recent)
  }

  function Sweep(recent: map<string, RecentEntry>, now: Time): map<string, RecentEntry> {
    map h | h in recent && !Expired(recent[h], now) :: recent[h]
  }

  ghost function Listed(r: Registry): set<PendingTx> {
    r.active.Values
  }

  ghost function Visible(recent: map<string, RecentEntry>, now: Time): set<PendingTx> {
    set h | h in recent && !Expired(recent[h], now) :: recent[h].tx
  }

  predicate Keyed(r: Registry) {
    && (forall h :: h in r.active ==> r.active[h].hash == h)
    && (forall h :: h in r.recent ==> r.recent[h].tx.hash == h)
  }

  /** `out` is some enumeration, without repetition, of the set `s`. */
  ghost predicate Enumerates<T(!new)>(out: seq<T>, s: set<T>) {
    NoDup(out) && Elems(out) == s
  }

  method SweepEntries(recent: map<string, RecentEntry>, now: Time) returns (out: map<string, RecentEntry>)
    ensures out == Sweep(recent, now)
  {
    out := recent;
    var todo := recent.Keys;
    while todo != {}
      invariant todo <= recent.Keys
      invariant out == map h | h in recent && (h in todo || !Expired(recent[h], now)) :: recent[h]
    {
      var h :| h in todo;
      if Expired(recent[h], now) {
        out := out - {h};
      }
      todo := todo - {h};
    }
  }

  method CollectActive(r: Registry) returns (out: seq<PendingTx>)
    requires Keyed(r)
    ensures Enumerates(out, Listed(r))
  {
    out := [];
    var todo := r.active.Keys;
    while todo != {}
      invariant todo <= r.active.Keys
      invariant NoDup(out)
      invariant forall tx :: tx in out <==> tx.hash in r.active && tx.hash !in todo && r.active[tx.hash] == tx
    {
      var h :| h in todo;
      out := out + [r.active[h]];
      todo := todo - {h};
    }
    assert forall tx :: tx in Listed(r) <==> tx.hash in r.active && r.active[tx.hash] == tx;
  }

  method CollectVisible(r: Registry, now: Time) returns (out: seq<PendingTx>)
    requires Keyed(r)
    ensures Enumerates(out, Visible(r.recent, now))
  {
    out := [];
    var todo := r.recent.Keys;
    while todo != {}
      invariant todo <= r.recent.Keys
      invariant NoDup(out)
      invariant forall tx :: tx in out <==>
        tx.hash in r.recent && tx.hash !in todo && !Expired(r.recent[tx.hash], now) && r.recent[tx.hash].tx == tx
    {
      var h :| h in todo;
      if !Expired(r.recent[h], now) {
        out := out + [r.recent[h].tx];
      }
      todo := todo - {h};
    }
    assert forall tx :: tx in Visible(r.recent, now) <==>
      tx.hash in r.recent && !Expired(r.recent[tx.hash], now) && r.recent[tx.hash].tx == tx;
  }

  // ----------------------------------------------------- in-memory tracker

  function TrackerRemove(r: Registry, hash: string, t1: Time, t2: Time): Registry {
    var s := Retire(r, hash, t1);
    Registry(s.active, Sweep(s.recent, t2))
  }

  class PendingTracker {
    var txs: map<string, PendingTx>
    var recent: map<string, RecentEntry>

    ghost predicate Valid() reads this { Keyed(View()) }

    function View(): Registry reads this { Registry(txs, recent) }

    constructor ()
      ensures Valid() && View() == EMPTY
    {
      txs, recent := map[], map[];
    }

    method Add(tx: PendingTx)
      requires Valid()
      modifies this
      ensures Valid() && View() == Enlist(old(View()), tx)
    {
      txs := txs[tx.hash := tx];
      recent := recent[tx.hash := RecentEntry(tx, 0)];
    }

    /** `t1` stamps the entry, `t2` drives the opportunistic collection. */
    method Remove(hash: string, t1: Time, t2: Time)
      requires Valid()
      modifies this
      ensures Valid() && View() == TrackerRemove(old(View()), hash, t1, t2)
    {
      if hash in txs {
        recent := recent[hash := RecentEntry(txs[hash], t1)];
      }
      txs := txs - {hash};
      recent := SweepEntries(recent, t2);
    }

    method List() returns (out: seq<PendingTx>)
      requires Valid()
      ensures Enumerates(out, Listed(View()))
    {
      out := CollectActive(View());
    }

    method Recent(now: Time) returns (out: seq<PendingTx>)
      requires Valid()
      ensures Enumerates(out, Visible(recent, now))
    {
      out := CollectVisible(View(), now);
    }
  }

  // --------------------------------------------------- the durable mirror

  /** A row of `pending_txs` beside its primary key, as the column types hold it. */
  datatype Row = Row(
    from: string, to: string, value: string, nonce: int, gasTip: string, gasCap: string,
    kind: string, submittedAt: Time, removedAt: Option<Time>)

  function Encode(ck: Checksum, tx: PendingTx, removedAt: Option<Time>): Row {
    Row(AddressHex(tx.from, ck), AddressHex(tx.to, ck), PrintInt(tx.value), ToInt64(tx.nonce),
        PrintInt(tx.gasTip), PrintInt(tx.gasCap), tx.kind, tx.submittedAt, removedAt)
  }

  /** parseWei: malformed text reads as zero. */
  function ParseWei(s: string): int {
    match ParseInt(s)
    case None => 0
    case Some(n) => n
  }

  /** One scanned row; None when an address column does not parse. */
  function Decode(hash: string, row: Row): Option<PendingTx> {
    match (NewAddress(row.from), NewAddress(row.to))
    case (Some(from), Some(to)) =>
      Some(PendingTx(hash, from, to, ParseWei(row.value), ToUint64(row.nonce),
                     ParseWei(row.gasTip), ParseWei(row.gasCap), row.submittedAt, row.kind))
    case _ => None
  }

  lemma {:induction false} DecodeEncode(ck: Checksum, tx: PendingTx, removedAt: Option<Time>)
    ensures Decode(tx.hash, Encode(ck, tx, removedAt)) == Some(tx)
  {
    AddressRoundTrip(tx.from, ck);
    AddressRoundTrip(tx.to, ck);
    ParsePrintInt(tx.value);
    ParsePrintInt(tx.gasTip);
    ParsePrintInt(tx.gasCap);
    Uint64ThroughInt64(tx.nonce);
  }

  /** `row` says `tx`, read by the parsers alone: both addresses, the amounts (text that
      is no number counts as zero), and the nonce, from 2^63 on a negative number. */
  predicate Says(row: Row, tx: PendingTx) {
    && NewAddress(row.from) == Some(tx.from) && NewAddress(row.to) == Some(tx.to)
    && Amount(row.value, tx.value) && Amount(row.gasTip, tx.gasTip) && Amount(row.gasCap, tx.gasCap)
    && SameNonce(row.nonce, tx.nonce)
    && tx.kind == row.kind && tx.submittedAt == row.submittedAt
  }

  predicate Amount(s: string, n: int) {
    n == match ParseInt(s)
         case Some(v) => v
         case None => 0
  }

  /** A 64-bit column holds the nonce as a signed number. */
  predicate SameNonce(column: int, nonce: u64) {
    -0x8000_0000_0000_0000 <= column < 0x8000_0000_0000_0000 ==>
      column == if nonce < 0x8000_0000_0000_0000 then nonce else nonce - 0x1_0000_0000_0000_0000
  }

  /** A written row says its transaction, in columns that are all numbers. */
  lemma {:induction false} EncodeSays(ck: Checksum, tx: PendingTx, removedAt: Option<Time>)
    ensures
      var row := Encode(ck, tx, removedAt);
      && Says(row, tx) && row.removedAt == removedAt
      && ParseInt(row.value).Some? && ParseInt(row.gasTip).Some? && ParseInt(row.gasCap).Some?
      && -0x8000_0000_0000_0000 <= row.nonce < 0x8000_0000_0000_0000
  {
    AddressRoundTrip(tx.from, ck);
    AddressRoundTrip(tx.to, ck);
    AmountPrinted(tx.value);
    AmountPrinted(tx.gasTip);
    AmountPrinted(tx.gasCap);
    NonceColumn(tx.nonce);
  }

  lemma {:induction false} AmountPrinted(n: int)
    ensures Amount(PrintInt(n), n) && ParseInt(PrintInt(n)).Some?
  {
    ParsePrintInt(n);
  }

  lemma {:induction false} NonceColumn(nonce: u64)
    ensures SameNonce(ToInt64(nonce), nonce)
    ensures -0x8000_0000_0000_0000 <= ToInt64(nonce) < 0x8000_0000_0000_0000
  {
  }

  lemma {:induction false} ColumnNonce(column: int)
    ensures SameNonce(column, ToUint64(column))
  {
  }

  /** A row is read exactly when both its addresses parse, as what it says. */
  lemma {:induction false} DecodeSays(hash: string, row: Row)
    ensures
      var tx := Decode(hash, row);
      && (tx.Some? <==> NewAddress(row.from).Some? && NewAddress(row.to).Some?)
      && (tx.Some? ==> tx.value.hash == hash && Says(row, tx.value))
  {
    ColumnNonce(row.nonce);
  }

  datatype Durable = Durable(mem: Registry, rows: map<string, Row>)

  /** DELETE ... WHERE removed_at IS NOT NULL AND removed_at < now - TTL. */
  function Purge(rows: map<string, Row>, now: Time): map<string, Row> {
    map h | h in rows && !(rows[h].removedAt.Some? && rows[h].removedAt.value < now - RECENT_TTL) :: rows[h]
  }

  function StoreAdd(d: Durable, ck: Checksum, tx: PendingTx): Durable {
    Durable(Enlist(d.mem, tx), d.rows[tx.hash := Encode(ck, tx, None)])
  }

  /** Memory keeps the stamp of an active hash; UPDATE re-stamps any row of the hash. */
  function StoreRemove(d: Durable, hash: string, t1: Time, t2: Time): Durable {
    Durable(Retire(d.mem, hash, t1),
            if hash in d.rows then d.rows[hash := d.rows[hash].(removedAt := Some(t2))] else d.rows)
  }

  function StoreGc(d: Durable, t1: Time, t2: Time): Durable {
    Durable(Registry(d.mem.active, Sweep(d.mem.recent, t2)), Purge(d.rows, t1))
  }

  type Decoder = (string, Row) -> Option<PendingTx>

  /** What the maps hold after scanning `rows` into empty maps. */
  function LoadedBy(rows: map<string, Row>, decode: Decoder): Registry {
    Registry(
      map h | h in rows && rows[h].removedAt.None? && decode(h, rows[h]).Some? :: decode(h, rows[h]).value,
      map h | h in rows && decode(h, rows[h]).Some? ::
        RecentEntry(decode(h, rows[h]).value,
                    if rows[h].removedAt.Some? then rows[h].removedAt.value else 0))
  }

  function Loaded(rows: map<string, Row>): Registry {
    LoadedBy(rows, Decode)
  }

  function Hydrate(rows: map<string, Row>, now: Time): Durable {
    Durable(Loaded(Purge(rows, now)), Purge(rows, now))
  }

  /** A row that can be read is loaded among the recent entries with its stamp, and
      among the active ones when it has none; nothing else is loaded. */
  lemma {:induction false} LoadsRows(rows: map<string, Row>, decode: Decoder, h: string)
    ensures
      var r := LoadedBy(rows, decode);
      && (h in r.recent <==> h in rows && decode(h, rows[h]).Some?)
      && (h in r.active <==> h in r.recent && rows[h].removedAt.None?)
      && (h in r.recent ==> decode(h, rows[h]) == Some(r.recent[h].tx))
      && (h in r.active ==> r.recent[h] == RecentEntry(r.active[h], 0))
      && (h in r.recent && rows[h].removedAt.Some? ==> r.recent[h].removedAt == rows[h].removedAt.value)
  {
  }

  /** Hydration shows each row whose addresses parse, unless its stamp is more than five
      minutes old, as what the row says; active when it has no stamp. */
  lemma {:induction false} HydrateShows(rows: map<string, Row>, now: Time, h: string)
    ensures
      var r := Hydrate(rows, now).mem;
      && (h in r.recent <==>
            && h in rows && NewAddress(rows[h].from).Some? && NewAddress(rows[h].to).Some?
            && (rows[h].removedAt.Some? ==> now <= rows[h].removedAt.value + 300_000_000_000))
      && (h in r.recent ==> r.recent[h].tx.hash == h && Says(rows[h], r.recent[h].tx))
      && (h in r.recent && rows[h].removedAt.Some? ==> r.recent[h].removedAt == rows[h].removedAt.value)
      && (h in r.active <==> h in r.recent && rows[h].removedAt.None?)
      && (h in r.active ==> r.recent[h] == RecentEntry(r.active[h], 0))
  {
    LoadsRows(Purge(rows, now), Decode, h);
    if h in rows {
      DecodeSays(h, rows[h]);
    }
  }

  method ScanRows(rows: map<string, Row>, decode: Decoder) returns (r: Registry)
    ensures r == LoadedBy(rows, decode)
  {
    ghost var want := LoadedBy(rows, decode);
    var active: map<string, PendingTx> := map[];
    var recent: map<string, RecentEntry> := map[];
    var todo := rows.Keys;
    while todo != {}
      invariant todo <= rows.Keys
      invariant active.Keys == want.active.Keys - todo && recent.Keys == want.recent.Keys - todo
      invariant forall h :: h in active ==> active[h] == want.active[h]
      invariant forall h :: h in recent ==> recent[h] == want.recent[h]
    {
      var h :| h in todo;
      todo := todo - {h};
      var row := rows[h];
      var tx := decode(h, row);
      if tx.Some? {
        if row.removedAt.Some? {
          recent := recent[h := RecentEntry(tx.value, row.removedAt.value)];
        } else {
          active := active[h := tx.value];
          recent := recent[h := RecentEntry(tx.value, 0)];
        }
      }
    }
    assert active == want.active;
    assert recent == want.recent;
    r := Registry(active, recent);
  }

  class PendingStore {
    var active: map<string, PendingTx>
    var recent: map<string, RecentEntry>
    var rows: map<string, Row>
    const ck: Checksum

    ghost predicate Valid() reads this { Keyed(Memory()) }

    function Memory(): Registry reads this { Registry(active, recent) }

    ghost function View(): Durable reads this { Durable(Memory(), rows) }

    /** NewPendingStore: hydrate the snapshot from the rows a previous process left. */
    constructor (ck: Checksum, stored: map<string, Row>, now: Time)
      ensures Valid() && this.ck == ck && View() == Hydrate(stored, now)
    {
      var kept := Purge(stored, now);
      var loaded := ScanRows(kept, Decode);
      this.ck := ck;
      active, recent, rows := loaded.active, loaded.recent, kept;
    }

    method Add(tx: PendingTx)
      requires Valid()
      modifies this
      ensures Valid() && View() == StoreAdd(old(View()), ck, tx)
    {
      active := active[tx.hash := tx];
      recent := recent[tx.hash := RecentEntry(tx, 0)];
      rows := rows[tx.hash := Encode(ck, tx, None)];
    }

    /** `t1` stamps memory, `t2` the row. */
    method Remove(hash: string, t1: Time, t2: Time)
      requires Valid()
      modifies this
      ensures Valid() && View() == StoreRemove(old(View()), hash, t1, t2)
    {
      if hash in active {
        recent := recent[hash := RecentEntry(active[hash], t1)];
      }
      active := active - {hash};
      if hash in rows {
        rows := rows[hash := rows[hash].(removedAt := Some(t2))];
      }
    }

    method Gc(t1: Time, t2: Time)
      requires Valid()
      modifies this
      ensures Valid() && View() == StoreGc(old(View()), t1, t2)
    {
      rows := Purge(rows, t1);
      recent := SweepEntries(recent, t2);
    }

    method List() returns (out: seq<PendingTx>)
      requires Valid()
      ensures Enumerates(out, Listed(Memory()))
    {
      out := CollectActive(Memory());
    }

    method Recent(now: Time) returns (out: seq<PendingTx>)
      requires Valid()
      ensures Enumerates(out, Visible(recent, now))
    {
      out := CollectVisible(Memory(), now);
    }
  }
}
