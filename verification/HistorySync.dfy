/** History synchronisation (internal/usecase/history/usecase.go): several
    paginated streams and one detached gas lookup per stored row all write the same
    table, and any fetch, write or lookup may fail.  Whatever the interleaving, a sync
    without failures leaves the same table, and one with failures a sound part of it
    that the next sync completes. */
module HistorySync {
  import opened Text
  import opened PendingRegistry
  import opened WatcherLegs
  import opened HistoryTable

  // ------------------------------------------------------------ from the chain

  /** ASCII letters and digits only, in upper case. */
  function NormalizeAsset(s: string): string {
    if s == [] then []
    else
      var c := s[0];
      var rest := NormalizeAsset(s[1..]);
      if 'A' <= c <= 'Z' || '0' <= c <= '9' then [c] + rest
      else if 'a' <= c <= 'z' then [(c as int - 32) as char] + rest
      else rest
  }

  lemma {:induction false} NormalizeAssetIsCanonical(s: string)
    ensures NormalizeAsset(NormalizeAsset(s)) == NormalizeAsset(s)
    ensures forall i :: 0 <= i < |NormalizeAsset(s)| ==>
      'A' <= NormalizeAsset(s)[i] <= 'Z' || '0' <= NormalizeAsset(s)[i] <= '9'
  {
    if s != [] {
      NormalizeAssetIsCanonical(s[1..]);
      var rest := NormalizeAsset(s[1..]);
      var n := NormalizeAsset(s);
      if n != rest {
        assert n[1..] == rest;
      }
    }
  }

  /** Letter by letter: digits and capitals stay, small letters become capitals, and
      everything else goes. */
  lemma {:induction false} NormalizeAssetIs(s: string, c: char)
    ensures NormalizeAsset(s + [c]) == NormalizeAsset(s) + NormalizeAsset([c])
    ensures 'A' <= c <= 'Z' || '0' <= c <= '9' ==> NormalizeAsset([c]) == [c]
    ensures 'a' <= c <= 'z' ==> |NormalizeAsset([c])| == 1 && NormalizeAsset([c])[0] as int + 32 == c as int
    ensures !('A' <= c <= 'Z' || '0' <= c <= '9' || 'a' <= c <= 'z') ==> NormalizeAsset([c]) == ""
  {
    assert [c][1..] == [];
    if s == [] {
      assert s + [c] == [c];
    } else {
      assert (s + [c])[1..] == s[1..] + [c];
      NormalizeAssetIs(s[1..], c);
    }
  }

  predicate PlainSymbol(s: string) {
    forall i :: 0 <= i < |s| ==> 'A' <= s[i] <= 'Z' || '0' <= s[i] <= '9'
  }

  lemma {:induction false} PlainSymbolStays(s: string)
    requires PlainSymbol(s)
    ensures NormalizeAsset(s) == s
  {
    if s != [] {
      assert forall i :: 0 <= i < |s| - 1 ==> s[1..][i] == s[i + 1];
      PlainSymbolStays(s[1..]);
      assert s == [s[0]] + s[1..];
    }
  }

  function EntityOf(id: string, t: Transfer, now: Time): Tx {
    Tx(id, t.uniqueId, t.hash, t.from, t.to, t.value, NormalizeAsset(t.asset), t.category, t.blockNumber,
       t.timestamp, now, "", "", false, "", "", "", "")
  }

  /** What the sync asks: the verified-token list (None: not wired) and, per hash,
      the formatted gas cost of its receipt (None: no receipt yet). */
  datatype Chain = Chain(verified: Option<set<Address>>, fee: string -> Option<string>)

  predicate SpamTransfer(c: Chain, t: Transfer) {
    c.verified.Some? && t.token.Some? && t.token.value.address !in c.verified.value
  }

  // ------------------------------------------------------------- interleavings

  /** The transfers each direction has still to store, in page order; the hashes
      whose gas lookups are still running; the UniqueIDs stored so far, those that a
      failure dropped, and the hashes whose fee a failed lookup did not bring. */
  datatype Sync = Sync(rows: Table, streams: seq<seq<Transfer>>, lookups: multiset<string>,
                       stored: set<string>, dropped: set<string>, lost: set<string>)

  datatype Step =
    | Store(direction: nat, id: string)   // the next transfer of a direction, with a fresh row id
    | Skip(direction: nat)                // its upsert fails: logged, and on to the next
    | Abort(direction: nat)               // a page fetch fails: the direction ends
    | Enrich(hash: string)                // a gas lookup finishes
    | Lose(hash: string)                  // a gas lookup or its update fails

  predicate Pending(s: Sync, d: nat) { d < |s.streams| && s.streams[d] != [] }

  function Next(c: Chain, now: Time, s: Sync, step: Step): Sync {
    match step
    case Store(d, id) =>
      if !Pending(s, d) then s
      else
        var t, streams := s.streams[d][0], s.streams[d := s.streams[d][1..]];
        if SpamTransfer(c, t) then s.(streams := streams)
        else s.(rows := Upserted(s.rows, EntityOf(id, t, now)), streams := streams,
                lookups := s.lookups + multiset{t.hash}, stored := s.stored + {t.uniqueId})
    case Skip(d) =>
      if !Pending(s, d) then s
      else s.(streams := s.streams[d := s.streams[d][1..]], dropped := s.dropped + IdsOf(c, [s.streams[d][0]]))
    case Abort(d) =>
      if !Pending(s, d) then s
      else s.(streams := s.streams[d := []], dropped := s.dropped + IdsOf(c, s.streams[d]))
    case Enrich(h) =>
      if h !in s.lookups then s
      else
        var rows := match c.fee(h) case None => s.rows case Some(fee) => GasUpdated(s.rows, h, fee, "");
        s.(rows := rows, lookups := s.lookups - multiset{h})
    case Lose(h) =>
      if h !in s.lookups then s else s.(lookups := s.lookups - multiset{h}, lost := s.lost + {h})
  }

  /** The UniqueIDs of the transfers that are not spam. */
  function IdsOf(c: Chain, ts: seq<Transfer>): set<string> {
    set i | 0 <= i < |ts| && !SpamTransfer(c, ts[i]) :: ts[i].uniqueId
  }

  function Run(c: Chain, now: Time, s: Sync, steps: seq<Step>): Sync
    decreases steps
  {
    if steps == [] then s else Run(c, now, Next(c, now, s, steps[0]), steps[1..])
  }

  predicate Fails(step: Step) { step.Skip? || step.Abort? || step.Lose? }

  lemma {:induction false} NoFailureCompletes(c: Chain, now: Time, s: Sync, steps: seq<Step>)
    requires forall i :: 0 <= i < |steps| ==> !Fails(steps[i])
    ensures Run(c, now, s, steps).dropped == s.dropped && Run(c, now, s, steps).lost == s.lost
    decreases steps
  {
    if steps != [] {
      NoFailureCompletes(c, now, Next(c, now, s, steps[0]), steps[1..]);
    }
  }

  function Start(rows: Table, streams: seq<seq<Transfer>>): Sync {
    Sync(rows, streams, multiset{}, {}, {}, {})
  }

  /** Every direction ended and every lookup back. */
  predicate Finished(s: Sync) {
    (forall d :: 0 <= d < |s.streams| ==> s.streams[d] == []) && s.lookups == multiset{}
  }

  /** Finished without a failure that mattered: what was dropped was stored by another
      direction, and every fee was brought. */
  predicate Complete(s: Sync) {
    Finished(s) && s.dropped <= s.stored && s.lost == {}
  }

  /** One transfer per UniqueID across all directions. */
  ghost predicate Consistent(streams: seq<seq<Transfer>>, known: map<string, Transfer>) {
    forall d, i :: 0 <= d < |streams| && 0 <= i < |streams[d]| ==>
      streams[d][i].uniqueId in known && known[streams[d][i].uniqueId] == streams[d][i]
  }

  /** The UniqueIDs a full sync stores. */
  ghost function ToStore(c: Chain, streams: seq<seq<Transfer>>): set<string> {
    set d, i | 0 <= d < |streams| && 0 <= i < |streams[d]| && !SpamTransfer(c, streams[d][i]) :: streams[d][i].uniqueId
  }

  // ---------------------------------------------------------- the common result

  /** The row of `u` before any gas lookup: what was there, re-stamped if the sync
      stored it again, or else the entity of the transfer. */
  function Base(before: Table, known: map<string, Transfer>, now: Time, stored: set<string>, u: string, id: string): Tx
    requires u in before || u in known
  {
    if u in before then (if u in stored then before[u].(cachedAt := now) else before[u])
    else EntityOf(id, known[u], now)
  }

  ghost predicate HashStored(known: map<string, Transfer>, stored: set<string>, hash: string) {
    exists u :: u in stored && u in known && known[u].hash == hash
  }

  predicate HasGas(tx: Tx, fee: string) { tx.gasFeeEth == fee && tx.gasFeeUsd == "" }

  predicate SameGas(a: Tx, b: Tx) { a.gasFeeEth == b.gasFeeEth && a.gasFeeUsd == b.gasFeeUsd }

  predicate SameButGas(a: Tx, b: Tx) {
    a == b.(gasFeeEth := a.gasFeeEth, gasFeeUsd := a.gasFeeUsd)
  }

  /** Where row `u` stands: its base is settled; its gas is the base's until the
      hash was stored and has a receipt, the receipt's once no lookup of the hash is
      left and none was lost, and one of the two in between. */
  ghost predicate RowOk(c: Chain, before: Table, known: map<string, Transfer>, now: Time, s: Sync, u: string) {
    && (u in s.rows <==> u in before || u in s.stored)
    && (u in s.rows ==>
          && (u in before || u in known)
          && var row, base := s.rows[u], Base(before, known, now, s.stored, u, s.rows[u].id);
             && SameButGas(row, base)
             && (if HashStored(known, s.stored, row.hash) && c.fee(row.hash).Some?
                 then HasGas(row, c.fee(row.hash).value) ||
                      ((row.hash in s.lookups || row.hash in s.lost) && SameGas(row, base))
                 else SameGas(row, base)))
  }

  ghost predicate Ok(c: Chain, before: Table, known: map<string, Transfer>, now: Time, s: Sync) {
    && (forall u :: RowOk(c, before, known, now, s, u))
    && (forall h :: h in s.lookups ==> HashStored(known, s.stored, h))
    && s.stored <= known.Keys
    && Consistent(s.streams, known)
    && (forall u :: u in known ==> known[u].uniqueId == u)
  }

  lemma {:induction false} StoredGrows(known: map<string, Transfer>, stored: set<string>, t: Transfer)
    requires t.uniqueId in known && known[t.uniqueId] == t
    ensures forall h :: HashStored(known, stored + {t.uniqueId}, h) <==> HashStored(known, stored, h) || h == t.hash
  {
    forall h | HashStored(known, stored, h) || h == t.hash ensures HashStored(known, stored + {t.uniqueId}, h) {
      if h != t.hash {
        var u :| u in stored && u in known && known[u].hash == h;
        assert u in stored + {t.uniqueId};
      }
    }
  }

  /** Storing `t` on the row of `u`. */
  lemma {:induction false} StoreRow(c: Chain, before: Table, known: map<string, Transfer>, now: Time, s: Sync, e: Sync,
                 t: Transfer, id: string, u: string)
    requires RowOk(c, before, known, now, s, u) && t.uniqueId in known && known[t.uniqueId] == t
    requires e.rows == Upserted(s.rows, EntityOf(id, t, now))
    requires e.lookups == s.lookups + multiset{t.hash} && e.stored == s.stored + {t.uniqueId} && e.lost == s.lost
    ensures RowOk(c, before, known, now, e, u)
  {
    StoredGrows(known, s.stored, t);
    if u == t.uniqueId {
      assert e.rows[u] == if u in s.rows then s.rows[u].(cachedAt := now) else EntityOf(id, t, now);
    } else {
      assert u in e.rows <==> u in s.rows;
    }
  }

  lemma {:induction false} StoreKeeps(c: Chain, before: Table, known: map<string, Transfer>, now: Time, s: Sync,
      d: nat, id: string)
    requires Ok(c, before, known, now, s)
    ensures Ok(c, before, known, now, Next(c, now, s, Store(d, id)))
  {
    var e := Next(c, now, s, Store(d, id));
    if d < |s.streams| && s.streams[d] != [] {
      var t := s.streams[d][0];
      assert t.uniqueId in known && known[t.uniqueId] == t;
      assert Consistent(e.streams, known);
      if SpamTransfer(c, t) {
        forall u ensures RowOk(c, before, known, now, e, u) {
          assert RowOk(c, before, known, now, s, u);
        }
      } else {
        StoredGrows(known, s.stored, t);
        forall u ensures RowOk(c, before, known, now, e, u) {
          StoreRow(c, before, known, now, s, e, t, id, u);
        }
      }
    }
  }

  lemma {:induction false} EnrichRow(c: Chain, before: Table, known: map<string, Transfer>, now: Time, s: Sync,
      h: string, u: string)
    requires RowOk(c, before, known, now, s, u) && h in s.lookups && HashStored(known, s.stored, h)
    ensures RowOk(c, before, known, now, Next(c, now, s, Enrich(h)), u)
  {
  }

  lemma {:induction false} EnrichKeeps(c: Chain, before: Table, known: map<string, Transfer>, now: Time, s: Sync,
      h: string)
    requires Ok(c, before, known, now, s)
    ensures Ok(c, before, known, now, Next(c, now, s, Enrich(h)))
  {
    if h in s.lookups {
      forall u ensures RowOk(c, before, known, now, Next(c, now, s, Enrich(h)), u) {
        EnrichRow(c, before, known, now, s, h, u);
      }
    }
  }

  lemma {:induction false} RowStays(c: Chain, before: Table, known: map<string, Transfer>, now: Time,
    s: Sync, e: Sync, u: string)
    requires RowOk(c, before, known, now, s, u) && e.rows == s.rows && e.stored == s.stored
    requires forall h :: h in s.lookups || h in s.lost ==> h in e.lookups || h in e.lost
    ensures RowOk(c, before, known, now, e, u)
  {
  }

  lemma {:induction false} DropKeeps(c: Chain, before: Table, known: map<string, Transfer>, now: Time, s: Sync,
      step: Step)
    requires Ok(c, before, known, now, s) && (step.Skip? || step.Abort?)
    ensures Ok(c, before, known, now, Next(c, now, s, step))
  {
    var e := Next(c, now, s, step);
    assert Consistent(e.streams, known);
    forall u ensures RowOk(c, before, known, now, e, u) {
      RowStays(c, before, known, now, s, e, u);
    }
  }

  lemma {:induction false} LoseKeeps(c: Chain, before: Table, known: map<string, Transfer>, now: Time, s: Sync,
      h: string)
    requires Ok(c, before, known, now, s)
    ensures Ok(c, before, known, now, Next(c, now, s, Lose(h)))
  {
    var e := Next(c, now, s, Lose(h));
    forall u ensures RowOk(c, before, known, now, e, u) {
      RowStays(c, before, known, now, s, e, u);
    }
  }

  lemma {:induction false} RunOk(c: Chain, before: Table, known: map<string, Transfer>, now: Time, s: Sync,
      steps: seq<Step>)
    requires Ok(c, before, known, now, s)
    ensures Ok(c, before, known, now, Run(c, now, s, steps))
    decreases steps
  {
    if steps != [] {
      match steps[0] {
        case Store(d, id) => StoreKeeps(c, before, known, now, s, d, id);
        case Enrich(h) => EnrichKeeps(c, before, known, now, s, h);
        case Skip(_) => DropKeeps(c, before, known, now, s, steps[0]);
        case Abort(_) => DropKeeps(c, before, known, now, s, steps[0]);
        case Lose(h) => LoseKeeps(c, before, known, now, s, h);
      }
      RunOk(c, before, known, now, Next(c, now, s, steps[0]), steps[1..]);
    }
  }

  lemma {:induction false} StartOk(c: Chain, before: Table, known: map<string, Transfer>, now: Time,
      streams: seq<seq<Transfer>>)
    requires Consistent(streams, known) && forall u :: u in known ==> known[u].uniqueId == u
    ensures Ok(c, before, known, now, Start(before, streams))
  {
    forall u ensures RowOk(c, before, known, now, Start(before, streams), u) {
    }
  }

  // ------------------------------------------------- what is left to be stored

  lemma {:induction false} ToStoreWithout(c: Chain, streams: seq<seq<Transfer>>, d: nat, done: seq<Transfer>,
      left: seq<Transfer>)
    requires d < |streams| && streams[d] == done + left
    ensures ToStore(c, streams) == ToStore(c, streams[d := left]) + IdsOf(c, done)
  {
    var rest := streams[d := left];
    forall u | u in ToStore(c, streams) ensures u in ToStore(c, rest) + IdsOf(c, done) {
      var e, i :| 0 <= e < |streams| && 0 <= i < |streams[e]| &&
        !SpamTransfer(c, streams[e][i]) && streams[e][i].uniqueId == u;
      if e == d && i < |done| {
        assert done[i].uniqueId == u;
      } else {
        var j := if e == d then i - |done| else i;
        assert rest[e][j] == streams[e][i];
      }
    }
    forall u | u in ToStore(c, rest) ensures u in ToStore(c, streams) {
      var e, j :| 0 <= e < |rest| && 0 <= j < |rest[e]| && !SpamTransfer(c, rest[e][j]) && rest[e][j].uniqueId == u;
      var i := if e == d then j + |done| else j;
      assert streams[e][i] == rest[e][j];
    }
    forall u | u in IdsOf(c, done) ensures u in ToStore(c, streams) {
      var i :| 0 <= i < |done| && !SpamTransfer(c, done[i]) && done[i].uniqueId == u;
      assert streams[d][i] == done[i];
    }
  }

  lemma {:induction false} NextConserves(c: Chain, now: Time, s: Sync, step: Step)
    ensures
      var e := Next(c, now, s, step);
      s.stored + s.dropped + ToStore(c, s.streams) == e.stored + e.dropped + ToStore(c, e.streams)
  {
    if (step.Store? || step.Skip? || step.Abort?) && Pending(s, step.direction) {
      var ts := s.streams[step.direction];
      if step.Abort? {
        assert ts == ts + [];
        ToStoreWithout(c, s.streams, step.direction, ts, []);
      } else {
        assert ts == [ts[0]] + ts[1..];
        ToStoreWithout(c, s.streams, step.direction, [ts[0]], ts[1..]);
        assert IdsOf(c, [ts[0]]) == if SpamTransfer(c, ts[0]) then {} else {ts[0].uniqueId};
      }
    }
  }

  /** Every transfer worth storing is stored, dropped by a failure, or still to come. */
  lemma {:induction false} StoredInTheEnd(c: Chain, now: Time, s: Sync, steps: seq<Step>)
    ensures
      var e := Run(c, now, s, steps);
      s.stored + s.dropped + ToStore(c, s.streams) == e.stored + e.dropped + ToStore(c, e.streams)
    decreases steps
  {
    if steps != [] {
      NextConserves(c, now, s, steps[0]);
      StoredInTheEnd(c, now, Next(c, now, s, steps[0]), steps[1..]);
    }
  }

  // ------------------------------------------------------------------ theorems

  /** The row with the fee of its receipt, if a lookup asked for it and there is one. */
  function Charged(c: Chain, asked: bool, row: Tx): Tx {
    if asked && c.fee(row.hash).Some? then row.(gasFeeEth := c.fee(row.hash).value, gasFeeUsd := "") else row
  }

  /** The row of `u` after a complete sync, but for the id a new row got. */
  ghost function FinalRow(c: Chain, before: Table, known: map<string, Transfer>, now: Time, stored: set<string>,
                          u: string, id: string): Tx
    requires u in before || u in known
  {
    var base := Base(before, known, now, stored, u, id);
    Charged(c, HashStored(known, stored, base.hash), base)
  }

  /** After a sync without failures. */
  ghost predicate Synced(c: Chain, before: Table, known: map<string, Transfer>, now: Time,
    stored: set<string>, after: Table)
  {
    Reached(c, before, known, now, stored, {}, after)
  }

  ghost predicate RowReached(c: Chain, before: Table, known: map<string, Transfer>, now: Time,
    stored: set<string>, lost: set<string>, u: string, row: Tx)
  {
    && (u in before || u in known)
    && (row == FinalRow(c, before, known, now, stored, u, row.id) ||
        (row.hash in lost && row == Base(before, known, now, stored, u, row.id)))
  }

  /** After any sync: what was stored, each row final but for fees that a failed lookup
      did not bring. */
  ghost predicate Reached(c: Chain, before: Table, known: map<string, Transfer>, now: Time,
    stored: set<string>, lost: set<string>, after: Table)
  {
    && after.Keys == before.Keys + stored
    && forall u :: u in after ==> RowReached(c, before, known, now, stored, lost, u, after[u])
  }

  ghost predicate Names(known: map<string, Transfer>) {
    forall u :: u in known ==> known[u].uniqueId == u
  }

  lemma {:induction false} FinishedReaches(c: Chain, before: Table, known: map<string, Transfer>, now: Time, s: Sync)
    requires Ok(c, before, known, now, s) && Finished(s)
    ensures Reached(c, before, known, now, s.stored, s.lost, s.rows)
  {
    forall u ensures u in s.rows <==> u in before || u in s.stored
      ensures u in s.rows ==> RowReached(c, before, known, now, s.stored, s.lost, u, s.rows[u])
    {
      assert RowOk(c, before, known, now, s, u);
    }
  }

  /** Whatever fails and in whatever order things happen, a sync that has come to rest
      leaves every row it did not store as it was but for fees, each row it did store
      with the data of its transfer, and no fee but the receipt's. */
  lemma {:induction false} EverySyncIsSound(c: Chain, now: Time, before: Table, streams: seq<seq<Transfer>>,
    known: map<string, Transfer>, steps: seq<Step>)
    requires Consistent(streams, known) && Names(known)
    requires Finished(Run(c, now, Start(before, streams), steps))
    ensures
      var s := Run(c, now, Start(before, streams), steps);
      && Reached(c, before, known, now, s.stored, s.lost, s.rows)
      && s.stored + s.dropped == ToStore(c, streams)
  {
    var s := Run(c, now, Start(before, streams), steps);
    StartOk(c, before, known, now, streams);
    RunOk(c, before, known, now, Start(before, streams), steps);
    FinishedReaches(c, before, known, now, s);
    StoredInTheEnd(c, now, Start(before, streams), steps);
    assert ToStore(c, s.streams) == {};
  }

  /** Every interleaving of the directions and the gas lookups that completes leaves
      the same table: one row per row there was and per non-spam UniqueID fetched, each
      with the data and gas fixed by `FinalRow`. */
  lemma {:induction false} EveryInterleavingSyncs(c: Chain, now: Time, before: Table, streams: seq<seq<Transfer>>,
    known: map<string, Transfer>, steps: seq<Step>)
    requires Consistent(streams, known) && Names(known)
    requires Complete(Run(c, now, Start(before, streams), steps))
    ensures Synced(c, before, known, now, ToStore(c, streams), Run(c, now, Start(before, streams), steps).rows)
  {
    EverySyncIsSound(c, now, before, streams, known, steps);
    var s := Run(c, now, Start(before, streams), steps);
    assert s.stored + s.dropped == s.stored;
  }

  /** A token transfer whose contract is not on the verified list, when there is one. */
  predicate Counterfeit(c: Chain, t: Transfer) {
    match (c.verified, t.token)
    case (Some(verified), Some(token)) => token.address !in verified
    case _ => false
  }

  /** The UniqueIDs fetched and worth storing. */
  ghost predicate Wanted(c: Chain, streams: seq<seq<Transfer>>, u: string) {
    exists d, i :: 0 <= d < |streams| && 0 <= i < |streams[d]| &&
      streams[d][i].uniqueId == u && !Counterfeit(c, streams[d][i])
  }

  /** `row` is what the transfer says, cached now, with the fee of its receipt or none. */
  predicate RecordOf(c: Chain, t: Transfer, now: Time, row: Tx) {
    && row.uniqueId == t.uniqueId && row.hash == t.hash && row.from == t.from && row.to == t.to
    && row.value == t.value && row.category == t.category && row.blockNumber == t.blockNumber
    && row.timestamp == t.timestamp && row.cachedAt == now
    && row.asset == NormalizeAsset(t.asset) && (PlainSymbol(t.asset) ==> row.asset == t.asset)
    && row.gasFeeEth == (if c.fee(t.hash).Some? then c.fee(t.hash).value else "") && row.gasFeeUsd == ""
    && !row.isSwap && row.tokenInSym == row.tokenInVal == row.tokenOutSym == row.tokenOutVal == ""
  }

  lemma {:induction false} WantedIsToStore(c: Chain, streams: seq<seq<Transfer>>, u: string)
    ensures Wanted(c, streams, u) <==> u in ToStore(c, streams)
  {
    if Wanted(c, streams, u) {
      var d, i :| 0 <= d < |streams| && 0 <= i < |streams[d]| &&
        streams[d][i].uniqueId == u && !Counterfeit(c, streams[d][i]);
      assert !SpamTransfer(c, streams[d][i]);
    }
    if u in ToStore(c, streams) {
      var d, i :| 0 <= d < |streams| && 0 <= i < |streams[d]| &&
        !SpamTransfer(c, streams[d][i]) && streams[d][i].uniqueId == u;
      assert !Counterfeit(c, streams[d][i]);
    }
  }

  /** A complete sync records, field by field, each transfer that is not counterfeit and
      was not there before, and adds no other row. */
  lemma {:induction false} SyncRecordsTransfers(c: Chain, now: Time, before: Table, streams: seq<seq<Transfer>>,
    known: map<string, Transfer>, steps: seq<Step>, d: nat, i: nat)
    requires Consistent(streams, known) && Names(known)
    requires Complete(Run(c, now, Start(before, streams), steps))
    requires d < |streams| && i < |streams[d]|
    ensures
      var after, t := Run(c, now, Start(before, streams), steps).rows, streams[d][i];
      && (!Counterfeit(c, t) && t.uniqueId !in before ==> t.uniqueId in after && RecordOf(c, t, now, after[t.uniqueId]))
      && (forall u :: u in after <==> u in before || Wanted(c, streams, u))
  {
    EveryInterleavingSyncs(c, now, before, streams, known, steps);
    var after, t, stored := Run(c, now, Start(before, streams), steps).rows, streams[d][i], ToStore(c, streams);
    forall u ensures Wanted(c, streams, u) <==> u in stored {
      WantedIsToStore(c, streams, u);
    }
    if !Counterfeit(c, t) && t.uniqueId !in before {
      assert t.uniqueId in known && known[t.uniqueId] == t;
      assert Wanted(c, streams, t.uniqueId) && HashStored(known, stored, t.hash);
      assert RowReached(c, before, known, now, stored, {}, t.uniqueId, after[t.uniqueId]);
      if PlainSymbol(t.asset) {
        PlainSymbolStays(t.asset);
      }
    }
  }

  /** `row` is `was` but for its stamp and its fee. */
  predicate Same(row: Tx, was: Tx) {
    row.(cachedAt := was.cachedAt, gasFeeEth := was.gasFeeEth, gasFeeUsd := was.gasFeeUsd) == was
  }

  lemma {:induction false} OldRow(c: Chain, before: Table, known: map<string, Transfer>, now: Time,
    stored: set<string>, u: string, row: Tx)
    requires u in before && RowReached(c, before, known, now, stored, {}, u, row)
    ensures Same(row, before[u]) && row.cachedAt == (if u in stored then now else before[u].cachedAt)
    ensures SameGas(row, before[u]) ||
      (c.fee(before[u].hash) == Some(row.gasFeeEth) && row.gasFeeUsd == "" && HashStored(known, stored, before[u].hash))
  {
  }

  /** A row that was there keeps everything but its stamp, when it was fetched again,
      and its fee, when a transaction of its hash was fetched and has a receipt. */
  lemma {:induction false} SyncKeepsOldRows(c: Chain, now: Time, before: Table, streams: seq<seq<Transfer>>,
    known: map<string, Transfer>, steps: seq<Step>, u: string)
    requires Consistent(streams, known) && Names(known) && u in before
    requires Complete(Run(c, now, Start(before, streams), steps))
    ensures
      var after := Run(c, now, Start(before, streams), steps).rows;
      && u in after
      && var was, row := before[u], after[u];
         && Same(row, was) && row.cachedAt == (if Wanted(c, streams, u) then now else was.cachedAt)
         && (SameGas(row, was) ||
             (c.fee(was.hash) == Some(row.gasFeeEth) && row.gasFeeUsd == "" && HashWanted(c, streams, known, was.hash)))
  {
    EveryInterleavingSyncs(c, now, before, streams, known, steps);
    var after, stored := Run(c, now, Start(before, streams), steps).rows, ToStore(c, streams);
    WantedIsToStore(c, streams, u);
    OldRow(c, before, known, now, stored, u, after[u]);
    if HashStored(known, stored, before[u].hash) {
      HashStoredWanted(c, streams, known, before[u].hash);
    }
  }

  /** A transaction of this hash was fetched and is worth storing. */
  ghost predicate HashWanted(c: Chain, streams: seq<seq<Transfer>>, known: map<string, Transfer>, hash: string) {
    exists v :: Wanted(c, streams, v) && v in known && known[v].hash == hash
  }

  lemma {:induction false} HashStoredWanted(c: Chain, streams: seq<seq<Transfer>>, known: map<string, Transfer>,
    hash: string)
    requires HashStored(known, ToStore(c, streams), hash)
    ensures HashWanted(c, streams, known, hash)
  {
    var v :| v in ToStore(c, streams) && v in known && known[v].hash == hash;
    WantedIsToStore(c, streams, v);
  }

  /** The same rows under the same ids, but that new rows got ids of their own. */
  predicate SameButNewIds(before: Table, a: Table, b: Table) {
    a.Keys == b.Keys &&
    forall u :: u in a ==> a[u] == b[u].(id := a[u].id) && (u in before ==> a[u] == b[u])
  }

  /** Confluence: two complete runs over the same chain end in the same table. */
  lemma {:induction false} SyncedIsUnique(c: Chain, now: Time, before: Table, streams: seq<seq<Transfer>>,
    known: map<string, Transfer>, steps: seq<Step>, others: seq<Step>)
    requires Consistent(streams, known) && Names(known)
    requires Complete(Run(c, now, Start(before, streams), steps))
    requires Complete(Run(c, now, Start(before, streams), others))
    ensures SameButNewIds(before, Run(c, now, Start(before, streams), steps).rows,
                          Run(c, now, Start(before, streams), others).rows)
  {
    EveryInterleavingSyncs(c, now, before, streams, known, steps);
    EveryInterleavingSyncs(c, now, before, streams, known, others);
    SyncedTablesAgree(c, before, known, now, ToStore(c, streams), Run(c, now, Start(before, streams), steps).rows,
                      Run(c, now, Start(before, streams), others).rows);
  }

  lemma {:induction false} SyncedTablesAgree(c: Chain, before: Table, known: map<string, Transfer>, now: Time,
    stored: set<string>, a: Table, b: Table)
    requires Synced(c, before, known, now, stored, a) && Synced(c, before, known, now, stored, b)
    ensures SameButNewIds(before, a, b)
  {
    forall u | u in a ensures a[u] == b[u].(id := a[u].id) && (u in before ==> a[u] == b[u]) {
      assert RowReached(c, before, known, now, stored, {}, u, a[u]);
      assert RowReached(c, before, known, now, stored, {}, u, b[u]);
      FinalRowIds(c, before, known, now, stored, u, a[u].id, b[u].id);
    }
  }

  lemma {:induction false} FinalRowIds(c: Chain, before: Table, known: map<string, Transfer>, now: Time,
    stored: set<string>, u: string, i: string, j: string)
    requires u in before || u in known
    ensures
      var a, b := FinalRow(c, before, known, now, stored, u, i), FinalRow(c, before, known, now, stored, u, j);
      && (u in before ==> a == b) && (u !in before ==> a.id == i && b.id == j)
      && a.(id := b.id) == b
  {
  }

  /** A complete run stores every transfer that is not spam, and every row of its hash,
      new or old, carries the fee of the receipt. */
  lemma {:induction false} SyncedRowsHaveGas(c: Chain, now: Time, before: Table, streams: seq<seq<Transfer>>,
    known: map<string, Transfer>, steps: seq<Step>, d: nat, i: nat, u: string)
    requires Consistent(streams, known) && Names(known)
    requires Complete(Run(c, now, Start(before, streams), steps))
    requires d < |streams| && i < |streams[d]| && !SpamTransfer(c, streams[d][i])
    ensures
      var after, t := Run(c, now, Start(before, streams), steps).rows, streams[d][i];
      && t.uniqueId in after
      && (u in after && after[u].hash == t.hash && c.fee(t.hash).Some? ==> HasGas(after[u], c.fee(t.hash).value))
  {
    EveryInterleavingSyncs(c, now, before, streams, known, steps);
    var after, t, stored := Run(c, now, Start(before, streams), steps).rows, streams[d][i], ToStore(c, streams);
    assert t.uniqueId in stored;
    if u in after && after[u].hash == t.hash {
      assert t.uniqueId in known && known[t.uniqueId].hash == t.hash;
      assert HashStored(known, stored, t.hash);
      assert RowReached(c, before, known, now, stored, {}, u, after[u]);
    }
  }

  /** Syncing again over the same chain changes nothing but `cachedAt`, and that only
      on the rows fetched. */
  lemma {:induction false} SecondSyncOnlyRestamps(c: Chain, now: Time, later: Time, before: Table,
    streams: seq<seq<Transfer>>, known: map<string, Transfer>, steps: seq<Step>, again: seq<Step>)
    requires Consistent(streams, known) && Names(known)
    requires Complete(Run(c, now, Start(before, streams), steps))
    requires Complete(Run(c, later, Start(Run(c, now, Start(before, streams), steps).rows, streams), again))
    ensures
      var first := Run(c, now, Start(before, streams), steps).rows;
      var second := Run(c, later, Start(first, streams), again).rows;
      && second.Keys == first.Keys
      && forall u :: u in first ==>
           second[u] == (if u in ToStore(c, streams) then first[u].(cachedAt := later) else first[u])
  {
    var first := Run(c, now, Start(before, streams), steps).rows;
    var second, stored := Run(c, later, Start(first, streams), again).rows, ToStore(c, streams);
    EveryInterleavingSyncs(c, now, before, streams, known, steps);
    EveryInterleavingSyncs(c, later, first, streams, known, again);
    forall u | u in first ensures second[u] == (if u in stored then first[u].(cachedAt := later) else first[u]) {
      assert RowReached(c, before, known, now, stored, {}, u, first[u]);
      assert RowReached(c, first, known, later, stored, {}, u, second[u]);
      FinalRowAgain(c, before, first, known, now, later, stored, u, second[u].id);
    }
  }

  lemma {:induction false} FinalRowAgain(c: Chain, before: Table, first: Table, known: map<string, Transfer>,
    now: Time, later: Time, stored: set<string>, u: string, id: string)
    requires (u in before || u in known) && u in first
    requires first[u] == FinalRow(c, before, known, now, stored, u, first[u].id)
    ensures FinalRow(c, first, known, later, stored, u, id) ==
      if u in stored then first[u].(cachedAt := later) else first[u]
  {
    var base := Base(before, known, now, stored, u, first[u].id);
    assert first[u].hash == base.hash;
  }

  lemma {:induction false} MoreHashesStored(known: map<string, Transfer>, part: set<string>, all: set<string>,
      h: string)
    requires part <= all && HashStored(known, part, h)
    ensures HashStored(known, all, h)
  {
    var v :| v in part && v in known && known[v].hash == h;
    assert v in all;
  }

  /** Stamping a row again and asking for its fee again. */
  lemma {:induction false} ChargedAgain(c: Chain, first: bool, second: bool, base: Tx, row: Tx, later: Time)
    requires first ==> second
    requires row == Charged(c, first, base) || row == base
    ensures Charged(c, second, row) == Charged(c, second, base)
    ensures Charged(c, second, row.(cachedAt := later)) == Charged(c, second, base.(cachedAt := later))
  {
  }

  lemma {:induction false} RepairedRow(c: Chain, before: Table, middle: Table, known: map<string, Transfer>,
    now: Time, later: Time, part: set<string>, lost: set<string>, all: set<string>,
    u: string, id: string, other: string)
    requires part <= all && (u in before || (u in known && u in all)) && (u in middle <==> u in before || u in part)
    requires u in middle ==> RowReached(c, before, known, now, part, lost, u, middle[u])
    ensures
      var a, b := FinalRow(c, middle, known, later, all, u, id), FinalRow(c, before, known, later, all, u, other);
      a == b.(id := a.id) && (u in before ==> a == b)
  {
    if u in middle {
      var base := Base(before, known, now, part, u, middle[u].id);
      var h := base.hash;
      if HashStored(known, part, h) {
        MoreHashesStored(known, part, all, h);
      }
      ChargedAgain(c, HashStored(known, part, h), HashStored(known, all, h), base, middle[u], later);
    }
  }

  /** A sync with failures is repaired by the next complete one: the table is then what
      a complete sync in its place would have left. */
  lemma {:induction false} RetryRepairs(c: Chain, now: Time, later: Time, before: Table, streams: seq<seq<Transfer>>,
    known: map<string, Transfer>, failing: seq<Step>, retry: seq<Step>, direct: seq<Step>)
    requires Consistent(streams, known) && Names(known)
    requires Finished(Run(c, now, Start(before, streams), failing))
    requires Complete(Run(c, later, Start(Run(c, now, Start(before, streams), failing).rows, streams), retry))
    requires Complete(Run(c, later, Start(before, streams), direct))
    ensures
      var middle := Run(c, now, Start(before, streams), failing).rows;
      SameButNewIds(before, Run(c, later, Start(middle, streams), retry).rows,
                    Run(c, later, Start(before, streams), direct).rows)
  {
    EverySyncIsSound(c, now, before, streams, known, failing);
    var s := Run(c, now, Start(before, streams), failing);
    var all := ToStore(c, streams);
    EveryInterleavingSyncs(c, later, s.rows, streams, known, retry);
    EveryInterleavingSyncs(c, later, before, streams, known, direct);
    RepairedTables(c, before, s.rows, known, now, later, s.stored, s.lost, all,
                   Run(c, later, Start(s.rows, streams), retry).rows,
                   Run(c, later, Start(before, streams), direct).rows);
  }

  lemma {:induction false} RepairedTables(c: Chain, before: Table, middle: Table, known: map<string, Transfer>,
    now: Time, later: Time, part: set<string>, lost: set<string>, all: set<string>, a: Table, b: Table)
    requires part <= all && Reached(c, before, known, now, part, lost, middle)
    requires Synced(c, middle, known, later, all, a) && Synced(c, before, known, later, all, b)
    ensures SameButNewIds(before, a, b)
  {
    forall u | u in a ensures a[u] == b[u].(id := a[u].id) && (u in before ==> a[u] == b[u]) {
      assert u in b && (u in before || u in known);
      assert RowReached(c, middle, known, later, all, {}, u, a[u]);
      assert RowReached(c, before, known, later, all, {}, u, b[u]);
      assert u in middle ==> RowReached(c, before, known, now, part, lost, u, middle[u]);
      RepairedRow(c, before, middle, known, now, later, part, lost, all, u, a[u].id, b[u].id);
    }
  }

  // ------------------------------------------------------------ the Go methods

  /** The transfers of one direction, page after page. */
  function Flatten(pages: seq<seq<Transfer>>): seq<Transfer> {
    if pages == [] then [] else pages[0] + Flatten(pages[1..])
  }

  function Drain(directions: seq<seq<seq<Transfer>>>): (streams: seq<seq<Transfer>>)
    ensures |streams| == |directions|
  {
    seq(|directions|, i requires 0 <= i < |directions| => Flatten(directions[i]))
  }

  function Left(streams: seq<seq<Transfer>>): nat {
    if streams == [] then 0 else |streams[0]| + Left(streams[1..])
  }

  lemma {:induction false} LeftShrinks(streams: seq<seq<Transfer>>, d: nat, rest: seq<Transfer>)
    requires d < |streams|
    ensures Left(streams) + |rest| == Left(streams[d := rest]) + |streams[d]|
  {
    var after := streams[d := rest];
    if d == 0 {
      assert after[1..] == streams[1..];
    } else {
      assert after[1..] == streams[1..][d - 1 := rest];
      LeftShrinks(streams[1..], d - 1, rest);
    }
  }

  lemma {:induction false} NothingLeft(streams: seq<seq<Transfer>>)
    ensures (forall d :: 0 <= d < |streams| ==> streams[d] == []) <==> Left(streams) == 0
  {
    if streams != [] {
      NothingLeft(streams[1..]);
      assert forall d :: 1 <= d < |streams| ==> streams[d] == streams[1..][d - 1];
      assert forall d :: 0 <= d < |streams| - 1 ==> streams[1..][d] == streams[d + 1];
    }
  }

  method StoreTransfer(store: Storage, c: Chain, now: Time, t: Transfer, id: string) returns (enrich: bool)
    modifies store
    ensures enrich == !SpamTransfer(c, t)
    ensures store.rows == if enrich then Upserted(old(store.rows), EntityOf(id, t, now)) else old(store.rows)
  {
    if SpamTransfer(c, t) {
      return false;
    }
    store.Upsert(EntityOf(id, t, now));
    return true;
  }

  method EnrichGasFee(store: Storage, c: Chain, hash: string)
    modifies store
    ensures store.rows ==
      match c.fee(hash) case None => old(store.rows) case Some(fee) => GasUpdated(old(store.rows), hash, fee, "")
  {
    var fee := c.fee(hash);
    if fee.Some? {
      store.UpdateGasFees(hash, fee.value, "");
    }
  }

  /** One turn of a direction: store its next transfer, fail to, or end with a failed
      fetch. */
  method TurnOf(store: Storage, c: Chain, now: Time, streams: seq<seq<Transfer>>, lookups: multiset<string>,
    d: nat, id: string, ghost s: Sync)
    returns (rest: seq<seq<Transfer>>, running: multiset<string>, step: Step)
    requires d < |streams| && streams[d] != []
    requires s.rows == store.rows && s.streams == streams && s.lookups == lookups
    modifies store
    ensures var e := Next(c, now, s, step); e.rows == store.rows && e.streams == rest && e.lookups == running
    ensures !step.Lose? && 2 * Left(rest) + |running| < 2 * Left(streams) + |lookups|
  {
    var fails, fetchFails := *, *;
    running := lookups;
    if fails && fetchFails {
      LeftShrinks(streams, d, []);
      return streams[d := []], lookups, Abort(d);
    }
    var t := streams[d][0];
    LeftShrinks(streams, d, streams[d][1..]);
    rest := streams[d := streams[d][1..]];
    if fails {
      return rest, lookups, Skip(d);
    }
    var enrich := StoreTransfer(store, c, now, t, id);
    if enrich {
      running := lookups + multiset{t.hash};
    }
    step := Step.Store(d, id);
  }

  /** A gas lookup comes back or fails. */
  method LookupEnds(store: Storage, c: Chain, now: Time, lookups: multiset<string>, ghost s: Sync)
    returns (running: multiset<string>, step: Step)
    requires lookups != multiset{} && s.rows == store.rows && s.lookups == lookups
    modifies store
    ensures
      var e := Next(c, now, s, step);
      e.rows == store.rows && e.streams == s.streams && e.lookups == running
    ensures !step.Abort? && |running| < |lookups|
  {
    var h :| h in lookups;
    running := lookups - multiset{h};
    var fails := *;
    if fails {
      return running, Lose(h);
    }
    EnrichGasFee(store, c, h);
    step := Enrich(h);
  }

  predicate NoAbort(steps: seq<Step>) {
    forall i :: 0 <= i < |steps| ==> !steps[i].Abort?
  }

  lemma {:induction false} AbortOneMore(steps: seq<Step>, step: Step)
    ensures NoAbort(steps + [step]) <==> NoAbort(steps) && !step.Abort?
  {
    var more := steps + [step];
    assert more[|steps|] == step && forall i :: 0 <= i < |steps| ==> more[i] == steps[i];
  }

  /** syncFromAlchemy: at each turn any direction may go on, or any gas lookup may end.
      `ok` says that no fetch failed, `ulid` gives the ids. */
  method SyncFromAlchemy(store: Storage, c: Chain, now: Time, directions: seq<seq<seq<Transfer>>>,
    ulid: nat -> string, ghost known: map<string, Transfer>) returns (ok: bool, ghost steps: seq<Step>)
    requires Consistent(Drain(directions), known) && Names(known)
    modifies store
    ensures ok <==> NoAbort(steps)
    ensures
      var end := Run(c, now, Start(old(store.rows), Drain(directions)), steps);
      && Finished(end) && end.rows == store.rows && end.stored + end.dropped == ToStore(c, Drain(directions))
      && Reached(c, old(store.rows), known, now, end.stored, end.lost, store.rows)
    ensures (forall i :: 0 <= i < |steps| ==> !Fails(steps[i])) ==>
      Synced(c, old(store.rows), known, now, ToStore(c, Drain(directions)), store.rows)
  {
    var streams := Drain(directions);
    var lookups: multiset<string> := multiset{};
    var ids := 0;
    ghost var start := Start(store.rows, streams);
    ghost var end := start;
    ok, steps := true, [];
    while Left(streams) > 0 || lookups != multiset{}
      invariant end.rows == store.rows && end.streams == streams && end.lookups == lookups
      invariant end == Run(c, now, start, steps)
      invariant ok <==> NoAbort(steps)
      decreases 2 * Left(streams) + |lookups|
    {
      var step;
      var storeNext := *;
      if Left(streams) > 0 && (storeNext || lookups == multiset{}) {
        NothingLeft(streams);
        var d :| 0 <= d < |streams| && streams[d] != [];
        streams, lookups, step := TurnOf(store, c, now, streams, lookups, d, ulid(ids), end);
        ids := ids + 1;
      } else {
        lookups, step := LookupEnds(store, c, now, lookups, end);
      }
      if step.Abort? {
        ok := false;
      }
      RunOneMore(c, now, start, steps, step);
      AbortOneMore(steps, step);
      steps := steps + [step];
      end := Next(c, now, end, step);
    }
    NothingLeft(streams);
    EverySyncIsSound(c, now, old(store.rows), Drain(directions), known, steps);
    if forall i :: 0 <= i < |steps| ==> !Fails(steps[i]) {
      NoFailureCompletes(c, now, start, steps);
      EveryInterleavingSyncs(c, now, old(store.rows), Drain(directions), known, steps);
    }
  }

  lemma {:induction false} RunOneMore(c: Chain, now: Time, s: Sync, steps: seq<Step>, step: Step)
    ensures Run(c, now, s, steps + [step]) == Next(c, now, Run(c, now, s, steps), step)
    decreases steps
  {
    if steps == [] {
      assert [step][1..] == [];
    } else {
      assert (steps + [step])[1..] == steps[1..] + [step];
      RunOneMore(c, now, Next(c, now, s, steps[0]), steps[1..], step);
    }
  }
}
