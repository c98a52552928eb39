/** Sending, replacing and cleaning up transactions (pkg/ethkit/tx.go,
    replacement.go and the janitor in pending.go), driving the pending registry
    and the per-address nonce counter.  The node's answers are parameters. */
module SendProtocol {
  import opened Text
  import opened PendingRegistry
  import opened FeeBump

  // ------------------------------------------------------------ nonce counter

  type Nonces = map<Address, u64>

  /** The nonce handed out, and the counter after it; `chain` is the node's
      pending nonce, asked only when the address has no counter. */
  function NextNonce(pending: Nonces, addr: Address, chain: Option<u64>): Option<(u64, Nonces)> {
    if addr in pending then Some((pending[addr], pending[addr := (pending[addr] + 1) % U64]))
    else if chain.Some? then Some((chain.value, pending[addr := (chain.value + 1) % U64]))
    else None
  }

  /** The nonce a call gets: the counter of the address or, without one, the node's answer. */
  function Holds(pending: Nonces, addr: Address, chain: Option<u64>): Option<u64> {
    if addr in pending then Some(pending[addr]) else chain
  }

  class NonceManager {
    var pending: Nonces

    constructor ()
      ensures pending == map[]
    {
      pending := map[];
    }

    method Next(addr: Address, chain: Option<u64>) returns (nonce: Option<u64>)
      modifies this
      ensures match NextNonce(old(pending), addr, chain)
              case None => nonce == None && pending == old(pending)
              case Some(r) => nonce == Some(r.0) && pending == r.1
      ensures nonce == Holds(old(pending), addr, chain)
      ensures pending == if nonce.None? then old(pending) else old(pending)[addr := (nonce.value + 1) % U64]
    {
      if addr !in pending {
        if chain.None? {
          return None;
        }
        pending := pending[addr := chain.value];
      }
      nonce := Some(pending[addr]);
      pending := pending[addr := (pending[addr] + 1) % U64];
    }

    method Reset(addr: Address)
      modifies this
      ensures pending == old(pending) - {addr}
    {
      pending := pending - {addr};
    }
  }

  // ------------------------------------------------------------------- SendTx

  datatype Request = Request(to: Address, value: int, gasTip: Option<int>, gasCap: Option<int>, kind: string)

  /** The node's side of one SendTx: each answer is consulted only if the calls
      before it succeeded. */
  datatype SendAnswers = SendAnswers(
    pendingNonce: Option<u64>,       // PendingNonceAt
    fees: Option<(int, int)>,        // base fee and suggested tip; None: estimation failed
    signedHash: Option<string>,      // None: signing failed
    accepted: bool,                  // SendTransaction
    mined: bool)                     // receipt arrived before the context ended

  datatype SendResult =
    | NoNonce | NoEstimate | NotSigned | NotAccepted | Mined(hash: string) | GaveUpWaiting(hash: string)

  function TxOf(from: Address, req: Request, nonce: u64, fees: (int, int), hash: string, now: Time): PendingTx {
    PendingTx(hash, from, req.to, req.value, nonce,
              if req.gasTip.Some? then req.gasTip.value else fees.1,
              if req.gasCap.Some? then req.gasCap.value else DefaultCap(fees.0, fees.1),
              now, req.kind)
  }

  /** Register, wait for the receipt (or the end of the context), and retire. */
  method ListWhileWaiting(store: PendingTracker, tx: PendingTx, t1: Time, t2: Time)
    requires store.Valid()
    modifies store
    ensures store.Valid() && store.View() == TrackerRemove(Enlist(old(store.View()), tx), tx.hash, t1, t2)
  {
    store.Add(tx);
    store.Remove(tx.hash, t1, t2);
  }

  /** What one SendTx does to the counter and the registry. */
  datatype Outcome = Outcome(result: SendResult, nonces: Nonces, store: Registry)

  /** After the nonce is taken. */
  function AfterNonce(nonce: u64, nonces: Nonces, store: Registry, from: Address, req: Request,
                      ans: SendAnswers, now: Time, t1: Time, t2: Time): Outcome {
    if ans.fees.None? then Outcome(NoEstimate, nonces, store)
    else if ans.signedHash.None? then Outcome(NotSigned, nonces, store)
    else if !ans.accepted then Outcome(NotAccepted, nonces - {from}, store)
    else
      var tx := TxOf(from, req, nonce, ans.fees.value, ans.signedHash.value, now);
      Outcome(if ans.mined then Mined(tx.hash) else GaveUpWaiting(tx.hash), nonces,
              TrackerRemove(Enlist(store, tx), tx.hash, t1, t2))
  }

  /** The registry is touched only when the node accepted the transaction, and then
      the entry is always retired again; the counter is consumed first and reset
      only when the broadcast fails. */
  function OutcomeOf(nonces: Nonces, store: Registry, from: Address, req: Request,
                     ans: SendAnswers, now: Time, t1: Time, t2: Time): Outcome {
    match NextNonce(nonces, from, ans.pendingNonce)
    case None => Outcome(NoNonce, nonces, store)
    case Some(next) => AfterNonce(next.0, next.1, store, from, req, ans, now, t1, t2)
  }

  method SendTx(nonces: NonceManager, store: PendingTracker, from: Address, req: Request,
                ans: SendAnswers, now: Time, t1: Time, t2: Time) returns (result: SendResult)
    requires store.Valid()
    modifies nonces, store
    ensures store.Valid()
    ensures Outcome(result, nonces.pending, store.View()) ==
      OutcomeOf(old(nonces.pending), old(store.View()), from, req, ans, now, t1, t2)
  {
    var nonce := nonces.Next(from, ans.pendingNonce);
    if nonce.None? {
      return NoNonce;
    }
    result := SendWithNonce(nonces, store, nonce.value, from, req, ans, now, t1, t2);
  }

  method SendWithNonce(nonces: NonceManager, store: PendingTracker, nonce: u64, from: Address, req: Request,
                       ans: SendAnswers, now: Time, t1: Time, t2: Time) returns (result: SendResult)
    requires store.Valid()
    modifies nonces, store
    ensures store.Valid()
    ensures Outcome(result, nonces.pending, store.View()) ==
      AfterNonce(nonce, old(nonces.pending), old(store.View()), from, req, ans, now, t1, t2)
  {
    if ans.fees.None? {
      return NoEstimate;
    }
    var tip := ans.fees.value.1;
    if req.gasTip.Some? {
      tip := req.gasTip.value;
    }
    var maxFee := ans.fees.value.0 * 2 + ans.fees.value.1;
    if req.gasCap.Some? {
      maxFee := req.gasCap.value;
    }
    if ans.signedHash.None? {
      return NotSigned;
    }
    if !ans.accepted {
      nonces.Reset(from);
      return NotAccepted;
    }
    var hash := ans.signedHash.value;
    ListWhileWaiting(store, PendingTx(hash, from, req.to, req.value, nonce, tip, maxFee, now, req.kind), t1, t2);
    return if ans.mined then Mined(hash) else GaveUpWaiting(hash);
  }

  /** Which answers lead to which result, and what is left of the counter: it keeps
      the nonce consumed unless the broadcast fails, which forgets the address. */
  lemma {:induction false} SendEnds(nonces: Nonces, store: Registry, from: Address, req: Request,
                                    ans: SendAnswers, now: Time, t1: Time, t2: Time)
    ensures
      var o := OutcomeOf(nonces, store, from, req, ans, now, t1, t2);
      var held := if from in nonces then Some(nonces[from]) else ans.pendingNonce;
      && (o.result == NoNonce <==> held.None?)
      && (o.result == NoEstimate <==> held.Some? && ans.fees.None?)
      && (o.result == NotSigned <==> held.Some? && ans.fees.Some? && ans.signedHash.None?)
      && (o.result == NotAccepted <==> held.Some? && ans.fees.Some? && ans.signedHash.Some? && !ans.accepted)
      && (o.result.Mined? || o.result.GaveUpWaiting? <==>
            held.Some? && ans.fees.Some? && ans.signedHash.Some? && ans.accepted)
      && (o.result.Mined? ==> ans.mined) && (o.result.GaveUpWaiting? ==> !ans.mined)
      && (from in o.nonces <==> held.Some? && !o.result.NotAccepted?)
      && (from in o.nonces ==> o.nonces[from] == (held.value + 1) % U64)
      && o.nonces - {from} == nonces - {from}
      && (!o.result.Mined? && !o.result.GaveUpWaiting? ==> o.store == store)
  {
  }

  /** The entry a SendTx leaves among the recent ones is the transaction it sent: the
      sender's nonce, the recipient and value asked for, and the fees asked for or, by
      default, the suggested tip and twice the base fee plus that tip. */
  lemma {:induction false} SendLeavesEntry(nonces: Nonces, store: Registry, from: Address, req: Request,
                                           ans: SendAnswers, now: Time, t1: Time, t2: Time)
    requires from in nonces || ans.pendingNonce.Some?
    requires ans.fees.Some? && ans.signedHash.Some? && ans.accepted && t1 <= t2 <= t1 + 300_000_000_000
    ensures
      var after, hash := OutcomeOf(nonces, store, from, req, ans, now, t1, t2).store, ans.signedHash.value;
      && after.active == store.active - {hash}
      && hash in after.recent && after.recent[hash].removedAt == t1
      && var tx := after.recent[hash].tx;
         && tx.hash == hash && tx.from == from && tx.to == req.to && tx.value == req.value && tx.kind == req.kind
         && Some(tx.nonce) == (if from in nonces then Some(nonces[from]) else ans.pendingNonce)
         && tx.submittedAt == now
         && tx.gasTip == (match req.gasTip case Some(tip) => tip case None => ans.fees.value.1)
         && tx.gasCap == (match req.gasCap case Some(cap) => cap
                                           case None => ans.fees.value.0 + ans.fees.value.0 + ans.fees.value.1)
  {
  }

  // ---------------------------------------------------------------- replaceTx

  /** A mempool transaction as TransactionByHash reports it. */
  datatype PoolTx = PoolTx(nonce: u64, tip: nat, cap: nat, gas: nat, to: Option<Address>, value: int, data: seq<byte>)

  datatype Lookup = Missing | OnChain | InPool(tx: PoolTx)

  datatype ReplaceResult = NotFound | AlreadyMined | SignFailed | BroadcastFailed | Replaced(hash: string)

  const ZERO_ADDRESS: Address := [0, 0, 0, 0, 0, 0, 0, 0, 0, 0, 0, 0, 0, 0, 0, 0, 0, 0, 0, 0]

  function Replacement(wallet: Address, tx: PoolTx, cancel: bool): PoolTx {
    PoolTx(tx.nonce, BumpTip(tx.tip), BumpCap(tx.cap), if cancel then 21000 else tx.gas,
           if cancel then Some(wallet) else tx.to, if cancel then 0 else tx.value,
           if cancel then [] else tx.data)
  }

  function ReplacementEntry(wallet: Address, tx: PoolTx, cancel: bool, hash: string, now: Time): PendingTx {
    var r := Replacement(wallet, tx, cancel);
    PendingTx(hash, wallet, if r.to.Some? then r.to.value else ZERO_ADDRESS, r.value, r.nonce, r.tip, r.cap,
              now, if cancel then "cancel" else "speed-up")
  }

  /** What one replacement does to the registry. */
  function ReplaceStore(store: Registry, wallet: Address, original: string, cancel: bool, found: Lookup,
                        signedHash: Option<string>, accepted: bool, now: Time, t1: Time, t2: Time): Registry {
    match found
    case Missing => TrackerRemove(store, original, t1, t2)
    case OnChain => TrackerRemove(store, original, t1, t2)
    case InPool(tx) =>
      if signedHash.None? || !accepted then store
      else Enlist(store, ReplacementEntry(wallet, tx, cancel, signedHash.value, now))
  }

  /** `r` takes the place of `tx`: the same nonce at a tip a fifth and a cap a tenth
      higher, rounded down.  A cancel pays nothing to the wallet itself, a speed-up
      changes nothing else. */
  predicate Replaces(r: PoolTx, tx: PoolTx, wallet: Address, cancel: bool) {
    && r.nonce == tx.nonce
    && 10 * r.tip <= 12 * tx.tip < 10 * r.tip + 10
    && 10 * r.cap <= 11 * tx.cap < 10 * r.cap + 10
    && (cancel ==> r.to == Some(wallet) && r.value == 0 && r.data == [] && r.gas == 21000)
    && (!cancel ==> r.to == tx.to && r.value == tx.value && r.data == tx.data && r.gas == tx.gas)
  }

  /** `entry` shows the transaction `r` just sent by the wallet. */
  predicate Announces(entry: PendingTx, r: PoolTx, wallet: Address, cancel: bool, now: Time) {
    && entry.from == wallet && entry.value == r.value && entry.nonce == r.nonce
    && (r.to.Some? ==> entry.to == r.to.value)
    && (r.to.None? ==> |entry.to| == 20 && forall i :: 0 <= i < 20 ==> entry.to[i] == 0)
    && entry.gasTip == r.tip && entry.gasCap == r.cap && entry.submittedAt == now
    && (cancel ==> entry.kind == "cancel") && (!cancel ==> entry.kind == "speed-up")
  }

  lemma {:induction false} ReplacementReplaces(wallet: Address, tx: PoolTx, cancel: bool, hash: string, now: Time)
    ensures Replaces(Replacement(wallet, tx, cancel), tx, wallet, cancel)
    ensures Announces(ReplacementEntry(wallet, tx, cancel, hash, now), Replacement(wallet, tx, cancel),
                      wallet, cancel, now)
    ensures ReplacementEntry(wallet, tx, cancel, hash, now).hash == hash
  {
  }

  method ReplaceTx(store: PendingTracker, wallet: Address, original: string, cancel: bool, found: Lookup,
                   signedHash: Option<string>, accepted: bool, now: Time, t1: Time, t2: Time)
    returns (result: ReplaceResult, ghost sent: Option<PoolTx>)
    requires store.Valid()
    modifies store
    ensures store.Valid()
    ensures result == match found
      case Missing => NotFound
      case OnChain => AlreadyMined
      case InPool(tx) =>
        if signedHash.None? then SignFailed else if !accepted then BroadcastFailed else Replaced(signedHash.value)
    ensures store.View() ==
      ReplaceStore(old(store.View()), wallet, original, cancel, found, signedHash, accepted, now, t1, t2)
    ensures found.InPool? ==> sent == Some(Replacement(wallet, found.tx, cancel))
    ensures found.InPool? ==> Replaces(sent.value, found.tx, wallet, cancel)
    ensures result.Replaced? ==>
      && store.txs.Keys == old(store.txs.Keys) + {result.hash}
      && store.txs - {result.hash} == old(store.txs) - {result.hash}
      && Announces(store.txs[result.hash], sent.value, wallet, cancel, now)
      && store.recent[result.hash] == RecentEntry(store.txs[result.hash], 0)
    ensures !found.InPool? ==> store.txs == old(store.txs) - {original}
    ensures found.InPool? && !result.Replaced? ==> store.View() == old(store.View())
  {
    sent := None;
    if found.Missing? {
      store.Remove(original, t1, t2);
      return NotFound, None;
    }
    if found.OnChain? {
      store.Remove(original, t1, t2);
      return AlreadyMined, None;
    }
    var tx := found.tx;
    var newTx := tx.(tip := tx.tip * 120 / 100, cap := tx.cap * 110 / 100);
    if cancel {
      newTx := newTx.(to := Some(wallet), value := 0, data := [], gas := 21000);
    }
    sent := Some(newTx);
    if signedHash.None? {
      return SignFailed, sent;
    }
    if !accepted {
      return BroadcastFailed, sent;
    }
    var to := ZERO_ADDRESS;
    if newTx.to.Some? {
      to := newTx.to.value;
    }
    store.Add(PendingTx(signedHash.value, wallet, to, newTx.value, newTx.nonce, newTx.tip, newTx.cap, now,
                        if cancel then "cancel" else "speed-up"));
    return Replaced(signedHash.value), sent;
  }

  // ------------------------------------------------------------------ janitor

  /** What the node answers while the janitor looks at each entry of its snapshot:
      NonceAt (None: the call failed) and TransactionByHash. */
  datatype Answer = Answer(confirmed: Option<u64>, found: Lookup)

  /** The confirmed nonce the janitor works with at entry `i`: the first answer for
      that sender, remembered for the rest of the pass. */
  function KnownNonce(pending: seq<PendingTx>, ask: string -> Answer, addr: Address, n: nat): Option<u64>
    requires n <= |pending|
  {
    if n == 0 then None
    else
      var before := KnownNonce(pending, ask, addr, n - 1);
      if before.Some? then before
      else if pending[n - 1].from == addr then ask(pending[n - 1].hash).confirmed
      else None
  }

  /** The eviction decision for entry `i`. */
  predicate Stale(pending: seq<PendingTx>, ask: string -> Answer, i: nat)
    requires i < |pending|
  {
    var known := KnownNonce(pending, ask, pending[i].from, i + 1);
    (known.Some? && pending[i].nonce < known.value) || !ask(pending[i].hash).found.InPool?
  }

  function StaleHashes(pending: seq<PendingTx>, ask: string -> Answer, n: nat): set<string>
    requires n <= |pending|
  {
    if n == 0 then {}
    else StaleHashes(pending, ask, n - 1) + if Stale(pending, ask, n - 1) then {pending[n - 1].hash} else {}
  }

  /** The registry after the first `n` entries of the pass. */
  function Pruned(r: Registry, pending: seq<PendingTx>, ask: string -> Answer, n: nat, now: Time): Registry
    requires n <= |pending|
  {
    if n == 0 then r
    else
      var before := Pruned(r, pending, ask, n - 1, now);
      if Stale(pending, ask, n - 1) then TrackerRemove(before, pending[n - 1].hash, now, now) else before
  }

  /** `ask` gives the answers, entry by entry; the pass stamps its removals at `now`. */
  method PruneStalePending(store: PendingTracker, ask: string -> Answer, now: Time)
    returns (pending: seq<PendingTx>)
    requires store.Valid()
    modifies store
    ensures store.Valid() && Enumerates(pending, old(Listed(store.View())))
    ensures store.View() == Pruned(old(store.View()), pending, ask, |pending|, now)
  {
    pending := store.List();
    var confirmed: map<Address, u64> := map[];
    var i := 0;
    while i < |pending|
      invariant 0 <= i <= |pending| && store.Valid()
      invariant forall a ::
        KnownNonce(pending, ask, a, i) == if a in confirmed then Some(confirmed[a]) else None
      invariant store.View() == Pruned(old(store.View()), pending, ask, i, now)
    {
      var tx := pending[i];
      var answer := ask(tx.hash);
      if tx.from !in confirmed && answer.confirmed.Some? {
        confirmed := confirmed[tx.from := answer.confirmed.value];
      }
      assert KnownNonce(pending, ask, tx.from, i + 1) ==
        if tx.from in confirmed then Some(confirmed[tx.from]) else None;
      if (tx.from in confirmed && tx.nonce < confirmed[tx.from]) || !answer.found.InPool? {
        store.Remove(tx.hash, now, now);
      }
      i := i + 1;
    }
  }

  /** Add leaves every active entry in `recent`, unstamped. */
  predicate ActiveIsRecent(r: Registry) {
    forall h :: h in r.active ==> h in r.recent && r.recent[h] == RecentEntry(r.active[h], 0)
  }

  lemma {:induction false} RemoveKeepsShown(r: Registry, hash: string, now: Time)
    requires ActiveIsRecent(r)
    ensures
      var s := TrackerRemove(r, hash, now, now);
      ActiveIsRecent(s) && s.active == r.active - {hash} && Visible(s.recent, now) == Visible(r.recent, now)
  {
    var s := TrackerRemove(r, hash, now, now);
    forall h | h in r.recent && !Expired(r.recent[h], now)
      ensures h in s.recent && s.recent[h].tx == r.recent[h].tx && !Expired(s.recent[h], now)
    {
    }
  }

  /** A pass takes exactly the stale hashes off the list, and the watcher, which reads
      Recent, sees no difference yet. */
  lemma {:induction false} PrunedIs(r: Registry, pending: seq<PendingTx>, ask: string -> Answer, n: nat, now: Time)
    requires n <= |pending| && ActiveIsRecent(r)
    ensures
      var s := Pruned(r, pending, ask, n, now);
      && ActiveIsRecent(s) && s.active == r.active - StaleHashes(pending, ask, n)
      && Visible(s.recent, now) == Visible(r.recent, now)
  {
    if n > 0 {
      PrunedIs(r, pending, ask, n - 1, now);
      RemoveKeepsShown(Pruned(r, pending, ask, n - 1, now), pending[n - 1].hash, now);
    }
  }

  /** Nothing the node still holds, at a nonce not yet confirmed, is ever evicted;
      and nothing else survives. */
  lemma {:induction false} JanitorKeepsLive(pending: seq<PendingTx>, ask: string -> Answer, i: nat)
    requires i < |pending|
    ensures !Stale(pending, ask, i) <==>
      && ask(pending[i].hash).found.InPool?
      && forall j :: 0 <= j <= i && FirstAnswer(pending, ask, j, pending[i].from) ==>
           ask(pending[j].hash).confirmed.value <= pending[i].nonce
  {
    KnownIsFirst(pending, ask, pending[i].from, i + 1);
  }

  lemma {:induction false} StaleHashesExactly(pending: seq<PendingTx>, ask: string -> Answer, n: nat)
    requires n <= |pending| && forall i, j :: 0 <= i < j < |pending| ==> pending[i].hash != pending[j].hash
    ensures forall i :: 0 <= i < |pending| ==>
      (pending[i].hash in StaleHashes(pending, ask, n) <==> i < n && Stale(pending, ask, i))
  {
    if n > 0 {
      StaleHashesExactly(pending, ask, n - 1);
    }
  }

  /** Entry `j` brings the first nonce the node gives for `addr` in this pass. */
  predicate FirstAnswer(pending: seq<PendingTx>, ask: string -> Answer, j: nat, addr: Address)
    requires j < |pending|
  {
    && pending[j].from == addr && ask(pending[j].hash).confirmed.Some?
    && forall k :: 0 <= k < j && pending[k].from == addr ==> ask(pending[k].hash).confirmed.None?
  }

  lemma {:induction false} KnownIsFirst(pending: seq<PendingTx>, ask: string -> Answer, addr: Address, n: nat)
    requires n <= |pending|
    ensures
      match KnownNonce(pending, ask, addr, n)
      case None => forall k :: 0 <= k < n && pending[k].from == addr ==> ask(pending[k].hash).confirmed.None?
      case Some(v) => exists j :: (
        0 <= j < n && FirstAnswer(pending, ask, j, addr) && ask(pending[j].hash).confirmed == Some(v))
  {
    if n > 0 {
      KnownIsFirst(pending, ask, addr, n - 1);
      if KnownNonce(pending, ask, addr, n - 1).None? && pending[n - 1].from == addr {
        assert ask(pending[n - 1].hash).confirmed.Some? ==> FirstAnswer(pending, ask, n - 1, addr);
      }
    }
  }
}
