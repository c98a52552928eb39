/** From raw transfer legs to one event per transaction: grouping
    (fetch_transfers.go), classification (classify.go, build_event.go) and the
    spam decision (spam.go) of internal/usecase/watcher. */
module WatcherLegs {
  import opened Text
  import opened PendingRegistry

  datatype Token = Token(address: Address, symbol: string, name: string)

  datatype Transfer = Transfer(
    blockNumber: nat, timestamp: Time, hash: string, uniqueId: string,
    from: Address, to: Address, value: string, asset: string, category: string, token: Option<Token>)

  datatype Role =
    | SendEth | ReceiveEth | SendToken | ReceiveToken | Swap | SelfTransfer | Approve

  /** `contract` is None for native ETH. */
  datatype Movement = Movement(
    symbol: string, name: string, contract: Option<Address>, amount: string,
    outgoing: bool, counterparty: Address)

  datatype Event = Event(
    hash: string, role: Role, movements: seq<Movement>, isOurs: bool, blockNumber: nat, timestamp: Time)

  /** The answers of the token catalogue (None: not wired) and of the on-chain
      metadata lookup behind it. */
  datatype Lookups = Lookups(catalogue: Option<map<Address, Token>>, chain: map<Address, Token>)

  // -------------------------------------------------------------- grouping

  ghost predicate HasId(ts: seq<Transfer>, id: string) {
    exists i :: 0 <= i < |ts| && ts[i].uniqueId == id
  }

  /** The first transfer of each UniqueID, in order. */
  ghost function Dedup(ts: seq<Transfer>): seq<Transfer> {
    if ts == [] then []
    else
      var init, last := ts[..|ts| - 1], ts[|ts| - 1];
      if HasId(init, last.uniqueId) then Dedup(init) else Dedup(init) + [last]
  }

  const TRANSFER_HASH: Transfer -> string := (t: Transfer) => t.hash

  /** The transfers of one hash, in order. */
  ghost function LegsOf(ts: seq<Transfer>, hash: string): seq<Transfer> {
    Picked(ts, TRANSFER_HASH, hash)
  }

  ghost function ByHash(ts: seq<Transfer>): map<string, seq<Transfer>> {
    map h | h in (set t | t in ts :: t.hash) :: LegsOf(ts, h)
  }

  ghost function Groups(ts: seq<Transfer>): map<string, seq<Transfer>> {
    ByHash(Dedup(ts))
  }

  method GroupByHash(transfers: seq<Transfer>) returns (out: map<string, seq<Transfer>>)
    ensures out == Groups(transfers)
  {
    out := map[];
    var seen: set<string> := {};
    assert transfers[..0] == [];
    for i := 0 to |transfers|
      invariant forall id :: id in seen <==> HasId(transfers[..i], id)
      invariant out == Groups(transfers[..i])
    {
      var t := transfers[i];
      assert transfers[..i + 1] == transfers[..i] + [t];
      GroupsOneMore(transfers[..i], t);
      if t.uniqueId !in seen {
        seen := seen + {t.uniqueId};
        out := out[t.hash := (if t.hash in out then out[t.hash] else []) + [t]];
      }
    }
    assert transfers[..|transfers|] == transfers;
  }

  lemma {:induction false} DedupOneMore(ts: seq<Transfer>, t: Transfer)
    ensures forall id :: HasId(ts + [t], id) <==> HasId(ts, id) || id == t.uniqueId
    ensures Dedup(ts + [t]) == Dedup(ts) + if HasId(ts, t.uniqueId) then [] else [t]
  {
    assert (ts + [t])[..|ts|] == ts && (ts + [t])[|ts|] == t;
    forall id | HasId(ts, id) ensures HasId(ts + [t], id) {
      var i :| 0 <= i < |ts| && ts[i].uniqueId == id;
      assert (ts + [t])[i].uniqueId == id;
    }
  }

  lemma {:induction false} LegsOneMore(ts: seq<Transfer>, t: Transfer, h: string)
    ensures LegsOf(ts + [t], h) == LegsOf(ts, h) + if t.hash == h then [t] else []
  {
    PickedOneMore(ts, t, TRANSFER_HASH, h);
  }

  lemma {:induction false} HashesOneMore(ts: seq<Transfer>, t: Transfer)
    ensures (set u | u in ts + [t] :: u.hash) == (set u | u in ts :: u.hash) + {t.hash}
  {
    assert t in ts + [t];
  }

  /** `g` with one more leg under its hash. */
  function Filed(g: map<string, seq<Transfer>>, t: Transfer): map<string, seq<Transfer>> {
    g[t.hash := (if t.hash in g then g[t.hash] else []) + [t]]
  }

  lemma {:induction false} FiledLegs(ts: seq<Transfer>, t: Transfer, h: string)
    requires h in Filed(ByHash(ts), t)
    ensures Filed(ByHash(ts), t)[h] == LegsOf(ts + [t], h)
  {
    LegsOneMore(ts, t, h);
    if t.hash !in ByHash(ts) {
      NoLegs(ts, t.hash);
    }
  }

  lemma {:induction false} ByHashOneMore(ts: seq<Transfer>, t: Transfer)
    ensures ByHash(ts + [t]) == Filed(ByHash(ts), t)
  {
    var more, filed := ByHash(ts + [t]), Filed(ByHash(ts), t);
    HashesOneMore(ts, t);
    assert more.Keys == filed.Keys;
    forall h | h in filed ensures more[h] == filed[h] {
      FiledLegs(ts, t, h);
    }
  }

  lemma {:induction false} GroupsOneMore(ts: seq<Transfer>, t: Transfer)
    ensures forall id :: HasId(ts + [t], id) <==> HasId(ts, id) || id == t.uniqueId
    ensures Groups(ts + [t]) == if HasId(ts, t.uniqueId) then Groups(ts) else Filed(Groups(ts), t)
  {
    DedupOneMore(ts, t);
    if !HasId(ts, t.uniqueId) {
      ByHashOneMore(Dedup(ts), t);
    } else {
      assert Dedup(ts) + [] == Dedup(ts);
    }
  }

  lemma {:induction false} NoLegs(ts: seq<Transfer>, h: string)
    requires h !in (set u | u in ts :: u.hash)
    ensures LegsOf(ts, h) == []
  {
    assert forall i :: 0 <= i < |ts| ==> ts[i] in ts;
    PickedNone(ts, TRANSFER_HASH, h);
  }

  lemma {:induction false} LegsOfElems(ts: seq<Transfer>, h: string)
    ensures forall t :: t in LegsOf(ts, h) <==> t in ts && t.hash == h
  {
    PickedElems(ts, TRANSFER_HASH, h);
  }

  /** One transfer per distinct UniqueID survives, and it is one that was fetched. */
  lemma {:induction false} DedupKeepsOnePerId(ts: seq<Transfer>)
    ensures forall i, j :: 0 <= i < j < |Dedup(ts)| ==> Dedup(ts)[i].uniqueId != Dedup(ts)[j].uniqueId
    ensures forall t :: t in Dedup(ts) ==> t in ts
    ensures forall id :: HasId(Dedup(ts), id) <==> HasId(ts, id)
  {
    if ts != [] {
      var init, last := ts[..|ts| - 1], ts[|ts| - 1];
      DedupKeepsOnePerId(init);
      assert ts == init + [last];
      DedupOneMore(init, last);
      DedupOneMore(Dedup(init), last);
      if !HasId(init, last.uniqueId) {
        assert !HasId(Dedup(init), last.uniqueId);
      }
    }
  }

  ghost function Total(m: map<string, seq<Transfer>>, hs: set<string>): multiset<Transfer>
    requires hs <= m.Keys
  {
    if hs == {} then multiset{}
    else var h :| h in hs; multiset(m[h]) + Total(m, hs - {h})
  }

  lemma {:induction false} TotalCounts(m: map<string, seq<Transfer>>, hs: set<string>, t: Transfer)
    requires hs <= m.Keys
    requires forall h :: h in hs ==> multiset(m[h])[t] == if t.hash == h then multiset(m[t.hash])[t] else 0
    ensures Total(m, hs)[t] == if t.hash in hs then multiset(m[t.hash])[t] else 0
  {
    if hs != {} {
      var h :| h in hs && Total(m, hs) == multiset(m[h]) + Total(m, hs - {h});
      TotalCounts(m, hs - {h}, t);
    }
  }

  lemma {:induction false} LegsOfCounts(ts: seq<Transfer>, h: string, t: Transfer)
    ensures multiset(LegsOf(ts, h))[t] == if t.hash == h then multiset(ts)[t] else 0
  {
    PickedCount(ts, TRANSFER_HASH, h, t);
  }

  /** The groups are non-empty, each leg sits under its own hash, and together
      they are exactly the deduplicated transfers. */
  lemma {:induction false} GroupsPartition(ts: seq<Transfer>)
    ensures forall h :: h in Groups(ts) ==>
      Groups(ts)[h] != [] && forall t: Transfer :: t in Groups(ts)[h] ==> t.hash == h
    ensures Total(Groups(ts), Groups(ts).Keys) == multiset(Dedup(ts))
  {
    var d, g := Dedup(ts), Groups(ts);
    forall h | h in g ensures g[h] != [] && forall t: Transfer :: t in g[h] ==> t.hash == h {
      LegsOfElems(d, h);
      var t :| t in d && t.hash == h;
      assert t in g[h];
    }
    forall t: Transfer ensures Total(g, g.Keys)[t] == multiset(d)[t] {
      forall h ensures multiset(LegsOf(d, h))[t] == if t.hash == h then multiset(d)[t] else 0 {
        LegsOfCounts(d, h, t);
      }
      TotalCounts(g, g.Keys, t);
      assert t in d ==> t.hash in g;
    }
  }

  // -------------------------------------------------------- classification

  predicate IsNative(m: Movement) {
    m.contract.None? || EqualFold(m.symbol, "ETH")
  }

  predicate HasOut(ms: seq<Movement>) {
    exists i :: 0 <= i < |ms| && ms[i].outgoing
  }

  predicate HasIn(ms: seq<Movement>) {
    exists i :: 0 <= i < |ms| && !ms[i].outgoing
  }

  predicate SentAway(ms: seq<Movement>, wallet: Address) {
    exists i :: 0 <= i < |ms| && ms[i].outgoing && ms[i].counterparty != wallet
  }

  function RoleOf(ms: seq<Movement>, wallet: Address): Role {
    if ms == [] then Approve
    else if HasOut(ms) && HasIn(ms) then (if SentAway(ms, wallet) then Swap else SelfTransfer)
    else if HasOut(ms) then (if IsNative(ms[0]) then SendEth else SendToken)
    else if IsNative(ms[0]) then ReceiveEth else ReceiveToken
  }

  method ClassifyRole(movements: seq<Movement>, wallet: Address) returns (role: Role)
    ensures role == RoleOf(movements, wallet)
  {
    if |movements| == 0 {
      return Approve;
    }
    var outgoing: seq<Movement>, incoming: seq<Movement> := [], [];
    for i := 0 to |movements|
      invariant outgoing == [] <==> !HasOut(movements[..i])
      invariant incoming == [] <==> !HasIn(movements[..i])
      invariant forall m :: m in outgoing <==> m in movements[..i] && m.outgoing
      invariant i > 0 && incoming == [] ==> outgoing != [] && outgoing[0] == movements[0]
      invariant i > 0 && outgoing == [] ==> incoming != [] && incoming[0] == movements[0]
    {
      var m := movements[i];
      assert movements[..i + 1] == movements[..i] + [m];
      assert HasOut(movements[..i + 1]) <==> HasOut(movements[..i]) || m.outgoing by {
        assert m.outgoing ==> movements[..i + 1][i].outgoing;
        if HasOut(movements[..i]) {
          var k :| 0 <= k < i && movements[..i][k].outgoing;
          assert movements[..i + 1][k].outgoing;
        }
      }
      assert HasIn(movements[..i + 1]) <==> HasIn(movements[..i]) || !m.outgoing by {
        assert !m.outgoing ==> !movements[..i + 1][i].outgoing;
        if HasIn(movements[..i]) {
          var k :| 0 <= k < i && !movements[..i][k].outgoing;
          assert !movements[..i + 1][k].outgoing;
        }
      }
      if m.outgoing {
        outgoing := outgoing + [m];
      } else {
        incoming := incoming + [m];
      }
    }
    assert movements[..|movements|] == movements;
    if outgoing != [] && incoming != [] {
      var allSelf := true;
      var k := 0;
      while k < |outgoing| && allSelf
        invariant 0 <= k <= |outgoing|
        invariant allSelf ==> forall j :: 0 <= j < k ==> outgoing[j].counterparty == wallet
        invariant !allSelf ==> exists m :: m in outgoing && m.counterparty != wallet
        decreases |outgoing| - k, if allSelf then 1 else 0
      {
        if outgoing[k].counterparty != wallet {
          allSelf := false;
        } else {
          k := k + 1;
        }
      }
      assert SentAway(movements, wallet) <==> !allSelf by {
        if !allSelf {
          var m :| m in outgoing && m.counterparty != wallet;
          assert m in movements;
        }
        if SentAway(movements, wallet) {
          var i :| 0 <= i < |movements| && movements[i].outgoing && movements[i].counterparty != wallet;
          assert movements[i] in outgoing;
        }
      }
      return if allSelf then SelfTransfer else Swap;
    }
    if outgoing != [] {
      return if IsNative(outgoing[0]) then SendEth else SendToken;
    }
    return if IsNative(incoming[0]) then ReceiveEth else ReceiveToken;
  }

  /** lookupTokenMeta: the catalogue first, then the chain. */
  function TokenMeta(lk: Lookups, address: Address): Option<Token> {
    if lk.catalogue.Some? && address in lk.catalogue.value then Some(lk.catalogue.value[address])
    else if address in lk.chain then Some(lk.chain[address])
    else None
  }

  function ResolveAsset(lk: Lookups, leg: Transfer): (string, string, Option<Address>) {
    match leg.token
    case None => (leg.asset, "", None)
    case Some(token) =>
      if token.symbol != "" && token.name != "" then (token.symbol, token.name, Some(token.address))
      else
        match TokenMeta(lk, token.address)
        case None => (token.symbol, token.name, Some(token.address))
        case Some(meta) =>
          (if token.symbol == "" then meta.symbol else token.symbol,
           if token.name == "" then meta.name else token.name,
           Some(token.address))
  }

  /** A leg from the wallet to itself counts as outgoing only. */
  function MovementOf(lk: Lookups, wallet: Address, leg: Transfer): Movement {
    var (symbol, name, contract) := ResolveAsset(lk, leg);
    var outgoing := leg.from == wallet;
    Movement(symbol, name, contract, leg.value, outgoing, if outgoing then leg.to else leg.from)
  }

  function MovementsOf(lk: Lookups, wallet: Address, legs: seq<Transfer>): (ms: seq<Movement>)
    ensures |ms| == |legs|
    ensures forall i :: 0 <= i < |legs| ==> ms[i] == MovementOf(lk, wallet, legs[i])
  {
    seq(|legs|, i requires 0 <= i < |legs| => MovementOf(lk, wallet, legs[i]))
  }

  /** The largest element, 0 when there is none. */
  function MaxOf(xs: seq<nat>): nat {
    if xs == [] then 0
    else
      var m := MaxOf(xs[..|xs| - 1]);
      if xs[|xs| - 1] > m then xs[|xs| - 1] else m
  }

  function Blocks(legs: seq<Transfer>): seq<nat> {
    seq(|legs|, i requires 0 <= i < |legs| => legs[i].blockNumber)
  }

  function Stamps(legs: seq<Transfer>): seq<nat> {
    seq(|legs|, i requires 0 <= i < |legs| => legs[i].timestamp)
  }

  function EventOf(lk: Lookups, wallet: Address, now: Time, hash: string, legs: seq<Transfer>,
                   ours: set<string>): Event {
    var ms := MovementsOf(lk, wallet, legs);
    var ts := MaxOf(Stamps(legs));
    Event(hash, RoleOf(ms, wallet), ms, Lower(hash) in ours, MaxOf(Blocks(legs)), if ts == 0 then now else ts)
  }

  method BuildTransactionEvent(lk: Lookups, wallet: Address, now: Time, hash: string,
                               legs: seq<Transfer>, ours: set<string>) returns (ev: Event)
    ensures ev == EventOf(lk, wallet, now, hash, legs, ours)
  {
    var movements: seq<Movement> := [];
    var blockNumber, ts := 0, 0;
    for i := 0 to |legs|
      invariant movements == MovementsOf(lk, wallet, legs[..i])
      invariant blockNumber == MaxOf(Blocks(legs[..i])) && ts == MaxOf(Stamps(legs[..i]))
    {
      var leg := legs[i];
      assert legs[..i + 1] == legs[..i] + [leg];
      assert Blocks(legs[..i + 1])[..i] == Blocks(legs[..i]) && Stamps(legs[..i + 1])[..i] == Stamps(legs[..i]);
      movements := movements + [MovementOf(lk, wallet, leg)];
      if leg.blockNumber > blockNumber {
        blockNumber := leg.blockNumber;
      }
      if leg.timestamp > ts {
        ts := leg.timestamp;
      }
    }
    assert legs[..|legs|] == legs;
    var role := ClassifyRole(movements, wallet);
    if ts == 0 {
      ts := now;
    }
    ev := Event(hash, role, movements, Lower(hash) in ours, blockNumber, ts);
  }

  predicate FromWallet(wallet: Address, legs: seq<Transfer>) {
    exists t :: t in legs && t.from == wallet
  }

  predicate FromOther(wallet: Address, legs: seq<Transfer>) {
    exists t :: t in legs && t.from != wallet
  }

  predicate LeavesWallet(wallet: Address, legs: seq<Transfer>) {
    exists t :: t in legs && t.from == wallet && t.to != wallet
  }

  lemma {:induction false} Directions(lk: Lookups, wallet: Address, legs: seq<Transfer>, ms: seq<Movement>)
    requires ms == MovementsOf(lk, wallet, legs)
    ensures HasOut(ms) <==> FromWallet(wallet, legs)
    ensures HasIn(ms) <==> FromOther(wallet, legs)
    ensures SentAway(ms, wallet) <==> LeavesWallet(wallet, legs)
  {
    forall i | 0 <= i < |legs|
      ensures legs[i] in legs && (ms[i].outgoing <==> legs[i].from == wallet)
      ensures ms[i].outgoing ==> ms[i].counterparty == legs[i].to
    {
    }
  }

  /** The role, read off the legs: a swap has one leg that leaves the wallet for
      another address and one that does not start at the wallet; a self-transfer has
      the second kind but sends nothing to another address. */
  lemma {:induction false} RoleShape(lk: Lookups, wallet: Address, legs: seq<Transfer>)
    ensures
      var role := RoleOf(MovementsOf(lk, wallet, legs), wallet);
      && (role == Swap <==> LeavesWallet(wallet, legs) && FromOther(wallet, legs))
      && (role == SelfTransfer <==>
            FromWallet(wallet, legs) && FromOther(wallet, legs) && !LeavesWallet(wallet, legs))
      && (role == SendEth || role == SendToken <==> FromWallet(wallet, legs) && !FromOther(wallet, legs))
      && (role == ReceiveEth || role == ReceiveToken <==> FromOther(wallet, legs) && !FromWallet(wallet, legs))
      && (role == Approve <==> legs == [])
  {
    var ms := MovementsOf(lk, wallet, legs);
    Directions(lk, wallet, legs, ms);
    assert legs != [] ==> legs[0] in legs;
    assert ms == [] <==> legs == [];
    assert LeavesWallet(wallet, legs) ==> FromWallet(wallet, legs);
  }

  /** A transaction whose only leg goes from the wallet to itself is reported as a
      send: its leg counts as outgoing alone. */
  lemma {:induction false} SelfSendIsASend(lk: Lookups, wallet: Address, leg: Transfer)
    requires leg.from == wallet && leg.to == wallet
    ensures RoleOf(MovementsOf(lk, wallet, [leg]), wallet) != SelfTransfer
  {
    RoleShape(lk, wallet, [leg]);
    assert leg in [leg];
  }

  /** No group is empty, so no transaction the watcher sees is classified Approve. */
  lemma {:induction false} ApproveIsNeverSeen(lk: Lookups, wallet: Address, transfers: seq<Transfer>, h: string)
    requires h in Groups(transfers)
    ensures RoleOf(MovementsOf(lk, wallet, Groups(transfers)[h]), wallet) != Approve
  {
    GroupsPartition(transfers);
    RoleShape(lk, wallet, Groups(transfers)[h]);
  }

  /** Late legs never undo a swap: any larger set of legs, in any order and with
      any other lookups, still classifies as Swap. */
  lemma {:induction false} SwapIsStable(lk: Lookups, lk': Lookups, wallet: Address, legs: seq<Transfer>,
      more: seq<Transfer>)
    requires RoleOf(MovementsOf(lk, wallet, legs), wallet) == Swap
    requires forall t :: t in legs ==> t in more
    ensures RoleOf(MovementsOf(lk', wallet, more), wallet) == Swap
  {
    RoleShape(lk, wallet, legs);
    RoleShape(lk', wallet, more);
  }

  // ------------------------------------------------------------------ spam

  predicate Unverified(lk: Lookups, m: Movement) {
    lk.catalogue.Some? && m.contract.Some? && m.contract.value !in lk.catalogue.value
  }

  function IsSpam(lk: Lookups, ev: Event): bool {
    !ev.isOurs && exists i :: 0 <= i < |ev.movements| && Unverified(lk, ev.movements[i])
  }

  // ------------------------------------------------------- pending lookup

  /** Later entries win, as repeated map assignment does. */
  function PendingIndex(pending: seq<PendingTx>): map<string, PendingTx> {
    if pending == [] then map[]
    else
      var last := pending[|pending| - 1];
      PendingIndex(pending[..|pending| - 1])[Lower(last.hash) := last]
  }

  method IndexPendingByHash(pending: seq<PendingTx>) returns (out: map<string, PendingTx>)
    ensures out == PendingIndex(pending)
  {
    out := map[];
    for i := 0 to |pending|
      invariant out == PendingIndex(pending[..i])
    {
      assert pending[..i + 1][..i] == pending[..i];
      out := out[Lower(pending[i].hash) := pending[i]];
    }
    assert pending[..|pending|] == pending;
  }

  /** The submission kind recorded for a hash, "" when there is none. */
  function KindOf(index: map<string, PendingTx>, hash: string): string {
    if Lower(hash) in index then index[Lower(hash)].kind else ""
  }

  // ---------------------------------------------- what an event says of its legs

  /** Position `k` is the first with its UniqueID. */
  predicate First(ts: seq<Transfer>, k: nat) {
    k < |ts| && forall j :: 0 <= j < k ==> ts[j].uniqueId != ts[k].uniqueId
  }

  lemma {:induction false} FirstIsKept(ts: seq<Transfer>, k: nat)
    requires First(ts, k)
    ensures ts[k] in Dedup(ts)
  {
    var init, last := ts[..|ts| - 1], ts[|ts| - 1];
    if k < |init| {
      assert First(init, k);
      FirstIsKept(init, k);
    } else {
      assert forall j :: 0 <= j < |init| ==> init[j] == ts[j];
      assert !HasId(init, last.uniqueId);
    }
  }

  lemma {:induction false} KeptIsFirst(ts: seq<Transfer>, t: Transfer) returns (k: nat)
    requires t in Dedup(ts)
    ensures First(ts, k) && ts[k] == t
  {
    var init, last := ts[..|ts| - 1], ts[|ts| - 1];
    if t in Dedup(init) {
      k := KeptIsFirst(init, t);
      assert forall j :: 0 <= j < |init| ==> init[j] == ts[j];
    } else {
      k := |init|;
      forall j | 0 <= j < k ensures ts[j].uniqueId != last.uniqueId {
        assert init[j] == ts[j];
      }
    }
  }

  /** What survives of each UniqueID is its first transfer. */
  lemma {:induction false} DedupIs(ts: seq<Transfer>, t: Transfer)
    ensures t in Dedup(ts) <==> exists k: nat :: First(ts, k) && ts[k] == t
  {
    if t in Dedup(ts) {
      var k := KeptIsFirst(ts, t);
    }
    if k: nat :| First(ts, k) && ts[k] == t {
      FirstIsKept(ts, k);
    }
  }

  /** Survivors stay in the order they were fetched. */
  lemma {:induction false} DedupGrows(ts: seq<Transfer>, k: nat)
    requires k <= |ts|
    ensures Dedup(ts[..k]) <= Dedup(ts)
  {
    if k < |ts| {
      DedupGrows(ts[..|ts| - 1], k);
      assert ts[..|ts| - 1][..k] == ts[..k];
    } else {
      assert ts[..k] == ts;
    }
  }

  /** Direction, counterparty and amount of a leg, and its contract. */
  lemma {:induction false} MovementIs(lk: Lookups, wallet: Address, leg: Transfer)
    ensures
      var m := MovementOf(lk, wallet, leg);
      && (m.outgoing <==> leg.from == wallet)
      && (leg.from == wallet ==> m.counterparty == leg.to) && (leg.from != wallet ==> m.counterparty == leg.from)
      && m.amount == leg.value
      && (leg.token.None? ==> m.contract == None && m.symbol == leg.asset && m.name == "")
      && (leg.token.Some? ==> m.contract == Some(leg.token.value.address))
  {
  }

  /** A token shows the symbol and name it came with; what is missing comes from the
      catalogue, or else from the chain, or stays empty. */
  lemma {:induction false} TokenNamesAre(lk: Lookups, wallet: Address, leg: Transfer)
    requires leg.token.Some?
    ensures
      var m, token := MovementOf(lk, wallet, leg), leg.token.value;
      var listed := lk.catalogue.Some? && token.address in lk.catalogue.value;
      && (token.symbol != "" ==> m.symbol == token.symbol)
      && (token.name != "" ==> m.name == token.name)
      && (token.symbol == "" && listed ==> m.symbol == lk.catalogue.value[token.address].symbol)
      && (token.name == "" && listed ==> m.name == lk.catalogue.value[token.address].name)
      && (token.symbol == "" && !listed && token.address in lk.chain ==> m.symbol == lk.chain[token.address].symbol)
      && (token.name == "" && !listed && token.address in lk.chain ==> m.name == lk.chain[token.address].name)
      && (token.symbol == "" && !listed && token.address !in lk.chain ==> m.symbol == "")
      && (token.name == "" && !listed && token.address !in lk.chain ==> m.name == "")
  {
  }

  /** ETH, or a token that calls itself so in any letter case. */
  predicate CountsAsEth(lk: Lookups, wallet: Address, leg: Transfer) {
    leg.token.None? || EqualFold(MovementOf(lk, wallet, leg).symbol, "ETH")
  }

  /** Whether a plain send or receipt is one of ETH or of a token is read off its
      first leg. */
  lemma {:induction false} NativeByFirstLeg(lk: Lookups, wallet: Address, legs: seq<Transfer>)
    requires legs != []
    ensures
      var role := RoleOf(MovementsOf(lk, wallet, legs), wallet);
      && (role == SendEth <==>
            FromWallet(wallet, legs) && !FromOther(wallet, legs) && CountsAsEth(lk, wallet, legs[0]))
      && (role == SendToken <==>
            FromWallet(wallet, legs) && !FromOther(wallet, legs) && !CountsAsEth(lk, wallet, legs[0]))
      && (role == ReceiveEth <==> !FromWallet(wallet, legs) && CountsAsEth(lk, wallet, legs[0]))
      && (role == ReceiveToken <==> !FromWallet(wallet, legs) && !CountsAsEth(lk, wallet, legs[0]))
  {
    RoleShape(lk, wallet, legs);
    MovementIs(lk, wallet, legs[0]);
    assert legs[0] in legs;
  }

  lemma {:induction false} MaxOfIs(xs: seq<nat>)
    ensures forall i :: 0 <= i < |xs| ==> xs[i] <= MaxOf(xs)
    ensures MaxOf(xs) == 0 || MaxOf(xs) in xs
  {
    if xs != [] {
      MaxOfIs(xs[..|xs| - 1]);
      assert xs == xs[..|xs| - 1] + [xs[|xs| - 1]];
    }
  }

  /** Block and time are the latest of any leg; without a time it is now. */
  lemma {:induction false} EventIs(lk: Lookups, wallet: Address, now: Time, hash: string, legs: seq<Transfer>,
                                   ours: set<string>)
    ensures
      var ev := EventOf(lk, wallet, now, hash, legs, ours);
      && ev.hash == hash && (ev.isOurs <==> Lower(hash) in ours)
      && |ev.movements| == |legs|
      && (forall i :: 0 <= i < |legs| ==> ev.movements[i] == MovementOf(lk, wallet, legs[i]))
      && (forall t :: t in legs && t.timestamp != 0 ==> t.timestamp <= ev.timestamp)
      && (ev.blockNumber == 0 || exists t :: t in legs && t.blockNumber == ev.blockNumber)
      && (forall t :: t in legs ==> t.blockNumber <= ev.blockNumber)
      && (if forall t :: t in legs ==> t.timestamp == 0 then ev.timestamp == now
          else exists t :: t in legs && t.timestamp == ev.timestamp)
  {
    MaxOfIs(Blocks(legs));
    MaxOfIs(Stamps(legs));
    forall t | t in legs ensures t.blockNumber <= MaxOf(Blocks(legs)) && t.timestamp <= MaxOf(Stamps(legs)) {
      var i :| 0 <= i < |legs| && legs[i] == t;
      assert Blocks(legs)[i] == t.blockNumber && Stamps(legs)[i] == t.timestamp;
    }
    if MaxOf(Blocks(legs)) != 0 {
      var i :| 0 <= i < |legs| && Blocks(legs)[i] == MaxOf(Blocks(legs));
      assert legs[i] in legs;
    }
    if MaxOf(Stamps(legs)) != 0 {
      var i :| 0 <= i < |legs| && Stamps(legs)[i] == MaxOf(Stamps(legs));
      assert legs[i] in legs;
    }
  }

  /** Spam is a transaction of somebody else's that moves a token missing from the
      catalogue; without a catalogue nothing is. */
  lemma {:induction false} SpamIs(lk: Lookups, wallet: Address, now: Time, hash: string, legs: seq<Transfer>,
                                  ours: set<string>)
    ensures IsSpam(lk, EventOf(lk, wallet, now, hash, legs, ours)) <==>
      && Lower(hash) !in ours && lk.catalogue.Some?
      && exists t :: t in legs && t.token.Some? && t.token.value.address !in lk.catalogue.value
  {
    var ms := MovementsOf(lk, wallet, legs);
    forall i | 0 <= i < |legs|
      ensures legs[i] in legs
      ensures Unverified(lk, ms[i]) <==>
        lk.catalogue.Some? && legs[i].token.Some? && legs[i].token.value.address !in lk.catalogue.value
    {
      MovementIs(lk, wallet, legs[i]);
    }
    if t :| t in legs && t.token.Some? && lk.catalogue.Some? && t.token.value.address !in lk.catalogue.value {
      var i :| 0 <= i < |legs| && legs[i] == t;
      assert ms[i] == MovementOf(lk, wallet, t);
    }
  }

  /** Entry `i` is the last one pending under this hash, in any letter case. */
  predicate LastPending(pending: seq<PendingTx>, hash: string, i: nat) {
    && i < |pending| && EqualFold(pending[i].hash, hash)
    && forall j :: i < j < |pending| ==> !EqualFold(pending[j].hash, hash)
  }

  /** A hash with an entry is known, under the kind of the last one. */
  lemma {:induction false} KindOfLast(pending: seq<PendingTx>, hash: string, i: nat)
    requires LastPending(pending, hash, i)
    ensures Lower(hash) in PendingIndex(pending) && KindOf(PendingIndex(pending), hash) == pending[i].kind
  {
    var n := |pending| - 1;
    if i < n {
      assert !EqualFold(pending[n].hash, hash);
      assert LastPending(pending[..n], hash, i);
      KindOfLast(pending[..n], hash, i);
    }
  }

  lemma {:induction false} KindOfNone(pending: seq<PendingTx>, hash: string)
    requires forall i :: 0 <= i < |pending| ==> !EqualFold(pending[i].hash, hash)
    ensures Lower(hash) !in PendingIndex(pending) && KindOf(PendingIndex(pending), hash) == ""
  {
    if pending != [] {
      KindOfNone(pending[..|pending| - 1], hash);
    }
  }
}
