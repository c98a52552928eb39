/** Any interleaving of SendTx calls, replacements and janitor passes: who is
    behind each listed transaction, and where a missing nonce went. */
module SendRuns {
  import opened Text
  import opened PendingRegistry
  import opened SendProtocol

  /** How far one SendTx got.  `Accepted` is the gap between the node's acceptance
      and the registration. */
  datatype Stage = Took | Abandoned | Accepted(tx: PendingTx) | Waiting(hash: string) | Returned

  datatype Send = Send(addr: Address, nonce: u64, stage: Stage)

  /** The shared state, with what the guarantees talk about: the calls in flight,
      the hashes of replacements, the calls whose transaction the node accepted, and
      for each address the calls that took a nonce since its last reset. */
  datatype World = World(
    nonces: Nonces, store: Registry, sends: map<nat, Send>, replacements: set<string>,
    broadcast: set<nat>, taken: map<Address, seq<nat>>)

  const IDLE := World(map[], EMPTY, map[], {}, {}, map[])

  datatype Step =
    | Take(id: nat, addr: Address, chain: Option<u64>)      // nonceManager.next
    | GiveUp(id: nat)                                        // estimation or signing failed
    | BroadcastFails(id: nat)                                // nonceManager.reset
    | BroadcastSucceeds(id: nat, tx: PendingTx)
    | Register(id: nat)                                      // pending.Add
    | Return(id: nat, t1: Time, t2: Time)                    // receipt or canceled: deferred Remove
    | Evict(hash: string, t1: Time, t2: Time)                // janitor, or replaceTx's eager cleanup
    | Replace(tx: PendingTx)                                 // replaceTx registers the replacement

  function Taken(w: World, addr: Address): seq<nat> {
    if addr in w.taken then w.taken[addr] else []
  }

  predicate At(w: World, id: nat, stage: Stage) {
    id in w.sends && w.sends[id].stage == stage
  }

  function Move(w: World, id: nat, stage: Stage): World
    requires id in w.sends
  {
    w.(sends := w.sends[id := w.sends[id].(stage := stage)])
  }

  /** One step; a step that is not possible yet changes nothing. */
  function Next(w: World, step: Step): World {
    match step
    case Take(id, addr, chain) =>
      if id in w.sends then w
      else
        var next := NextNonce(w.nonces, addr, chain);
        if next.None? then w
        else w.(nonces := next.value.1, sends := w.sends[id := Send(addr, next.value.0, Took)],
                taken := w.taken[addr := Taken(w, addr) + [id]])
    case GiveUp(id) => if At(w, id, Took) then Move(w, id, Abandoned) else w
    case BroadcastFails(id) =>
      if !At(w, id, Took) then w
      else Move(w, id, Abandoned).(nonces := w.nonces - {w.sends[id].addr}, taken := w.taken - {w.sends[id].addr})
    case BroadcastSucceeds(id, tx) =>
      if !At(w, id, Took) || tx.from != w.sends[id].addr || tx.nonce != w.sends[id].nonce then w
      else Move(w, id, Accepted(tx)).(broadcast := w.broadcast + {id})
    case Register(id) =>
      if id !in w.sends || !w.sends[id].stage.Accepted? then w
      else
        var tx := w.sends[id].stage.tx;
        Move(w, id, Waiting(tx.hash)).(store := Enlist(w.store, tx))
    case Return(id, t1, t2) =>
      if id !in w.sends || !w.sends[id].stage.Waiting? then w
      else Move(w, id, Returned).(store := TrackerRemove(w.store, w.sends[id].stage.hash, t1, t2))
    case Evict(hash, t1, t2) => w.(store := TrackerRemove(w.store, hash, t1, t2))
    case Replace(tx) => w.(store := Enlist(w.store, tx), replacements := w.replacements + {tx.hash})
  }

  function Run(w: World, steps: seq<Step>): World
    decreases steps
  {
    if steps == [] then w else Run(Next(w, steps[0]), steps[1..])
  }

  // --------------------------------------------------- who is behind an entry

  ghost predicate Explained(w: World, hash: string) {
    hash in w.replacements || exists id :: At(w, id, Waiting(hash))
  }

  ghost predicate AllExplained(w: World) {
    forall h :: h in w.store.active ==> Explained(w, h)
  }

  lemma {:induction false} StepExplains(w: World, step: Step)
    requires AllExplained(w)
    ensures AllExplained(Next(w, step))
  {
    var v := Next(w, step);
    forall h | h in v.store.active ensures Explained(v, h) {
      if step.Register? && v != w && h == w.sends[step.id].stage.tx.hash {
        assert At(v, step.id, Waiting(h));
      } else if h !in v.replacements {
        assert h in w.store.active && Explained(w, h);
        var id :| At(w, id, Waiting(h));
        assert At(v, id, Waiting(h));
      }
    }
  }

  /** Every listed transaction belongs to a SendTx still waiting for its receipt, or
      to a replacement. */
  lemma {:induction false} ListedIsExplained(w: World, steps: seq<Step>)
    requires AllExplained(w)
    ensures AllExplained(Run(w, steps))
    decreases steps
  {
    if steps != [] {
      StepExplains(w, steps[0]);
      ListedIsExplained(Next(w, steps[0]), steps[1..]);
    }
  }

  // ------------------------------------------------------- where nonces went

  /** Since its last reset the address handed out base, base + 1, ... (modulo 2^64),
      one to each call in `taken`, and the counter stands right after them. */
  ghost predicate Contiguous(w: World, addr: Address) {
    var ids := Taken(w, addr);
    && (ids == [] <==> addr !in w.nonces)
    && NoDup(ids)
    && (forall i :: 0 <= i < |ids| ==> ids[i] in w.sends && w.sends[ids[i]].addr == addr)
    && (forall i :: 0 <= i < |ids| ==> w.sends[ids[i]].nonce == (w.sends[ids[0]].nonce + i) % U64)
    && (ids != [] ==> w.nonces[addr] == (w.sends[ids[0]].nonce + |ids|) % U64)
  }

  /** The calls on record are those that got past broadcasting. */
  predicate Recorded(w: World, id: nat) {
    id in w.broadcast <==>
      id in w.sends && w.sends[id].stage != Took && w.sends[id].stage != Abandoned
  }

  ghost predicate NoncesOk(w: World) {
    (forall a :: Contiguous(w, a)) && (forall id :: Recorded(w, id))
  }

  lemma {:induction false} TakeKeepsContiguous(w: World, id: nat, addr: Address, chain: Option<u64>, a: Address)
    requires Contiguous(w, a) && id !in w.sends
    ensures Contiguous(Next(w, Take(id, addr, chain)), a)
  {
    var v := Next(w, Take(id, addr, chain));
    if v.sends != w.sends {
      var ids := Taken(w, a);
      assert forall i :: 0 <= i < |ids| ==> ids[i] != id;
      if a == addr {
        var base := if ids == [] then v.sends[id].nonce else w.sends[ids[0]].nonce;
        ModStep(base, |ids|);
        TakeAppends(ids, id, v, a, base);
      } else {
        TakeElsewhere(w, v, id, a);
      }
    }
  }

  lemma {:induction false} TakeElsewhere(w: World, v: World, id: nat, a: Address)
    requires Contiguous(w, a) && id !in Taken(w, a) && Taken(v, a) == Taken(w, a)
    requires forall k :: k in w.sends && k != id ==> k in v.sends && v.sends[k] == w.sends[k]
    requires (a in v.nonces <==> a in w.nonces) && (a in v.nonces ==> v.nonces[a] == w.nonces[a])
    ensures Contiguous(v, a)
  {
  }

  lemma {:induction false} TakeAppends(ids: seq<nat>, id: nat, v: World, a: Address, base: u64)
    requires NoDup(ids) && id !in ids && Taken(v, a) == ids + [id] && a in v.nonces
    requires forall i :: 0 <= i < |ids| ==>
      ids[i] in v.sends && v.sends[ids[i]].addr == a && v.sends[ids[i]].nonce == (base + i) % U64
    requires id in v.sends && v.sends[id].addr == a && v.sends[id].nonce == (base + |ids|) % U64
    requires v.nonces[a] == (base + (|ids| + 1)) % U64
    ensures Contiguous(v, a)
  {
    assert (ids + [id])[0] == if ids == [] then id else ids[0];
  }

  lemma {:induction false} ModStep(base: nat, n: nat)
    ensures ((base + n) % U64 + 1) % U64 == (base + (n + 1)) % U64
  {
  }

  /** Steps other than Take keep the addresses and nonces of the calls, and either
      keep or reset the counter and the list of an address. */
  lemma {:induction false} OthersKeepContiguous(w: World, v: World, a: Address)
    requires Contiguous(w, a)
    requires v.sends.Keys == w.sends.Keys
    requires forall id :: id in w.sends ==>
      v.sends[id].addr == w.sends[id].addr && v.sends[id].nonce == w.sends[id].nonce
    requires (a in v.nonces <==> a in w.nonces && a in v.taken) && (a in v.taken ==> a in w.taken)
    requires a in v.taken ==> v.taken[a] == w.taken[a]
    requires a in v.nonces ==> v.nonces[a] == w.nonces[a]
    ensures Contiguous(v, a)
  {
  }

  lemma {:induction false} StepKeepsContiguous(w: World, step: Step, a: Address)
    requires Contiguous(w, a)
    ensures Contiguous(Next(w, step), a)
  {
    if step.Take? {
      if step.id !in w.sends {
        TakeKeepsContiguous(w, step.id, step.addr, step.chain, a);
      }
    } else {
      OthersKeepContiguous(w, Next(w, step), a);
    }
  }

  lemma {:induction false} StepKeepsNonces(w: World, step: Step)
    requires NoncesOk(w)
    ensures NoncesOk(Next(w, step))
  {
    var v := Next(w, step);
    forall a ensures Contiguous(v, a) {
      StepKeepsContiguous(w, step, a);
    }
    forall id ensures Recorded(v, id) {
      assert Recorded(w, id);
    }
  }

  lemma {:induction false} RunKeepsNonces(w: World, steps: seq<Step>)
    requires NoncesOk(w)
    ensures NoncesOk(Run(w, steps))
    decreases steps
  {
    if steps != [] {
      StepKeepsNonces(w, steps[0]);
      RunKeepsNonces(Next(w, steps[0]), steps[1..]);
    }
  }

  /** The `i`-th nonce handed out to the address since its last reset. */
  function NonceAt(w: World, addr: Address, i: nat): nat
    requires i < |Taken(w, addr)| && Taken(w, addr)[i] in w.sends
  {
    w.sends[Taken(w, addr)[i]].nonce
  }

  /** The nonce was broadcast by a call that took it since the last reset. */
  predicate Sent(w: World, addr: Address, nonce: nat) {
    exists i :: 0 <= i < |Taken(w, addr)| && Taken(w, addr)[i] in w.sends && Taken(w, addr)[i] in w.broadcast &&
      w.sends[Taken(w, addr)[i]].nonce == nonce
  }

  predicate StoppedShort(w: World, id: nat) {
    At(w, id, Took) || At(w, id, Abandoned)
  }

  /** The `i`-th nonce has one owner, and is missing exactly when that call stopped
      short of broadcasting. */
  ghost predicate Owned(w: World, addr: Address, i: nat) {
    var ids := Taken(w, addr);
    && i < |ids| && ids[0] in w.sends && ids[i] in w.sends && w.sends[ids[i]].addr == addr
    && w.sends[ids[i]].nonce == (w.sends[ids[0]].nonce + i) % U64
    && (forall j :: 0 <= j < |ids| && j != i ==> ids[j] in w.sends && w.sends[ids[j]].nonce != w.sends[ids[i]].nonce)
    && (!Sent(w, addr, w.sends[ids[i]].nonce) <==> StoppedShort(w, ids[i]))
  }

  lemma {:induction false} NonceIsOwned(w: World, addr: Address, i: nat)
    requires NoncesOk(w) && i < |Taken(w, addr)| <= U64
    ensures Owned(w, addr, i)
  {
    var ids := Taken(w, addr);
    assert Contiguous(w, addr) && Recorded(w, ids[i]);
    forall j | 0 <= j < |ids| && j != i
      ensures ids[j] in w.sends && w.sends[ids[j]].nonce != w.sends[ids[i]].nonce
    {
      ModDistinct(w.sends[ids[0]].nonce, i, j);
    }
  }

  /** A nonce handed out since the last reset has exactly one owner, a SendTx that took
      it, and it is missing exactly when that call has not broadcast it. */
  lemma {:induction false} MissingNonceHasOwner(steps: seq<Step>, addr: Address, i: nat)
    requires var w := Run(IDLE, steps); i < |Taken(w, addr)| <= U64
    ensures Owned(Run(IDLE, steps), addr, i)
  {
    RunKeepsNonces(IDLE, steps);
    NonceIsOwned(Run(IDLE, steps), addr, i);
  }

  /** When no call is between taking its nonce and broadcasting, the nonces handed out
      since the last reset have all been broadcast exactly when no call gave up. */
  lemma {:induction false} GapExactlyWhenOneGaveUp(steps: seq<Step>, addr: Address)
    requires
      var w := Run(IDLE, steps);
      |Taken(w, addr)| <= U64 && forall i :: 0 <= i < |Taken(w, addr)| ==> !At(w, Taken(w, addr)[i], Took)
    ensures
      var w := Run(IDLE, steps);
      && (forall i :: 0 <= i < |Taken(w, addr)| ==> Taken(w, addr)[i] in w.sends)
      && ((forall i :: 0 <= i < |Taken(w, addr)| ==> Sent(w, addr, NonceAt(w, addr, i))) <==>
          (forall i :: 0 <= i < |Taken(w, addr)| ==> !At(w, Taken(w, addr)[i], Abandoned)))
  {
    RunKeepsNonces(IDLE, steps);
    var w := Run(IDLE, steps);
    var ids := Taken(w, addr);
    forall i | 0 <= i < |ids|
      ensures ids[i] in w.sends && (Sent(w, addr, NonceAt(w, addr, i)) <==> !At(w, ids[i], Abandoned))
    {
      NonceIsOwned(w, addr, i);
    }
  }

  /** No broadcast of this address fails. */
  predicate NoReset(w: World, steps: seq<Step>, addr: Address)
    decreases steps
  {
    steps != [] ==>
      && !(steps[0].BroadcastFails? && At(w, steps[0].id, Took) && w.sends[steps[0].id].addr == addr)
      && NoReset(Next(w, steps[0]), steps[1..], addr)
  }

  predicate KeepsCall(w: World, v: World, id: nat) {
    id in w.sends ==>
      id in v.sends && v.sends[id].nonce == w.sends[id].nonce && (At(w, id, Abandoned) ==> At(v, id, Abandoned))
  }

  lemma {:induction false} StepKeepsTaken(w: World, step: Step, addr: Address, id: nat)
    requires !(step.BroadcastFails? && At(w, step.id, Took) && w.sends[step.id].addr == addr)
    ensures Taken(w, addr) <= Taken(Next(w, step), addr) && KeepsCall(w, Next(w, step), id)
  {
  }

  lemma {:induction false} RunKeepsTaken(w: World, steps: seq<Step>, addr: Address, id: nat)
    requires NoReset(w, steps, addr)
    ensures Taken(w, addr) <= Taken(Run(w, steps), addr) && KeepsCall(w, Run(w, steps), id)
    decreases steps
  {
    if steps != [] {
      StepKeepsTaken(w, steps[0], addr, id);
      RunKeepsTaken(Next(w, steps[0]), steps[1..], addr, id);
    }
  }

  /** A nonce given up is lost until the next reset: no other call is handed it, and
      nobody broadcasts it, so every later nonce waits behind the gap. */
  lemma {:induction false} GivenUpNonceStaysMissing(steps: seq<Step>, more: seq<Step>, addr: Address, i: nat)
    requires
      var w := Run(IDLE, steps);
      && i < |Taken(w, addr)| && At(w, Taken(w, addr)[i], Abandoned)
      && NoReset(w, more, addr) && |Taken(Run(w, more), addr)| <= U64
    ensures
      var w := Run(IDLE, steps);
      var v := Run(w, more);
      && Taken(w, addr) <= Taken(v, addr) && Owned(v, addr, i)
      && NonceAt(v, addr, i) == NonceAt(w, addr, i) && !Sent(v, addr, NonceAt(w, addr, i))
  {
    RunKeepsNonces(IDLE, steps);
    var w := Run(IDLE, steps);
    RunKeepsTaken(w, more, addr, Taken(w, addr)[i]);
    RunKeepsNonces(w, more);
    NonceIsOwned(Run(w, more), addr, i);
  }

  lemma {:induction false} ModDistinct(base: nat, i: nat, j: nat)
    requires i != j && i < U64 && j < U64 && base < U64
    ensures (base + i) % U64 != (base + j) % U64
  {
    assert (base + i) % U64 == if base + i < U64 then base + i else base + i - U64;
    assert (base + j) % U64 == if base + j < U64 then base + j else base + j - U64;
  }

  /** The counter is where the next nonce comes from: right after the last one. */
  lemma {:induction false} CounterFollows(steps: seq<Step>, addr: Address)
    ensures
      var w := Run(IDLE, steps);
      var ids := Taken(w, addr);
      && (addr in w.nonces <==> ids != [])
      && (ids != [] ==> ids[0] in w.sends && w.nonces[addr] == (w.sends[ids[0]].nonce + |ids|) % U64)
  {
    RunKeepsNonces(IDLE, steps);
    assert Contiguous(Run(IDLE, steps), addr);
  }

  /** A call that takes a nonce gets the counter of its address, which moves on by
      one, or the node's answer when there is no counter; with neither it gets none. */
  lemma {:induction false} TakeHandsOut(w: World, id: nat, addr: Address, chain: Option<u64>)
    requires id !in w.sends
    ensures
      var v := Next(w, Take(id, addr, chain));
      && (addr !in w.nonces && chain.None? ==> v == w)
      && (addr in w.nonces || chain.Some? ==>
            && v.sends.Keys == w.sends.Keys + {id} && v.sends[id].addr == addr && v.sends[id].stage == Took
            && (addr in w.nonces ==> v.sends[id].nonce == w.nonces[addr])
            && (addr !in w.nonces ==> Some(v.sends[id].nonce) == chain)
            && v.nonces == w.nonces[addr := (v.sends[id].nonce + 1) % U64]
            && v.store == w.store && v.broadcast == w.broadcast)
  {
  }

  /** Where the nonces of an address start: the first call since the last reset took,
      at step `k`, exactly the pending nonce the node reported to it. */
  ghost predicate BeganAt(steps: seq<Step>, addr: Address, k: nat) {
    var w := Run(IDLE, steps);
    && Taken(w, addr) != [] && Taken(w, addr)[0] in w.sends
    && k < |steps| && addr !in Run(IDLE, steps[..k]).nonces
    && steps[k] == Take(Taken(w, addr)[0], addr, Some(w.sends[Taken(w, addr)[0]].nonce))
  }

  lemma {:induction false} FirstNonceIsTheNodes(steps: seq<Step>, addr: Address) returns (k: nat)
    requires Taken(Run(IDLE, steps), addr) != []
    ensures BeganAt(steps, addr, k)
    decreases |steps|
  {
    var n := |steps| - 1;
    var w, last := Run(IDLE, steps[..n]), steps[n];
    assert steps == steps[..n] + [last];
    RunAdd(IDLE, steps[..n], [last]);
    RunOne(w, last);
    RunKeepsNonces(IDLE, steps[..n]);
    assert Contiguous(w, addr);
    if Taken(w, addr) == [] {
      k := n;
      StartsHere(w, last, addr);
    } else {
      k := FirstNonceIsTheNodes(steps[..n], addr);
      assert steps[..n][..k] == steps[..k];
      FirstStays(w, last, addr);
    }
  }

  lemma {:induction false} StartsHere(w: World, step: Step, addr: Address)
    requires addr !in w.nonces && Taken(w, addr) == [] && Taken(Next(w, step), addr) != []
    ensures
      var v := Next(w, step);
      var id := Taken(v, addr)[0];
      id in v.sends && step == Take(id, addr, Some(v.sends[id].nonce))
  {
  }

  lemma {:induction false} FirstStays(w: World, step: Step, addr: Address)
    requires Taken(w, addr) != [] && Taken(w, addr)[0] in w.sends && Taken(Next(w, step), addr) != []
    ensures
      var v := Next(w, step);
      var id := Taken(w, addr)[0];
      Taken(v, addr)[0] == id && id in v.sends && v.sends[id].nonce == w.sends[id].nonce
  {
  }

  // -------------------------------------------- the Go functions are runs of steps

  lemma {:induction false} RunAdd(w: World, a: seq<Step>, b: seq<Step>)
    ensures Run(w, a + b) == Run(Run(w, a), b)
    decreases a
  {
    if a == [] {
      assert a + b == b;
    } else {
      assert (a + b)[0] == a[0] && (a + b)[1..] == a[1..] + b;
      RunAdd(Next(w, a[0]), a[1..], b);
    }
  }

  lemma {:induction false} RunOne(w: World, step: Step)
    ensures Run(w, [step]) == Next(w, step)
  {
    assert [step][1..] == [];
  }

  /** What a call to SendTx does once it holds the nonce. */
  function Script(id: nat, from: Address, nonce: u64, req: Request, ans: SendAnswers,
                  now: Time, t1: Time, t2: Time): seq<Step> {
    if ans.fees.None? || ans.signedHash.None? then [GiveUp(id)]
    else if !ans.accepted then [BroadcastFails(id)]
    else
      [BroadcastSucceeds(id, TxOf(from, req, nonce, ans.fees.value, ans.signedHash.value, now))]
      + [Register(id)] + [Return(id, t1, t2)]
  }

  lemma {:induction false} ScriptRuns(w: World, id: nat, from: Address, nonce: u64, req: Request, ans: SendAnswers,
                                      now: Time, t1: Time, t2: Time)
    requires id in w.sends && w.sends[id] == Send(from, nonce, Took)
    ensures
      var v := Run(w, Script(id, from, nonce, req, ans, now, t1, t2));
      var o := AfterNonce(nonce, w.nonces, w.store, from, req, ans, now, t1, t2);
      && v.nonces == o.nonces && v.store == o.store
      && (At(v, id, Returned) <==> o.result.Mined? || o.result.GaveUpWaiting?)
  {
    if ans.fees.None? || ans.signedHash.None? {
      RunOne(w, GiveUp(id));
    } else if !ans.accepted {
      RunOne(w, BroadcastFails(id));
    } else {
      var sent := BroadcastSucceeds(id, TxOf(from, req, nonce, ans.fees.value, ans.signedHash.value, now));
      RunAdd(w, [sent] + [Register(id)], [Return(id, t1, t2)]);
      RunAdd(w, [sent], [Register(id)]);
      RunOne(w, sent);
      RunOne(Next(w, sent), Register(id));
      RunOne(Next(Next(w, sent), Register(id)), Return(id, t1, t2));
    }
  }

  /** A SendTx that nobody interrupts is the step Take followed by its script. */
  lemma {:induction false} SendAlone(w: World, id: nat, from: Address, req: Request, ans: SendAnswers,
                                     now: Time, t1: Time, t2: Time)
    requires id !in w.sends
    ensures
      var next := NextNonce(w.nonces, from, ans.pendingNonce);
      var o := OutcomeOf(w.nonces, w.store, from, req, ans, now, t1, t2);
      var rest := if next.None? then [] else Script(id, from, next.value.0, req, ans, now, t1, t2);
      var v := Run(w, [Take(id, from, ans.pendingNonce)] + rest);
      v.nonces == o.nonces && v.store == o.store
  {
    var take := Take(id, from, ans.pendingNonce);
    var next := NextNonce(w.nonces, from, ans.pendingNonce);
    RunOne(w, take);
    if next.None? {
      assert [take] + [] == [take];
    } else {
      RunAdd(w, [take], Script(id, from, next.value.0, req, ans, now, t1, t2));
      ScriptRuns(Next(w, take), id, from, next.value.0, req, ans, now, t1, t2);
    }
  }

  /** A replacement is an eviction of the vanished original, or the entry it registers. */
  lemma {:induction false} ReplaceAlone(w: World, wallet: Address, original: string, cancel: bool, found: Lookup,
                                        signedHash: Option<string>, accepted: bool, now: Time, t1: Time, t2: Time)
    ensures
      var steps :=
        if !found.InPool? then [Evict(original, t1, t2)]
        else if signedHash.None? || !accepted then []
        else [Replace(ReplacementEntry(wallet, found.tx, cancel, signedHash.value, now))];
      var v := Run(w, steps);
      && v.store == ReplaceStore(w.store, wallet, original, cancel, found, signedHash, accepted, now, t1, t2)
      && v.nonces == w.nonces
  {
    if !found.InPool? {
      RunOne(w, Evict(original, t1, t2));
    } else if signedHash.Some? && accepted {
      RunOne(w, Replace(ReplacementEntry(wallet, found.tx, cancel, signedHash.value, now)));
    }
  }

  function Evictions(pending: seq<PendingTx>, ask: string -> Answer, n: nat, now: Time): seq<Step>
    requires n <= |pending|
  {
    if n == 0 then []
    else
      Evictions(pending, ask, n - 1, now) +
      if Stale(pending, ask, n - 1) then [Evict(pending[n - 1].hash, now, now)] else []
  }

  /** A janitor pass is a run of evictions. */
  lemma {:induction false} PruneAlone(w: World, pending: seq<PendingTx>, ask: string -> Answer, n: nat, now: Time)
    requires n <= |pending|
    ensures Run(w, Evictions(pending, ask, n, now)) == w.(store := Pruned(w.store, pending, ask, n, now))
  {
    if n > 0 {
      PruneAlone(w, pending, ask, n - 1, now);
      var before := Evictions(pending, ask, n - 1, now);
      if Stale(pending, ask, n - 1) {
        RunAdd(w, before, [Evict(pending[n - 1].hash, now, now)]);
        RunOne(Run(w, before), Evict(pending[n - 1].hash, now, now));
      } else {
        assert before + [] == before;
      }
    }
  }
}
