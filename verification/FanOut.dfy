/** The watcher's fan-out (internal/usecase/watcher/emit.go and usecase.go):
    subscribers come and go, several monitors emit at once, and every subscriber
    has a bounded queue that drops when full.

    Emitters hold the read lock while they walk the subscriber slice, so their
    sends interleave channel by channel; Subscribe and unsubscribe hold the write
    lock, so they run only while nobody is emitting. */
module FanOut {
  import opened Text

  const QUEUE_CAP: nat := 64

  /** The `n`-th event of one emitter. */
  datatype Ev = Ev(emitter: nat, n: nat)

  /** A Go channel with the history of what went in and out.  `dropped` records
      each lost event with the backlog found at that moment. */
  datatype Chan = Chan(queue: seq<Ev>, closed: bool, accepted: seq<Ev>, received: seq<Ev>,
                       dropped: seq<(Ev, nat)>, since: map<nat, nat>)

  // --------------------------------------------------------- channel actions

  function Offer(ch: Chan, ev: Ev): Chan {
    if |ch.queue| < QUEUE_CAP then ch.(queue := ch.queue + [ev], accepted := ch.accepted + [ev])
    else ch.(dropped := ch.dropped + [(ev, |ch.queue|)])
  }

  function Take(ch: Chan): Chan
    requires ch.queue != []
  {
    ch.(queue := ch.queue[1..], received := ch.received + [ch.queue[0]])
  }

  /** The index of the first `c`, |subs| when there is none. */
  function IndexOf(subs: seq<nat>, c: nat): (i: nat)
    ensures i <= |subs| && (i < |subs| ==> subs[i] == c)
    ensures forall k :: 0 <= k < i ==> subs[k] != c
  {
    if subs == [] || subs[0] == c then 0 else 1 + IndexOf(subs[1..], c)
  }

  function Without(subs: seq<nat>, c: nat): seq<nat> {
    var i := IndexOf(subs, c);
    if i < |subs| then subs[..i] + subs[i + 1..] else subs
  }

  // ------------------------------------------------------------ the machine

  /** An emitter between its lock and its unlock: the event and the next index. */
  datatype Sending = Sending(n: nat, next: nat)

  datatype Hub = Hub(subs: seq<nat>, chans: map<nat, Chan>, counts: map<nat, nat>,
                     busy: map<nat, Sending>, panicked: bool)

  const EMPTY := Hub([], map[], map[], map[], false)

  datatype Step =
    | Subscribe(c: nat)
    | Unsubscribe(c: nat)
    | Lock(emitter: nat)
    | Send(emitter: nat)
    | Unlock(emitter: nat)
    | Receive(c: nat)

  function Count(h: Hub, e: nat): nat {
    if e in h.counts then h.counts[e] else 0
  }

  /** One step; a step that is not possible yet leaves the machine as it is.
      Closing a closed channel, or sending on one, is a run-time panic. */
  function Next(h: Hub, step: Step): Hub {
    match step
    case Subscribe(c) =>
      if h.busy != map[] || c in h.chans then h
      else h.(subs := h.subs + [c], chans := h.chans[c := Chan([], false, [], [], [], h.counts)])
    case Unsubscribe(c) =>
      if h.busy != map[] || c !in h.subs || c !in h.chans then h
      else if h.chans[c].closed then h.(panicked := true)
      else h.(subs := Without(h.subs, c), chans := h.chans[c := h.chans[c].(closed := true)])
    case Lock(e) =>
      if e in h.busy then h
      else h.(busy := h.busy[e := Sending(Count(h, e), 0)], counts := h.counts[e := Count(h, e) + 1])
    case Send(e) =>
      if e !in h.busy || h.busy[e].next >= |h.subs| then h
      else
        var c := h.subs[h.busy[e].next];
        if c !in h.chans || h.chans[c].closed then h.(panicked := true)
        else h.(chans := h.chans[c := Offer(h.chans[c], Ev(e, h.busy[e].n))],
                busy := h.busy[e := h.busy[e].(next := h.busy[e].next + 1)])
    case Unlock(e) =>
      if e !in h.busy || h.busy[e].next < |h.subs| then h else h.(busy := h.busy - {e})
    case Receive(c) =>
      if c !in h.chans || h.chans[c].queue == [] then h else h.(chans := h.chans[c := Take(h.chans[c])])
  }

  function Run(h: Hub, steps: seq<Step>): Hub
    decreases steps
  {
    if steps == [] then h else Run(Next(h, steps[0]), steps[1..])
  }

  // ---------------------------------------------------------- the guarantees

  /** Each event at most once, and each emitter's events in the order it emitted them. */
  ghost predicate InOrderOnce(evs: seq<Ev>) {
    forall i, j :: 0 <= i < j < |evs| && evs[i].emitter == evs[j].emitter ==> evs[i].n < evs[j].n
  }

  /** Has the walk of emitter `e` passed index `i` with its current event? */
  predicate Passed(h: Hub, e: nat, i: nat) {
    e !in h.busy || i < h.busy[e].next
  }

  /** The events of `e` that a subscriber at index `i` has been offered so far are
      those below this bound. */
  function OfferedUpTo(h: Hub, e: nat, i: nat): nat {
    if e in h.busy && !Passed(h, e, i) then h.busy[e].n else Count(h, e)
  }

  ghost predicate ChanOk(ch: Chan) {
    && ch.accepted == ch.received + ch.queue && |ch.queue| <= QUEUE_CAP
    && InOrderOnce(ch.accepted)
    && (forall d :: d in ch.dropped ==> d.1 == QUEUE_CAP)
  }

  function Since(ch: Chan, e: nat): nat {
    if e in ch.since then ch.since[e] else 0
  }

  /** The channel of index `i` accepted only events offered so far, and each event
      offered since it joined was accepted or dropped. */
  ghost predicate Offered(h: Hub, ch: Chan, i: nat) {
    && (forall k :: 0 <= k < |ch.accepted| ==> ch.accepted[k].n < OfferedUpTo(h, ch.accepted[k].emitter, i))
    && (forall e, n :: Since(ch, e) <= n < OfferedUpTo(h, e, i) ==>
          Ev(e, n) in ch.accepted || (Ev(e, n), QUEUE_CAP) in ch.dropped)
  }

  /** Registered channels are distinct and exactly the open ones; no walk has left the slice. */
  ghost predicate Shape(h: Hub) {
    && !h.panicked
    && NoDup(h.subs)
    && (forall c :: c in h.subs ==> c in h.chans && !h.chans[c].closed)
    && (forall c :: c in h.chans && !h.chans[c].closed ==> c in h.subs)
    && (forall e :: e in h.busy ==> Count(h, e) == h.busy[e].n + 1 && h.busy[e].next <= |h.subs|)
  }

  ghost predicate Inv(h: Hub) {
    && Shape(h)
    && (forall c :: c in h.chans ==> ChanOk(h.chans[c]))
    && (forall i :: 0 <= i < |h.subs| ==> Offered(h, h.chans[h.subs[i]], i))
  }

  lemma {:induction false} SubscribeShape(h: Hub, c: nat)
    requires Shape(h)
    ensures Shape(Next(h, Subscribe(c)))
  {
  }

  lemma {:induction false} SendShape(h: Hub, e: nat)
    requires Shape(h)
    ensures Shape(Next(h, Send(e)))
  {
    if e in h.busy && h.busy[e].next < |h.subs| {
      assert h.subs[h.busy[e].next] in h.subs;
    }
  }

  lemma {:induction false} ReceiveShape(h: Hub, c: nat)
    requires Shape(h)
    ensures Shape(Next(h, Receive(c)))
  {
  }

  /** What a channel was offered does not depend on what its reader took. */
  lemma {:induction false} OfferedSame(h: Hub, g: Hub, ch: Chan, ch': Chan, i: nat)
    requires Offered(h, ch, i) && ch'.(queue := ch.queue, received := ch.received) == ch
    requires forall d :: OfferedUpTo(g, d, i) == OfferedUpTo(h, d, i)
    ensures Offered(g, ch', i)
  {
  }

  lemma {:induction false} OfferKeepsChanOk(ch: Chan, ev: Ev)
    requires ChanOk(ch)
    requires forall k :: 0 <= k < |ch.accepted| && ch.accepted[k].emitter == ev.emitter ==> ch.accepted[k].n < ev.n
    ensures ChanOk(Offer(ch, ev))
  {
  }

  lemma {:induction false} SubscribeKeeps(h: Hub, c: nat)
    requires Inv(h)
    ensures Inv(Next(h, Subscribe(c)))
  {
    var g := Next(h, Subscribe(c));
    SubscribeShape(h, c);
    if g != h {
      forall i | 0 <= i < |g.subs| ensures Offered(g, g.chans[g.subs[i]], i) {
        if i < |h.subs| {
          assert h.subs[i] in h.subs && g.chans[g.subs[i]] == h.chans[h.subs[i]];
          OfferedSame(h, g, h.chans[h.subs[i]], g.chans[g.subs[i]], i);
        }
      }
    }
  }

  lemma {:induction false} WithoutFacts(subs: seq<nat>, c: nat)
    requires NoDup(subs) && c in subs
    ensures
      var at, rest := IndexOf(subs, c), Without(subs, c);
      && at < |subs| && |rest| == |subs| - 1 && NoDup(rest)
      && (forall i :: 0 <= i < |rest| ==> rest[i] == subs[if i < at then i else i + 1] && rest[i] != c)
      && (forall d :: d in rest <==> d in subs && d != c)
  {
    var at, rest := IndexOf(subs, c), Without(subs, c);
    assert forall i :: 0 <= i < |rest| ==> rest[i] == subs[if i < at then i else i + 1];
    forall d ensures d in rest <==> d in subs && d != c {
      if d in subs && d != c {
        var k :| 0 <= k < |subs| && subs[k] == d;
        assert rest[if k < at then k else k - 1] == d;
      }
    }
  }

  lemma {:induction false} OfferedWhenIdle(h: Hub, g: Hub, ch: Chan, j: nat, i: nat)
    requires h.busy == g.busy == map[] && h.counts == g.counts && Offered(h, ch, j)
    ensures Offered(g, ch, i)
  {
    assert forall e :: OfferedUpTo(g, e, i) == OfferedUpTo(h, e, j);
  }

  lemma {:induction false} UnsubscribeKeeps(h: Hub, c: nat)
    requires Inv(h)
    ensures Inv(Next(h, Unsubscribe(c)))
  {
    var g := Next(h, Unsubscribe(c));
    if g != h {
      WithoutFacts(h.subs, c);
      var at := IndexOf(h.subs, c);
      forall i | 0 <= i < |g.subs| ensures Offered(g, g.chans[g.subs[i]], i) {
        var j := if i < at then i else i + 1;
        assert Offered(h, h.chans[h.subs[j]], j) && g.chans[g.subs[i]] == h.chans[h.subs[j]];
        OfferedWhenIdle(h, g, h.chans[h.subs[j]], j, i);
      }
    }
  }

  lemma {:induction false} LockKeeps(h: Hub, e: nat)
    requires Inv(h)
    ensures Inv(Next(h, Lock(e)))
  {
    var g := Next(h, Lock(e));
    forall i | 0 <= i < |g.subs| ensures Offered(g, g.chans[g.subs[i]], i) {
      assert Offered(h, h.chans[h.subs[i]], i);
      assert forall d :: OfferedUpTo(g, d, i) == OfferedUpTo(h, d, i);
    }
  }

  lemma {:induction false} UnlockKeeps(h: Hub, e: nat)
    requires Inv(h)
    ensures Inv(Next(h, Unlock(e)))
  {
    var g := Next(h, Unlock(e));
    forall i | 0 <= i < |g.subs| ensures Offered(g, g.chans[g.subs[i]], i) {
      assert Offered(h, h.chans[h.subs[i]], i);
      assert forall d :: OfferedUpTo(g, d, i) == OfferedUpTo(h, d, i);
    }
  }

  lemma {:induction false} OfferIsOffered(h: Hub, g: Hub, ch: Chan, e: nat, i: nat)
    requires ChanOk(ch) && Offered(h, ch, i) && e in h.busy && h.busy[e].next == i
    requires Count(h, e) == h.busy[e].n + 1
    requires g.counts == h.counts && g.busy == h.busy[e := h.busy[e].(next := i + 1)]
    ensures ChanOk(Offer(ch, Ev(e, h.busy[e].n))) && Offered(g, Offer(ch, Ev(e, h.busy[e].n)), i)
  {
    var ev := Ev(e, h.busy[e].n);
    OfferKeepsChanOk(ch, ev);
    var ch' := Offer(ch, ev);
    assert forall d :: d != e ==> OfferedUpTo(g, d, i) == OfferedUpTo(h, d, i);
    assert OfferedUpTo(g, e, i) == OfferedUpTo(h, e, i) + 1;
    forall d, n | Since(ch', d) <= n < OfferedUpTo(g, d, i)
      ensures Ev(d, n) in ch'.accepted || (Ev(d, n), QUEUE_CAP) in ch'.dropped
    {
      if Ev(d, n) != ev {
        assert n < OfferedUpTo(h, d, i);
      }
    }
  }

  /** One registered channel changed and nobody else's bound moved. */
  lemma {:induction false} OthersOffered(h: Hub, g: Hub, at: nat, ch: Chan)
    requires NoDup(h.subs)
    requires forall i :: 0 <= i < |h.subs| ==> h.subs[i] in h.chans && Offered(h, h.chans[h.subs[i]], i)
    requires g.subs == h.subs && at < |h.subs| && g.chans == h.chans[h.subs[at] := ch] && Offered(g, ch, at)
    requires forall d, i :: i != at ==> OfferedUpTo(g, d, i) == OfferedUpTo(h, d, i)
    ensures forall i :: 0 <= i < |g.subs| ==> g.subs[i] in g.chans && Offered(g, g.chans[g.subs[i]], i)
  {
    forall i | 0 <= i < |g.subs| ensures g.subs[i] in g.chans && Offered(g, g.chans[g.subs[i]], i) {
      if i != at {
        OfferedSame(h, g, h.chans[h.subs[i]], g.chans[g.subs[i]], i);
      }
    }
  }

  lemma {:induction false} SendKeeps(h: Hub, e: nat)
    requires Inv(h)
    ensures Inv(Next(h, Send(e)))
  {
    var g := Next(h, Send(e));
    SendShape(h, e);
    if g != h {
      var at := h.busy[e].next;
      var ch := h.chans[h.subs[at]];
      OfferIsOffered(h, g, ch, e, at);
      OthersOffered(h, g, at, Offer(ch, Ev(e, h.busy[e].n)));
    }
  }

  lemma {:induction false} TakeKeepsChanOk(ch: Chan)
    requires ChanOk(ch) && ch.queue != []
    ensures ChanOk(Take(ch))
  {
    assert ch.queue == [ch.queue[0]] + ch.queue[1..];
  }

  lemma {:induction false} ReceiveKeeps(h: Hub, c: nat)
    requires Inv(h)
    ensures Inv(Next(h, Receive(c)))
  {
    var g := Next(h, Receive(c));
    ReceiveShape(h, c);
    if g != h {
      TakeKeepsChanOk(h.chans[c]);
      forall i | 0 <= i < |g.subs| ensures Offered(g, g.chans[g.subs[i]], i) {
        assert h.subs[i] in h.subs;
        OfferedSame(h, g, h.chans[h.subs[i]], g.chans[g.subs[i]], i);
      }
    }
  }

  lemma {:induction false} RunKeeps(h: Hub, steps: seq<Step>)
    requires Inv(h)
    ensures Inv(Run(h, steps))
    decreases steps
  {
    if steps != [] {
      match steps[0] {
        case Subscribe(c) => SubscribeKeeps(h, c);
        case Unsubscribe(c) => UnsubscribeKeeps(h, c);
        case Lock(e) => LockKeeps(h, e);
        case Send(e) => SendKeeps(h, e);
        case Unlock(e) => UnlockKeeps(h, e);
        case Receive(c) => ReceiveKeeps(h, c);
      }
      RunKeeps(Next(h, steps[0]), steps[1..]);
    }
  }

  /** In every interleaving: no send or close hits a closed channel, registered
      channels are distinct and open, and what any subscriber has received comes
      in order and at most once. */
  lemma {:induction false} SafeDelivery(steps: seq<Step>)
    ensures
      var h := Run(EMPTY, steps);
      && !h.panicked && NoDup(h.subs)
      && (forall c :: c in h.subs <==> c in h.chans && !h.chans[c].closed)
      && (forall c :: c in h.chans ==> InOrderOnce(h.chans[c].received))
  {
    RunKeeps(EMPTY, steps);
    var h := Run(EMPTY, steps);
    forall c | c in h.chans ensures InOrderOnce(h.chans[c].received) {
      var ch := h.chans[c];
      assert forall k :: 0 <= k < |ch.received| ==> ch.accepted[k] == ch.received[k];
    }
  }

  /** Nothing is lost but to a full queue: once no emitter is mid-walk, a registered
      subscriber has received, or still has queued, every event emitted since it
      joined, except those that met a backlog of 64. */
  lemma {:induction false} LossOnlyWhenFull(steps: seq<Step>, c: nat, e: nat, n: nat)
    requires var h := Run(EMPTY, steps);
      h.busy == map[] && c in h.subs && c in h.chans && Since(h.chans[c], e) <= n < Count(h, e)
    ensures
      var ch := Run(EMPTY, steps).chans[c];
      Ev(e, n) in ch.received || Ev(e, n) in ch.queue || (Ev(e, n), QUEUE_CAP) in ch.dropped
  {
    RunKeeps(EMPTY, steps);
    var h := Run(EMPTY, steps);
    var i :| 0 <= i < |h.subs| && h.subs[i] == c;
    assert Offered(h, h.chans[c], i);
    assert n < OfferedUpTo(h, e, i);
  }

  // ---------------------------------------------------------- the Go methods

  /** The effect of one whole emit on the channels. */
  function OfferAll(chans: map<nat, Chan>, subs: seq<nat>, ev: Ev): map<nat, Chan>
    requires forall c :: c in subs ==> c in chans
  {
    if subs == [] then chans
    else
      var before := OfferAll(chans, subs[..|subs| - 1], ev);
      var c := subs[|subs| - 1];
      if c in before then before[c := Offer(before[c], ev)] else before
  }

  /** The event waits at the end of the queue, or is lost because 64 others wait. */
  predicate WasOffered(before: Chan, after: Chan, ev: Ev) {
    && after.received == before.received && after.closed == before.closed && after.since == before.since
    && if |before.queue| < 64 then
         after.queue == before.queue + [ev] && after.accepted == before.accepted + [ev] &&
         after.dropped == before.dropped
       else
         after.queue == before.queue && after.accepted == before.accepted &&
         after.dropped == before.dropped + [(ev, |before.queue|)]
  }

  lemma {:induction false} OfferIs(ch: Chan, ev: Ev)
    ensures WasOffered(ch, Offer(ch, ev), ev)
  {
  }

  /** One emit offers the event once to each subscriber and to nobody else. */
  lemma {:induction false} OfferAllOffers(chans: map<nat, Chan>, subs: seq<nat>, ev: Ev)
    requires NoDup(subs) && forall c :: c in subs ==> c in chans
    ensures
      var after := OfferAll(chans, subs, ev);
      && after.Keys == chans.Keys
      && forall c :: c in chans ==>
           if c in subs then WasOffered(chans[c], after[c], ev) else after[c] == chans[c]
  {
    if subs != [] {
      var init, last := subs[..|subs| - 1], subs[|subs| - 1];
      OfferAllOffers(chans, init, ev);
      assert subs == init + [last];
      assert last !in init;
      OfferIs(chans[last], ev);
    }
  }

  class Broadcaster {
    var subscribers: seq<nat>
    var chans: map<nat, Chan>

    ghost predicate Valid() reads this {
      && NoDup(subscribers)
      && (forall c :: c in subscribers <==> c in chans && !chans[c].closed)
    }

    constructor ()
      ensures Valid() && subscribers == [] && chans == map[]
    {
      subscribers, chans := [], map[];
    }

    method AddSubscriber(c: nat, counts: map<nat, nat>)
      requires Valid() && c !in chans
      modifies this
      ensures Valid() && subscribers == old(subscribers) + [c]
      ensures chans == old(chans)[c := Chan([], false, [], [], [], counts)]
    {
      chans := chans[c := Chan([], false, [], [], [], counts)];
      subscribers := subscribers + [c];
    }

    /** The closure returned by Subscribe; calling it again does nothing. */
    method Unsub(c: nat)
      requires Valid()
      modifies this
      ensures Valid() && subscribers == Without(old(subscribers), c)
      ensures forall d :: d in subscribers <==> d in old(subscribers) && d != c
      ensures chans == if c in old(subscribers) then old(chans)[c := old(chans[c]).(closed := true)] else old(chans)
    {
      var i := 0;
      while i < |subscribers|
        invariant 0 <= i <= |subscribers| && subscribers == old(subscribers) && chans == old(chans)
        invariant forall k :: 0 <= k < i ==> subscribers[k] != c
      {
        if subscribers[i] == c {
          assert IndexOf(subscribers, c) == i;
          assert c in chans && !chans[c].closed;
          WithoutFacts(subscribers, c);
          subscribers := subscribers[..i] + subscribers[i + 1..];
          chans := chans[c := chans[c].(closed := true)];
          return;
        }
        i := i + 1;
      }
    }

    method Emit(ev: Ev)
      requires Valid()
      modifies this`chans
      ensures Valid() && chans == OfferAll(old(chans), subscribers, ev)
      ensures chans.Keys == old(chans).Keys
      ensures forall c :: c in chans ==>
        if c in subscribers then WasOffered(old(chans)[c], chans[c], ev) else chans[c] == old(chans)[c]
    {
      var i := 0;
      while i < |subscribers|
        invariant 0 <= i <= |subscribers|
        invariant chans == OfferAll(old(chans), subscribers[..i], ev)
        invariant chans.Keys == old(chans).Keys && forall c :: c in chans ==> chans[c].closed == old(chans)[c].closed
      {
        var c := subscribers[i];
        assert c in chans && !chans[c].closed;
        assert subscribers[..i + 1][..i] == subscribers[..i];
        chans := chans[c := Offer(chans[c], ev)];
        i := i + 1;
      }
      assert subscribers[..|subscribers|] == subscribers;
      OfferAllOffers(old(chans), subscribers, ev);
    }
  }

  function Sends(e: nat, k: nat): seq<Step> {
    if k == 0 then [] else Sends(e, k - 1) + [Send(e)]
  }

  lemma {:induction false} OfferAllKeeps(chans: map<nat, Chan>, subs: seq<nat>, ev: Ev)
    requires forall c :: c in subs ==> c in chans
    ensures OfferAll(chans, subs, ev).Keys == chans.Keys
    ensures forall c :: c in chans ==> OfferAll(chans, subs, ev)[c].closed == chans[c].closed
  {
    if subs != [] {
      OfferAllKeeps(chans, subs[..|subs| - 1], ev);
    }
  }

  ghost predicate AllOpen(l: Hub) {
    forall c :: c in l.subs ==> c in l.chans && !l.chans[c].closed
  }

  lemma {:induction false} SendsOffer(l: Hub, e: nat, n: nat, k: nat)
    requires AllOpen(l) && l.busy == map[e := Sending(n, 0)] && k <= |l.subs|
    ensures
      Run(l, Sends(e, k)) ==
      l.(chans := OfferAll(l.chans, l.subs[..k], Ev(e, n)), busy := map[e := Sending(n, k)])
  {
    if k > 0 {
      SendsOffer(l, e, n, k - 1);
      RunAdd(l, Sends(e, k - 1), [Send(e)]);
      OfferAllKeeps(l.chans, l.subs[..k - 1], Ev(e, n));
      assert l.subs[..k][..k - 1] == l.subs[..k - 1];
      assert l.subs[k - 1] in l.subs;
      SendAlone(Run(l, Sends(e, k - 1)), e, n, k - 1);
    }
  }

  /** One emit with nobody else running is a Lock followed by a Send per
      subscriber: the method and the machine offer the same events. */
  lemma {:induction false} EmitAlone(h: Hub, e: nat)
    requires Inv(h) && h.busy == map[]
    ensures forall c :: c in h.subs ==> c in h.chans
    ensures
      Run(Next(h, Lock(e)), Sends(e, |h.subs|) + [Unlock(e)]) ==
      Next(h, Lock(e)).(chans := OfferAll(h.chans, h.subs, Ev(e, Count(h, e))), busy := map[])
  {
    var l, k := Next(h, Lock(e)), |h.subs|;
    SendsOffer(l, e, Count(h, e), k);
    assert l.subs[..k] == h.subs;
    RunAdd(l, Sends(e, k), [Unlock(e)]);
    var m := Run(l, Sends(e, k));
    assert m.busy - {e} == map[];
    assert Run(m, [Unlock(e)]) == Run(Next(m, Unlock(e)), []) by {
      assert [Unlock(e)][1..] == [];
    }
  }

  lemma {:induction false} SendAlone(g: Hub, e: nat, n: nat, k: nat)
    requires k < |g.subs| && g.subs[k] in g.chans && !g.chans[g.subs[k]].closed
    requires g.busy == map[e := Sending(n, k)]
    ensures
      Run(g, [Send(e)]) ==
      g.(chans := g.chans[g.subs[k] := Offer(g.chans[g.subs[k]], Ev(e, n))], busy := map[e := Sending(n, k + 1)])
  {
    var g' := Next(g, Send(e));
    assert g'.busy == map[e := Sending(n, k + 1)];
    assert Run(g, [Send(e)]) == Run(g', []) by {
      assert [Send(e)][1..] == [];
    }
  }

  lemma {:induction false} RunAdd(h: Hub, a: seq<Step>, b: seq<Step>)
    ensures Run(h, a + b) == Run(Run(h, a), b)
    decreases a
  {
    if a == [] {
      assert a + b == b;
    } else {
      assert (a + b)[0] == a[0] && (a + b)[1..] == a[1..] + b;
      RunAdd(Next(h, a[0]), a[1..], b);
    }
  }
}
