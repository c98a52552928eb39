/** Go ranges over the grouped hashes of a tick in a random order (processTick in
    internal/usecase/watcher/watch_transactions.go): exactly when that order can be
    seen from outside. */
module WatcherOrder {
  import opened Text
  import opened PendingRegistry
  import opened WatcherLegs
  import opened WatcherTick
  import opened WatcherRuns

  /** The hashes of `hs` that leave during the tick. */
  ghost function Leaving(md: nat, v: View, now: Time, seen: map<string, Sighting>, hs: set<string>): set<string> {
    set h | h in hs && h in seen && h !in v.order && (seen[h].spam || !Holds(v.deferred, md, now, h, seen[h]))
  }

  ghost function NotesFor(seen: map<string, Sighting>, hs: set<string>): set<Note> {
    set h | h in hs && h in seen :: NoteFor(seen, h)
  }

  /** How every reachable view looks. */
  ghost predicate Settled(capacity: nat, v: View) {
    NoDup(v.order) && |v.order| <= capacity && forall h :: h in v.order ==> h !in v.deferred
  }

  /** The tick's hashes, each filed under its own name, in some visiting order. */
  ghost predicate Visits(seen: map<string, Sighting>, order: seq<string>) {
    NoDup(order) && forall h :: h in order ==> h in seen && seen[h].ev.hash == h
  }

  /** What the hashes of this tick push out of a full set is not seen in this tick. */
  ghost predicate Undisturbed(cfg: Config, v: View, now: Time, seen: map<string, Sighting>) {
    var n := |Leaving(cfg.maxDeferral, v, now, seen, seen.Keys)|;
    && n <= cfg.capacity
    && forall i :: 0 <= i < |v.order| && i < |v.order| + n - cfg.capacity ==> v.order[i] !in seen
  }

  lemma {:induction false} ReachedIsSettled(cfg: Config, run: seq<Turn>, k: nat)
    requires 0 < cfg.capacity && IsRun(run) && k <= |run|
    ensures Settled(cfg.capacity, At(cfg, run, k).view)
  {
    RunDeduped(cfg, run, k);
    var log := Hashes(NotesUpTo(cfg, run, k));
    var order := At(cfg, run, k).view.order;
    forall i, j | 0 <= i < j < |order| ensures order[i] != order[j] {
      assert order[i] == log[|log| - |order| + i] && order[j] == log[|log| - |order| + j];
    }
  }

  // ------------------------------------------------------- visits, put together

  lemma {:induction false} VisitsAdd(cfg: Config, v: View, now: Time, seen: map<string, Sighting>,
                                     a: seq<string>, b: seq<string>)
    requires 0 < cfg.capacity
    requires (forall h :: h in a ==> h in seen) && (forall h :: h in b ==> h in seen)
    ensures forall h :: h in a + b ==> h in seen
    ensures VisitAll(cfg, v, now, seen, a + b) == VisitAll(cfg, VisitAll(cfg, v, now, seen, a), now, seen, b)
    ensures AllNotes(cfg, v, now, seen, a + b) ==
      AllNotes(cfg, v, now, seen, a) + AllNotes(cfg, VisitAll(cfg, v, now, seen, a), now, seen, b)
  {
    if b == [] {
      assert a + b == a;
    } else {
      var init, g := b[..|b| - 1], b[|b| - 1];
      var u := VisitAll(cfg, v, now, seen, a);
      assert (a + init) + [g] == a + b && init + [g] == b;
      VisitsAdd(cfg, v, now, seen, a, init);
      OneMoreVisit(cfg, v, now, seen, a + init, g);
      OneMoreVisit(cfg, u, now, seen, init, g);
      ConcatAssoc(AllNotes(cfg, v, now, seen, a), AllNotes(cfg, u, now, seen, init),
                  NotesOf(cfg, VisitAll(cfg, u, now, seen, init), now, g, seen[g]));
    }
  }

  lemma {:induction false} LeavingOneMore(md: nat, v: View, now: Time, seen: map<string, Sighting>, hs: set<string>,
      g: string)
    requires g !in hs
    ensures
      var left0, leaves := Leaving(md, v, now, seen, hs), g in Leaving(md, v, now, seen, {g});
      && g !in left0
      && Leaving(md, v, now, seen, hs + {g}) == (if leaves then left0 + {g} else left0)
  {
  }

  lemma {:induction false} LastVisit(seen: map<string, Sighting>, order: seq<string>)
    returns (init: seq<string>, g: string)
    requires Visits(seen, order) && order != []
    ensures order == init + [g] && init == order[..|order| - 1] && g == order[|order| - 1]
    ensures Visits(seen, init) && g !in init && g in seen && seen[g].ev.hash == g
    ensures Elems(order) == Elems(init) + {g} && g !in Elems(init)
  {
    init, g := order[..|order| - 1], order[|order| - 1];
    assert forall i :: 0 <= i < |init| ==> init[i] == order[i];
    assert forall h :: h in init ==> h in order;
    assert order == init + [g];
  }

  /** The dedup set after some visits is the newest part of everything that left. */
  lemma {:induction false} OrderIsNewest(cfg: Config, v: View, now: Time, seen: map<string, Sighting>,
      order: seq<string>)
    requires 0 < cfg.capacity && Settled(cfg.capacity, v) && Visits(seen, order)
    ensures VisitAll(cfg, v, now, seen, order).order ==
      Newest(v.order + Hashes(AllNotes(cfg, v, now, seen, order)), cfg.capacity)
  {
    VisitsKeepDeduped(cfg, v.order, v, now, seen, order);
  }

  // ----------------------------------------- undisturbed: every order does the same

  /** While nothing seen is pushed out, a hash of the tick is known at its visit
      exactly when it was known before the tick. */
  lemma {:induction false} KnownAtItsVisit(cfg: Config, v: View, now: Time, seen: map<string, Sighting>,
                                           init: seq<string>, g: string)
    requires 0 < cfg.capacity && Settled(cfg.capacity, v) && Undisturbed(cfg, v, now, seen)
    requires Visits(seen, init) && g in seen && g !in init
    requires |AllNotes(cfg, v, now, seen, init)| <= |Leaving(cfg.maxDeferral, v, now, seen, seen.Keys)|
    ensures g in VisitAll(cfg, v, now, seen, init).order <==> g in v.order
    ensures SameAt(v.deferred, VisitAll(cfg, v, now, seen, init).deferred, g)
  {
    Untouched(cfg, v, now, seen, init, g);
    if g in v.order {
      OrderIsNewest(cfg, v, now, seen, init);
      var i :| 0 <= i < |v.order| && v.order[i] == g;
      NewestHas(v.order + Hashes(AllNotes(cfg, v, now, seen, init)), cfg.capacity, i);
    }
  }

  lemma {:induction false} NoteAtVisit(cfg: Config, v: View, w: View, now: Time, seen: map<string, Sighting>, g: string)
    requires 0 < cfg.capacity && g in seen && SameAt(v.deferred, w.deferred, g) && (g in w.order <==> g in v.order)
    ensures NotesOf(cfg, w, now, g, seen[g]) ==
      if g in Leaving(cfg.maxDeferral, v, now, seen, {g}) then [NoteFor(seen, g)] else []
  {
  }

  lemma {:induction false} NotesForOneMore(seen: map<string, Sighting>, hs: set<string>, g: string)
    requires g in seen && g !in hs && seen[g].ev.hash == g
    requires forall h :: h in hs ==> h in seen && seen[h].ev.hash == h
    ensures multiset(NotesFor(seen, hs + {g})) == multiset(NotesFor(seen, hs)) + multiset{NoteFor(seen, g)}
  {
    assert NotesFor(seen, hs + {g}) == NotesFor(seen, hs) + {NoteFor(seen, g)};
    assert forall n :: n in NotesFor(seen, hs) ==> HashOf(n) in hs;
  }

  /** The notes of the visits so far: one per hash that leaves. */
  ghost predicate NotesFixed(cfg: Config, v: View, now: Time, seen: map<string, Sighting>, order: seq<string>)
    requires 0 < cfg.capacity && Visits(seen, order)
  {
    var left, notes := Leaving(cfg.maxDeferral, v, now, seen, Elems(order)), AllNotes(cfg, v, now, seen, order);
    multiset(notes) == multiset(NotesFor(seen, left)) && |notes| == |left|
  }

  lemma {:induction false} LeavingGrows(md: nat, v: View, now: Time, seen: map<string, Sighting>, a: set<string>,
      b: set<string>)
    requires a <= b
    ensures |Leaving(md, v, now, seen, a)| <= |Leaving(md, v, now, seen, b)|
  {
    SubsetCard(Leaving(md, v, now, seen, a), Leaving(md, v, now, seen, b));
  }

  lemma {:induction false} NotesAreFixed(cfg: Config, v: View, now: Time, seen: map<string, Sighting>,
      order: seq<string>)
    requires 0 < cfg.capacity && Settled(cfg.capacity, v) && Undisturbed(cfg, v, now, seen) && Visits(seen, order)
    ensures NotesFixed(cfg, v, now, seen, order)
  {
    if order == [] {
      assert NotesFor(seen, Leaving(cfg.maxDeferral, v, now, seen, Elems(order))) == {};
      assert Leaving(cfg.maxDeferral, v, now, seen, Elems(order)) == {};
    } else {
      var init, g := LastVisit(seen, order);
      NotesAreFixed(cfg, v, now, seen, init);
      LastIsFixed(cfg, v, now, seen, init, g);
    }
  }

  lemma {:induction false} LastIsFixed(cfg: Config, v: View, now: Time, seen: map<string, Sighting>,
      init: seq<string>, g: string)
    requires 0 < cfg.capacity && Settled(cfg.capacity, v) && Undisturbed(cfg, v, now, seen)
    requires Visits(seen, init) && Visits(seen, init + [g]) && g !in init && NotesFixed(cfg, v, now, seen, init)
    ensures NotesFixed(cfg, v, now, seen, init + [g])
  {
    assert g in init + [g];
    var md, hs := cfg.maxDeferral, Elems(init);
    LeavingGrows(md, v, now, seen, hs, seen.Keys);
    KnownAtItsVisit(cfg, v, now, seen, init, g);
    NoteAtVisit(cfg, v, VisitAll(cfg, v, now, seen, init), now, seen, g);
    OneMoreVisit(cfg, v, now, seen, init, g);
    LeavingOneMore(md, v, now, seen, hs, g);
    NotesForOneMore(seen, Leaving(md, v, now, seen, hs), g);
    assert Elems(init + [g]) == hs + {g};
  }

  ghost predicate DeferredAfter(md: nat, v: View, now: Time, seen: map<string, Sighting>, hs: set<string>,
                                d: map<string, Time>, h: string) {
    if h in Leaving(md, v, now, seen, hs) then h !in d
    else if h in v.deferred then h in d && d[h] == v.deferred[h]
    else if h in hs && h !in v.order then h in d && d[h] == now
    else h !in d
  }

  lemma {:induction false} DeferralAtVisit(cfg: Config, v: View, w: View, now: Time, seen: map<string, Sighting>,
      g: string)
    requires 0 < cfg.capacity && g in seen && SameAt(v.deferred, w.deferred, g) && (g in w.order <==> g in v.order)
    ensures g in v.order ||
      DeferredAfter(cfg.maxDeferral, v, now, seen, {g}, Visit(cfg, w, now, g, seen[g]).deferred, g)
    ensures g in v.order ==> Visit(cfg, w, now, g, seen[g]) == w
  {
  }

  lemma {:induction false} DeferralIsFixed(cfg: Config, v: View, now: Time, seen: map<string, Sighting>,
                                           order: seq<string>, h: string)
    requires 0 < cfg.capacity && Settled(cfg.capacity, v) && Undisturbed(cfg, v, now, seen) && Visits(seen, order)
    ensures DeferredAfter(cfg.maxDeferral, v, now, seen, Elems(order), VisitAll(cfg, v, now, seen, order).deferred, h)
  {
    if order != [] {
      var init, g := LastVisit(seen, order);
      if g != h {
        DeferralIsFixed(cfg, v, now, seen, init, h);
      } else {
        NotesAreFixed(cfg, v, now, seen, init);
        LeavingGrows(cfg.maxDeferral, v, now, seen, Elems(init), seen.Keys);
        KnownAtItsVisit(cfg, v, now, seen, init, g);
        DeferralAtVisit(cfg, v, VisitAll(cfg, v, now, seen, init), now, seen, g);
      }
    }
  }

  /** The dedup set after the tick: what is not pushed out, and what left. */
  ghost function Remaining(capacity: nat, order: seq<string>, n: nat): seq<string> {
    if |order| + n <= capacity then order
    else if n <= capacity then order[|order| + n - capacity..]
    else []
  }

  lemma {:induction false} DedupIsFixed(cfg: Config, v: View, now: Time, seen: map<string, Sighting>,
      order: seq<string>)
    requires 0 < cfg.capacity && Settled(cfg.capacity, v) && Undisturbed(cfg, v, now, seen) && Visits(seen, order)
    requires Elems(order) == seen.Keys
    ensures
      var left := Leaving(cfg.maxDeferral, v, now, seen, seen.Keys);
      Elems(VisitAll(cfg, v, now, seen, order).order) == Elems(Remaining(cfg.capacity, v.order, |left|)) + left
  {
    var left, notes := Leaving(cfg.maxDeferral, v, now, seen, seen.Keys), AllNotes(cfg, v, now, seen, order);
    NotesAreFixed(cfg, v, now, seen, order);
    OrderIsNewest(cfg, v, now, seen, order);
    NewestOfBoth(v.order, Hashes(notes), cfg.capacity);
    HashesOfNotes(seen, left, notes);
    ElemsAdd(Remaining(cfg.capacity, v.order, |left|), Hashes(notes));
  }

  lemma {:induction false} NewestOfBoth(order: seq<string>, more: seq<string>, capacity: nat)
    requires |more| <= capacity
    ensures Newest(order + more, capacity) == Remaining(capacity, order, |more|) + more
  {
  }

  lemma {:induction false} ElemsAdd(a: seq<string>, b: seq<string>)
    ensures Elems(a + b) == Elems(a) + Elems(b)
  {
  }

  lemma {:induction false} HashesOfNotes(seen: map<string, Sighting>, left: set<string>, notes: seq<Note>)
    requires multiset(notes) == multiset(NotesFor(seen, left))
    requires forall h :: h in left ==> h in seen && HashOf(NoteFor(seen, h)) == h
    ensures Elems(Hashes(notes)) == left
  {
    forall h ensures h in Hashes(notes) <==> h in left {
      if h in left {
        assert NoteFor(seen, h) in NotesFor(seen, left) && NoteFor(seen, h) in multiset(notes);
        var i :| 0 <= i < |notes| && notes[i] == NoteFor(seen, h);
        assert Hashes(notes)[i] == h;
      }
      if h in Hashes(notes) {
        var i :| 0 <= i < |notes| && Hashes(notes)[i] == h;
        assert notes[i] in multiset(notes) && notes[i] in NotesFor(seen, left);
      }
    }
  }

  // --------------------------------------------- disturbed: two orders that differ

  /** Hashes that all leave do so whatever happens to the set meanwhile. */
  lemma {:induction false} LeaversLeave(cfg: Config, v: View, now: Time, seen: map<string, Sighting>,
      order: seq<string>)
    requires 0 < cfg.capacity && Visits(seen, order)
    requires Elems(order) <= Leaving(cfg.maxDeferral, v, now, seen, seen.Keys)
    ensures Hashes(AllNotes(cfg, v, now, seen, order)) == order
  {
    if order != [] {
      var init, g := LastVisit(seen, order);
      assert g in Elems(order);
      LeaversLeave(cfg, v, now, seen, init);
      Untouched(cfg, v, now, seen, init, g);
      NoteAtVisit(cfg, v, VisitAll(cfg, v, now, seen, init), now, seen, g);
      assert AllNotes(cfg, v, now, seen, order) == AllNotes(cfg, v, now, seen, init) + [NoteFor(seen, g)];
    }
  }

  /** Hashes that are known already change nothing. */
  lemma {:induction false} KnownChangeNothing(cfg: Config, v: View, now: Time, seen: map<string, Sighting>,
      order: seq<string>)
    requires 0 < cfg.capacity && Visits(seen, order) && forall h :: h in order ==> h in v.order
    ensures VisitAll(cfg, v, now, seen, order) == v && AllNotes(cfg, v, now, seen, order) == []
  {
    if order != [] {
      var init, g := LastVisit(seen, order);
      assert forall h :: h in init ==> h in order;
      KnownChangeNothing(cfg, v, now, seen, init);
    }
  }

  /** Hashes that are held leave the set as it is. */
  lemma {:induction false} HeldKeepOrder(cfg: Config, v: View, now: Time, seen: map<string, Sighting>,
      order: seq<string>)
    requires 0 < cfg.capacity && Visits(seen, order)
    requires forall h :: h in order ==>
      h !in v.order && !seen[h].spam && Holds(v.deferred, cfg.maxDeferral, now, h, seen[h])
    ensures VisitAll(cfg, v, now, seen, order).order == v.order
  {
    if order != [] {
      var init, g := LastVisit(seen, order);
      assert forall h :: h in init ==> h in order;
      HeldKeepOrder(cfg, v, now, seen, init);
      Untouched(cfg, v, now, seen, init, g);
    }
  }

  /** One visit decides alone what becomes of its hash. */
  lemma {:induction false} VisitDecides(cfg: Config, v: View, now: Time, seen: map<string, Sighting>,
                                        before: seq<string>, g: string, after: seq<string>)
    requires 0 < cfg.capacity && Visits(seen, before + [g] + after)
    ensures Visits(seen, before) && g in seen && g !in before && g !in after
    ensures
      var w, order := VisitAll(cfg, v, now, seen, before), before + [g] + after;
      && SameAt(v.deferred, w.deferred, g)
      && SameAt(Visit(cfg, w, now, g, seen[g]).deferred, VisitAll(cfg, v, now, seen, order).deferred, g)
      && forall n :: HashOf(n) == g ==>
           (n in AllNotes(cfg, v, now, seen, order) <==> n in NotesOf(cfg, w, now, g, seen[g]))
  {
    var order := before + [g] + after;
    VisitsSplit(seen, before, g, after);
    var w := VisitAll(cfg, v, now, seen, before);
    OneMoreVisit(cfg, v, now, seen, before, g);
    VisitsAdd(cfg, v, now, seen, before + [g], after);
    Untouched(cfg, v, now, seen, before, g);
    Untouched(cfg, VisitAll(cfg, v, now, seen, before + [g]), now, seen, after, g);
  }

  lemma {:induction false} VisitsSplit(seen: map<string, Sighting>, before: seq<string>, g: string, after: seq<string>)
    requires Visits(seen, before + [g] + after)
    ensures Visits(seen, before) && Visits(seen, after) && Visits(seen, before + [g])
    ensures g in seen && g !in before && g !in after
  {
    var order := before + [g] + after;
    assert order[|before|] == g;
    assert forall i :: 0 <= i < |before| ==> before[i] == order[i];
    assert forall i :: 0 <= i < |after| ==> after[i] == order[|before| + 1 + i];
    assert forall h :: h in before || h in after || h == g ==> h in order;
    assert before + [g] == order[..|before| + 1];
  }

  // ---------------------------------------------------------------- the theorem

  /** Nothing outside can tell two visiting orders apart. */
  ghost predicate Agree(cfg: Config, s: State, l: Look, o1: seq<string>, o2: seq<string>)
    requires 0 < cfg.capacity && IsVisitOrder(l, o1) && IsVisitOrder(l, o2)
  {
    && multiset(TickNotes(cfg, s, l, o1)) == multiset(TickNotes(cfg, s, l, o2))
    && Elems(TickView(cfg, s, l, o1).order) == Elems(TickView(cfg, s, l, o2).order)
    && TickView(cfg, s, l, o1).deferred == TickView(cfg, s, l, o2).deferred
  }

  ghost predicate OrderFree(cfg: Config, s: State, l: Look)
    requires 0 < cfg.capacity
  {
    forall o1, o2 :: IsVisitOrder(l, o1) && IsVisitOrder(l, o2) ==> Agree(cfg, s, l, o1, o2)
  }

  lemma {:induction false} OrderVisits(l: Look, order: seq<string>)
    requires l.seen.Some? && OwnHashes(l) && IsVisitOrder(l, order)
    ensures Visits(l.seen.value, order) && Elems(order) == l.seen.value.Keys
  {
    VisitOrderIn(l, order);
  }

  lemma {:induction false} VisitsOrder(l: Look, order: seq<string>)
    requires l.seen.Some? && NoDup(order) && Elems(order) == l.seen.value.Keys && OwnHashes(l)
    ensures IsVisitOrder(l, order) && Visits(l.seen.value, order)
  {
    VisitOrderIn(l, order);
  }

  lemma {:induction false} UndisturbedAgree(cfg: Config, s: State, l: Look, o1: seq<string>, o2: seq<string>)
    requires 0 < cfg.capacity && Completes(s.cursor, l) && OwnHashes(l) && Settled(cfg.capacity, s.view)
    requires IsVisitOrder(l, o1) && IsVisitOrder(l, o2) && Undisturbed(cfg, s.view, l.now, l.seen.value)
    ensures Agree(cfg, s, l, o1, o2)
  {
    var seen, v := l.seen.value, s.view;
    OrderVisits(l, o1);
    OrderVisits(l, o2);
    NotesAreFixed(cfg, v, l.now, seen, o1);
    NotesAreFixed(cfg, v, l.now, seen, o2);
    DedupIsFixed(cfg, v, l.now, seen, o1);
    DedupIsFixed(cfg, v, l.now, seen, o2);
    SameDeferrals(cfg, v, l.now, seen, o1, o2);
  }

  lemma {:induction false} SameDeferrals(cfg: Config, v: View, now: Time, seen: map<string, Sighting>,
                                         o1: seq<string>, o2: seq<string>)
    requires 0 < cfg.capacity && Settled(cfg.capacity, v) && Undisturbed(cfg, v, now, seen)
    requires Visits(seen, o1) && Visits(seen, o2) && Elems(o1) == Elems(o2)
    ensures VisitAll(cfg, v, now, seen, o1).deferred == VisitAll(cfg, v, now, seen, o2).deferred
  {
    var d1, d2 := VisitAll(cfg, v, now, seen, o1).deferred, VisitAll(cfg, v, now, seen, o2).deferred;
    forall h ensures SameAt(d1, d2, h) {
      DeferralIsFixed(cfg, v, now, seen, o1, h);
      DeferralIsFixed(cfg, v, now, seen, o2, h);
    }
    assert forall h :: h in d1 ==> SameAt(d1, d2, h);
    assert forall h :: h in d2 ==> SameAt(d1, d2, h);
  }

  /** A known hash that others can push out: visited before them it does nothing,
      after them it leaves or is put aside again. */
  lemma {:induction false} EvictionSeesTheOrder(cfg: Config, v: View, now: Time, seen: map<string, Sighting>,
                                           leavers: seq<string>, i: nat, rest: seq<string>)
    requires 0 < cfg.capacity && Settled(cfg.capacity, v) && i < |v.order|
    requires i < |v.order| + |leavers| - cfg.capacity
    requires Elems(leavers) <= Leaving(cfg.maxDeferral, v, now, seen, seen.Keys)
    requires Visits(seen, [v.order[i]] + leavers + rest) && Visits(seen, leavers + [v.order[i]] + rest)
    ensures
      var a := v.order[i];
      var o1, o2 := [a] + leavers + rest, leavers + [a] + rest;
      && (forall n :: HashOf(n) == a ==> n !in AllNotes(cfg, v, now, seen, o1))
      && a !in VisitAll(cfg, v, now, seen, o1).deferred
      && (NoteFor(seen, a) in AllNotes(cfg, v, now, seen, o2) ||
          (a in VisitAll(cfg, v, now, seen, o2).deferred && VisitAll(cfg, v, now, seen, o2).deferred[a] == now))
  {
    var a := v.order[i];
    assert a in v.order;
    var o1, o2 := [a] + leavers + rest, leavers + [a] + rest;
    assert o1 == [] + [a] + (leavers + rest);
    VisitDecides(cfg, v, now, seen, [], a, leavers + rest);
    VisitDecides(cfg, v, now, seen, leavers, a, rest);
    LeaversLeave(cfg, v, now, seen, leavers);
    OrderIsNewest(cfg, v, now, seen, leavers);
    NotAmongNewest(v.order, leavers, cfg.capacity, i);
    assert a in o2 && seen[a].ev.hash == a;
  }

  lemma {:induction false} NotAmongNewest(order: seq<string>, more: seq<string>, capacity: nat, i: nat)
    requires NoDup(order) && i < |order| && i < |order| + |more| - capacity && order[i] !in more
    ensures order[i] !in Newest(order + more, capacity)
  {
    var log := order + more;
    var newest := Newest(log, capacity);
    forall j | 0 <= j < |newest| ensures newest[j] != order[i] {
      assert newest[j] == log[|log| - |newest| + j];
    }
  }

  /** More hashes leaving than the set can hold: the one that leaves last stays in
      it, the one that leaves first does not. */
  lemma {:induction false} TooManyLeave(cfg: Config, v: View, now: Time, seen: map<string, Sighting>,
                                        known: seq<string>, x: string, leavers: seq<string>, held: seq<string>)
    requires 0 < cfg.capacity && Settled(cfg.capacity, v) && |leavers| >= cfg.capacity
    requires forall h :: h in known ==> h in v.order
    requires Elems(leavers + [x]) <= Leaving(cfg.maxDeferral, v, now, seen, seen.Keys)
    requires forall h :: h in held && h in seen ==>
      h !in v.order && h !in Leaving(cfg.maxDeferral, v, now, seen, seen.Keys)
    requires Visits(seen, known + ([x] + leavers) + held) && Visits(seen, known + (leavers + [x]) + held)
    ensures x !in VisitAll(cfg, v, now, seen, known + ([x] + leavers) + held).order
    ensures x in VisitAll(cfg, v, now, seen, known + (leavers + [x]) + held).order
  {
    assert Elems([x] + leavers) == Elems(leavers + [x]);
    SetAfterLeavers(cfg, v, now, seen, known, [x] + leavers, held);
    SetAfterLeavers(cfg, v, now, seen, known, leavers + [x], held);
    assert known + ([x] + leavers) + held == known + [x] + (leavers + held);
    VisitsSplit(seen, known, x, leavers + held);
    assert x !in leavers by {
      assert forall h :: h in leavers ==> h in leavers + held;
    }
    FirstAndLast(v.order, x, leavers, cfg.capacity);
  }

  lemma {:induction false} FirstAndLast(order: seq<string>, x: string, leavers: seq<string>, capacity: nat)
    requires 0 < capacity <= |leavers| && x !in leavers
    ensures x !in Newest(order + ([x] + leavers), capacity) && x in Newest(order + (leavers + [x]), capacity)
  {
    var last := order + (leavers + [x]);
    NewestHas(last, capacity, |last| - 1);
    assert Newest(order + ([x] + leavers), capacity) == leavers[|leavers| - capacity..];
  }

  lemma {:induction false} SetAfterLeavers(cfg: Config, v: View, now: Time, seen: map<string, Sighting>,
                                           known: seq<string>, leavers: seq<string>, held: seq<string>)
    requires 0 < cfg.capacity && Settled(cfg.capacity, v) && Visits(seen, known + leavers + held)
    requires forall h :: h in known ==> h in v.order
    requires Elems(leavers) <= Leaving(cfg.maxDeferral, v, now, seen, seen.Keys)
    requires forall h :: h in held && h in seen ==>
      h !in v.order && h !in Leaving(cfg.maxDeferral, v, now, seen, seen.Keys)
    ensures VisitAll(cfg, v, now, seen, known + leavers + held).order == Newest(v.order + leavers, cfg.capacity)
  {
    VisitsParts(seen, known, leavers, held);
    VisitsAdd(cfg, v, now, seen, known + leavers, held);
    VisitsAdd(cfg, v, now, seen, known, leavers);
    KnownChangeNothing(cfg, v, now, seen, known);
    LeaversLeave(cfg, v, now, seen, leavers);
    OrderIsNewest(cfg, v, now, seen, leavers);
    var w := VisitAll(cfg, v, now, seen, known + leavers);
    forall h | h in held ensures h !in w.order && !seen[h].spam && Holds(w.deferred, cfg.maxDeferral, now, h, seen[h]) {
      Untouched(cfg, v, now, seen, known + leavers, h);
    }
    HeldKeepOrder(cfg, w, now, seen, held);
  }

  lemma {:induction false} VisitsParts(seen: map<string, Sighting>, a: seq<string>, b: seq<string>, c: seq<string>)
    requires Visits(seen, a + b + c)
    ensures Visits(seen, a) && Visits(seen, b) && Visits(seen, c) && Visits(seen, a + b)
    ensures forall h :: h in c ==> h !in a + b
  {
    var order := a + b + c;
    assert a + b == order[..|a| + |b|] && a == order[..|a|];
    assert b == order[|a|..|a| + |b|] && c == order[|a| + |b|..];
    forall h | h in c ensures h !in a + b {
      var i :| 0 <= i < |c| && c[i] == h;
      assert order[|a| + |b| + i] == h;
    }
  }

  // ----------------------------------------------------- listing sets in sequence

  ghost predicate Lists(order: seq<string>, s: set<string>) {
    NoDup(order) && Elems(order) == s
  }

  lemma {:induction false} ListsAdd(a: seq<string>, b: seq<string>, s: set<string>, t: set<string>)
    requires Lists(a, s) && Lists(b, t) && s !! t
    ensures Lists(a + b, s + t)
  {
    forall i, j | 0 <= i < j < |a + b| ensures (a + b)[i] != (a + b)[j] {
      assert i < |a| ==> a[i] in Elems(a);
      assert j >= |a| ==> b[j - |a|] in Elems(b);
    }
  }

  lemma {:induction false} Listing(s: set<string>) returns (order: seq<string>)
    ensures Lists(order, s) && |order| == |s|
  {
    OrderExists(s);
    order :| NoDup(order) && Elems(order) == s;
    NoDupCard(order);
  }

  lemma {:induction false} ListsThree(a: seq<string>, b: seq<string>, c: seq<string>,
                                      r: set<string>, s: set<string>, t: set<string>)
    requires Lists(a, r) && Lists(b, s) && Lists(c, t) && r !! s !! t
    ensures Lists(a + b + c, r + s + t)
  {
    ListsAdd(a, b, r, s);
    ListsAdd(a + b, c, r + s, t);
  }

  lemma {:induction false} AroundOne(all: set<string>, a: string, left: set<string>)
    returns (leavers: seq<string>, rest: seq<string>)
    requires a in all && a !in left && left <= all
    ensures Lists(leavers, left) && |leavers| == |left|
    ensures Lists([a] + leavers + rest, all) && Lists(leavers + [a] + rest, all)
  {
    var others := all - left - {a};
    assert {a} + left + others == all && left + {a} + others == all;
    leavers := Listing(left);
    rest := Listing(others);
    assert Lists([a], {a});
    ListsThree([a], leavers, rest, {a}, left, others);
    ListsThree(leavers, [a], rest, left, {a}, others);
  }

  lemma {:induction false} AroundMany(all: set<string>, already: set<string>, left: set<string>, x: string)
    returns (known: seq<string>, leavers: seq<string>, held: seq<string>)
    requires x in left && left <= all && already <= all && already !! left
    ensures Lists(known, already) && Lists(held, all - left - already)
    ensures |leavers| == |left| - 1 && Elems(leavers + [x]) == left
    ensures Lists(known + ([x] + leavers) + held, all) && Lists(known + (leavers + [x]) + held, all)
  {
    var more, others := left - {x}, all - left - already;
    assert already + left + others == all;
    known := Listing(already);
    held := Listing(others);
    leavers := OnEitherSide(left, x);
    ListsThree(known, [x] + leavers, held, already, left, others);
    ListsThree(known, leavers + [x], held, already, left, others);
  }

  lemma {:induction false} OnEitherSide(left: set<string>, x: string) returns (leavers: seq<string>)
    requires x in left
    ensures |leavers| == |left| - 1 && Lists([x] + leavers, left) && Lists(leavers + [x], left)
  {
    var more := left - {x};
    assert {x} + more == left && more + {x} == left;
    leavers := Listing(more);
    assert Lists([x], {x});
    ListsAdd([x], leavers, {x}, more);
    ListsAdd(leavers, [x], more, {x});
  }

  lemma {:induction false} Disagree(cfg: Config, s: State, l: Look)
    returns (o1: seq<string>, o2: seq<string>)
    requires 0 < cfg.capacity && Completes(s.cursor, l) && OwnHashes(l) && Settled(cfg.capacity, s.view)
    requires !Undisturbed(cfg, s.view, l.now, l.seen.value)
    ensures IsVisitOrder(l, o1) && IsVisitOrder(l, o2) && !Agree(cfg, s, l, o1, o2)
  {
    var n := |Leaving(cfg.maxDeferral, s.view, l.now, l.seen.value, l.seen.value.Keys)|;
    if n > cfg.capacity {
      o1, o2 := DisagreeOnSet(cfg, s, l);
    } else {
      var i :| 0 <= i < |s.view.order| && i < |s.view.order| + n - cfg.capacity && s.view.order[i] in l.seen.value;
      o1, o2 := DisagreeOnPushedOut(cfg, s, l, i);
    }
  }

  lemma {:induction false} DisagreeOnPushedOut(cfg: Config, s: State, l: Look, i: nat)
    returns (o1: seq<string>, o2: seq<string>)
    requires 0 < cfg.capacity && Completes(s.cursor, l) && OwnHashes(l) && Settled(cfg.capacity, s.view)
    requires i < |s.view.order| && s.view.order[i] in l.seen.value
    requires i < |s.view.order| - cfg.capacity +
      |Leaving(cfg.maxDeferral, s.view, l.now, l.seen.value, l.seen.value.Keys)|
    ensures IsVisitOrder(l, o1) && IsVisitOrder(l, o2) && !Agree(cfg, s, l, o1, o2)
  {
    var v, seen := s.view, l.seen.value;
    var a := v.order[i];
    var left := Leaving(cfg.maxDeferral, v, l.now, seen, seen.Keys);
    assert a in v.order && a !in left;
    var leavers, rest := AroundOne(seen.Keys, a, left);
    o1, o2 := [a] + leavers + rest, leavers + [a] + rest;
    VisitsOrder(l, o1);
    VisitsOrder(l, o2);
    EvictionSeesTheOrder(cfg, v, l.now, seen, leavers, i, rest);
    DifferOn(cfg, s, l, o1, o2, a);
  }

  lemma {:induction false} DifferOn(cfg: Config, s: State, l: Look, o1: seq<string>, o2: seq<string>, a: string)
    requires 0 < cfg.capacity && Completes(s.cursor, l) && IsVisitOrder(l, o1) && IsVisitOrder(l, o2)
    requires a in l.seen.value && HashOf(NoteFor(l.seen.value, a)) == a
    requires (forall h :: h in o1 ==> h in l.seen.value) && (forall h :: h in o2 ==> h in l.seen.value)
    requires forall n :: HashOf(n) == a ==> n !in AllNotes(cfg, s.view, l.now, l.seen.value, o1)
    requires a !in VisitAll(cfg, s.view, l.now, l.seen.value, o1).deferred
    requires
      || NoteFor(l.seen.value, a) in AllNotes(cfg, s.view, l.now, l.seen.value, o2)
      || (a in VisitAll(cfg, s.view, l.now, l.seen.value, o2).deferred &&
          VisitAll(cfg, s.view, l.now, l.seen.value, o2).deferred[a] == l.now)
    ensures !Agree(cfg, s, l, o1, o2)
  {
    var note := NoteFor(l.seen.value, a);
    if note in AllNotes(cfg, s.view, l.now, l.seen.value, o2) {
      assert note in multiset(TickNotes(cfg, s, l, o2)) && note !in multiset(TickNotes(cfg, s, l, o1));
    } else {
      assert a in TickView(cfg, s, l, o2).deferred && a !in TickView(cfg, s, l, o1).deferred;
    }
  }

  lemma {:induction false} DisagreeOnSet(cfg: Config, s: State, l: Look)
    returns (o1: seq<string>, o2: seq<string>)
    requires 0 < cfg.capacity && Completes(s.cursor, l) && OwnHashes(l) && Settled(cfg.capacity, s.view)
    requires |Leaving(cfg.maxDeferral, s.view, l.now, l.seen.value, l.seen.value.Keys)| > cfg.capacity
    ensures IsVisitOrder(l, o1) && IsVisitOrder(l, o2) && !Agree(cfg, s, l, o1, o2)
  {
    var v, seen := s.view, l.seen.value;
    var left := Leaving(cfg.maxDeferral, v, l.now, seen, seen.Keys);
    var x :| x in left;
    var already := set h | h in seen.Keys && h in v.order;
    var known, leavers, held := AroundMany(seen.Keys, already, left, x);
    o1, o2 := known + ([x] + leavers) + held, known + (leavers + [x]) + held;
    VisitsOrder(l, o1);
    VisitsOrder(l, o2);
    assert forall h :: h in known ==> h in Elems(known);
    assert forall h :: h in held ==> h in Elems(held);
    TooManyLeave(cfg, v, l.now, seen, known, x, leavers, held);
    DifferInSet(cfg, s, l, o1, o2, x);
  }

  lemma {:induction false} DifferInSet(cfg: Config, s: State, l: Look, o1: seq<string>, o2: seq<string>, x: string)
    requires 0 < cfg.capacity && Completes(s.cursor, l) && IsVisitOrder(l, o1) && IsVisitOrder(l, o2)
    requires (forall h :: h in o1 ==> h in l.seen.value) && (forall h :: h in o2 ==> h in l.seen.value)
    requires x !in VisitAll(cfg, s.view, l.now, l.seen.value, o1).order
    requires x in VisitAll(cfg, s.view, l.now, l.seen.value, o2).order
    ensures !Agree(cfg, s, l, o1, o2)
  {
    assert x !in Elems(TickView(cfg, s, l, o1).order) && x in Elems(TickView(cfg, s, l, o2).order);
  }

  /** Go's random map order cannot be seen from outside exactly when no more hashes
      leave than the set holds and what they push out is not seen in the same tick. */
  lemma {:induction false} OrderIrrelevant(cfg: Config, s: State, l: Look)
    requires 0 < cfg.capacity && Completes(s.cursor, l) && OwnHashes(l) && Settled(cfg.capacity, s.view)
    ensures OrderFree(cfg, s, l) <==> Undisturbed(cfg, s.view, l.now, l.seen.value)
  {
    if Undisturbed(cfg, s.view, l.now, l.seen.value) {
      forall o1, o2 | IsVisitOrder(l, o1) && IsVisitOrder(l, o2) ensures Agree(cfg, s, l, o1, o2) {
        UndisturbedAgree(cfg, s, l, o1, o2);
      }
    } else {
      var o1, o2 := Disagree(cfg, s, l);
    }
  }
}
