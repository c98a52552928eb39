/** What whole runs of the transaction watcher guarantee: at most one
    notification per dedup window, bounded deferral of half-indexed swaps, and no gap
    in the queried blocks. */
module WatcherRuns {
  import opened Text
  import opened PendingRegistry
  import opened WatcherLegs
  import opened WatcherTick

  /** One turn of the ticker with the order its groups were ranged over. */
  datatype Turn = Turn(look: Look, order: seq<string>)

  ghost predicate IsTurn(t: Turn) {
    OwnHashes(t.look) && IsVisitOrder(t.look, t.order)
  }

  ghost predicate IsRun(run: seq<Turn>) {
    forall k :: 0 <= k < |run| ==> IsTurn(run[k])
  }

  predicate OnClock(run: seq<Turn>) {
    forall i, j :: 0 <= i <= j < |run| ==> run[i].look.now <= run[j].look.now
  }

  /** The state before turn `k`. */
  ghost function At(cfg: Config, run: seq<Turn>, k: nat): State
    requires 0 < cfg.capacity && IsRun(run) && k <= |run|
  {
    if k == 0 then START
    else TickState(cfg, At(cfg, run, k - 1), run[k - 1].look, run[k - 1].order)
  }

  ghost function NotesAt(cfg: Config, run: seq<Turn>, k: nat): seq<Note>
    requires 0 < cfg.capacity && IsRun(run) && k < |run|
  {
    TickNotes(cfg, At(cfg, run, k), run[k].look, run[k].order)
  }

  ghost function NotesUpTo(cfg: Config, run: seq<Turn>, k: nat): seq<Note>
    requires 0 < cfg.capacity && IsRun(run) && k <= |run|
  {
    if k == 0 then [] else NotesUpTo(cfg, run, k - 1) + NotesAt(cfg, run, k - 1)
  }

  ghost predicate Completed(cfg: Config, run: seq<Turn>, k: nat)
    requires 0 < cfg.capacity && IsRun(run) && k < |run|
  {
    Completes(At(cfg, run, k).cursor, run[k].look)
  }

  function Hashes(notes: seq<Note>): (hs: seq<string>)
    ensures |hs| == |notes|
  {
    seq(|notes|, i requires 0 <= i < |notes| => HashOf(notes[i]))
  }

  // -------------------------------------------------- at most one notification

  /** Equal entries are more than `capacity` places apart. */
  predicate Sparse(log: seq<string>, capacity: nat) {
    forall i, j :: 0 <= i < j < |log| && log[i] == log[j] ==> j - i > capacity
  }

  function Newest(log: seq<string>, capacity: nat): seq<string> {
    if |log| <= capacity then log else log[|log| - capacity..]
  }

  /** The dedup set is the last `capacity` hashes that left, and none of them is deferred. */
  ghost predicate Deduped(capacity: nat, log: seq<string>, v: View) {
    && Sparse(log, capacity)
    && v.order == Newest(log, capacity)
    && (forall h :: h in v.order ==> h !in v.deferred)
  }

  lemma {:induction false} PushKeepsSparse(capacity: nat, log: seq<string>, h: string)
    requires 0 < capacity && Sparse(log, capacity) && h !in Newest(log, capacity)
    ensures Sparse(log + [h], capacity)
    ensures PushBounded(Newest(log, capacity), capacity, h) == Newest(log + [h], capacity)
  {
    forall i, j | 0 <= i < j < |log + [h]| && (log + [h])[i] == (log + [h])[j] ensures j - i > capacity {
      if j == |log| && |log| - i <= capacity {
        NewestHas(log, capacity, i);
        assert false;
      }
    }
  }

  lemma {:induction false} NewestHas(log: seq<string>, capacity: nat, i: nat)
    requires i < |log| && |log| - i <= capacity
    ensures log[i] in Newest(log, capacity)
  {
    var recent := Newest(log, capacity);
    assert recent[i - (|log| - |recent|)] == log[i];
  }

  lemma {:induction false} VisitKeepsDeduped(cfg: Config, log: seq<string>, v: View, now: Time, h: string, s: Sighting)
    requires 0 < cfg.capacity && s.ev.hash == h && Deduped(cfg.capacity, log, v)
    ensures Deduped(cfg.capacity, log + Hashes(NotesOf(cfg, v, now, h, s)), Visit(cfg, v, now, h, s))
  {
    if NotesOf(cfg, v, now, h, s) != [] {
      assert Hashes(NotesOf(cfg, v, now, h, s)) == [h];
      PushKeepsSparse(cfg.capacity, log, h);
      var order' := PushBounded(v.order, cfg.capacity, h);
      assert forall g :: g in order' ==> g in v.order || g == h;
    } else {
      assert log + Hashes([]) == log;
    }
  }

  lemma {:induction false} VisitsKeepDeduped(cfg: Config, log: seq<string>, v: View, now: Time,
                                             seen: map<string, Sighting>, order: seq<string>)
    requires 0 < cfg.capacity && Deduped(cfg.capacity, log, v)
    requires forall h :: h in order ==> h in seen && seen[h].ev.hash == h
    ensures Deduped(cfg.capacity, log + Hashes(AllNotes(cfg, v, now, seen, order)), VisitAll(cfg, v, now, seen, order))
  {
    if order == [] {
      assert log + Hashes([]) == log;
    } else {
      var init, h := order[..|order| - 1], order[|order| - 1];
      VisitsKeepDeduped(cfg, log, v, now, seen, init);
      var a, w := AllNotes(cfg, v, now, seen, init), VisitAll(cfg, v, now, seen, init);
      VisitKeepsDeduped(cfg, log + Hashes(a), w, now, h, seen[h]);
      LogAdd(log, a, NotesOf(cfg, w, now, h, seen[h]));
    }
  }

  lemma {:induction false} LogAdd(log: seq<string>, a: seq<Note>, b: seq<Note>)
    ensures log + Hashes(a + b) == log + Hashes(a) + Hashes(b)
  {
    assert Hashes(a + b) == Hashes(a) + Hashes(b);
  }

  lemma {:induction false} TurnKeepsDeduped(cfg: Config, log: seq<string>, s: State, t: Turn)
    requires 0 < cfg.capacity && IsTurn(t) && Deduped(cfg.capacity, log, s.view)
    ensures Deduped(cfg.capacity, log + Hashes(TickNotes(cfg, s, t.look, t.order)),
                    TickView(cfg, s, t.look, t.order))
  {
    if Completes(s.cursor, t.look) {
      VisitOrderIn(t.look, t.order);
      VisitsKeepDeduped(cfg, log, s.view, t.look.now, t.look.seen.value, t.order);
    } else {
      assert log + Hashes([]) == log;
    }
  }

  lemma {:induction false} RunDeduped(cfg: Config, run: seq<Turn>, k: nat)
    requires 0 < cfg.capacity && IsRun(run) && k <= |run|
    ensures Deduped(cfg.capacity, Hashes(NotesUpTo(cfg, run, k)), At(cfg, run, k).view)
  {
    if k > 0 {
      RunDeduped(cfg, run, k - 1);
      var a, b := NotesUpTo(cfg, run, k - 1), NotesAt(cfg, run, k - 1);
      LogAdd([], a, b);
      var s := At(cfg, run, k - 1);
      TurnKeepsDeduped(cfg, Hashes(a), s, run[k - 1]);
      assert At(cfg, run, k).view == TickView(cfg, s, run[k - 1].look, run[k - 1].order);
      assert Hashes(NotesUpTo(cfg, run, k)) == Hashes(a) + Hashes(b) by {
        assert [] + Hashes(a + b) == Hashes(a + b) && [] + Hashes(a) == Hashes(a);
      }
    }
  }

  /** Right after entry `i`, and before entry `j`, stand `capacity` distinct
      entries that differ from entry `i`. */
  ghost predicate Apart(log: seq<string>, capacity: nat, i: nat, j: nat) {
    && i + 1 + capacity <= j < |log|
    && log[i] !in log[i + 1..i + 1 + capacity]
    && |Elems(log[i + 1..i + 1 + capacity])| == capacity
  }

  lemma {:induction false} SparseApart(log: seq<string>, capacity: nat, i: nat, j: nat)
    requires Sparse(log, capacity) && i < j < |log| && log[i] == log[j]
    ensures Apart(log, capacity, i, j)
  {
    var block := log[i + 1..i + 1 + capacity];
    forall k | 0 <= k < |block| ensures block[k] != log[i] {
      assert block[k] == log[i + 1 + k];
    }
    forall a, b | 0 <= a < b < |block| ensures block[a] != block[b] {
      assert block[a] == log[i + 1 + a] && block[b] == log[i + 1 + b];
    }
    NoDupCard(block);
  }

  /** Two notes (event or spam drop) of one hash are separated by `capacity`
      distinct other hashes that leave the watcher in between. */
  lemma {:induction false} AtMostOnce(cfg: Config, run: seq<Turn>, log: seq<string>, i: nat, j: nat)
    requires 0 < cfg.capacity && IsRun(run) && log == Hashes(NotesUpTo(cfg, run, |run|))
    requires i < j < |log| && log[i] == log[j]
    ensures Apart(log, cfg.capacity, i, j)
  {
    RunDeduped(cfg, run, |run|);
    SparseApart(log, cfg.capacity, i, j);
  }

  // ------------------------------------------------------------ swap deferral

  /** `d` and `e` say the same about `h`. */
  predicate SameAt(d: map<string, Time>, e: map<string, Time>, h: string) {
    (h in d <==> h in e) && (h in d ==> d[h] == e[h])
  }

  lemma {:induction false} Untouched(cfg: Config, v: View, now: Time, seen: map<string, Sighting>,
                                     order: seq<string>, h: string)
    requires 0 < cfg.capacity && (forall g :: g in order ==> g in seen && seen[g].ev.hash == g) && h !in order
    ensures SameAt(v.deferred, VisitAll(cfg, v, now, seen, order).deferred, h)
    ensures h !in v.order ==> h !in VisitAll(cfg, v, now, seen, order).order
    ensures forall n :: n in AllNotes(cfg, v, now, seen, order) ==> HashOf(n) != h
  {
    if order != [] {
      Untouched(cfg, v, now, seen, order[..|order| - 1], h);
    }
  }

  /** The view `u` in which hash `h` is visited knows the deferral of `h` that the
      tick started with, and that visit alone decides what happens to `h`. */
  lemma {:induction false} AtItsVisit(cfg: Config, v: View, now: Time, seen: map<string, Sighting>,
                                      order: seq<string>, h: string) returns (u: View)
    requires 0 < cfg.capacity && (forall g :: g in order ==> g in seen && seen[g].ev.hash == g)
    requires NoDup(order) && h in order
    ensures SameAt(v.deferred, u.deferred, h) && (h !in v.order ==> h !in u.order)
    ensures SameAt(Visit(cfg, u, now, h, seen[h]).deferred, VisitAll(cfg, v, now, seen, order).deferred, h)
    ensures forall n :: HashOf(n) == h ==>
      (n in AllNotes(cfg, v, now, seen, order) <==> n in NotesOf(cfg, u, now, h, seen[h]))
  {
    var init, g := order[..|order| - 1], order[|order| - 1];
    assert order == init + [g];
    if g == h {
      u := VisitAll(cfg, v, now, seen, init);
      Untouched(cfg, v, now, seen, init, h);
    } else {
      u := AtItsVisit(cfg, v, now, seen, init, h);
    }
  }

  lemma {:induction false} EntersByLeaving(cfg: Config, v: View, now: Time, seen: map<string, Sighting>,
                                           order: seq<string>, h: string)
    requires 0 < cfg.capacity && (forall g :: g in order ==> g in seen && seen[g].ev.hash == g)
    requires h !in v.order && h in VisitAll(cfg, v, now, seen, order).order
    ensures exists n :: n in AllNotes(cfg, v, now, seen, order) && HashOf(n) == h
  {
    var init, g := order[..|order| - 1], order[|order| - 1];
    var w := VisitAll(cfg, v, now, seen, init);
    if h in w.order {
      EntersByLeaving(cfg, v, now, seen, init, h);
    } else {
      var notes := NotesOf(cfg, w, now, g, seen[g]);
      assert g == h && HashOf(notes[0]) == h;
      assert notes[0] in AllNotes(cfg, v, now, seen, init) + notes;
    }
  }

  ghost predicate Leaves(cfg: Config, run: seq<Turn>, k: nat, h: string)
    requires 0 < cfg.capacity && IsRun(run) && k < |run|
  {
    exists n :: n in NotesAt(cfg, run, k) && HashOf(n) == h
  }

  /** Turn `k` fetched `h` and completed. */
  ghost predicate Sees(cfg: Config, run: seq<Turn>, k: nat, h: string)
    requires 0 < cfg.capacity && IsRun(run) && k < |run|
  {
    Completed(cfg, run, k) && h in run[k].look.seen.value
  }

  /** At turn `k0` hash `h` was first put aside, and so it stayed up to turn `k`. */
  ghost predicate AsideSince(cfg: Config, run: seq<Turn>, h: string, k0: nat, k: nat)
    requires 0 < cfg.capacity && IsRun(run) && k <= |run|
  {
    && k0 < k && Sees(cfg, run, k0, h)
    && h !in At(cfg, run, k0).view.deferred
    && Incomplete(run[k0].look.seen.value[h])
    && forall m :: k0 < m <= k ==>
         h in At(cfg, run, m).view.deferred && At(cfg, run, m).view.deferred[h] == run[k0].look.now
  }

  /** How one turn treats the deferral of one hash. */
  lemma {:induction false} TurnOnDeferral(cfg: Config, run: seq<Turn>, k: nat, h: string)
    requires 0 < cfg.capacity && IsRun(run) && k < |run|
    ensures
      var d, d' := At(cfg, run, k).view.deferred, At(cfg, run, k + 1).view.deferred;
      && (h in d && h in d' ==> d'[h] == d[h])
      && (h !in d && h in d' ==>
            Sees(cfg, run, k, h) && d'[h] == run[k].look.now && Incomplete(run[k].look.seen.value[h]))
  {
    if Completed(cfg, run, k) {
      var v, l, order := At(cfg, run, k).view, run[k].look, run[k].order;
      VisitOrderIn(l, order);
      if h in order {
        var u := AtItsVisit(cfg, v, l.now, l.seen.value, order, h);
      } else {
        Untouched(cfg, v, l.now, l.seen.value, order, h);
      }
    }
  }

  /** Every deferral goes back to a turn that first put the hash aside. */
  lemma {:induction false} DeferralHasOrigin(cfg: Config, run: seq<Turn>, k: nat, h: string) returns (k0: nat)
    requires 0 < cfg.capacity && IsRun(run) && k <= |run|
    requires h in At(cfg, run, k).view.deferred
    ensures AsideSince(cfg, run, h, k0, k)
  {
    TurnOnDeferral(cfg, run, k - 1, h);
    if h in At(cfg, run, k - 1).view.deferred {
      k0 := DeferralHasOrigin(cfg, run, k - 1, h);
    } else {
      k0 := k - 1;
    }
  }

  /** What an emitted event tells about its hash. */
  lemma {:induction false} EmittedMeans(cfg: Config, run: seq<Turn>, k: nat, ev: Event)
    requires 0 < cfg.capacity && IsRun(run) && k < |run| && Emitted(ev) in NotesAt(cfg, run, k)
    ensures Sees(cfg, run, k, ev.hash)
    ensures
      var s := run[k].look.seen.value[ev.hash];
      && s.ev == ev && !s.spam
      && !Holds(At(cfg, run, k).view.deferred, cfg.maxDeferral, run[k].look.now, ev.hash, s)
  {
    var v, l, order := At(cfg, run, k).view, run[k].look, run[k].order;
    VisitOrderIn(l, order);
    if ev.hash in order {
      var u := AtItsVisit(cfg, v, l.now, l.seen.value, order, ev.hash);
      assert HashOf(Emitted(ev)) == ev.hash;
    } else {
      Untouched(cfg, v, l.now, l.seen.value, order, ev.hash);
    }
  }

  /** An event for a hash tagged "swap" shows a whole swap (or a self-transfer),
      unless the hash had been put aside at least `maxDeferral` before. */
  lemma {:induction false} DeferralIsHonoured(cfg: Config, run: seq<Turn>, k: nat, ev: Event)
    requires 0 < cfg.capacity && IsRun(run) && k < |run| && Emitted(ev) in NotesAt(cfg, run, k)
    requires Completed(cfg, run, k) && ev.hash in run[k].look.seen.value
    requires run[k].look.seen.value[ev.hash].kind == "swap"
    ensures ev.role == Swap || ev.role == SelfTransfer ||
      exists k0: nat :: AsideSince(cfg, run, ev.hash, k0, k) && run[k].look.now - run[k0].look.now >= cfg.maxDeferral
  {
    EmittedMeans(cfg, run, k, ev);
    if ev.role != Swap && ev.role != SelfTransfer {
      var k0 := DeferralHasOrigin(cfg, run, k, ev.hash);
      assert At(cfg, run, k).view.deferred[ev.hash] == run[k0].look.now;
    }
  }

  /** Hash `h` is new at turn `a`, and every completed turn from `a` to `b` fetches it. */
  ghost predicate SeenThroughout(cfg: Config, run: seq<Turn>, h: string, a: nat, b: nat)
    requires 0 < cfg.capacity && IsRun(run) && a <= b < |run|
  {
    && h !in At(cfg, run, a).view.order && h !in At(cfg, run, a).view.deferred
    && Completed(cfg, run, a)
    && forall k :: a <= k <= b && Completed(cfg, run, k) ==> h in run[k].look.seen.value
  }

  /** Each completed turn after `a` follows a completed one by at most `d`. */
  ghost predicate CompletedWithin(cfg: Config, run: seq<Turn>, a: nat, b: nat, d: nat)
    requires 0 < cfg.capacity && IsRun(run) && a <= b < |run|
  {
    forall k :: a < k <= b && Completed(cfg, run, k) ==>
      exists j :: a <= j < k && Completed(cfg, run, j) && run[k].look.now - run[j].look.now <= d
  }

  /** A hash seen at turn `k` leaves if its own visit writes a note; otherwise it
      does not enter the dedup set. */
  lemma {:induction false} LeavesByItsVisit(cfg: Config, run: seq<Turn>, k: nat, h: string) returns (u: View)
    requires 0 < cfg.capacity && IsRun(run) && k < |run| && Sees(cfg, run, k, h)
    requires h !in At(cfg, run, k).view.order
    ensures
      var l := run[k].look;
      var s := l.seen.value[h];
      && h !in u.order && SameAt(At(cfg, run, k).view.deferred, u.deferred, h)
      && SameAt(SweepDeferred(Visit(cfg, u, l.now, h, s).deferred, l.now, cfg.maxDeferral),
                At(cfg, run, k + 1).view.deferred, h)
      && (NotesOf(cfg, u, l.now, h, s) != [] ==> Leaves(cfg, run, k, h))
      && (h in At(cfg, run, k + 1).view.order ==> Leaves(cfg, run, k, h))
  {
    var v, l, order := At(cfg, run, k).view, run[k].look, run[k].order;
    VisitOrderIn(l, order);
    u := AtItsVisit(cfg, v, l.now, l.seen.value, order, h);
    var mine := NotesOf(cfg, u, l.now, h, l.seen.value[h]);
    if mine != [] {
      assert HashOf(mine[0]) == h && mine[0] in NotesAt(cfg, run, k);
    }
    if h in VisitAll(cfg, v, l.now, l.seen.value, order).order {
      EntersByLeaving(cfg, v, l.now, l.seen.value, order, h);
    }
  }

  /** While `h` has not left, its first sighting stays on record: the sweep at
      twice the limit never reaches it. */
  lemma {:induction false} StaysAside(cfg: Config, run: seq<Turn>, h: string, a: nat, b: nat, k: nat)
    requires 0 < cfg.capacity && 0 < cfg.maxDeferral && IsRun(run) && OnClock(run)
    requires a <= k <= b < |run| && SeenThroughout(cfg, run, h, a, b)
    requires forall m :: a <= m < k ==> !Leaves(cfg, run, m, h)
    requires forall m :: a <= m < k && Completed(cfg, run, m) ==> !Overdue(cfg, run, a, m)
    ensures h !in At(cfg, run, k).view.order
    ensures if k == a then h !in At(cfg, run, k).view.deferred
            else h in At(cfg, run, k).view.deferred && At(cfg, run, k).view.deferred[h] == run[a].look.now
  {
    if k > a {
      StaysAside(cfg, run, h, a, b, k - 1);
      if Completed(cfg, run, k - 1) {
        var u := LeavesByItsVisit(cfg, run, k - 1, h);
      }
    }
  }

  /** The note a hash leaves with. */
  function NoteFor(seen: map<string, Sighting>, h: string): Note
    requires h in seen
  {
    if seen[h].spam then Dropped(h) else Emitted(seen[h].ev)
  }

  /** `h` leaves at turn `k`: dropped if it is spam there, as its event otherwise. */
  ghost predicate Settles(cfg: Config, run: seq<Turn>, k: nat, h: string)
    requires 0 < cfg.capacity && IsRun(run) && k < |run|
  {
    Sees(cfg, run, k, h) && NoteFor(run[k].look.seen.value, h) in NotesAt(cfg, run, k)
  }

  lemma {:induction false} LeavingSettles(cfg: Config, run: seq<Turn>, k: nat, h: string)
    requires 0 < cfg.capacity && IsRun(run) && k < |run| && Leaves(cfg, run, k, h)
    ensures Settles(cfg, run, k, h)
  {
    var n :| n in NotesAt(cfg, run, k) && HashOf(n) == h;
    var v, l, order := At(cfg, run, k).view, run[k].look, run[k].order;
    VisitOrderIn(l, order);
    if h in order {
      var u := AtItsVisit(cfg, v, l.now, l.seen.value, order, h);
    } else {
      Untouched(cfg, v, l.now, l.seen.value, order, h);
    }
  }

  lemma {:induction false} OverdueSettles(cfg: Config, run: seq<Turn>, k: nat, h: string)
    requires 0 < cfg.capacity && IsRun(run) && k < |run| && Sees(cfg, run, k, h)
    requires h !in At(cfg, run, k).view.order && h in At(cfg, run, k).view.deferred
    requires run[k].look.now - At(cfg, run, k).view.deferred[h] >= cfg.maxDeferral
    ensures Settles(cfg, run, k, h)
  {
    var v, l, order := At(cfg, run, k).view, run[k].look, run[k].order;
    VisitOrderIn(l, order);
    var u := AtItsVisit(cfg, v, l.now, l.seen.value, order, h);
    assert NotesOf(cfg, u, l.now, h, l.seen.value[h]) == [NoteFor(l.seen.value, h)];
  }

  predicate Overdue(cfg: Config, run: seq<Turn>, a: nat, k: nat)
    requires a < |run| && k < |run|
  {
    run[k].look.now - run[a].look.now >= cfg.maxDeferral
  }

  lemma {:induction false} FirstOverdue(cfg: Config, run: seq<Turn>, a: nat, b: nat) returns (k: nat)
    requires 0 < cfg.capacity && IsRun(run) && a <= b < |run|
    requires Completed(cfg, run, b) && Overdue(cfg, run, a, b)
    ensures a <= k <= b && Completed(cfg, run, k) && Overdue(cfg, run, a, k)
    ensures forall m :: a <= m < k && Completed(cfg, run, m) ==> !Overdue(cfg, run, a, m)
  {
    k := a;
    while !(Completed(cfg, run, k) && Overdue(cfg, run, a, k))
      invariant a <= k <= b
      invariant forall m :: a <= m < k && Completed(cfg, run, m) ==> !Overdue(cfg, run, a, m)
      decreases b - k
    {
      k := k + 1;
    }
  }

  /** No swap is held for ever: a hash fetched by every completed turn leaves the
      watcher at most `maxDeferral + d` after it was first seen, when completed
      turns are at most `d` apart and one comes `maxDeferral` later. */
  lemma {:induction false} SettlesInTime(cfg: Config, run: seq<Turn>, h: string, a: nat, b: nat, d: nat)
    returns (k: nat)
    requires 0 < cfg.capacity && 0 < cfg.maxDeferral && IsRun(run) && OnClock(run)
    requires a <= b < |run| && SeenThroughout(cfg, run, h, a, b) && CompletedWithin(cfg, run, a, b, d)
    requires Completed(cfg, run, b) && Overdue(cfg, run, a, b)
    ensures a <= k <= b && Settles(cfg, run, k, h)
    ensures run[k].look.now <= run[a].look.now + cfg.maxDeferral + d
  {
    k := FirstOverdue(cfg, run, a, b);
    var j :| a <= j < k && Completed(cfg, run, j) && run[k].look.now - run[j].look.now <= d;
    assert !Overdue(cfg, run, a, j);
    if m :| a <= m < k && Leaves(cfg, run, m, h) {
      k := m;
      LeavingSettles(cfg, run, m, h);
    } else {
      StaysAside(cfg, run, h, a, b, k);
      OverdueSettles(cfg, run, k, h);
    }
  }

  // ----------------------------------------------------------- block coverage

  /** Turn `k` fetched successfully, and its window contains `block`. */
  ghost predicate Covers(cfg: Config, run: seq<Turn>, k: nat, block: nat)
    requires 0 < cfg.capacity && IsRun(run) && k < |run|
  {
    Completed(cfg, run, k) &&
    FromBlock(At(cfg, run, k).cursor.lastBlock) <= block <= run[k].look.head.value
  }

  lemma {:induction false} CursorStartsAtZero(cfg: Config, run: seq<Turn>, i: nat)
    requires 0 < cfg.capacity && IsRun(run) && i <= |run|
    ensures !At(cfg, run, i).cursor.initialized ==> At(cfg, run, i).cursor.lastBlock == 0
  {
    if 0 < i {
      CursorStartsAtZero(cfg, run, i - 1);
    }
  }

  lemma {:induction false} CursorNeverMovesBack(cfg: Config, run: seq<Turn>, i: nat, j: nat)
    requires 0 < cfg.capacity && IsRun(run) && i <= j <= |run|
    ensures At(cfg, run, i).cursor.lastBlock <= At(cfg, run, j).cursor.lastBlock
    ensures At(cfg, run, i).cursor.initialized ==> At(cfg, run, j).cursor.initialized
  {
    if i < j {
      CursorNeverMovesBack(cfg, run, i, j - 1);
      CursorStartsAtZero(cfg, run, j - 1);
    }
  }

  /** Failed polls and fetches leave no hole: every block after the initial head up
      to the cursor lies in the window of a successful fetch. */
  lemma {:induction false} NoBlockSkipped(cfg: Config, run: seq<Turn>, start: nat, k: nat, block: nat)
    requires 0 < cfg.capacity && IsRun(run) && start < k <= |run|
    requires !At(cfg, run, start).cursor.initialized && At(cfg, run, start + 1).cursor.initialized
    requires run[start].look.head.value < block <= At(cfg, run, k).cursor.lastBlock
    ensures exists m :: start < m < k && Covers(cfg, run, m, block)
  {
    CursorNeverMovesBack(cfg, run, start + 1, k - 1);
    if k - 1 > start && block <= At(cfg, run, k - 1).cursor.lastBlock {
      NoBlockSkipped(cfg, run, start, k - 1, block);
    } else {
      assert Covers(cfg, run, k - 1, block);
    }
  }

  /** A block already behind the cursor is queried again by a successful turn
      exactly when the cursor is at most two past it. */
  lemma {:induction false} LookbackReach(cfg: Config, run: seq<Turn>, k: nat, block: nat)
    requires 0 < cfg.capacity && IsRun(run) && k < |run| && Completed(cfg, run, k)
    requires 1 <= block <= At(cfg, run, k).cursor.lastBlock
    ensures Covers(cfg, run, k, block) <==> At(cfg, run, k).cursor.lastBlock <= block + 2
  {
  }

  // ------------------------------------------------- what one turn does to a hash

  /** A swap that shows neither as a swap nor as a self-transfer, was first seen less
      than the limit ago or only now, and is not spam. */
  ghost predicate HeldBack(cfg: Config, run: seq<Turn>, k: nat, h: string)
    requires 0 < cfg.capacity && IsRun(run) && k < |run| && Sees(cfg, run, k, h)
  {
    var s, aside := run[k].look.seen.value[h], At(cfg, run, k).view.deferred;
    && !s.spam && s.kind == "swap" && s.ev.role != Swap && s.ev.role != SelfTransfer
    && (h in aside ==> run[k].look.now - aside[h] < cfg.maxDeferral)
  }

  /** A hash seen that is not in the dedup set leaves on that very turn, as its event or
      as spam, exactly unless it is such a swap; and exactly then it is on record
      afterwards, under the time it was first seen. */
  lemma {:induction false} LeavesUnlessHeldBack(cfg: Config, run: seq<Turn>, k: nat, h: string)
    requires 0 < cfg.capacity && IsRun(run) && k < |run|
    requires Sees(cfg, run, k, h) && h !in At(cfg, run, k).view.order
    ensures Settles(cfg, run, k, h) <==> !HeldBack(cfg, run, k, h)
    ensures Leaves(cfg, run, k, h) <==> !HeldBack(cfg, run, k, h)
    ensures
      var before, after := At(cfg, run, k).view.deferred, At(cfg, run, k + 1).view.deferred;
      && (h in after <==> HeldBack(cfg, run, k, h))
      && (h in after ==> after[h] == if h in before then before[h] else run[k].look.now)
  {
    var v, l, order := At(cfg, run, k).view, run[k].look, run[k].order;
    VisitOrderIn(l, order);
    var u := AtItsVisit(cfg, v, l.now, l.seen.value, order, h);
    var mine := NotesOf(cfg, u, l.now, h, l.seen.value[h]);
    assert HashOf(NoteFor(l.seen.value, h)) == h;
    assert mine == if HeldBack(cfg, run, k, h) then [] else [NoteFor(l.seen.value, h)];
    if mine != [] {
      assert mine[0] in NotesAt(cfg, run, k);
    }
  }

  /** A turn that completes drops the deferrals older than twice the limit, those and no
      other that it does not see. */
  lemma {:induction false} DeferralsAreSwept(cfg: Config, run: seq<Turn>, k: nat, h: string)
    requires 0 < cfg.capacity && IsRun(run) && k < |run| && Completed(cfg, run, k)
    ensures
      var before, after := At(cfg, run, k).view.deferred, At(cfg, run, k + 1).view.deferred;
      && (h in after ==> run[k].look.now - after[h] <= 2 * cfg.maxDeferral)
      && (!Sees(cfg, run, k, h) ==>
            && (h in after <==> h in before && run[k].look.now - before[h] <= 2 * cfg.maxDeferral)
            && (h in after ==> after[h] == before[h]))
  {
    var v, l, order := At(cfg, run, k).view, run[k].look, run[k].order;
    VisitOrderIn(l, order);
    if !Sees(cfg, run, k, h) {
      Untouched(cfg, v, l.now, l.seen.value, order, h);
    }
  }

  /** Nothing but the cursor's first placing happens on a turn that fetches nothing new. */
  lemma {:induction false} IdleTurn(cfg: Config, run: seq<Turn>, k: nat)
    requires 0 < cfg.capacity && IsRun(run) && k < |run|
    requires
      var l, c := run[k].look, At(cfg, run, k).cursor;
      l.head.None? || !c.initialized || l.head.value <= c.lastBlock || l.seen.None?
    ensures NotesAt(cfg, run, k) == [] && At(cfg, run, k + 1).view == At(cfg, run, k).view
  {
  }

  /** The cursor is placed at the head by the first poll that answers and by every
      fetch that succeeds past it, and stays otherwise. */
  lemma {:induction false} CursorMoves(cfg: Config, run: seq<Turn>, k: nat)
    requires 0 < cfg.capacity && IsRun(run) && k < |run|
    ensures
      var l, c, d := run[k].look, At(cfg, run, k).cursor, At(cfg, run, k + 1).cursor;
      if l.head.Some? && (!c.initialized || (l.head.value > c.lastBlock && l.seen.Some?))
      then d.initialized && d.lastBlock == l.head.value
      else d == c
  {
  }

  /** No block more than two before the head of the first poll is ever queried. */
  lemma {:induction false} NoEarlierHistory(cfg: Config, run: seq<Turn>, start: nat, k: nat, block: nat)
    requires 0 < cfg.capacity && IsRun(run) && start < k < |run|
    requires !At(cfg, run, start).cursor.initialized && At(cfg, run, start + 1).cursor.initialized
    requires Covers(cfg, run, k, block)
    ensures run[start].look.head.Some? && run[start].look.head.value <= block + 2
  {
    CursorMoves(cfg, run, start);
    CursorNeverMovesBack(cfg, run, start + 1, k);
  }
}
