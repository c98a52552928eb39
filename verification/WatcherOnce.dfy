/** Why one notification per transaction is enough: a hash stays in the queried
    window for at most four successful ticks, so the dedup set never forgets it while
    it can still be fetched. Then no hash is ever notified twice, and Go's random map
    order is never visible. */
module WatcherOnce {
  import opened Text
  import opened PendingRegistry
  import opened WatcherLegs
  import opened WatcherTick
  import opened WatcherRuns
  import opened WatcherOrder

  // ------------------------------------------------- what the node is trusted with

  ghost predicate SmallAt(cfg: Config, run: seq<Turn>, p: nat, k: nat)
    requires 0 < cfg.capacity && IsRun(run) && k < |run|
  {
    Completed(cfg, run, k) ==> |run[k].look.seen.value| <= p
  }

  ghost function BlockAt(run: seq<Turn>, k: nat, h: string): nat
    requires k < |run| && run[k].look.seen.Some? && h in run[k].look.seen.value
  {
    run[k].look.seen.value[h].ev.blockNumber
  }

  /** The legs seen of a hash are of one block, the same each time, in the window. */
  ghost predicate BlockOk(cfg: Config, run: seq<Turn>, j: nat, k: nat, h: string)
    requires 0 < cfg.capacity && IsRun(run) && j < |run| && k < |run|
  {
    Sees(cfg, run, j, h) && Sees(cfg, run, k, h) ==>
      BlockAt(run, j, h) == BlockAt(run, k, h) && Covers(cfg, run, k, BlockAt(run, k, h))
  }

  /** A fetch brings at most `p` hashes, all of blocks in the window asked for, and a
      hash stays in its block. */
  ghost predicate Honest(cfg: Config, run: seq<Turn>, p: nat)
    requires 0 < cfg.capacity && IsRun(run)
  {
    && (forall k :: 0 <= k < |run| ==> SmallAt(cfg, run, p, k))
    && (forall j, k, h :: 0 <= j < |run| && 0 <= k < |run| ==> BlockOk(cfg, run, j, k, h))
  }

  // -------------------------------------------------------- counting, in general

  /** One step of two counters: the second never falls, and the first moves only when
      the second does, by at most `p`. */
  predicate Moves(counts: seq<nat>, cursors: seq<nat>, p: nat, k: nat)
    requires |counts| == |cursors| && k + 1 < |counts|
  {
    && cursors[k] <= cursors[k + 1] && counts[k] <= counts[k + 1] <= counts[k] + p
    && (cursors[k] == cursors[k + 1] ==> counts[k + 1] == counts[k])
  }

  predicate AllMove(counts: seq<nat>, cursors: seq<nat>, p: nat)
    requires |counts| == |cursors|
  {
    forall k :: 0 <= k && k + 1 < |counts| ==> Moves(counts, cursors, p, k)
  }

  function Budget(p: nat, d: nat): nat { if d == 0 then 0 else p + Budget(p, d - 1) }

  lemma {:induction false} BudgetGrows(p: nat, d: nat, e: nat)
    requires d < e
    ensures Budget(p, d) + p <= Budget(p, e)
  {
    if d + 1 < e {
      BudgetGrows(p, d, e - 1);
    }
  }

  lemma {:induction false} WithinBudget(counts: seq<nat>, cursors: seq<nat>, p: nat, a: nat, b: nat)
    requires |counts| == |cursors| && a <= b < |counts|
    requires AllMove(counts, cursors, p)
    ensures cursors[a] <= cursors[b] && counts[a] <= counts[b] <= counts[a] + Budget(p, cursors[b] - cursors[a])
  {
    if a < b {
      WithinBudget(counts, cursors, p, a, b - 1);
      assert Moves(counts, cursors, p, b - 1);
      if cursors[b - 1] < cursors[b] {
        BudgetGrows(p, cursors[b - 1] - cursors[a], cursors[b] - cursors[a]);
      }
    }
  }

  /** A step and two moves of the cursor write at most three times `p`. */
  lemma {:induction false} ThreeSteps(counts: seq<nat>, cursors: seq<nat>, p: nat, j: nat, k: nat)
    requires |counts| == |cursors| && AllMove(counts, cursors, p)
    requires j < k < |counts| && cursors[k] <= cursors[j + 1] + 2
    ensures counts[k] <= counts[j] + 3 * p
  {
    WithinBudget(counts, cursors, p, j + 1, k);
    assert Moves(counts, cursors, p, j);
    assert Budget(p, 1) == p && Budget(p, 2) == p + Budget(p, 1);
  }

  /** Two entries written by steps that are near are near themselves. */
  lemma {:induction false} NearEntries(counts: seq<nat>, cursors: seq<nat>, p: nat, a: nat, b: nat, i: nat, j: nat)
    requires |counts| == |cursors| && AllMove(counts, cursors, p) && a + 1 < |counts| && b + 1 < |counts|
    requires counts[a] <= i < counts[a + 1] && counts[b] <= j < counts[b + 1] && i < j
    requires a <= b ==> counts[b] <= counts[a] + 3 * p
    ensures j - i < 4 * p
  {
    assert Moves(counts, cursors, p, b);
    if b < a {
      WithinBudget(counts, cursors, p, b + 1, a);
    }
  }

  /** The step that brought the count past `i`. */
  lemma {:induction false} StepPast(counts: seq<nat>, i: nat, k: nat) returns (j: nat)
    requires k < |counts| && counts[0] <= i < counts[k]
    ensures j < k && counts[j] <= i < counts[j + 1]
  {
    if counts[k - 1] <= i {
      j := k - 1;
    } else {
      j := StepPast(counts, i, k - 1);
    }
  }

  // -------------------------------------------------------------- counting notes

  lemma {:induction false} FewNotes(cfg: Config, v: View, now: Time, seen: map<string, Sighting>, order: seq<string>)
    requires 0 < cfg.capacity && forall h :: h in order ==> h in seen && seen[h].ev.hash == h
    ensures |AllNotes(cfg, v, now, seen, order)| <= |order|
    ensures forall n :: n in AllNotes(cfg, v, now, seen, order) ==> HashOf(n) in order
  {
    if order != [] {
      var init, g := order[..|order| - 1], order[|order| - 1];
      assert order == init + [g];
      FewNotes(cfg, v, now, seen, init);
    }
  }

  lemma {:induction false} TurnNotes(cfg: Config, run: seq<Turn>, k: nat, p: nat)
    requires 0 < cfg.capacity && IsRun(run) && k < |run| && SmallAt(cfg, run, p, k)
    ensures |NotesAt(cfg, run, k)| <= p
    ensures forall n :: n in NotesAt(cfg, run, k) ==> Sees(cfg, run, k, HashOf(n))
    ensures !Completed(cfg, run, k) ==> NotesAt(cfg, run, k) == []
  {
    if Completed(cfg, run, k) {
      var l, order := run[k].look, run[k].order;
      assert IsTurn(run[k]);
      VisitOrderIn(l, order);
      FewNotes(cfg, At(cfg, run, k).view, l.now, l.seen.value, order);
      NoDupCard(order);
      assert |l.seen.value.Keys| == |l.seen.value|;
    }
  }

  ghost function Counts(cfg: Config, run: seq<Turn>): (counts: seq<nat>)
    requires 0 < cfg.capacity && IsRun(run)
    ensures |counts| == |run| + 1
    ensures forall k :: 0 <= k <= |run| ==> counts[k] == |NotesUpTo(cfg, run, k)|
  {
    seq(|run| + 1, k requires 0 <= k <= |run| => |NotesUpTo(cfg, run, k)|)
  }

  ghost function Cursors(cfg: Config, run: seq<Turn>): (cursors: seq<nat>)
    requires 0 < cfg.capacity && IsRun(run)
    ensures |cursors| == |run| + 1
    ensures forall k :: 0 <= k <= |run| ==> cursors[k] == At(cfg, run, k).cursor.lastBlock
  {
    seq(|run| + 1, k requires 0 <= k <= |run| => At(cfg, run, k).cursor.lastBlock)
  }

  lemma {:induction false} TurnMoves(cfg: Config, run: seq<Turn>, p: nat, k: nat)
    requires 0 < cfg.capacity && IsRun(run) && k < |run| && SmallAt(cfg, run, p, k)
    ensures Moves(Counts(cfg, run), Cursors(cfg, run), p, k)
  {
    TurnNotes(cfg, run, k, p);
    CursorNeverMovesBack(cfg, run, k, k + 1);
    CompletedMoves(cfg, run, k);
    assert |NotesUpTo(cfg, run, k + 1)| == |NotesUpTo(cfg, run, k)| + |NotesAt(cfg, run, k)|;
  }

  lemma {:induction false} CompletedMoves(cfg: Config, run: seq<Turn>, k: nat)
    requires 0 < cfg.capacity && IsRun(run) && k < |run|
    ensures Completed(cfg, run, k) ==>
      At(cfg, run, k + 1).cursor.lastBlock == run[k].look.head.value > At(cfg, run, k).cursor.lastBlock
  {
  }

  lemma {:induction false} NotesStep(cfg: Config, run: seq<Turn>, k: nat)
    requires 0 < cfg.capacity && IsRun(run) && k < |run|
    ensures NotesUpTo(cfg, run, k + 1) == NotesUpTo(cfg, run, k) + NotesAt(cfg, run, k)
  {
  }

  /** Later notes are only added behind. */
  lemma {:induction false} Stays<T>(logs: seq<seq<T>>, added: seq<seq<T>>, j: nat, k: nat)
    requires |logs| == |added| + 1 && j <= k <= |added|
    requires forall m :: 0 <= m < |added| ==> logs[m + 1] == logs[m] + added[m]
    ensures logs[j] <= logs[k]
  {
    if j < k {
      Stays(logs, added, j, k - 1);
      assert logs[k - 1 + 1] == logs[k - 1] + added[k - 1];
    }
  }

  lemma {:induction false} EntryIn<T>(logs: seq<seq<T>>, added: seq<seq<T>>, j: nat, k: nat, i: nat)
    requires |logs| == |added| + 1 && j < k <= |added|
    requires forall m :: 0 <= m < |added| ==> logs[m + 1] == logs[m] + added[m]
    requires |logs[j]| <= i < |logs[j + 1]|
    ensures i < |logs[k]| && logs[k][i] in added[j]
  {
    Stays(logs, added, j + 1, k);
    assert logs[k][i] == logs[j + 1][i] == added[j][i - |logs[j]|];
  }

  ghost function Added(cfg: Config, run: seq<Turn>): (added: seq<seq<Note>>)
    requires 0 < cfg.capacity && IsRun(run)
    ensures |added| == |run|
    ensures forall k :: 0 <= k < |run| ==> added[k] == NotesAt(cfg, run, k)
  {
    seq(|run|, k requires 0 <= k < |run| => NotesAt(cfg, run, k))
  }

  ghost function Logs(cfg: Config, run: seq<Turn>): (logs: seq<seq<Note>>)
    requires 0 < cfg.capacity && IsRun(run)
    ensures |logs| == |run| + 1
    ensures forall k :: 0 <= k <= |run| ==> logs[k] == NotesUpTo(cfg, run, k)
  {
    seq(|run| + 1, k requires 0 <= k <= |run| => NotesUpTo(cfg, run, k))
  }

  lemma {:induction false} LogsGrow(cfg: Config, run: seq<Turn>)
    requires 0 < cfg.capacity && IsRun(run)
    ensures forall m :: 0 <= m < |run| ==> Logs(cfg, run)[m + 1] == Logs(cfg, run)[m] + Added(cfg, run)[m]
  {
    forall m | 0 <= m < |run| ensures Logs(cfg, run)[m + 1] == Logs(cfg, run)[m] + Added(cfg, run)[m] {
      NotesStep(cfg, run, m);
    }
  }

  lemma {:induction false} EntryAt(cfg: Config, run: seq<Turn>, j: nat, k: nat, i: nat)
    requires 0 < cfg.capacity && IsRun(run) && j < k <= |run|
    requires |NotesUpTo(cfg, run, j)| <= i < |NotesUpTo(cfg, run, j + 1)|
    ensures i < |NotesUpTo(cfg, run, k)| && NotesUpTo(cfg, run, k)[i] in NotesAt(cfg, run, j)
  {
    LogsGrow(cfg, run);
    EntryIn(Logs(cfg, run), Added(cfg, run), j, k, i);
  }

  lemma {:induction false} HashAt(notes: seq<Note>, i: nat)
    requires i < |notes|
    ensures Hashes(notes)[i] == HashOf(notes[i])
  {
  }

  /** The turn an entry of the log was written at. */
  lemma {:induction false} WrittenAt(cfg: Config, run: seq<Turn>, p: nat, k: nat, i: nat) returns (j: nat)
    requires 0 < cfg.capacity && IsRun(run) && k <= |run| && i < |NotesUpTo(cfg, run, k)|
    requires forall j :: 0 <= j < |run| ==> SmallAt(cfg, run, p, j)
    ensures j < k && Counts(cfg, run)[j] <= i < Counts(cfg, run)[j + 1]
    ensures Sees(cfg, run, j, Hashes(NotesUpTo(cfg, run, k))[i])
  {
    var counts, all := Counts(cfg, run), NotesUpTo(cfg, run, k);
    j := StepPast(counts, i, k);
    EntryAt(cfg, run, j, k, i);
    EntrySeen(cfg, run, p, j, all[i]);
    HashAt(all, i);
  }

  lemma {:induction false} EntrySeen(cfg: Config, run: seq<Turn>, p: nat, j: nat, n: Note)
    requires 0 < cfg.capacity && IsRun(run) && j < |run| && SmallAt(cfg, run, p, j) && n in NotesAt(cfg, run, j)
    ensures Sees(cfg, run, j, HashOf(n))
  {
    TurnNotes(cfg, run, j, p);
  }

  lemma {:induction false} CursorNear(cfg: Config, run: seq<Turn>, j: nat, k: nat, h: string)
    requires 0 < cfg.capacity && IsRun(run) && j < k < |run|
    requires BlockOk(cfg, run, j, k, h) && BlockOk(cfg, run, j, j, h)
    requires Sees(cfg, run, j, h) && Sees(cfg, run, k, h)
    ensures Cursors(cfg, run)[k] <= Cursors(cfg, run)[j + 1] + 2
  {
    CompletedMoves(cfg, run, j);
  }

  lemma {:induction false} RunMoves(cfg: Config, run: seq<Turn>, p: nat)
    requires 0 < cfg.capacity && IsRun(run) && forall k :: 0 <= k < |run| ==> SmallAt(cfg, run, p, k)
    ensures AllMove(Counts(cfg, run), Cursors(cfg, run), p)
  {
    forall k | 0 <= k && k + 1 < |Counts(cfg, run)| ensures Moves(Counts(cfg, run), Cursors(cfg, run), p, k) {
      assert SmallAt(cfg, run, p, k);
      TurnMoves(cfg, run, p, k);
    }
  }

  /** Between two turns that see one hash, notes are written at no more than two
      turns besides the first: the cursor is at most two blocks past the hash. */
  lemma {:induction false} SeenAgainSoon(cfg: Config, run: seq<Turn>, p: nat, j: nat, k: nat, h: string)
    requires 0 < cfg.capacity && IsRun(run) && Honest(cfg, run, p) && j <= k < |run|
    requires Sees(cfg, run, j, h) && Sees(cfg, run, k, h)
    ensures Counts(cfg, run)[k] <= Counts(cfg, run)[j] + 3 * p
  {
    if j < k {
      assert BlockOk(cfg, run, j, k, h) && BlockOk(cfg, run, j, j, h);
      var counts, cursors := Counts(cfg, run), Cursors(cfg, run);
      CursorNear(cfg, run, j, k, h);
      RunMoves(cfg, run, p);
      ThreeSteps(counts, cursors, p, j, k);
    }
  }

  // ---------------------------------------------------------------- at most once

  /** No hash is ever notified or dropped twice, when the set holds four fetches. */
  lemma {:induction false} NeverNotedTwice(cfg: Config, run: seq<Turn>, p: nat)
    requires 0 < cfg.capacity && IsRun(run) && Honest(cfg, run, p) && 4 * p <= cfg.capacity
    ensures NoDup(Hashes(NotesUpTo(cfg, run, |run|)))
  {
    var log := Hashes(NotesUpTo(cfg, run, |run|));
    RunDeduped(cfg, run, |run|);
    forall i, j | 0 <= i < j < |log| ensures log[i] != log[j] {
      if log[i] == log[j] {
        TooClose(cfg, run, p, i, j);
      }
    }
  }

  lemma {:induction false} TooClose(cfg: Config, run: seq<Turn>, p: nat, i: nat, j: nat)
    requires 0 < cfg.capacity && IsRun(run) && Honest(cfg, run, p)
    requires i < j < |NotesUpTo(cfg, run, |run|)|
    requires Hashes(NotesUpTo(cfg, run, |run|))[i] == Hashes(NotesUpTo(cfg, run, |run|))[j]
    ensures j - i < 4 * p
  {
    var h, counts, cursors := Hashes(NotesUpTo(cfg, run, |run|))[i], Counts(cfg, run), Cursors(cfg, run);
    var a := WrittenAt(cfg, run, p, |run|, i);
    var b := WrittenAt(cfg, run, p, |run|, j);
    if a <= b {
      SeenAgainSoon(cfg, run, p, a, b, h);
    }
    RunMoves(cfg, run, p);
    NearEntries(counts, cursors, p, a, b, i, j);
  }

  // ------------------------------------------------- the visiting order never shows

  /** What a tick pushes out of the set was fetched too long ago to be seen in it. */
  lemma {:induction false} PushedOutIsOld(cfg: Config, run: seq<Turn>, p: nat, k: nat)
    requires 0 < cfg.capacity && IsRun(run) && Honest(cfg, run, p) && 4 * p <= cfg.capacity
    requires k < |run| && Completed(cfg, run, k)
    ensures Undisturbed(cfg, At(cfg, run, k).view, run[k].look.now, run[k].look.seen.value)
  {
    var v, l := At(cfg, run, k).view, run[k].look;
    var left := Leaving(cfg.maxDeferral, v, l.now, l.seen.value, l.seen.value.Keys);
    SubsetCard(left, l.seen.value.Keys);
    assert SmallAt(cfg, run, p, k);
    assert |left| <= |l.seen.value.Keys| == |l.seen.value| <= p;
    forall i | 0 <= i < |v.order| && i < |v.order| + |left| - cfg.capacity ensures v.order[i] !in l.seen.value {
      if v.order[i] in l.seen.value {
        StillKept(cfg, run, p, k, i);
      }
    }
  }

  lemma {:induction false} StillKept(cfg: Config, run: seq<Turn>, p: nat, k: nat, i: nat)
    requires 0 < cfg.capacity && IsRun(run) && Honest(cfg, run, p) && k < |run|
    requires i < |At(cfg, run, k).view.order| && Sees(cfg, run, k, At(cfg, run, k).view.order[i])
    ensures |At(cfg, run, k).view.order| - i <= 3 * p
  {
    RunDeduped(cfg, run, k);
    var order, log := At(cfg, run, k).view.order, Hashes(NotesUpTo(cfg, run, k));
    var q := |log| - |order| + i;
    assert log[q] == order[i];
    var j := WrittenAt(cfg, run, p, k, q);
    SeenAgainSoon(cfg, run, p, j, k, order[i]);
  }

  /** At every tick that completes, all visiting orders do the same. */
  lemma {:induction false} OrderNeverShows(cfg: Config, run: seq<Turn>, p: nat, k: nat)
    requires 0 < cfg.capacity && IsRun(run) && Honest(cfg, run, p) && 4 * p <= cfg.capacity
    requires k < |run| && Completed(cfg, run, k)
    ensures OrderFree(cfg, At(cfg, run, k), run[k].look)
  {
    assert IsTurn(run[k]);
    ReachedIsSettled(cfg, run, k);
    PushedOutIsOld(cfg, run, p, k);
    OrderIrrelevant(cfg, At(cfg, run, k), run[k].look);
  }

  // --------------------------------------------------------------- in production

  /** What fetchTransfers asks for: two calls of one page each. */
  const FETCH_PAGE_SIZE: nat := 50

  lemma {:induction false} FewHashes(ts: seq<Transfer>)
    ensures |set t | t in ts :: t.hash| <= |ts|
  {
    if ts == [] {
      assert (set t | t in ts :: t.hash) == {};
    } else {
      var init, last := ts[..|ts| - 1], ts[|ts| - 1];
      assert ts == init + [last];
      FewHashes(init);
      assert (set t | t in ts :: t.hash) == (set t | t in init :: t.hash) + {last.hash};
    }
  }

  lemma {:induction false} DedupShrinks(ts: seq<Transfer>)
    ensures |Dedup(ts)| <= |ts|
  {
    if ts != [] {
      DedupShrinks(ts[..|ts| - 1]);
    }
  }

  lemma {:induction false} MaxOfEqual(xs: seq<nat>, b: nat)
    requires xs != [] && forall i :: 0 <= i < |xs| ==> xs[i] == b
    ensures MaxOf(xs) == b
  {
    if |xs| > 1 {
      MaxOfEqual(xs[..|xs| - 1], b);
    }
  }

  predicate OneBlock(ts: seq<Transfer>, us: seq<Transfer>) {
    forall t, u :: t in ts && u in us && t.hash == u.hash ==> t.blockNumber == u.blockNumber
  }

  /** What is seen of a hash carries the block of its transfers. */
  lemma {:induction false} SeenBlock(wallet: Address, p: Poll, h: string) returns (t: Transfer)
    requires p.fetched.Some? && h in Groups(p.fetched.value) && OneBlock(p.fetched.value, p.fetched.value)
    ensures t in p.fetched.value && t.hash == h
    ensures LookOf(wallet, p).seen.value[h].ev.blockNumber == t.blockNumber
  {
    var ts := p.fetched.value;
    var legs := Groups(ts)[h];
    GroupsPartition(ts);
    LegsOfElems(Dedup(ts), h);
    DedupKeepsOnePerId(ts);
    t := legs[0];
    assert t in legs;
    forall i | 0 <= i < |Blocks(legs)| ensures Blocks(legs)[i] == t.blockNumber {
      assert legs[i] in legs;
    }
    MaxOfEqual(Blocks(legs), t.blockNumber);
  }

  ghost predicate PollOk(run: seq<Turn>, polls: seq<Poll>, wallet: Address, k: nat)
    requires IsRun(run) && |polls| == |run| && k < |run|
  {
    && run[k].look == LookOf(wallet, polls[k])
    && (Completed(PRODUCTION, run, k) ==>
          && |polls[k].fetched.value| <= 2 * FETCH_PAGE_SIZE
          && forall t :: t in polls[k].fetched.value ==> Covers(PRODUCTION, run, k, t.blockNumber))
  }

  /** The run answers to these polls: a page holds at most what was asked for, every
      transfer lies in the queried window, and no transaction moves to another block. */
  ghost predicate Polled(run: seq<Turn>, polls: seq<Poll>, wallet: Address)
    requires IsRun(run) && |polls| == |run|
  {
    && (forall k :: 0 <= k < |run| ==> PollOk(run, polls, wallet, k))
    && forall j, k :: 0 <= j < |run| && 0 <= k < |run| && polls[j].fetched.Some? && polls[k].fetched.Some? ==>
         OneBlock(polls[j].fetched.value, polls[k].fetched.value)
  }

  lemma {:induction false} PolledSmall(run: seq<Turn>, polls: seq<Poll>, wallet: Address, k: nat)
    requires IsRun(run) && |polls| == |run| && k < |run| && PollOk(run, polls, wallet, k)
    ensures SmallAt(PRODUCTION, run, 2 * FETCH_PAGE_SIZE, k)
  {
    if Completed(PRODUCTION, run, k) {
      var ts := polls[k].fetched.value;
      DedupShrinks(ts);
      FewHashes(Dedup(ts));
      assert run[k].look.seen.value.Keys == Groups(ts).Keys == (set t | t in Dedup(ts) :: t.hash);
      assert |run[k].look.seen.value| == |run[k].look.seen.value.Keys|;
    }
  }

  lemma {:induction false} PolledBlock(run: seq<Turn>, polls: seq<Poll>, wallet: Address, j: nat, k: nat, h: string)
    requires IsRun(run) && |polls| == |run| && Polled(run, polls, wallet) && j < |run| && k < |run|
    ensures BlockOk(PRODUCTION, run, j, k, h)
  {
    if Sees(PRODUCTION, run, j, h) && Sees(PRODUCTION, run, k, h) {
      assert PollOk(run, polls, wallet, j) && PollOk(run, polls, wallet, k);
      var t := SeenBlock(wallet, polls[j], h);
      var u := SeenBlock(wallet, polls[k], h);
      assert OneBlock(polls[j].fetched.value, polls[k].fetched.value);
    }
  }

  /** With the dedup set of 512 and pages of 50, over any run: no transaction is
      notified or dropped twice, and no tick depends on the order of the map. */
  lemma {:induction false} ProductionNotifiesOnce(run: seq<Turn>, polls: seq<Poll>, wallet: Address)
    requires IsRun(run) && |polls| == |run| && Polled(run, polls, wallet)
    ensures NoDup(Hashes(NotesUpTo(PRODUCTION, run, |run|)))
    ensures forall k :: 0 <= k < |run| && Completed(PRODUCTION, run, k) ==>
      OrderFree(PRODUCTION, At(PRODUCTION, run, k), run[k].look)
  {
    var p := 2 * FETCH_PAGE_SIZE;
    forall k | 0 <= k < |run| ensures SmallAt(PRODUCTION, run, p, k) {
      assert PollOk(run, polls, wallet, k);
      PolledSmall(run, polls, wallet, k);
    }
    forall j, k, h | 0 <= j < |run| && 0 <= k < |run| ensures BlockOk(PRODUCTION, run, j, k, h) {
      PolledBlock(run, polls, wallet, j, k, h);
    }
    NeverNotedTwice(PRODUCTION, run, p);
    forall k | 0 <= k < |run| && Completed(PRODUCTION, run, k)
      ensures OrderFree(PRODUCTION, At(PRODUCTION, run, k), run[k].look)
    {
      OrderNeverShows(PRODUCTION, run, p, k);
    }
  }
}
