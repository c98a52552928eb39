/** The presentation merge of swap legs (internal/usecase/history/merge_swaps.go):
    two rows of one hash, one leaving the wallet and one entering it with another
    asset, become one synthetic swap row. */
module SwapMerge {
  import opened Text
  import opened PendingRegistry
  import opened HistoryTable

  // ------------------------------------------------------------- one group

  /** The roles tryMergeSwap gives the legs of a pair, in order. */
  datatype Legs = Legs(sent: Option<Tx>, recv: Option<Tx>)

  function Assign(legs: Legs, e: Tx, wallet: Address): Legs {
    if e.from == wallet && legs.sent.None? then Legs(Some(e), legs.recv)
    else if e.to == wallet && legs.recv.None? then Legs(legs.sent, Some(e))
    else legs
  }

  function SwapRow(sent: Tx, recv: Tx): Tx {
    recv.(isSwap := true, tokenInSym := sent.asset, tokenInVal := sent.value,
          tokenOutSym := recv.asset, tokenOutVal := recv.value,
          timestamp := if sent.timestamp < recv.timestamp then sent.timestamp else recv.timestamp)
  }

  /** tryMergeSwap. */
  function TryMerge(entries: seq<Tx>, wallet: Address): Option<Tx> {
    if |entries| != 2 then None
    else
      var legs := Assign(Assign(Legs(None, None), entries[0], wallet), entries[1], wallet);
      if legs.sent.None? || legs.recv.None? || EqualFold(legs.sent.value.asset, legs.recv.value.asset) then None
      else Some(SwapRow(legs.sent.value, legs.recv.value))
  }

  method TryMergeSwap(entries: seq<Tx>, wallet: Address) returns (swap: Option<Tx>)
    ensures swap == TryMerge(entries, wallet)
  {
    if |entries| != 2 {
      return None;
    }
    var sent: Option<Tx>, recv: Option<Tx> := None, None;
    var i := 0;
    while i < |entries|
      invariant 0 <= i <= 2
      invariant i == 0 ==> sent == None && recv == None
      invariant i == 1 ==> Legs(sent, recv) == Assign(Legs(None, None), entries[0], wallet)
      invariant i == 2 ==> Legs(sent, recv) == Assign(Assign(Legs(None, None), entries[0], wallet), entries[1], wallet)
    {
      var e := entries[i];
      if e.from == wallet && sent == None {
        sent := Some(e);
      } else if e.to == wallet && recv == None {
        recv := Some(e);
      }
      i := i + 1;
    }
    if sent == None || recv == None {
      return None;
    }
    if EqualFold(sent.value.asset, recv.value.asset) {
      return None;
    }
    var row := recv.value.(isSwap := true, tokenInSym := sent.value.asset, tokenInVal := sent.value.value,
                           tokenOutSym := recv.value.asset, tokenOutVal := recv.value.value);
    if sent.value.timestamp < recv.value.timestamp {
      row := row.(timestamp := sent.value.timestamp);
    }
    return Some(row);
  }

  /** Some row leaves the wallet and the other enters it, with another asset; when the
      first leaves, the second must enter, whatever else the first does. */
  predicate SwapPair(a: Tx, b: Tx, wallet: Address) {
    && !EqualFold(a.asset, b.asset)
    && ((a.from == wallet && b.to == wallet) || (a.from != wallet && a.to == wallet && b.from == wallet))
  }

  /** Exactly which groups merge. */
  lemma {:induction false} MergesExactlyWhen(entries: seq<Tx>, wallet: Address)
    ensures TryMerge(entries, wallet).Some? <==> |entries| == 2 && SwapPair(entries[0], entries[1], wallet)
  {
  }

  predicate OwnTransfer(e: Tx, wallet: Address) { e.from == wallet && e.to == wallet }

  predicate Outbound(e: Tx, wallet: Address) { e.from == wallet && e.to != wallet }

  /** Swapping the two legs changes the decision exactly when one is a transfer from
      the wallet to itself, the other leaves the wallet, and the assets differ. */
  lemma {:induction false} MergeIgnoresLegOrder(a: Tx, b: Tx, wallet: Address)
    ensures (TryMerge([a, b], wallet).Some? <==> TryMerge([b, a], wallet).Some?) <==>
      !(!EqualFold(a.asset, b.asset) &&
        ((OwnTransfer(a, wallet) && Outbound(b, wallet)) || (Outbound(a, wallet) && OwnTransfer(b, wallet))))
    ensures !OwnTransfer(a, wallet) && !OwnTransfer(b, wallet) ==> TryMerge([a, b], wallet) == TryMerge([b, a], wallet)
  {
  }

  /** `row` is the swap of `sent` for `recv`: it carries the asset and the value of
      both, and is `recv` in every other respect but its time. */
  predicate IsSwapOf(row: Tx, sent: Tx, recv: Tx, wallet: Address) {
    && sent.from == wallet && recv.to == wallet && !EqualFold(sent.asset, recv.asset)
    && row.isSwap
    && row.tokenInSym == sent.asset && row.tokenInVal == sent.value
    && row.tokenOutSym == recv.asset && row.tokenOutVal == recv.value
    && row.(isSwap := recv.isSwap, tokenInSym := recv.tokenInSym, tokenInVal := recv.tokenInVal,
            tokenOutSym := recv.tokenOutSym, tokenOutVal := recv.tokenOutVal, timestamp := recv.timestamp) == recv
  }

  /** Row `row` shows exactly the input rows `parts`: one raw row, or the two legs of
      a swap. */
  predicate Carries(row: Tx, parts: seq<Tx>, wallet: Address) {
    || parts == [row]
    || (|parts| == 2 && (IsSwapOf(row, parts[0], parts[1], wallet) || IsSwapOf(row, parts[1], parts[0], wallet)))
  }

  /** A pair merges only into a row that carries both legs: what left the wallet as
      the token given, what entered it as the token received, at the earlier time. */
  lemma {:induction false} MergedCarriesBoth(a: Tx, b: Tx, wallet: Address)
    requires TryMerge([a, b], wallet).Some?
    ensures
      var row := TryMerge([a, b], wallet).value;
      && Carries(row, [a, b], wallet)
      && row.timestamp == (if a.timestamp < b.timestamp then a.timestamp else b.timestamp)
  {
  }

  // ------------------------------------------------------------- all groups

  /** The hashes of the rows, first seen first. */
  function Hashes(txs: seq<Tx>): seq<string> {
    if txs == [] then []
    else
      var init, h := Hashes(txs[..|txs| - 1]), txs[|txs| - 1].hash;
      if h in init then init else init + [h]
  }

  const ROW_HASH: Tx -> string := (t: Tx) => t.hash

  function LegsOf(txs: seq<Tx>, h: string): seq<Tx> {
    Picked(txs, ROW_HASH, h)
  }

  /** What is shown for one group. */
  function Shown(entries: seq<Tx>, wallet: Address): seq<Tx> {
    var swap := TryMerge(entries, wallet);
    if swap.Some? then [swap.value] else entries
  }

  function ShownFor(txs: seq<Tx>, hs: seq<string>, wallet: Address): seq<Tx> {
    if hs == [] then []
    else ShownFor(txs, hs[..|hs| - 1], wallet) + Shown(LegsOf(txs, hs[|hs| - 1]), wallet)
  }

  /** mergeSwapLegs. */
  function Merge(txs: seq<Tx>, wallet: Address): seq<Tx> {
    ShownFor(txs, Hashes(txs), wallet)
  }

  method MergeSwapLegs(txs: seq<Tx>, wallet: Address) returns (out: seq<Tx>)
    ensures out == Merge(txs, wallet)
  {
    if |txs| == 0 {
      return txs;
    }
    var groups := GroupRows(txs);
    out := [];
    var i := 0;
    while i < |groups|
      invariant 0 <= i <= |groups|
      invariant out == ShownFor(txs, Hashes(txs)[..i], wallet)
    {
      assert Hashes(txs)[..i + 1][..i] == Hashes(txs)[..i];
      var merged := TryMergeSwap(groups[i].1, wallet);
      if merged.Some? {
        out := out + [merged.value];
      } else {
        out := out + groups[i].1;
      }
      i := i + 1;
    }
    assert Hashes(txs)[..|groups|] == Hashes(txs);
  }

  /** mergeSwapLegs' first loop: rows by hash, in first-seen order. */
  method GroupRows(txs: seq<Tx>) returns (groups: seq<(string, seq<Tx>)>)
    ensures |groups| == |Hashes(txs)|
    ensures forall k :: 0 <= k < |groups| ==> groups[k].0 == Hashes(txs)[k] && groups[k].1 == LegsOf(txs, groups[k].0)
  {
    var groupIdx: map<string, nat> := map[];
    groups := [];
    var i := 0;
    while i < |txs|
      invariant 0 <= i <= |txs|
      invariant Grouped(txs[..i], groupIdx, groups)
    {
      var t := txs[i];
      assert txs[..i + 1] == txs[..i] + [t];
      if t.hash !in groupIdx {
        GroupNew(txs[..i], t, groupIdx, groups);
        groupIdx := groupIdx[t.hash := |groups|];
        groups := groups + [(t.hash, [t])];
      } else {
        GroupExtend(txs[..i], t, groupIdx, groups);
        var idx := groupIdx[t.hash];
        groups := groups[idx := (t.hash, groups[idx].1 + [t])];
      }
      i := i + 1;
    }
    assert txs[..|txs|] == txs;
  }

  /** The loop variables of mergeSwapLegs after the rows `txs`. */
  ghost predicate Grouped(txs: seq<Tx>, groupIdx: map<string, nat>, groups: seq<(string, seq<Tx>)>) {
    && |groups| == |Hashes(txs)|
    && (forall k :: 0 <= k < |groups| ==> groups[k].0 == Hashes(txs)[k] && groups[k].1 == LegsOf(txs, groups[k].0))
    && (forall h :: h in groupIdx ==> groupIdx[h] < |groups| && groups[groupIdx[h]].0 == h)
    && (forall h :: h in Hashes(txs) ==> h in groupIdx)
  }

  lemma {:induction false} OneMoreRow(txs: seq<Tx>, t: Tx, h: string)
    ensures Hashes(txs + [t]) == if t.hash in Hashes(txs) then Hashes(txs) else Hashes(txs) + [t.hash]
    ensures LegsOf(txs + [t], h) == if t.hash == h then LegsOf(txs, h) + [t] else LegsOf(txs, h)
  {
    assert (txs + [t])[..|txs|] == txs;
  }

  lemma {:induction false} GroupNewAt(txs: seq<Tx>, t: Tx, groups: seq<(string, seq<Tx>)>, k: nat)
    requires |groups| == |Hashes(txs)| && t.hash !in Hashes(txs) && k <= |groups|
    requires k < |groups| ==> groups[k].0 == Hashes(txs)[k] && groups[k].1 == LegsOf(txs, groups[k].0)
    ensures |Hashes(txs + [t])| == |groups| + 1
    ensures
      var g := (groups + [(t.hash, [t])])[k];
      g.0 == Hashes(txs + [t])[k] && g.1 == LegsOf(txs + [t], g.0)
  {
    if k < |groups| {
      OneMoreRow(txs, t, groups[k].0);
      assert Hashes(txs)[k] in Hashes(txs);
    } else {
      OneMoreRow(txs, t, t.hash);
      HashesElems(txs);
      LegsNone(txs, t.hash);
    }
  }

  lemma {:induction false} GroupNew(txs: seq<Tx>, t: Tx, groupIdx: map<string, nat>, groups: seq<(string, seq<Tx>)>)
    requires Grouped(txs, groupIdx, groups) && t.hash !in groupIdx
    ensures Grouped(txs + [t], groupIdx[t.hash := |groups|], groups + [(t.hash, [t])])
  {
    var after := groups + [(t.hash, [t])];
    OneMoreRow(txs, t, t.hash);
    forall k | 0 <= k < |after|
      ensures after[k].0 == Hashes(txs + [t])[k] && after[k].1 == LegsOf(txs + [t], after[k].0)
    {
      GroupNewAt(txs, t, groups, k);
    }
  }

  lemma {:induction false} GroupExtend(txs: seq<Tx>, t: Tx, groupIdx: map<string, nat>, groups: seq<(string, seq<Tx>)>)
    requires Grouped(txs, groupIdx, groups) && t.hash in groupIdx
    ensures groupIdx[t.hash] < |groups|
    ensures Grouped(txs + [t], groupIdx, groups[groupIdx[t.hash] := (t.hash, groups[groupIdx[t.hash]].1 + [t])])
  {
    var idx := groupIdx[t.hash];
    var hs, after := Hashes(txs), groups[idx := (t.hash, groups[idx].1 + [t])];
    assert hs[idx] == t.hash && t.hash in hs;
    HashesDistinct(txs);
    OneMoreRow(txs, t, t.hash);
    forall k | 0 <= k < |after|
      ensures after[k].0 == Hashes(txs + [t])[k] && after[k].1 == LegsOf(txs + [t], after[k].0)
    {
      OneMoreRow(txs, t, after[k].0);
      assert k != idx ==> hs[k] != hs[idx];
    }
  }

  lemma {:induction false} HashesDistinct(txs: seq<Tx>)
    ensures NoDup(Hashes(txs))
  {
    if txs != [] {
      HashesDistinct(txs[..|txs| - 1]);
    }
  }

  lemma {:induction false} HashesElems(txs: seq<Tx>)
    ensures forall h :: h in Hashes(txs) <==> exists i :: 0 <= i < |txs| && txs[i].hash == h
  {
    if txs != [] {
      var init := txs[..|txs| - 1];
      HashesElems(init);
      forall h ensures h in Hashes(txs) <==> exists i :: 0 <= i < |txs| && txs[i].hash == h {
        if h in Hashes(init) {
          var i :| 0 <= i < |init| && init[i].hash == h;
          assert txs[i].hash == h;
        }
        if i :| 0 <= i < |txs| && txs[i].hash == h {
          if i < |init| {
            assert init[i].hash == h;
          }
        }
      }
    }
  }

  lemma {:induction false} LegsElems(txs: seq<Tx>, h: string)
    ensures forall t :: t in LegsOf(txs, h) <==> t in txs && t.hash == h
  {
    PickedElems(txs, ROW_HASH, h);
  }

  lemma {:induction false} LegsNone(txs: seq<Tx>, h: string)
    requires forall i :: 0 <= i < |txs| ==> txs[i].hash != h
    ensures LegsOf(txs, h) == []
  {
    PickedNone(txs, ROW_HASH, h);
  }

  lemma {:induction false} LegsAll(txs: seq<Tx>, h: string)
    requires forall i :: 0 <= i < |txs| ==> txs[i].hash == h
    ensures LegsOf(txs, h) == txs
  {
    if txs != [] {
      LegsAll(txs[..|txs| - 1], h);
    }
  }

  // ---------------------------------------------------- merging piece by piece

  lemma {:induction false} LegsAdd(a: seq<Tx>, b: seq<Tx>, h: string)
    ensures LegsOf(a + b, h) == LegsOf(a, h) + LegsOf(b, h)
  {
    PickedInOrder(a, b, ROW_HASH, h);
  }

  ghost predicate NoSharedHash(a: seq<Tx>, b: seq<Tx>) {
    forall i, j :: 0 <= i < |a| && 0 <= j < |b| ==> a[i].hash != b[j].hash
  }

  lemma {:induction false} HashesAdd(a: seq<Tx>, b: seq<Tx>)
    requires NoSharedHash(a, b)
    ensures Hashes(a + b) == Hashes(a) + Hashes(b)
  {
    if b == [] {
      assert a + b == a;
    } else {
      var init, t := b[..|b| - 1], b[|b| - 1];
      assert (a + b)[..|a + b| - 1] == a + init;
      HashesAdd(a, init);
      HashesElems(a);
    }
  }

  lemma {:induction false} ShownForAdd(txs: seq<Tx>, hs: seq<string>, gs: seq<string>, wallet: Address)
    ensures ShownFor(txs, hs + gs, wallet) == ShownFor(txs, hs, wallet) + ShownFor(txs, gs, wallet)
  {
    if gs == [] {
      assert hs + gs == hs;
    } else {
      var init, g := gs[..|gs| - 1], gs[|gs| - 1];
      assert hs + gs == (hs + init) + [g];
      assert gs == init + [g];
      ShownForOne(txs, hs + init, g, wallet);
      ShownForOne(txs, init, g, wallet);
      ShownForAdd(txs, hs, init, wallet);
      ConcatAssoc(ShownFor(txs, hs, wallet), ShownFor(txs, init, wallet), Shown(LegsOf(txs, g), wallet));
    }
  }

  lemma {:induction false} ShownForOne(txs: seq<Tx>, hs: seq<string>, g: string, wallet: Address)
    ensures ShownFor(txs, hs + [g], wallet) == ShownFor(txs, hs, wallet) + Shown(LegsOf(txs, g), wallet)
  {
    assert (hs + [g])[..|hs|] == hs;
  }

  lemma {:induction false} ShownForSame(txs: seq<Tx>, others: seq<Tx>, hs: seq<string>, wallet: Address)
    requires forall k :: 0 <= k < |hs| ==> Shown(LegsOf(txs, hs[k]), wallet) == Shown(LegsOf(others, hs[k]), wallet)
    ensures ShownFor(txs, hs, wallet) == ShownFor(others, hs, wallet)
  {
    if hs != [] {
      ShownForSame(txs, others, hs[..|hs| - 1], wallet);
    }
  }

  /** Lists without a common hash merge independently. */
  lemma {:induction false} MergeAdd(a: seq<Tx>, b: seq<Tx>, wallet: Address)
    requires NoSharedHash(a, b)
    ensures Merge(a + b, wallet) == Merge(a, wallet) + Merge(b, wallet)
  {
    HashesAdd(a, b);
    ShownForAdd(a + b, Hashes(a), Hashes(b), wallet);
    HashesElems(a);
    HashesElems(b);
    forall k | 0 <= k < |Hashes(a)| ensures LegsOf(a + b, Hashes(a)[k]) == LegsOf(a, Hashes(a)[k]) {
      LegsAdd(a, b, Hashes(a)[k]);
      assert Hashes(a)[k] in Hashes(a);
      LegsNone(b, Hashes(a)[k]);
    }
    forall k | 0 <= k < |Hashes(b)| ensures LegsOf(a + b, Hashes(b)[k]) == LegsOf(b, Hashes(b)[k]) {
      LegsAdd(a, b, Hashes(b)[k]);
      assert Hashes(b)[k] in Hashes(b);
      LegsNone(a, Hashes(b)[k]);
    }
    ShownForSame(a + b, a, Hashes(a), wallet);
    ShownForSame(a + b, b, Hashes(b), wallet);
  }

  lemma {:induction false} ShownHash(entries: seq<Tx>, h: string, wallet: Address)
    requires forall i :: 0 <= i < |entries| ==> entries[i].hash == h
    ensures forall i :: 0 <= i < |Shown(entries, wallet)| ==> Shown(entries, wallet)[i].hash == h
    ensures Shown(entries, wallet) == [] <==> entries == []
  {
  }

  lemma {:induction false} LegsHash(txs: seq<Tx>, h: string)
    ensures forall i :: 0 <= i < |LegsOf(txs, h)| ==> LegsOf(txs, h)[i].hash == h
  {
    LegsElems(txs, h);
    assert forall i :: 0 <= i < |LegsOf(txs, h)| ==> LegsOf(txs, h)[i] in LegsOf(txs, h);
  }

  lemma {:induction false} ShownForLegs(txs: seq<Tx>, hs: seq<string>, h: string, wallet: Address)
    requires NoDup(hs)
    ensures LegsOf(ShownFor(txs, hs, wallet), h) == if h in hs then Shown(LegsOf(txs, h), wallet) else []
  {
    if hs != [] {
      var init, g := hs[..|hs| - 1], hs[|hs| - 1];
      assert hs == init + [g];
      ShownForLegs(txs, init, h, wallet);
      var shown := Shown(LegsOf(txs, g), wallet);
      LegsAdd(ShownFor(txs, init, wallet), shown, h);
      LegsHash(txs, g);
      ShownHash(LegsOf(txs, g), g, wallet);
      if g == h {
        LegsAll(shown, h);
      } else {
        LegsNone(shown, h);
      }
    }
  }

  /** What the merged list shows of a hash is what its own legs show alone. */
  lemma {:induction false} MergeShowsGroup(txs: seq<Tx>, h: string, wallet: Address)
    ensures LegsOf(Merge(txs, wallet), h) == Shown(LegsOf(txs, h), wallet)
  {
    HashesDistinct(txs);
    HashesElems(txs);
    ShownForLegs(txs, Hashes(txs), h, wallet);
    if h !in Hashes(txs) {
      LegsNone(txs, h);
    }
  }

  /** A hash with two rows that make a swap is shown as that one swap; any other hash
      is shown as it is. */
  lemma {:induction false} MergeShowsSwap(txs: seq<Tx>, h: string, wallet: Address)
    ensures
      var legs, shown := LegsOf(txs, h), LegsOf(Merge(txs, wallet), h);
      if |legs| == 2 && SwapPair(legs[0], legs[1], wallet) then
        |shown| == 1 &&
        (if legs[0].from == wallet then IsSwapOf(shown[0], legs[0], legs[1], wallet)
         else IsSwapOf(shown[0], legs[1], legs[0], wallet)) &&
        shown[0].timestamp == (if legs[0].timestamp < legs[1].timestamp then legs[0].timestamp else legs[1].timestamp)
      else shown == legs
  {
    MergeShowsGroup(txs, h, wallet);
    MergesExactlyWhen(LegsOf(txs, h), wallet);
  }

  /** A hash whose legs all lie in one part of a list is shown the same by the merge of
      that part and by the merge of the whole. */
  lemma {:induction false} MergeOfPart(before: seq<Tx>, part: seq<Tx>, after: seq<Tx>, h: string, wallet: Address)
    requires forall i :: 0 <= i < |before| ==> before[i].hash != h
    requires forall i :: 0 <= i < |after| ==> after[i].hash != h
    ensures LegsOf(Merge(part, wallet), h) == LegsOf(Merge(before + part + after, wallet), h)
  {
    MergeShowsGroup(part, h, wallet);
    MergeShowsGroup(before + part + after, h, wallet);
    LegsAdd(before + part, after, h);
    LegsAdd(before, part, h);
    LegsNone(before, h);
    LegsNone(after, h);
  }

  // ------------------------------------------------------------ merging twice

  lemma {:induction false} HashesOfGroup(group: seq<Tx>, h: string)
    requires group != [] && forall i :: 0 <= i < |group| ==> group[i].hash == h
    ensures Hashes(group) == [h]
  {
    if |group| > 1 {
      HashesOfGroup(group[..|group| - 1], h);
    } else {
      assert group[..0] == [];
    }
  }

  lemma {:induction false} HashesShownStep(before: seq<Tx>, shown: seq<Tx>, init: seq<string>, g: string)
    requires Hashes(before) == init && g !in init && shown != []
    requires forall i :: 0 <= i < |shown| ==> shown[i].hash == g
    ensures Hashes(before + shown) == init + [g]
  {
    HashesElems(before);
    forall i, j | 0 <= i < |before| && 0 <= j < |shown| ensures before[i].hash != shown[j].hash {
      assert before[i].hash in init;
    }
    HashesAdd(before, shown);
    HashesOfGroup(shown, g);
  }

  lemma {:induction false} HashesShown(txs: seq<Tx>, hs: seq<string>, wallet: Address)
    requires NoDup(hs) && forall k :: 0 <= k < |hs| ==> LegsOf(txs, hs[k]) != []
    ensures Hashes(ShownFor(txs, hs, wallet)) == hs
  {
    if hs != [] {
      var init, g := hs[..|hs| - 1], hs[|hs| - 1];
      assert hs == init + [g];
      HashesShown(txs, init, wallet);
      LegsHash(txs, g);
      ShownHash(LegsOf(txs, g), g, wallet);
      HashesShownStep(ShownFor(txs, init, wallet), Shown(LegsOf(txs, g), wallet), init, g);
    }
  }

  lemma {:induction false} LegsOfHashes(txs: seq<Tx>)
    ensures forall k :: 0 <= k < |Hashes(txs)| ==> LegsOf(txs, Hashes(txs)[k]) != []
  {
    HashesElems(txs);
    forall k | 0 <= k < |Hashes(txs)| ensures LegsOf(txs, Hashes(txs)[k]) != [] {
      var h := Hashes(txs)[k];
      assert h in Hashes(txs);
      var i :| 0 <= i < |txs| && txs[i].hash == h;
      LegsElems(txs, h);
      assert txs[i] in LegsOf(txs, h);
    }
  }

  /** Merging a merged list changes nothing. */
  lemma {:induction false} MergeIdempotent(txs: seq<Tx>, wallet: Address)
    ensures Merge(Merge(txs, wallet), wallet) == Merge(txs, wallet)
  {
    HashesDistinct(txs);
    LegsOfHashes(txs);
    HashesShown(txs, Hashes(txs), wallet);
    forall k | 0 <= k < |Hashes(txs)|
      ensures Shown(LegsOf(Merge(txs, wallet), Hashes(txs)[k]), wallet) == Shown(LegsOf(txs, Hashes(txs)[k]), wallet)
    {
      MergeShowsGroup(txs, Hashes(txs)[k], wallet);
    }
    ShownForSame(Merge(txs, wallet), txs, Hashes(txs), wallet);
  }

  // ------------------------------------------------------------- conservation

  /** The input rows behind each row shown, in the order shown. */
  function Parts(entries: seq<Tx>, wallet: Address): seq<seq<Tx>> {
    if TryMerge(entries, wallet).Some? then [entries]
    else seq(|entries|, i requires 0 <= i < |entries| => [entries[i]])
  }

  function PartsFor(txs: seq<Tx>, hs: seq<string>, wallet: Address): seq<seq<Tx>> {
    if hs == [] then []
    else PartsFor(txs, hs[..|hs| - 1], wallet) + Parts(LegsOf(txs, hs[|hs| - 1]), wallet)
  }

  function Joined(parts: seq<seq<Tx>>): seq<Tx> {
    if parts == [] then [] else Joined(parts[..|parts| - 1]) + parts[|parts| - 1]
  }

  lemma {:induction false} JoinedAdd(a: seq<seq<Tx>>, b: seq<seq<Tx>>)
    ensures Joined(a + b) == Joined(a) + Joined(b)
  {
    if b == [] {
      assert a + b == a;
    } else {
      assert (a + b)[..|a + b| - 1] == a + b[..|b| - 1];
      JoinedAdd(a, b[..|b| - 1]);
    }
  }

  lemma {:induction false} JoinedSingles(entries: seq<Tx>)
    ensures Joined(seq(|entries|, i requires 0 <= i < |entries| => [entries[i]])) == entries
  {
    if entries != [] {
      var init := entries[..|entries| - 1];
      var parts := seq(|entries|, i requires 0 <= i < |entries| => [entries[i]]);
      assert parts[..|entries| - 1] == seq(|init|, i requires 0 <= i < |init| => [init[i]]);
      JoinedSingles(init);
    }
  }

  lemma {:induction false} PartsJoin(entries: seq<Tx>, wallet: Address)
    ensures Joined(Parts(entries, wallet)) == entries
    ensures |Parts(entries, wallet)| == |Shown(entries, wallet)|
    ensures forall i :: 0 <= i < |Parts(entries, wallet)| ==>
      Carries(Shown(entries, wallet)[i], Parts(entries, wallet)[i], wallet)
  {
    if TryMerge(entries, wallet).Some? {
      assert [entries][..0] == [] && Joined([entries]) == [] + entries;
      assert entries == [entries[0], entries[1]];
      MergedCarriesBoth(entries[0], entries[1], wallet);
    } else {
      JoinedSingles(entries);
    }
  }

  lemma {:induction false} LegsCount(txs: seq<Tx>, h: string, t: Tx)
    ensures multiset(LegsOf(txs, h))[t] == if t.hash == h then multiset(txs)[t] else 0
  {
    PickedCount(txs, ROW_HASH, h, t);
  }

  lemma {:induction false} PartsForCarry(txs: seq<Tx>, hs: seq<string>, wallet: Address)
    ensures |PartsFor(txs, hs, wallet)| == |ShownFor(txs, hs, wallet)|
    ensures forall i :: 0 <= i < |PartsFor(txs, hs, wallet)| ==>
      Carries(ShownFor(txs, hs, wallet)[i], PartsFor(txs, hs, wallet)[i], wallet)
  {
    if hs != [] {
      PartsForCarry(txs, hs[..|hs| - 1], wallet);
      PartsJoin(LegsOf(txs, hs[|hs| - 1]), wallet);
    }
  }

  lemma {:induction false} PartsForJoin(txs: seq<Tx>, hs: seq<string>, wallet: Address, t: Tx)
    requires NoDup(hs)
    ensures multiset(Joined(PartsFor(txs, hs, wallet)))[t] == if t.hash in hs then multiset(txs)[t] else 0
  {
    if hs != [] {
      var init, g := hs[..|hs| - 1], hs[|hs| - 1];
      assert hs == init + [g];
      PartsForJoin(txs, init, wallet, t);
      var before, parts := PartsFor(txs, init, wallet), Parts(LegsOf(txs, g), wallet);
      PartsJoin(LegsOf(txs, g), wallet);
      JoinedAdd(before, parts);
      assert Joined(PartsFor(txs, hs, wallet)) == Joined(before) + LegsOf(txs, g);
      LegsCount(txs, g, t);
    }
  }

  /** Conservation: there is a list of parts, one per row shown, that together are
      exactly the input rows, such that each row shown carries its part. */
  lemma {:induction false} MergeConserves(txs: seq<Tx>, wallet: Address) returns (parts: seq<seq<Tx>>)
    ensures |parts| == |Merge(txs, wallet)| && multiset(Joined(parts)) == multiset(txs)
    ensures forall i :: 0 <= i < |parts| ==> Carries(Merge(txs, wallet)[i], parts[i], wallet)
  {
    HashesDistinct(txs);
    HashesElems(txs);
    parts := PartsFor(txs, Hashes(txs), wallet);
    PartsForCarry(txs, Hashes(txs), wallet);
    forall t: Tx ensures multiset(Joined(parts))[t] == multiset(txs)[t] {
      PartsForJoin(txs, Hashes(txs), wallet, t);
      if t in multiset(txs) {
        assert t in txs;
        var i :| 0 <= i < |txs| && txs[i] == t;
        assert t.hash in Hashes(txs);
      }
    }
  }

  // ------------------------------------------------------------------ counting

  lemma {:induction false} JoinedLength(parts: seq<seq<Tx>>)
    requires forall i :: 0 <= i < |parts| ==> parts[i] != []
    ensures |Joined(parts)| >= |parts|
  {
    if parts != [] {
      JoinedLength(parts[..|parts| - 1]);
    }
  }

  lemma {:induction false} ShownAtLeast(txs: seq<Tx>, hs: seq<string>, wallet: Address)
    requires forall k :: 0 <= k < |hs| ==> LegsOf(txs, hs[k]) != []
    ensures |ShownFor(txs, hs, wallet)| >= |hs|
    ensures |ShownFor(txs, hs, wallet)| == |hs| <==>
      forall k :: 0 <= k < |hs| ==> |Shown(LegsOf(txs, hs[k]), wallet)| == 1
  {
    if hs != [] {
      ShownAtLeast(txs, hs[..|hs| - 1], wallet);
      assert forall k :: 0 <= k < |hs| - 1 ==> hs[..|hs| - 1][k] == hs[k];
    }
  }

  /** A hash shows as one row when it has one leg or its pair merges. */
  predicate OneRow(entries: seq<Tx>, wallet: Address) {
    |entries| == 1 || TryMerge(entries, wallet).Some?
  }

  /** The list shown has at least a row per hash and at most a row per leg; it has
      exactly a row per hash, as the total displayed beside it assumes, if and only
      if every hash has one leg or a pair that merges. */
  lemma {:induction false} MergeCounts(txs: seq<Tx>, wallet: Address)
    ensures |Hashes(txs)| <= |Merge(txs, wallet)| <= |txs|
    ensures |Merge(txs, wallet)| == |Hashes(txs)| <==>
      forall k :: 0 <= k < |Hashes(txs)| ==> OneRow(LegsOf(txs, Hashes(txs)[k]), wallet)
  {
    LegsOfHashes(txs);
    ShownAtLeast(txs, Hashes(txs), wallet);
    var parts := MergeConserves(txs, wallet);
    JoinedLength(parts);
    assert |Joined(parts)| == |multiset(Joined(parts))| && |txs| == |multiset(txs)|;
    forall k | 0 <= k < |Hashes(txs)|
      ensures |Shown(LegsOf(txs, Hashes(txs)[k]), wallet)| == 1 <==> OneRow(LegsOf(txs, Hashes(txs)[k]), wallet)
    {
    }
  }

  // ------------------------------------------------------------------ ordering

  ghost predicate NewestFirst(txs: seq<Tx>) {
    forall i, j :: 0 <= i < j < |txs| ==> txs[i].timestamp >= txs[j].timestamp
  }

  ghost predicate NotBefore(a: seq<Tx>, b: seq<Tx>) {
    forall i, j :: 0 <= i < |a| && 0 <= j < |b| ==> a[i].timestamp >= b[j].timestamp
  }

  lemma {:induction false} NewestFirstAdd(a: seq<Tx>, b: seq<Tx>)
    ensures NewestFirst(a + b) <==> NewestFirst(a) && NewestFirst(b) && NotBefore(a, b)
  {
    if NewestFirst(a + b) {
      forall i, j | 0 <= i < |a| && 0 <= j < |b| ensures a[i].timestamp >= b[j].timestamp {
        assert (a + b)[i] == a[i] && (a + b)[|a| + j] == b[j];
      }
      assert forall i :: 0 <= i < |a| ==> (a + b)[i] == a[i];
      forall i, j | 0 <= i < j < |b| ensures b[i].timestamp >= b[j].timestamp {
        assert (a + b)[|a| + i] == b[i] && (a + b)[|a| + j] == b[j];
      }
    }
  }

  lemma {:induction false} LegsNewestFirst(txs: seq<Tx>, h: string)
    requires NewestFirst(txs)
    ensures NewestFirst(LegsOf(txs, h))
  {
    if txs != [] {
      var init, t := txs[..|txs| - 1], txs[|txs| - 1];
      LegsNewestFirst(init, h);
      LegsElems(init, h);
      forall i | 0 <= i < |LegsOf(init, h)| ensures LegsOf(init, h)[i].timestamp >= t.timestamp {
        assert LegsOf(init, h)[i] in init;
      }
    }
  }

  /** No hash of `hs` is shown with a time later than one listed before it. */
  ghost predicate InTurn(txs: seq<Tx>, hs: seq<string>, wallet: Address) {
    forall a, b :: 0 <= a < b < |hs| ==>
      NotBefore(Shown(LegsOf(txs, hs[a]), wallet), Shown(LegsOf(txs, hs[b]), wallet))
  }

  lemma {:induction false} InTurnOneMore(txs: seq<Tx>, init: seq<string>, g: string, wallet: Address)
    ensures InTurn(txs, init + [g], wallet) <==>
      && InTurn(txs, init, wallet)
      && forall k :: 0 <= k < |init| ==> NotBefore(Shown(LegsOf(txs, init[k]), wallet), Shown(LegsOf(txs, g), wallet))
  {
    var hs := init + [g];
    assert hs[|init|] == g && forall a :: 0 <= a < |init| ==> hs[a] == init[a];
  }

  lemma {:induction false} ShownForOrdered(txs: seq<Tx>, hs: seq<string>, wallet: Address)
    requires NewestFirst(txs)
    ensures NewestFirst(ShownFor(txs, hs, wallet)) <==> InTurn(txs, hs, wallet)
  {
    if hs != [] {
      var init, g := hs[..|hs| - 1], hs[|hs| - 1];
      var before, shown := ShownFor(txs, init, wallet), Shown(LegsOf(txs, g), wallet);
      calc {
        NewestFirst(ShownFor(txs, hs, wallet));
        NewestFirst(before + shown);
      <==> { NewestFirstAdd(before, shown); }
        NewestFirst(before) && NewestFirst(shown) && NotBefore(before, shown);
      <==> { ShownNewestFirst(txs, g, wallet); }
        NewestFirst(before) && NotBefore(before, shown);
      <==> { ShownForOrdered(txs, init, wallet); }
        InTurn(txs, init, wallet) && NotBefore(before, shown);
      <==> { NotBeforeEach(txs, init, shown, wallet); InTurnOneMore(txs, init, g, wallet); }
        InTurn(txs, init + [g], wallet);
      <==> { assert hs == init + [g]; }
        InTurn(txs, hs, wallet);
      }
    }
  }

  lemma {:induction false} ShownNewestFirst(txs: seq<Tx>, g: string, wallet: Address)
    requires NewestFirst(txs)
    ensures NewestFirst(Shown(LegsOf(txs, g), wallet))
  {
    LegsNewestFirst(txs, g);
  }

  lemma {:induction false} NotBeforeEach(txs: seq<Tx>, hs: seq<string>, b: seq<Tx>, wallet: Address)
    ensures NotBefore(ShownFor(txs, hs, wallet), b) <==>
      forall k :: 0 <= k < |hs| ==> NotBefore(Shown(LegsOf(txs, hs[k]), wallet), b)
  {
    if hs != [] {
      var init := hs[..|hs| - 1];
      NotBeforeEach(txs, init, b, wallet);
      NotBeforeAdd(ShownFor(txs, init, wallet), Shown(LegsOf(txs, hs[|hs| - 1]), wallet), b);
      assert forall k :: 0 <= k < |init| ==> init[k] == hs[k];
    }
  }

  lemma {:induction false} NotBeforeAdd(a: seq<Tx>, c: seq<Tx>, b: seq<Tx>)
    ensures NotBefore(a + c, b) <==> NotBefore(a, b) && NotBefore(c, b)
  {
    if NotBefore(a + c, b) {
      assert forall i :: 0 <= i < |a| ==> (a + c)[i] == a[i];
      forall i, j | 0 <= i < |c| && 0 <= j < |b| ensures c[i].timestamp >= b[j].timestamp {
        assert (a + c)[|a| + i] == c[i];
      }
    }
  }

  /** The newest time shown for a group: a merged pair shows its older leg's. */
  function TopTime(legs: seq<Tx>, wallet: Address): Time {
    if |legs| == 2 && TryMerge(legs, wallet).Some? then legs[1].timestamp
    else if legs == [] then 0
    else legs[0].timestamp
  }

  predicate NotOlder(txs: seq<Tx>, h: string, time: Time) {
    forall i :: 0 <= i < |txs| && txs[i].hash == h ==> txs[i].timestamp >= time
  }

  /** No row is older than the newest time shown for a hash first seen after its own. */
  predicate NoStraggler(txs: seq<Tx>, wallet: Address) {
    var hs := Hashes(txs);
    forall a, b :: 0 <= a < b < |hs| ==> NotOlder(txs, hs[a], TopTime(LegsOf(txs, hs[b]), wallet))
  }

  lemma {:induction false} BoundedByTop(a: seq<Tx>, b: seq<Tx>, wallet: Address)
    requires NewestFirst(a) && NewestFirst(b) && b != []
    ensures NotBefore(Shown(a, wallet), Shown(b, wallet)) <==>
      forall i :: 0 <= i < |a| ==> a[i].timestamp >= TopTime(b, wallet)
  {
    var top := Shown(b, wallet)[0].timestamp;
    assert top == TopTime(b, wallet);
    assert forall j :: 0 <= j < |Shown(b, wallet)| ==> Shown(b, wallet)[j].timestamp <= top;
    assert NotBefore(Shown(a, wallet), Shown(b, wallet)) <==>
      forall i :: 0 <= i < |Shown(a, wallet)| ==> Shown(a, wallet)[i].timestamp >= top;
    if TryMerge(a, wallet).Some? {
      assert Shown(a, wallet)[0].timestamp == a[1].timestamp <= a[0].timestamp;
    }
  }

  lemma {:induction false} PairInTurn(txs: seq<Tx>, h: string, g: string, wallet: Address)
    requires NewestFirst(txs) && LegsOf(txs, g) != []
    ensures NotBefore(Shown(LegsOf(txs, h), wallet), Shown(LegsOf(txs, g), wallet)) <==>
      NotOlder(txs, h, TopTime(LegsOf(txs, g), wallet))
  {
    var legs := LegsOf(txs, h);
    LegsNewestFirst(txs, h);
    LegsNewestFirst(txs, g);
    BoundedByTop(legs, LegsOf(txs, g), wallet);
    LegsElems(txs, h);
    assert forall i :: 0 <= i < |legs| ==> legs[i] in legs;
    assert forall i :: 0 <= i < |txs| && txs[i].hash == h ==> txs[i] in legs;
  }

  /** A newest-first list stays newest-first exactly when no row straggles behind a
      hash first seen after its own. */
  lemma {:induction false} MergeKeepsOrderIff(txs: seq<Tx>, wallet: Address)
    requires NewestFirst(txs)
    ensures NewestFirst(Merge(txs, wallet)) <==> NoStraggler(txs, wallet)
  {
    var hs := Hashes(txs);
    ShownForOrdered(txs, hs, wallet);
    LegsOfHashes(txs);
    forall a, b | 0 <= a < b < |hs|
      ensures NotBefore(Shown(LegsOf(txs, hs[a]), wallet), Shown(LegsOf(txs, hs[b]), wallet)) <==>
        NotOlder(txs, hs[a], TopTime(LegsOf(txs, hs[b]), wallet))
    {
      PairInTurn(txs, hs[a], hs[b], wallet);
    }
  }

  lemma {:induction false} HashesInFirstSeenOrder(txs: seq<Tx>, a: nat, b: nat) returns (i: nat, j: nat)
    requires a < b < |Hashes(txs)|
    ensures i < j < |txs| && txs[i].hash == Hashes(txs)[a] && txs[j].hash == Hashes(txs)[b]
  {
    var init := txs[..|txs| - 1];
    if b < |Hashes(init)| {
      i, j := HashesInFirstSeenOrder(init, a, b);
    } else {
      j := |txs| - 1;
      HashesElems(init);
      assert Hashes(txs)[a] in Hashes(init);
      i :| 0 <= i < |init| && init[i].hash == Hashes(txs)[a];
    }
  }

  ghost predicate OneTimePerHash(txs: seq<Tx>) {
    forall i, j :: 0 <= i < |txs| && 0 <= j < |txs| && txs[i].hash == txs[j].hash ==>
      txs[i].timestamp == txs[j].timestamp
  }

  lemma {:induction false} TopTimeShared(txs: seq<Tx>, j: nat, wallet: Address)
    requires OneTimePerHash(txs) && j < |txs|
    ensures TopTime(LegsOf(txs, txs[j].hash), wallet) == txs[j].timestamp
  {
    var legs := LegsOf(txs, txs[j].hash);
    LegsElems(txs, txs[j].hash);
    assert txs[j] in legs;
    forall m | 0 <= m < |legs| ensures legs[m].timestamp == txs[j].timestamp {
      assert legs[m] in legs;
      var n :| 0 <= n < |txs| && txs[n] == legs[m];
    }
  }

  /** When the legs of each hash share one time, a newest-first list stays newest-first. */
  lemma {:induction false} MergeKeepsOrder(txs: seq<Tx>, wallet: Address)
    requires NewestFirst(txs) && OneTimePerHash(txs)
    ensures NewestFirst(Merge(txs, wallet))
  {
    var hs := Hashes(txs);
    forall a, b | 0 <= a < b < |hs| ensures NotOlder(txs, hs[a], TopTime(LegsOf(txs, hs[b]), wallet)) {
      var k, j := HashesInFirstSeenOrder(txs, a, b);
      assert txs[k].timestamp >= txs[j].timestamp;
      TopTimeShared(txs, j, wallet);
    }
    MergeKeepsOrderIff(txs, wallet);
  }

  /** Otherwise the order can break: a raw leg of an earlier-seen hash moves ahead of a
      newer row of another hash. */
  lemma {:induction false} MergeCanBreakOrder(x: Tx, y: Tx, z: Tx, wallet: Address)
    requires x.hash == z.hash != y.hash && x.timestamp > y.timestamp > z.timestamp
    requires TryMerge([x, z], wallet).None?
    ensures NewestFirst([x, y, z]) && Merge([x, y, z], wallet) == [x, z, y] && !NewestFirst(Merge([x, y, z], wallet))
  {
    Hashes3(x, y, z, x.hash);
    Hashes3(x, y, z, y.hash);
    var txs := [x, y, z];
    var hs := [x.hash, y.hash];
    assert hs[..1] == [x.hash] && [x.hash][..0] == [];
    assert ShownFor(txs, [x.hash], wallet) == [] + Shown([x, z], wallet);
    assert Merge(txs, wallet) == ShownFor(txs, [x.hash], wallet) + Shown([y], wallet) == [x, z, y];
    assert Merge(txs, wallet)[1] == z && Merge(txs, wallet)[2] == y;
  }

  lemma {:induction false} Hashes1(x: Tx, h: string)
    ensures Hashes([x]) == [x.hash] && LegsOf([x], h) == if x.hash == h then [x] else []
  {
    OneMoreRow([], x, h);
    assert [] + [x] == [x];
  }

  lemma {:induction false} Hashes2(x: Tx, y: Tx, h: string)
    requires x.hash != y.hash && (h == x.hash || h == y.hash)
    ensures Hashes([x, y]) == [x.hash, y.hash] && LegsOf([x, y], h) == if h == x.hash then [x] else [y]
  {
    Hashes1(x, h);
    OneMoreRow([x], y, h);
    assert [x] + [y] == [x, y];
  }

  lemma {:induction false} Hashes3(x: Tx, y: Tx, z: Tx, h: string)
    requires x.hash == z.hash != y.hash && (h == x.hash || h == y.hash)
    ensures Hashes([x, y, z]) == [x.hash, y.hash] && LegsOf([x, y, z], h) == if h == x.hash then [x, z] else [y]
  {
    Hashes2(x, y, h);
    OneMoreRow([x, y], z, h);
    assert [x, y] + [z] == [x, y, z];
  }
}
