/** The cache key of a token-price request: sortedUniq in
    internal/adapter/price/adapter.go, joined with commas. */
module PriceKey {
  import opened Text

  const BELOW: (string, string) -> bool := (a, b) => Less(a, b)

  ghost function LowerSet(ss: seq<string>): set<string> {
    set s | s in ss :: Lower(s)
  }

  lemma {:induction false} BelowIsOrder(s: set<string>)
    ensures Asymmetric(BELOW) && TotalOn(s, BELOW)
  {
    forall a, b ensures !(BELOW(a, b) && BELOW(b, a)) && (a == b || BELOW(a, b) || BELOW(b, a)) {
      LessTotal(a, b);
    }
    forall a, b, c | BELOW(a, b) && BELOW(b, c) ensures BELOW(a, c) {
      LessTransitive(a, b, c);
    }
  }

  // ------------------------------------------------------- the insertion sort

  function Swap(xs: seq<string>, j: nat): (r: seq<string>)
    requires 0 < j < |xs|
    ensures |r| == |xs|
  {
    xs[j := xs[j - 1]][j - 1 := xs[j]]
  }

  lemma {:induction false} SwapKeeps(xs: seq<string>, j: nat)
    requires 0 < j < |xs|
    ensures Elems(Swap(xs, j)) == Elems(xs)
    ensures NoDup(xs) ==> NoDup(Swap(xs, j))
  {
    var ys := Swap(xs, j);
    forall x ensures x in xs <==> x in ys {
      if x in xs {
        var k :| 0 <= k < |xs| && xs[k] == x;
        assert ys[if k == j then j - 1 else if k == j - 1 then j else k] == x;
      }
    }
  }

  /** The first `n` are in order except that the one at `j` may be too far right. */
  ghost predicate Sinking(xs: seq<string>, n: nat, j: nat)
    requires j < n <= |xs|
  {
    forall p, q :: 0 <= p < q < n && q != j ==> BELOW(xs[p], xs[q])
  }

  lemma {:induction false} SinkStep(xs: seq<string>, n: nat, j: nat)
    requires 0 < j < n <= |xs| && Sinking(xs, n, j) && BELOW(xs[j], xs[j - 1])
    ensures Sinking(Swap(xs, j), n, j - 1)
  {
    var ys := Swap(xs, j);
    assert forall k :: 0 <= k < n && k != j && k != j - 1 ==> ys[k] == xs[k];
    assert ys[j - 1] == xs[j] && ys[j] == xs[j - 1];
  }

  lemma {:induction false} SinkDone(xs: seq<string>, n: nat, j: nat)
    requires j < n <= |xs| && NoDup(xs) && Sinking(xs, n, j)
    requires j == 0 || !BELOW(xs[j], xs[j - 1])
    ensures StrictlySorted(xs[..n], BELOW)
  {
    forall p, q | 0 <= p < q < n ensures BELOW(xs[p], xs[q]) {
      if q == j {
        LessTotal(xs[j], xs[j - 1]);
        if p < j - 1 {
          assert BELOW(xs[p], xs[j - 1]);
          LessTransitive(xs[p], xs[j - 1], xs[j]);
        }
      }
    }
  }

  method SortInPlace(a: array<string>)
    requires NoDup(a[..])
    modifies a
    ensures StrictlySorted(a[..], BELOW) && Elems(a[..]) == Elems(old(a[..]))
  {
    var i := 1;
    while i < a.Length
      invariant 1 <= i
      invariant NoDup(a[..]) && Elems(a[..]) == Elems(old(a[..]))
      invariant i <= a.Length ==> StrictlySorted(a[..i], BELOW)
      invariant a.Length < i ==> a.Length == 0
    {
      var j := i;
      assert Sinking(a[..], i + 1, j) by {
        assert forall p :: 0 <= p < i ==> a[..][p] == a[..i][p];
      }
      while j > 0 && Less(a[j], a[j - 1])
        invariant 0 <= j <= i < a.Length
        invariant NoDup(a[..]) && Elems(a[..]) == Elems(old(a[..]))
        invariant Sinking(a[..], i + 1, j)
      {
        ghost var before := a[..];
        SinkStep(before, i + 1, j);
        SwapKeeps(before, j);
        a[j], a[j - 1] := a[j - 1], a[j];
        assert a[..] == Swap(before, j);
        j := j - 1;
      }
      SinkDone(a[..], i + 1, j);
      assert a[..][..i + 1] == a[..i + 1];
      i := i + 1;
    }
    assert i <= a.Length ==> a[..i] == a[..];
  }

  /** Sorted without repetition, and exactly the lower-case elements of the input. */
  method SortedUniq(ss: seq<string>) returns (out: seq<string>)
    ensures out == Canonical(LowerSet(ss))
  {
    var seen: set<string> := {};
    out := [];
    for i := 0 to |ss|
      invariant seen == Elems(out) == LowerSet(ss[..i]) && NoDup(out)
    {
      var s := Lower(ss[i]);
      assert ss[..i + 1] == ss[..i] + [ss[i]];
      if s !in seen {
        seen := seen + {s};
        out := out + [s];
      }
    }
    assert ss[..|ss|] == ss;
    var a := new string[|out|](i requires 0 <= i < |out| => out[i]);
    assert a[..] == out;
    SortInPlace(a);
    out := a[..];
    CanonicalIs(LowerSet(ss), out);
  }

  // ----------------------------------------------------------- canonical form

  ghost function Canonical(s: set<string>): (xs: seq<string>)
    ensures StrictlySorted(xs, BELOW) && Elems(xs) == s
  {
    BelowIsOrder(s);
    ListingOf(s);
    var xs :| StrictlySorted(xs, BELOW) && Elems(xs) == s;
    xs
  }

  lemma {:induction false} ListingOf(s: set<string>)
    requires TotalOn(s, BELOW)
    ensures exists xs :: StrictlySorted(xs, BELOW) && Elems(xs) == s
  {
    var xs := SortedExists(s, BELOW);
  }

  lemma {:induction false} CanonicalIs(s: set<string>, xs: seq<string>)
    requires StrictlySorted(xs, BELOW) && Elems(xs) == s
    ensures xs == Canonical(s)
  {
    BelowIsOrder(s);
    SortedIsUnique(xs, Canonical(s), BELOW);
  }

  // ------------------------------------------------------------------ the key

  function Join(xs: seq<string>): string {
    if xs == [] then "" else if |xs| == 1 then xs[0] else xs[0] + "," + Join(xs[1..])
  }

  predicate CommaFree(s: string) { ',' !in s }

  predicate AllCommaFree(ss: seq<string>) {
    forall i :: 0 <= i < |ss| ==> CommaFree(ss[i])
  }

  ghost function TokenKey(ss: seq<string>): string {
    "tok:" + Join(Canonical(LowerSet(ss)))
  }

  method KeyOf(ss: seq<string>) returns (key: string)
    ensures key == TokenKey(ss)
  {
    var out := SortedUniq(ss);
    key := "tok:" + Join(out);
  }

  lemma {:induction false} HeadOfJoin(xs: seq<string>, i: nat)
    requires xs != [] && AllCommaFree(xs) && i < |Join(xs)|
    ensures i < |xs[0]| ==> Join(xs)[i] != ','
    ensures i == |xs[0]| ==> Join(xs)[i] == ','
    ensures |Join(xs)| >= |xs[0]| && Join(xs)[..|xs[0]|] == xs[0]
    ensures |Join(xs)| > |xs[0]| <==> |xs| > 1
  {
    assert i < |xs[0]| ==> Join(xs)[i] == xs[0][i];
  }

  lemma {:induction false} JoinInjective(xs: seq<string>, ys: seq<string>)
    requires xs != [] && ys != [] && AllCommaFree(xs) && AllCommaFree(ys) && Join(xs) == Join(ys)
    ensures xs == ys
  {
    SameHead(xs, ys);
    if |xs| > 1 {
      assert Join(xs) == xs[0] + "," + Join(xs[1..]) && Join(ys) == ys[0] + "," + Join(ys[1..]);
      assert Join(xs)[|xs[0]| + 1..] == Join(xs[1..]) && Join(ys)[|ys[0]| + 1..] == Join(ys[1..]);
      JoinInjective(xs[1..], ys[1..]);
    }
    assert xs == [xs[0]] + xs[1..] && ys == [ys[0]] + ys[1..];
  }

  lemma {:induction false} SameHead(xs: seq<string>, ys: seq<string>)
    requires xs != [] && ys != [] && AllCommaFree(xs) && AllCommaFree(ys) && Join(xs) == Join(ys)
    ensures xs[0] == ys[0] && (|xs| == 1 <==> |ys| == 1)
  {
    var s := Join(xs);
    if |s| > 0 {
      HeadOfJoin(xs, 0);
      HeadOfJoin(ys, 0);
      var m, n := |xs[0]|, |ys[0]|;
      if m < n {
        HeadOfJoin(xs, m);
        HeadOfJoin(ys, m);
      } else if n < m {
        HeadOfJoin(xs, n);
        HeadOfJoin(ys, n);
      }
    }
  }

  lemma {:induction false} CanonicalCommaFree(ss: seq<string>)
    requires ss != [] && AllCommaFree(ss)
    ensures Canonical(LowerSet(ss)) != [] && AllCommaFree(Canonical(LowerSet(ss)))
  {
    var xs := Canonical(LowerSet(ss));
    assert Lower(ss[0]) in LowerSet(ss) && Lower(ss[0]) in Elems(xs);
    forall i | 0 <= i < |xs| ensures CommaFree(xs[i]) {
      assert xs[i] in Elems(xs) && xs[i] in LowerSet(ss);
      var s :| s in ss && Lower(s) == xs[i];
      var k :| 0 <= k < |ss| && ss[k] == s;
      assert CommaFree(ss[k]);
    }
  }

  /** Lists of addresses share a key exactly when they name the same addresses,
      whatever their order, casing and repetitions. */
  lemma {:induction false} KeysAgree(a: seq<string>, b: seq<string>)
    requires a != [] && b != [] && AllCommaFree(a) && AllCommaFree(b)
    ensures TokenKey(a) == TokenKey(b) <==> LowerSet(a) == LowerSet(b)
  {
    CanonicalCommaFree(a);
    CanonicalCommaFree(b);
    if TokenKey(a) == TokenKey(b) {
      var x, y := Join(Canonical(LowerSet(a))), Join(Canonical(LowerSet(b)));
      assert x == TokenKey(a)[4..] && y == TokenKey(b)[4..];
      JoinInjective(Canonical(LowerSet(a)), Canonical(LowerSet(b)));
    }
  }

  ghost predicate Names(b: seq<string>, s: string) {
    exists t :: t in b && EqualFold(s, t)
  }

  /** Each of `a` is one of `b`, up to letter case. */
  ghost predicate Covers(a: seq<string>, b: seq<string>) {
    forall s :: s in a ==> Names(b, s)
  }

  lemma {:induction false} CoversIs(a: seq<string>, b: seq<string>)
    ensures Covers(a, b) <==> LowerSet(a) <= LowerSet(b)
  {
    forall s | s in a ensures Names(b, s) <==> Lower(s) in LowerSet(b) {
    }
  }

  /** The same, entry by entry: every address of one list is in the other, in any
      letter case. */
  lemma {:induction false} KeysAgreeUpToCase(a: seq<string>, b: seq<string>)
    requires a != [] && b != [] && AllCommaFree(a) && AllCommaFree(b)
    ensures TokenKey(a) == TokenKey(b) <==> Covers(a, b) && Covers(b, a)
  {
    KeysAgree(a, b);
    CoversIs(a, b);
    CoversIs(b, a);
  }

  /** Without the restriction they can collide: a comma inside an entry reads like
      the separator. */
  lemma {:induction false} CommaCollides()
    ensures TokenKey(["a,b"]) == TokenKey(["a", "b"]) && LowerSet(["a,b"]) != LowerSet(["a", "b"])
  {
    var one, two := ["a,b"], ["a", "b"];
    assert Lower("a,b") == "a,b" && Lower("a") == "a" && Lower("b") == "b";
    assert one[0] == "a,b" && two[0] == "a" && two[1] == "b";
    assert LowerSet(one) == {"a,b"} && LowerSet(two) == {"a", "b"};
    assert "a"[0] < "b"[0];
    CanonicalIs(LowerSet(one), one);
    CanonicalIs(LowerSet(two), two);
    assert Join(two[1..]) == "b" && Join(two) == "a" + "," + "b" && Join(one) == "a,b";
    assert "a,b" in LowerSet(one) && "a,b" !in LowerSet(two);
  }
}
