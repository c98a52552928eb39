/** Text helpers shared by the components: ASCII case folding, and the decimal
    and hexadecimal codecs behind the wallet's stored amounts, cursors and
    addresses.  A Go string is a sequence of bytes; here it is a `string` whose
    characters stand for those bytes. */
module Text {
  datatype Option<+T> = None | Some(value: T)

  // ---------------------------------------------------------------- case

  function LowerChar(c: char): char {
    if 'A' <= c <= 'Z' then (c as int + 32) as char else c
  }

  function Lower(s: string): (r: string)
    ensures |r| == |s|
    ensures forall i :: 0 <= i < |s| ==> r[i] == LowerChar(s[i])
  {
    seq(|s|, i requires 0 <= i < |s| => LowerChar(s[i]))
  }

  predicate EqualFold(a: string, b: string) {
    Lower(a) == Lower(b)
  }

  /** The same letter, or a capital and its small letter, 32 apart. */
  predicate SameLetter(c: char, d: char) {
    || c == d
    || ('A' <= c <= 'Z' && d as int == c as int + 32)
    || ('A' <= d <= 'Z' && c as int == d as int + 32)
  }

  lemma {:induction false} EqualFoldIs(a: string, b: string)
    ensures EqualFold(a, b) <==> |a| == |b| && forall i :: 0 <= i < |a| ==> SameLetter(a[i], b[i])
    ensures forall i :: 0 <= i < |a| ==> !('A' <= Lower(a)[i] <= 'Z')
  {
    if EqualFold(a, b) {
      assert |a| == |b|;
      forall i | 0 <= i < |a| ensures SameLetter(a[i], b[i]) {
        assert Lower(a)[i] == Lower(b)[i];
      }
    }
    if |a| == |b| && forall i :: 0 <= i < |a| ==> SameLetter(a[i], b[i]) {
      assert forall i :: 0 <= i < |a| ==> Lower(a)[i] == Lower(b)[i];
    }
  }

  // ------------------------------------------------------------- decimal

  predicate IsDigit(c: char) { '0' <= c <= '9' }

  function DigitChar(d: nat): (c: char)
    requires d < 10
    ensures IsDigit(c) && c as int - '0' as int == d
  {
    (d + '0' as int) as char
  }

  function PrintNat(n: nat): (s: string)
    ensures s != [] && forall i :: 0 <= i < |s| ==> IsDigit(s[i])
  {
    if n < 10 then [DigitChar(n)] else PrintNat(n / 10) + [DigitChar(n % 10)]
  }

  /** big.Int.String and strconv.Itoa. */
  function PrintInt(n: int): string {
    if n < 0 then "-" + PrintNat(-n) else PrintNat(n)
  }

  function DigitsValue(s: string): nat
    requires forall i :: 0 <= i < |s| ==> IsDigit(s[i])
  {
    if s == [] then 0
    else
      assert IsDigit(s[|s| - 1]);
      10 * DigitsValue(s[..|s| - 1]) + (s[|s| - 1] as int - '0' as int)
  }

  function ParseDigits(s: string): Option<nat> {
    if s != [] && forall i :: 0 <= i < |s| ==> IsDigit(s[i]) then Some(DigitsValue(s)) else None
  }

  /** big.Int.SetString in base 10: an optional sign, then at least one digit. */
  function ParseInt(s: string): Option<int> {
    if s != [] && (s[0] == '-' || s[0] == '+') then
      match ParseDigits(s[1..])
      case None => None
      case Some(n) => if s[0] == '-' then Some(-(n as int)) else Some(n)
    else
      match ParseDigits(s)
      case None => None
      case Some(n) => Some(n)
  }

  lemma {:induction false} DigitsValueOfPrintNat(n: nat)
    ensures DigitsValue(PrintNat(n)) == n
  {
    if n >= 10 {
      var s := PrintNat(n);
      assert s[..|s| - 1] == PrintNat(n / 10);
      DigitsValueOfPrintNat(n / 10);
    } else {
      var s := PrintNat(n);
      assert s[..|s| - 1] == [];
    }
  }

  lemma {:induction false} ParsePrintInt(n: int)
    ensures ParseInt(PrintInt(n)) == Some(n)
  {
    if n < 0 {
      DigitsValueOfPrintNat(-n);
      assert PrintInt(n)[1..] == PrintNat(-n);
    } else {
      DigitsValueOfPrintNat(n);
      assert IsDigit(PrintNat(n)[0]);
    }
  }

  function Pow10(k: nat): (p: nat)
    ensures p > 0
  {
    if k == 0 then 1 else 10 * Pow10(k - 1)
  }

  /** Decimal notation: the k-th digit from the right counts the 10^k in the number,
      and no number starts with a needless zero. */
  lemma {:induction false} DecimalDigits(n: nat, k: nat)
    requires k < |PrintNat(n)|
    ensures
      var s := PrintNat(n);
      IsDigit(s[|s| - 1 - k]) && s[|s| - 1 - k] as int == '0' as int + n / Pow10(k) % 10
    ensures Pow10(|PrintNat(n)|) > n && (|PrintNat(n)| > 1 ==> Pow10(|PrintNat(n)| - 1) <= n)
  {
    if n >= 10 {
      DecimalDigits(n / 10, if k == 0 then 0 else k - 1);
      if k > 0 {
        DivTwice(n, Pow10(k - 1));
      }
    }
  }

  lemma {:induction false} DivTwice(n: nat, p: nat)
    requires p > 0
    ensures n / 10 / p == n / (10 * p)
  {
    var q, r := n / 10 / p, n / 10 % p;
    assert n / 10 == p * q + r;
    assert n == 10 * (p * q + r) + n % 10;
    assert 10 * (p * q) == (10 * p) * q;
    var rest := 10 * r + n % 10;
    assert n == (10 * p) * q + rest && 0 <= rest < 10 * p;
    DivUnique(n, 10 * p, q, rest);
  }

  lemma {:induction false} DivUnique(n: nat, d: nat, q: nat, r: nat)
    requires 0 < d && n == d * q + r && r < d
    ensures n / d == q
  {
    var p := n / d;
    assert d * p <= n < d * p + d;
    if q > p {
      TimesGrows(d, p + 1, q);
    } else if q < p {
      TimesGrows(d, q + 1, p);
    }
  }

  lemma {:induction false} TimesGrows(d: nat, a: nat, b: nat)
    requires a <= b
    ensures d * a <= d * b
    ensures a > 0 ==> d * a == d * (a - 1) + d
  {
  }

  /** A sign is optional and at least one digit is not; anything else is refused. */
  lemma {:induction false} ParseIntAccepts(s: string)
    ensures
      var digits := if s != [] && (s[0] == '-' || s[0] == '+') then s[1..] else s;
      && (ParseInt(s).Some? <==> digits != [] && forall i :: 0 <= i < |digits| ==> '0' <= digits[i] <= '9')
      && (ParseInt(s).Some? ==>
            ParseInt(digits).Some? && ParseInt(digits).value >= 0 &&
            ParseInt(s).value == (if s[0] == '-' then -ParseInt(digits).value else ParseInt(digits).value))
  {
  }

  // ------------------------------------------------- machine integers

  const U64: nat := 0x1_0000_0000_0000_0000
  const I64_MAX: nat := 0x7FFF_FFFF_FFFF_FFFF

  /** Go's int64(x) for a value taken modulo 2^64. */
  function ToInt64(n: int): (r: int)
    ensures -0x8000_0000_0000_0000 <= r <= I64_MAX
  {
    var m := n % U64;
    if m > I64_MAX then m - U64 else m
  }

  /** Go's uint64(x). */
  function ToUint64(n: int): (r: nat)
    ensures r < U64
  {
    n % U64
  }

  lemma {:induction false} Uint64ThroughInt64(n: nat)
    requires n < U64
    ensures ToUint64(ToInt64(n)) == n
  {
  }

  // --------------------------------------------------------------- hex

  newtype byte = n: int | 0 <= n < 256

  predicate IsHexChar(c: char) {
    '0' <= c <= '9' || 'a' <= c <= 'f' || 'A' <= c <= 'F'
  }

  function HexValue(c: char): (v: nat)
    requires IsHexChar(c)
    ensures v < 16
  {
    if '0' <= c <= '9' then c as int - '0' as int
    else if 'a' <= c <= 'f' then c as int - 'a' as int + 10
    else c as int - 'A' as int + 10
  }

  function HexDigit(v: nat, upper: bool): (c: char)
    requires v < 16
    ensures IsHexChar(c) && HexValue(c) == v
  {
    if v < 10 then (v + '0' as int) as char
    else if upper then (v - 10 + 'A' as int) as char
    else (v - 10 + 'a' as int) as char
  }

  function Nibble(bs: seq<byte>, i: nat): (v: nat)
    requires i < 2 * |bs|
    ensures v < 16
  {
    if i % 2 == 0 then bs[i / 2] as int / 16 else bs[i / 2] as int % 16
  }

  /** Two hex digits per byte; `upper` picks the letter case digit by digit. */
  function HexText(bs: seq<byte>, upper: nat -> bool): (s: string)
    ensures |s| == 2 * |bs|
    ensures forall i :: 0 <= i < |s| ==> IsHexChar(s[i]) && HexValue(s[i]) == Nibble(bs, i)
  {
    var s := seq(2 * |bs|, (i: nat) requires i < 2 * |bs| => HexDigit(Nibble(bs, i), upper(i)));
    assert forall i :: 0 <= i < |s| ==> s[i] == HexDigit(Nibble(bs, i), upper(i));
    s
  }

  predicate IsHexText(s: string) {
    |s| % 2 == 0 && forall i :: 0 <= i < |s| ==> IsHexChar(s[i])
  }

  function HexBytes(s: string): (bs: seq<byte>)
    requires IsHexText(s)
    ensures |bs| == |s| / 2
  {
    seq(|s| / 2, i requires 0 <= i < |s| / 2 => (16 * HexValue(s[2 * i]) + HexValue(s[2 * i + 1])) as byte)
  }

  lemma {:induction false} HexRoundTrip(bs: seq<byte>, upper: nat -> bool)
    ensures IsHexText(HexText(bs, upper)) && HexBytes(HexText(bs, upper)) == bs
  {
    var s := HexText(bs, upper);
    forall i | 0 <= i < |bs| ensures HexBytes(s)[i] == bs[i] {
      assert HexValue(s[2 * i]) == Nibble(bs, 2 * i) == bs[i] as int / 16;
      assert HexValue(s[2 * i + 1]) == Nibble(bs, 2 * i + 1) == bs[i] as int % 16;
    }
  }

  /** A hex digit stands for its place in the alphabet, and two of them for a byte,
      the high half first. */
  lemma {:induction false} HexIsPositional(s: string, i: nat)
    requires IsHexText(s) && 2 * i < |s|
    ensures HexValue(s[2 * i]) * 16 + HexValue(s[2 * i + 1]) == HexBytes(s)[i] as int
    ensures s[i] == "0123456789abcdef"[HexValue(s[i])] || s[i] == "0123456789ABCDEF"[HexValue(s[i])]
  {
    var lower, upper, v := "0123456789abcdef", "0123456789ABCDEF", HexValue(s[i]);
    assert forall k: nat :: k < 10 ==> lower[k] == ('0' as int + k) as char;
    assert forall k: nat :: 10 <= k < 16 ==> lower[k] == ('a' as int + k - 10) as char;
    assert forall k: nat :: 10 <= k < 16 ==> upper[k] == ('A' as int + k - 10) as char;
  }

  // ----------------------------------------------------------- addresses

  /** common.Address: 20 raw bytes. */
  type Address = a: seq<byte> | |a| == 20 witness seq(20, _ => 0)

  /** Which hex letters of an address the EIP-55 checksum capitalises.  The hash
      behind it is not modelled: every casing is allowed. */
  type Checksum = (Address, nat) -> bool

  function AddressHex(a: Address, ck: Checksum): string {
    "0x" + HexText(a, (i: nat) => ck(a, i))
  }

  /** ethkit.NewAddress: optional 0x prefix, then 40 hex digits of any case. */
  function NewAddress(s: string): Option<Address> {
    var body := if |s| >= 2 && s[0] == '0' && (s[1] == 'x' || s[1] == 'X') then s[2..] else s;
    if |body| == 40 && IsHexText(body) then Some(HexBytes(body)) else None
  }

  lemma {:induction false} AddressRoundTrip(a: Address, ck: Checksum)
    ensures NewAddress(AddressHex(a, ck)) == Some(a)
  {
    var up := (i: nat) => ck(a, i);
    HexRoundTrip(a, up);
    assert AddressHex(a, ck)[2..] == HexText(a, up);
  }

  /** The prefix is optional in either case, and only 40 hex digits are an address. */
  lemma {:induction false} NewAddressAccepts(s: string)
    ensures |s| == 40 ==> NewAddress("0x" + s) == NewAddress("0X" + s) == NewAddress(s)
    ensures |s| == 40 ==> (NewAddress(s).Some? <==> forall i :: 0 <= i < 40 ==> IsHexChar(s[i]))
    ensures NewAddress(s).Some? ==> |s| == 40 || (|s| == 42 && (s[..2] == "0x" || s[..2] == "0X"))
  {
    assert ("0x" + s)[2..] == s == ("0X" + s)[2..];
  }

  // ----------------------------------------------------- sequence helpers

  ghost predicate NoDup<T(!new)>(s: seq<T>) {
    forall i, j :: 0 <= i < j < |s| ==> s[i] != s[j]
  }

  ghost function Elems<T>(s: seq<T>): set<T> {
    set x | x in s
  }

  lemma {:induction false} NoDupCard<T(!new)>(s: seq<T>)
    requires NoDup(s)
    ensures |Elems(s)| == |s|
  {
    if s != [] {
      var p := s[..|s| - 1];
      NoDupCard(p);
      assert s == p + [s[|s| - 1]];
      assert s[|s| - 1] !in p;
      assert Elems(s) == Elems(p) + {s[|s| - 1]};
    } else {
      assert Elems(s) == {};
    }
  }

  lemma {:induction false} SubsetCard<T>(a: set<T>, b: set<T>)
    requires a <= b
    ensures |a| <= |b|
  {
    if a != {} {
      var x :| x in a;
      SubsetCard(a - {x}, b - {x});
    }
  }

  /** The elements filed under `h`, in order. */
  function Picked<T>(xs: seq<T>, key: T -> string, h: string): seq<T> {
    if xs == [] then []
    else
      var last := xs[|xs| - 1];
      Picked(xs[..|xs| - 1], key, h) + if key(last) == h then [last] else []
  }

  lemma {:induction false} PickedOneMore<T>(xs: seq<T>, x: T, key: T -> string, h: string)
    ensures Picked(xs + [x], key, h) == Picked(xs, key, h) + if key(x) == h then [x] else []
  {
    assert (xs + [x])[..|xs|] == xs;
  }

  lemma {:induction false} PickedElems<T(!new)>(xs: seq<T>, key: T -> string, h: string)
    ensures forall x :: x in Picked(xs, key, h) <==> x in xs && key(x) == h
  {
    if xs != [] {
      PickedElems(xs[..|xs| - 1], key, h);
      assert xs == xs[..|xs| - 1] + [xs[|xs| - 1]];
    }
  }

  lemma {:induction false} PickedNone<T>(xs: seq<T>, key: T -> string, h: string)
    requires forall i :: 0 <= i < |xs| ==> key(xs[i]) != h
    ensures Picked(xs, key, h) == []
  {
    if xs != [] {
      PickedNone(xs[..|xs| - 1], key, h);
    }
  }

  /** Picking keeps the order: it goes piece by piece, and one by one. */
  lemma {:induction false} PickedInOrder<T>(xs: seq<T>, ys: seq<T>, key: T -> string, h: string)
    ensures Picked(xs + ys, key, h) == Picked(xs, key, h) + Picked(ys, key, h)
  {
    if ys == [] {
      assert xs + ys == xs;
    } else {
      var init, y := ys[..|ys| - 1], ys[|ys| - 1];
      assert (xs + init) + [y] == xs + ys && init + [y] == ys;
      PickedInOrder(xs, init, key, h);
      PickedOneMore(xs + init, y, key, h);
      PickedOneMore(init, y, key, h);
      ConcatAssoc(Picked(xs, key, h), Picked(init, key, h), if key(y) == h then [y] else []);
    }
  }

  lemma {:induction false} ConcatAssoc<T>(a: seq<T>, b: seq<T>, c: seq<T>)
    ensures a + b + c == a + (b + c)
  {
  }

  lemma {:induction false} PickedOne<T>(x: T, key: T -> string, h: string)
    ensures Picked([x], key, h) == if key(x) == h then [x] else []
  {
    PickedOneMore([], x, key, h);
    assert [] + [x] == [x];
  }

  lemma {:induction false} PickedCount<T>(xs: seq<T>, key: T -> string, h: string, x: T)
    ensures multiset(Picked(xs, key, h))[x] == if key(x) == h then multiset(xs)[x] else 0
  {
    if xs != [] {
      PickedCount(xs[..|xs| - 1], key, h, x);
      assert xs == xs[..|xs| - 1] + [xs[|xs| - 1]];
    }
  }

  // ------------------------------------------------------------- orderings

  /** Byte-wise lexicographic order, Go's `<` on strings and SQLite's BINARY collation. */
  predicate Less(a: string, b: string) {
    if b == [] then false
    else if a == [] then true
    else a[0] < b[0] || (a[0] == b[0] && Less(a[1..], b[1..]))
  }

  /** Strings are ordered as in a dictionary: at the first place they differ. */
  lemma {:induction false} LessFirstDifference(a: string, b: string, k: nat)
    requires k <= |a| && k < |b| && a[..k] == b[..k] && (k == |a| || a[k] < b[k])
    ensures Less(a, b) && !Less(b, a)
  {
    if k > 0 {
      assert a[0] == a[..k][0] == b[..k][0] == b[0];
      assert a[1..][..k - 1] == a[..k][1..] && b[1..][..k - 1] == b[..k][1..];
      LessFirstDifference(a[1..], b[1..], k - 1);
    }
  }

  lemma {:induction false} LessTotal(a: string, b: string)
    ensures a == b || Less(a, b) || Less(b, a)
    ensures !(Less(a, b) && Less(b, a)) && !Less(a, a)
  {
    if a != [] && b != [] && a[0] == b[0] {
      LessTotal(a[1..], b[1..]);
      assert a == [a[0]] + a[1..] && b == [b[0]] + b[1..];
    }
    if a != [] {
      LessTotal(a[1..], a[1..]);
    }
  }

  lemma {:induction false} LessTransitive(a: string, b: string, c: string)
    requires Less(a, b) && Less(b, c)
    ensures Less(a, c)
  {
    if a != [] && a[0] == b[0] && b[0] == c[0] {
      LessTransitive(a[1..], b[1..], c[1..]);
    }
  }

  ghost predicate StrictlySorted<T(!new)>(xs: seq<T>, less: (T, T) -> bool) {
    forall i, j :: 0 <= i < j < |xs| ==> less(xs[i], xs[j])
  }

  ghost predicate Asymmetric<T(!new)>(less: (T, T) -> bool) {
    forall x, y :: !(less(x, y) && less(y, x))
  }

  lemma {:induction false} SameFirst<T(!new)>(a: seq<T>, b: seq<T>, less: (T, T) -> bool)
    requires Asymmetric(less) && StrictlySorted(a, less) && StrictlySorted(b, less) && Elems(a) == Elems(b)
    requires a != [] && b != []
    ensures a[0] == b[0]
  {
    assert a[0] in Elems(a) && b[0] in Elems(b);
    var k :| 0 <= k < |b| && b[k] == a[0];
    var l :| 0 <= l < |a| && a[l] == b[0];
    assert k > 0 ==> less(b[0], b[k]);
    assert l > 0 ==> less(a[0], a[l]);
  }

  /** A strictly sorted list is determined by its elements. */
  lemma {:induction false} SortedIsUnique<T(!new)>(a: seq<T>, b: seq<T>, less: (T, T) -> bool)
    requires Asymmetric(less) && StrictlySorted(a, less) && StrictlySorted(b, less) && Elems(a) == Elems(b)
    ensures a == b
  {
    assert |a| > 0 ==> a[0] in Elems(a);
    assert |b| > 0 ==> b[0] in Elems(b);
    if a != [] {
      SameFirst(a, b, less);
      TailElems(a, less);
      TailElems(b, less);
      SortedIsUnique(a[1..], b[1..], less);
      assert a == [a[0]] + a[1..] && b == [b[0]] + b[1..];
    }
  }

  lemma {:induction false} TailElems<T(!new)>(a: seq<T>, less: (T, T) -> bool)
    requires Asymmetric(less) && StrictlySorted(a, less) && a != []
    ensures Elems(a[1..]) == Elems(a) - {a[0]} && StrictlySorted(a[1..], less)
  {
    assert a == [a[0]] + a[1..];
    assert forall i :: 0 < i < |a| ==> less(a[0], a[i]) && a[i] != a[0];
  }

  /** A strict total order on the elements of `s`. */
  ghost predicate TotalOn<T(!new)>(s: set<T>, less: (T, T) -> bool) {
    && (forall x, y :: x in s && y in s ==> x == y || less(x, y) || less(y, x))
    && (forall x, y, z :: x in s && y in s && z in s && less(x, y) && less(y, z) ==> less(x, z))
  }

  lemma {:induction false} InsertKeepsSorted<T(!new)>(xs: seq<T>, x: T, k: nat, less: (T, T) -> bool)
    requires StrictlySorted(xs, less) && k <= |xs|
    requires forall i :: 0 <= i < k ==> less(xs[i], x)
    requires forall i :: k <= i < |xs| ==> less(x, xs[i])
    ensures StrictlySorted(xs[..k] + [x] + xs[k..], less)
    ensures Elems(xs[..k] + [x] + xs[k..]) == Elems(xs) + {x}
  {
    assert xs == xs[..k] + xs[k..];
  }

  /** Every finite set can be listed in order. */
  lemma {:induction false} SortedExists<T(!new)>(s: set<T>, less: (T, T) -> bool) returns (xs: seq<T>)
    requires TotalOn(s, less)
    ensures StrictlySorted(xs, less) && Elems(xs) == s
  {
    if s == {} {
      xs := [];
    } else {
      var x :| x in s;
      var rest := SortedExists(s - {x}, less);
      assert forall i :: 0 <= i < |rest| ==> rest[i] in Elems(rest);
      var k := 0;
      while k < |rest| && less(rest[k], x)
        invariant 0 <= k <= |rest|
        invariant forall i :: 0 <= i < k ==> less(rest[i], x)
      {
        k := k + 1;
      }
      forall i | k <= i < |rest| ensures less(x, rest[i]) {
        assert rest[k] in s && rest[i] in s && rest[k] != x;
        assert i > k ==> less(rest[k], rest[i]);
      }
      InsertKeepsSorted(rest, x, k, less);
      xs := rest[..k] + [x] + rest[k..];
    }
  }
}
