/** Reading the reason out of a reverted call (decodeRevert in pkg/ethkit/simulate.go)
    and printing bytes as hex (bytesToHexString in pkg/ethkit/simulate_alchemy.go). */
module RevertReason {
  import opened Text

  const LOWER: nat -> bool := (i: nat) => false

  // ------------------------------------------------------------------- printing

  method BytesToHexString(b: seq<byte>) returns (s: string)
    ensures s == HexText(b, LOWER)
  {
    var hex := "0123456789abcdef";
    assert forall v: nat :: v < 16 ==> hex[v] == HexDigit(v, false);
    var out := new char[2 * |b|];
    for i := 0 to |b|
      invariant forall k :: 0 <= k < 2 * i ==> out[k] == HexDigit(Nibble(b, k), false)
    {
      out[2 * i] := hex[b[i] as int / 16];
      out[2 * i + 1] := hex[b[i] as int % 16];
      assert Nibble(b, 2 * i) == b[i] as int / 16 && Nibble(b, 2 * i + 1) == b[i] as int % 16;
    }
    s := out[..];
    HexTextAt(b, LOWER);
  }

  lemma {:induction false} HexTextAt(b: seq<byte>, upper: nat -> bool)
    ensures forall k :: 0 <= k < 2 * |b| ==> HexText(b, upper)[k] == HexDigit(Nibble(b, k), upper(k))
  {
  }

  // ------------------------------------------------------------------- decoding

  /** `Panics` is Go's panic on a slice capacity out of range. */
  datatype Outcome = Reason(text: string) | Panics

  /** "0x" and the selector of Error(string). */
  const PREFIX := "0x08c379a0"
  const ELLIPSIS := "\U{E2}\U{80}\U{A6}"
  /** Where the length word and the text start. */
  const LENGTH_AT: nat := 2 + 8 + 64
  const DATA_AT: nat := 2 + 8 + 64 + 64

  function HexNumber(s: string): nat
    requires forall i :: 0 <= i < |s| ==> IsHexChar(s[i])
  {
    if s == [] then 0
    else
      assert IsHexChar(s[|s| - 1]);
      16 * HexNumber(s[..|s| - 1]) + HexValue(s[|s| - 1])
  }

  function ParseHexDigits(s: string): Option<nat> {
    if s != [] && forall i :: 0 <= i < |s| ==> IsHexChar(s[i]) then Some(HexNumber(s)) else None
  }

  /** big.Int.SetString in base 16: an optional sign, then at least one digit. */
  function ParseHexInt(s: string): Option<int> {
    if s != [] && (s[0] == '-' || s[0] == '+') then
      match ParseHexDigits(s[1..])
      case None => None
      case Some(n) => if s[0] == '-' then Some(-(n as int)) else Some(n)
    else
      match ParseHexDigits(s)
      case None => None
      case Some(n) => Some(n)
  }

  predicate IsBlank(c: char) { c == ' ' || c == '\t' || c == '\r' || c == 0x0B as char || c == 0x0C as char }

  /** fmt.Sscanf of two bytes with "%x": blanks are skipped, and the number ends at the
      first character that is not a hex digit. */
  function ScanByte(c: char, d: char): (r: Option<nat>)
    ensures r.Some? ==> r.value < 256
  {
    if IsHexChar(c) then Some(if IsHexChar(d) then 16 * HexValue(c) + HexValue(d) else HexValue(c))
    else if IsBlank(c) && IsHexChar(d) then Some(HexValue(d))
    else None
  }

  predicate HasPrefix(s: string, prefix: string) {
    |s| >= |prefix| && s[..|prefix|] == prefix
  }

  function Scanned(raw: string, k: nat): Option<nat>
    requires DATA_AT + 2 * k + 2 <= |raw|
  {
    ScanByte(raw[DATA_AT + 2 * k], raw[DATA_AT + 2 * k + 1])
  }

  predicate AllScan(raw: string, n: nat)
    requires DATA_AT + 2 * n <= |raw|
  {
    forall k :: 0 <= k < n ==> Scanned(raw, k).Some?
  }

  function ScannedText(raw: string, n: nat): string
    requires DATA_AT + 2 * n <= |raw| && AllScan(raw, n)
  {
    seq(n, k requires 0 <= k < n => (assert Scanned(raw, k).Some?; Scanned(raw, k).value) as char)
  }

  /** What the length word says: the low 64 bits as a signed number. */
  function ClaimedLength(raw: string): Option<int>
    requires |raw| >= DATA_AT
  {
    match ParseHexInt(raw[LENGTH_AT..DATA_AT])
    case None => None
    case Some(n) => Some(ToInt64(n))
  }

  function TextOf(raw: string, n: nat): Outcome
    requires DATA_AT + 2 * n <= |raw|
  {
    if AllScan(raw, n) then Reason(ScannedText(raw, n)) else Reason("")
  }

  /** `end` is where the text is computed to end; wrapped arithmetic can put it before
      the text even for a length that is not negative. */
  function Finish(raw: string, n: int, end: int): Outcome {
    if end > |raw| then Reason("")
    else if n < 0 || DATA_AT + 2 * n > |raw| then Panics
    else TextOf(raw, n)
  }

  function EndOf(n: int): int { ToInt64(DATA_AT + 2 * n) }

  function Decode(raw: string): Outcome {
    if !HasPrefix(raw, PREFIX) then Reason(if |raw| > 12 then raw[..12] + ELLIPSIS else raw)
    else if |raw| < DATA_AT then Reason("")
    else
      match ClaimedLength(raw)
      case None => Reason("")
      case Some(n) => Finish(raw, n, EndOf(n))
  }

  lemma {:induction false} ToInt64Is(n: int, wraps: int)
    requires -0x8000_0000_0000_0000 <= n - wraps * U64 <= I64_MAX
    ensures ToInt64(n) == n - wraps * U64
  {
    var r := n - wraps * U64;
    assert n % U64 == if r < 0 then r + U64 else r;
  }

  lemma {:induction false} EndArithmetic(n: int)
    requires -0x8000_0000_0000_0000 <= n <= I64_MAX
    ensures ToInt64(DATA_AT + ToInt64(n * 2)) == EndOf(n)
    ensures n >= 0 ==> EndOf(n) == DATA_AT + 2 * n || (EndOf(n) < DATA_AT && DATA_AT + 2 * n > I64_MAX)
  {
    var inner := if n * 2 > I64_MAX then 1 else if n * 2 < -0x8000_0000_0000_0000 then -1 else 0;
    ToInt64Is(n * 2, inner);
    var end := DATA_AT + 2 * n;
    var outer := if end > I64_MAX then 1 else if end < -0x8000_0000_0000_0000 then -1 else 0;
    ToInt64Is(end, outer);
    ToInt64Is(DATA_AT + (n * 2 - inner * U64), outer - inner);
  }

  /** `data` is the error's payload when it is a string. */
  method DecodeRevert(data: Option<string>) returns (r: Outcome)
    requires data.Some? ==> |data.value| <= I64_MAX
    ensures r == if data.None? then Reason("") else Decode(data.value)
  {
    if data.None? {
      return Reason("");
    }
    var raw := data.value;
    if !HasPrefix(raw, PREFIX) {
      if |raw| > 12 {
        return Reason(raw[..12] + ELLIPSIS);
      }
      return Reason(raw);
    }
    if |raw| < DATA_AT {
      return Reason("");
    }
    var length := ParseHexInt(raw[LENGTH_AT..DATA_AT]);
    if length.None? {
      return Reason("");
    }
    var bytesLen := ToInt64(length.value);
    EndArithmetic(bytesLen);
    r := ReadText(raw, bytesLen, ToInt64(DATA_AT + ToInt64(bytesLen * 2)));
  }

  method ReadText(raw: string, bytesLen: int, dataEnd: int) returns (r: Outcome)
    requires bytesLen >= 0 ==>
      dataEnd == DATA_AT + 2 * bytesLen || (dataEnd < DATA_AT && DATA_AT + 2 * bytesLen > |raw|)
    ensures r == Finish(raw, bytesLen, dataEnd)
  {
    if dataEnd > |raw| {
      return Reason("");
    }
    if bytesLen < 0 || dataEnd < DATA_AT {
      return Panics;
    }
    r := ReadPairs(raw, dataEnd);
  }

  method ReadPairs(raw: string, dataEnd: nat) returns (r: Outcome)
    requires DATA_AT <= dataEnd <= |raw| && (dataEnd - DATA_AT) % 2 == 0
    ensures r == TextOf(raw, (dataEnd - DATA_AT) / 2)
  {
    var out := "";
    var i: nat := DATA_AT;
    while i < dataEnd
      invariant DATA_AT <= i <= dataEnd && i == DATA_AT + 2 * |out|
      invariant AllScan(raw, |out|) && out == ScannedText(raw, |out|)
    {
      var b := ScanByte(raw[i], raw[i + 1]);
      if b.None? {
        assert Scanned(raw, |out|).None?;
        return Reason("");
      }
      out := out + [b.value as char];
      i := i + 2;
    }
    return Reason(out);
  }

  // -------------------------------------------------- what the reader is told

  /** A payload that is not Error(string) is shown as it is, or as its first twelve
      characters and an ellipsis; one too short for its length word says nothing. */
  lemma {:induction false} UnknownLayout(raw: string)
    ensures !("0x08c379a0" <= raw) && |raw| <= 12 ==> Decode(raw) == Reason(raw)
    ensures !("0x08c379a0" <= raw) && |raw| > 12 ==>
      Decode(raw).Reason? && Decode(raw).text[..] == raw[..12] + "\U{E2}\U{80}\U{A6}"
    ensures "0x08c379a0" <= raw && |raw| < 138 ==> Decode(raw) == Reason("")
  {
  }

  /** Two characters that do not spell a byte: the first one is neither a hex digit nor
      a blank before one. */
  predicate BadPair(raw: string, k: nat)
    requires 138 + 2 * k + 2 <= |raw|
  {
    !IsHexChar(raw[138 + 2 * k]) && !(IsBlank(raw[138 + 2 * k]) && IsHexChar(raw[139 + 2 * k]))
  }

  /** The character that pair `k` spells; a pair with one hex digit spells that digit. */
  function Spelled(raw: string, k: nat): nat
    requires 138 + 2 * k + 2 <= |raw| && !BadPair(raw, k)
  {
    var c, d := raw[138 + 2 * k], raw[139 + 2 * k];
    if IsHexChar(c) && IsHexChar(d) then HexValue(c) * 16 + HexValue(d)
    else if IsHexChar(c) then HexValue(c)
    else HexValue(d)
  }

  /** The length word is the hex number `n`, with or without a plus sign. */
  predicate SaysLength(raw: string, n: nat)
    requires |raw| >= 138
  {
    IsNumber(raw[74..138], n) || (raw[74] == '+' && IsNumber(raw[75..138], n))
  }

  lemma {:induction false} SignedLength(raw: string, n: nat)
    requires |raw| >= 138 && (raw[74] == '+' || raw[74] == '-') && IsNumber(raw[75..138], n)
    ensures ParseHexInt(raw[74..138]) == Some(if raw[74] == '+' then n else -(n as int))
  {
    assert raw[74..138][1..] == raw[75..138] && raw[74..138][0] == raw[74];
  }

  /** A minus sign before the length, which no contract writes, brings the decoder down. */
  lemma {:induction false} NegativeLength(raw: string, n: nat)
    requires "0x08c379a0" <= raw && 138 <= |raw| <= I64_MAX && raw[74] == '-' && IsNumber(raw[75..138], n)
    requires 0 < n <= 0x4000_0000_0000_0000
    ensures Decode(raw).Panics?
  {
    SignedLength(raw, n);
    ToInt64Is(-(n as int), 0);
  }

  /** An Error(string) whose length word says `n`: nothing is told when the
      payload ends before the text does or some pair of it is no byte, and otherwise the
      reason has the `n` characters that the pairs spell. */
  lemma {:induction false} KnownLayout(raw: string, n: nat)
    requires "0x08c379a0" <= raw && 138 <= |raw| <= I64_MAX && SaysLength(raw, n)
    requires n < 0x4000_0000_0000_0000 - 69
    ensures 138 + 2 * n > |raw| ==> Decode(raw) == Reason("")
    ensures 138 + 2 * n <= |raw| ==>
      if exists k :: 0 <= k < n && BadPair(raw, k) then Decode(raw) == Reason("")
      else
        && Decode(raw).Reason? && |Decode(raw).text| == n
        && forall k :: 0 <= k < n ==> Decode(raw).text[k] as int == Spelled(raw, k)
  {
    if IsNumber(raw[74..138], n) {
      LengthWord(raw, raw[74..138], n);
    } else {
      SignedLength(raw, n);
      ToInt64Is(n, 0);
    }
    EndArithmetic(n);
    if 138 + 2 * n <= |raw| {
      forall k | 0 <= k < n ensures Scanned(raw, k).None? <==> BadPair(raw, k)
        ensures !BadPair(raw, k) ==> Scanned(raw, k) == Some(Spelled(raw, k))
      {
      }
    }
  }

  /** A length word that is no number says nothing. */
  lemma {:induction false} BadLengthWord(raw: string, i: nat)
    requires "0x08c379a0" <= raw && 138 <= |raw| && 74 <= i < 138
    requires !IsHexChar(raw[i]) && (i > 74 || (raw[74] != '-' && raw[74] != '+'))
    ensures Decode(raw) == Reason("")
  {
    var word := raw[74..138];
    assert word[i - 74] == raw[i];
    if i > 74 {
      assert word[1..][i - 75] == raw[i];
    }
  }

  // ----------------------------------------------------------------- round trip

  function BigEndian(n: nat, k: nat): (w: seq<byte>)
    ensures |w| == k
  {
    if k == 0 then [] else BigEndian(n / 256, k - 1) + [(n % 256) as byte]
  }

  /** The 32-byte word of the contract ABI. */
  function Word(n: nat): seq<byte> { BigEndian(n, 32) }

  function Zeros(n: nat): seq<byte> { seq(n, _ => 0) }

  /** The arguments of Error(string): where the text starts, its length, its bytes, and
      zeros after it. */
  function Arguments(text: seq<byte>, padding: nat): seq<byte> {
    Word(32) + Word(|text|) + text + Zeros(padding)
  }

  const SELECTOR: seq<byte> := [0x08, 0xc3, 0x79, 0xa0]

  function Chars(text: seq<byte>): string {
    seq(|text|, i requires 0 <= i < |text| => text[i] as char)
  }

  function Shifted(upper: nat -> bool, shift: nat): nat -> bool {
    (i: nat) => upper(i + shift)
  }

  lemma {:induction false} HexTextOfConcat(a: seq<byte>, b: seq<byte>, upper: nat -> bool)
    ensures HexText(a + b, upper) == HexText(a, upper) + HexText(b, Shifted(upper, 2 * |a|))
  {
    var s, t := HexText(a + b, upper), HexText(a, upper) + HexText(b, Shifted(upper, 2 * |a|));
    forall i | 0 <= i < |s| ensures s[i] == t[i] {
      if i < 2 * |a| {
        assert Nibble(a + b, i) == Nibble(a, i);
      } else {
        assert Nibble(a + b, i) == Nibble(b, i - 2 * |a|);
      }
    }
  }

  function Pow256(k: nat): nat { if k == 0 then 1 else 256 * Pow256(k - 1) }

  lemma {:induction false} Pow256Grows(j: nat, k: nat)
    requires j <= k
    ensures Pow256(j) <= Pow256(k)
  {
    if j < k {
      Pow256Grows(j, k - 1);
    }
  }

  lemma {:induction false} HexNumberOfByte(s: string, b: byte, upper: nat -> bool)
    requires forall i :: 0 <= i < |s| ==> IsHexChar(s[i])
    ensures
      var t := s + HexText([b], upper);
      (forall i :: 0 <= i < |t| ==> IsHexChar(t[i])) && HexNumber(t) == 256 * HexNumber(s) + b as int
  {
    var h := HexText([b], upper);
    var t := s + h;
    assert HexValue(h[0]) == Nibble([b], 0) == b as int / 16;
    assert HexValue(h[1]) == Nibble([b], 1) == b as int % 16;
    assert t[..|t| - 1] == s + [h[0]] && (s + [h[0]])[..|s|] == s;
    assert t[|t| - 1] == h[1] && (s + [h[0]])[|s|] == h[0];
  }

  lemma {:induction false} HexNumberOfWord(n: nat, k: nat, upper: nat -> bool)
    requires n < Pow256(k)
    ensures HexNumber(HexText(BigEndian(n, k), upper)) == n
  {
    if k > 0 {
      var w := BigEndian(n / 256, k - 1);
      HexNumberOfWord(n / 256, k - 1, upper);
      HexTextOfConcat(w, [(n % 256) as byte], upper);
      HexNumberOfByte(HexText(w, upper), (n % 256) as byte, Shifted(upper, 2 * |w|));
    }
  }

  lemma {:induction false} Int64FitsWord(n: nat)
    requires n <= I64_MAX
    ensures n < Pow256(32)
  {
    assert Pow256(4) == 0x1_0000_0000;
    assert Pow256(8) == U64 by {
      assert Pow256(6) == 256 * 256 * Pow256(4) && Pow256(8) == 256 * 256 * Pow256(6);
    }
    Pow256Grows(8, 32);
  }

  /** `raw` starts with the selector's prefix, then prints the arguments for `text`. */
  predicate Prints(raw: string, text: seq<byte>, padding: nat, upper: nat -> bool) {
    raw == PREFIX + HexText(Arguments(text, padding), upper)
  }

  /** `hex` prints `bs`, in any letter case. */
  predicate HexOf(hex: string, bs: seq<byte>) {
    |hex| == 2 * |bs| && forall i :: 0 <= i < |hex| ==> IsHexChar(hex[i]) && HexValue(hex[i]) == Nibble(bs, i)
  }

  /** Printed piece by piece. */
  lemma {:induction false} HexPieces(a: seq<byte>, b: seq<byte>, c: seq<byte>, d: seq<byte>, upper: nat -> bool)
    returns (ha: string, hb: string, hc: string, hd: string)
    ensures HexText(a + b + c + d, upper) == ha + hb + hc + hd
    ensures |ha| == 2 * |a| && |hd| == 2 * |d|
    ensures hb == HexText(b, Shifted(upper, 2 * |a|)) && hc == HexText(c, Shifted(upper, 2 * |a + b|))
  {
    HexTextOfConcat(a + b + c, d, upper);
    HexTextOfConcat(a + b, c, upper);
    HexTextOfConcat(a, b, upper);
    ha, hb := HexText(a, upper), HexText(b, Shifted(upper, 2 * |a|));
    hc, hd := HexText(c, Shifted(upper, 2 * |a + b|)), HexText(d, Shifted(upper, 2 * |a + b + c|));
  }

  /** The length word and the text as printed. */
  lemma {:induction false} PrintedLayout(raw: string, text: seq<byte>, padding: nat, upper: nat -> bool)
    returns (word: string, hex: string)
    requires Prints(raw, text, padding, upper) && |text| <= I64_MAX
    ensures |raw| == DATA_AT + 2 * |text| + 2 * padding && HasPrefix(raw, PREFIX)
    ensures raw[LENGTH_AT..DATA_AT] == word && IsNumber(word, |text|)
    ensures raw[DATA_AT..DATA_AT + 2 * |text|] == hex && HexOf(hex, text)
  {
    var length := Word(|text|);
    var offset, zeros;
    offset, word, hex, zeros := HexPieces(Word(32), length, text, Zeros(padding), upper);
    WordPrints(|text|, Shifted(upper, 64));
    Slices(raw, PREFIX, offset, word, hex, zeros);
  }

  lemma {:induction false} WordPrints(n: nat, upper: nat -> bool)
    requires n <= I64_MAX
    ensures IsNumber(HexText(Word(n), upper), n)
  {
    Int64FitsWord(n);
    HexNumberOfWord(n, 32, upper);
  }

  lemma {:induction false} Slices(raw: string, a: string, b: string, c: string, d: string, e: string)
    requires raw == a + (b + c + d + e)
    ensures |raw| == |a| + |b| + |c| + |d| + |e| && raw[..|a|] == a
    ensures raw[|a| + |b|..|a| + |b| + |c|] == c
    ensures raw[|a| + |b| + |c|..|a| + |b| + |c| + |d|] == d
  {
  }

  predicate IsNumber(word: string, n: nat) {
    word != [] && (forall i :: 0 <= i < |word| ==> IsHexChar(word[i])) && HexNumber(word) == n
  }

  lemma {:induction false} LengthWord(raw: string, word: string, n: nat)
    requires |raw| >= DATA_AT && raw[LENGTH_AT..DATA_AT] == word && IsNumber(word, n) && n <= I64_MAX
    ensures ClaimedLength(raw) == Some(n)
  {
    assert IsHexChar(word[0]);
    assert ParseHexInt(word) == Some(n);
  }

  lemma {:induction false} ScanOne(raw: string, hex: string, text: seq<byte>, k: nat)
    requires |raw| >= DATA_AT + 2 * |text| && raw[DATA_AT..DATA_AT + 2 * |text|] == hex && HexOf(hex, text)
    requires k < |text|
    ensures Scanned(raw, k) == Some(text[k] as int)
  {
    assert raw[DATA_AT + 2 * k] == hex[2 * k] && raw[DATA_AT + 2 * k + 1] == hex[2 * k + 1];
    assert Nibble(text, 2 * k) == text[k] as int / 16 && Nibble(text, 2 * k + 1) == text[k] as int % 16;
  }

  lemma {:induction false} ScanText(raw: string, hex: string, text: seq<byte>)
    requires |raw| >= DATA_AT + 2 * |text| && raw[DATA_AT..DATA_AT + 2 * |text|] == hex && HexOf(hex, text)
    ensures AllScan(raw, |text|) && ScannedText(raw, |text|) == Chars(text)
  {
    forall k | 0 <= k < |text| ensures Scanned(raw, k) == Some(text[k] as int) {
      ScanOne(raw, hex, text, k);
    }
  }

  lemma {:induction false} DecodeGoodLength(raw: string, n: nat)
    requires HasPrefix(raw, PREFIX) && DATA_AT + 2 * n <= |raw| <= I64_MAX && ClaimedLength(raw) == Some(n)
    ensures Decode(raw) == TextOf(raw, n)
  {
    EndArithmetic(n);
  }

  /** Whatever bytes a contract reverts with, however the node cases the hex digits
      after the selector, and however many zeros follow, the text comes back. */
  lemma {:induction false} DecodeAnyCase(raw: string, text: seq<byte>, padding: nat, upper: nat -> bool)
    requires Prints(raw, text, padding, upper) && |raw| <= I64_MAX
    ensures Decode(raw) == Reason(Chars(text))
  {
    var word, hex := PrintedLayout(raw, text, padding, upper);
    LengthWord(raw, word, |text|);
    DecodeGoodLength(raw, |text|);
    ScanText(raw, hex, text);
  }

  lemma {:induction false} SelectorHex()
    ensures HexText(SELECTOR, LOWER) == "08c379a0"
  {
    HexTextAt(SELECTOR, LOWER);
  }

  /** Printing the whole payload with bytesToHexString and decoding it gives the text. */
  method RoundTrip(text: seq<byte>, padding: nat) returns (r: Outcome)
    requires DATA_AT + 2 * |text| + 2 * padding <= I64_MAX
    ensures r == Reason(Chars(text))
  {
    var args := Arguments(text, padding);
    var hex := BytesToHexString(SELECTOR + args);
    HexTextOfConcat(SELECTOR, args, LOWER);
    SelectorHex();
    var raw := "0x" + hex;
    assert raw == PREFIX + HexText(args, Shifted(LOWER, 8));
    DecodeAnyCase(raw, text, padding, Shifted(LOWER, 8));
    r := DecodeRevert(Some(raw));
  }

  /** Decoding panics exactly when the payload carries a length word whose signed
      64-bit value is negative or too large for the end of the text to be computed,
      except for the most negative ones, whose end wraps around past the payload. */
  lemma {:induction false} PanicsExactlyWhen(raw: string)
    requires |raw| <= I64_MAX
    ensures Decode(raw).Panics? <==>
      && HasPrefix(raw, PREFIX) && |raw| >= DATA_AT && ClaimedLength(raw).Some?
      && var n := ClaimedLength(raw).value;
         || n >= 0x4000_0000_0000_0000 - 69
         || -0x4000_0000_0000_0000 - 69 <= n < 0
         || 2 * (n + 0x8000_0000_0000_0000) <= |raw| - DATA_AT
  {
  }
}
