/** Reading a .env file into the environment (parseEnvFile, splitLines, parseEnvLine
    and trimSpace in pkg/config/config.go). */
module EnvFile {
  import opened Text

  // ---------------------------------------------------------------------- lines

  /** The lines of `data` that a newline has ended; carriage returns are dropped. */
  function Ended(data: string): seq<string> {
    if data == [] then []
    else
      var n := |data| - 1;
      if data[n] == '\n' then Ended(data[..n]) + [Open(data[..n])] else Ended(data[..n])
  }

  /** What has been read since the last newline. */
  function Open(data: string): string {
    if data == [] then []
    else
      var n := |data| - 1;
      if data[n] == '\n' then [] else if data[n] == '\r' then Open(data[..n]) else Open(data[..n]) + [data[n]]
  }

  function Lines(data: string): seq<string> {
    Ended(data) + if Open(data) != [] then [Open(data)] else []
  }

  method SplitLines(data: string) returns (lines: seq<string>)
    ensures lines == Lines(data)
  {
    lines := [];
    var line := "";
    for i := 0 to |data|
      invariant lines == Ended(data[..i]) && line == Open(data[..i])
    {
      assert data[..i + 1][..i] == data[..i];
      if data[i] == '\n' {
        lines := lines + [line];
        line := "";
      } else if data[i] != '\r' {
        line := line + [data[i]];
      }
    }
    assert data[..|data|] == data;
    if |line| > 0 {
      lines := lines + [line];
    }
  }

  // ----------------------------------------------------------------------- trim

  predicate IsBlank(c: char) { c == ' ' || c == '\t' }

  predicate AllBlank(s: string) { forall i :: 0 <= i < |s| ==> IsBlank(s[i]) }

  predicate NoEdgeBlanks(s: string) { s == [] || (!IsBlank(s[0]) && !IsBlank(s[|s| - 1])) }

  /** `r` is `s` without its blank edges. */
  predicate TrimmedAt(s: string, start: nat, end: nat) {
    && start <= end <= |s| && AllBlank(s[..start]) && AllBlank(s[end..]) && NoEdgeBlanks(s[start..end])
  }

  function BlankPrefix(s: string): (n: nat)
    ensures n <= |s| && AllBlank(s[..n]) && (n < |s| ==> !IsBlank(s[n]))
  {
    if s == [] || !IsBlank(s[0]) then 0
    else
      var n := 1 + BlankPrefix(s[1..]);
      assert s[..n] == [s[0]] + s[1..][..n - 1];
      n
  }

  function BlankSuffix(s: string): (n: nat)
    ensures n <= |s| && AllBlank(s[|s| - n..]) && (n < |s| ==> !IsBlank(s[|s| - n - 1]))
  {
    if s == [] || !IsBlank(s[|s| - 1]) then 0
    else
      var p := s[..|s| - 1];
      var n := 1 + BlankSuffix(p);
      assert s[|s| - n..] == p[|p| - (n - 1)..] + [s[|s| - 1]];
      n
  }

  function Trim(s: string): string {
    var t := s[BlankPrefix(s)..];
    t[..|t| - BlankSuffix(t)]
  }

  lemma {:induction false} BlankPrefixIs(s: string, n: nat)
    requires n <= |s| && AllBlank(s[..n]) && (n < |s| ==> !IsBlank(s[n]))
    ensures BlankPrefix(s) == n
  {
    if n > 0 {
      assert s[..n][0] == s[0] && s[1..][..n - 1] == s[..n][1..];
      BlankPrefixIs(s[1..], n - 1);
    }
  }

  lemma {:induction false} BlankSuffixIs(s: string, n: nat)
    requires n <= |s| && AllBlank(s[|s| - n..]) && (n < |s| ==> !IsBlank(s[|s| - n - 1]))
    ensures BlankSuffix(s) == n
  {
    if n > 0 {
      var p := s[..|s| - 1];
      assert s[|s| - n..][n - 1] == s[|s| - 1] && p[|p| - (n - 1)..] == s[|s| - n..][..n - 1];
      BlankSuffixIs(p, n - 1);
    }
  }

  lemma {:induction false} TrimIs(s: string, start: nat, end: nat)
    requires TrimmedAt(s, start, end)
    ensures Trim(s) == s[start..end]
  {
    if start == end {
      assert s == s[..start] + s[end..];
      assert s[..|s|] == s && s[|s|..] == [];
      BlankPrefixIs(s, |s|);
      BlankSuffixIs([], 0);
    } else {
      var r, t := s[start..end], s[start..];
      assert r[0] == s[start] && r[|r| - 1] == t[|r| - 1];
      BlankPrefixIs(s, start);
      assert t[|r|..] == s[end..] && t[..|r|] == r;
      BlankSuffixIs(t, |t| - |r|);
    }
  }

  lemma {:induction false} TrimKeeps(s: string)
    requires NoEdgeBlanks(s)
    ensures Trim(s) == s
  {
    assert s[..0] == [] && s[|s|..] == [] && s[0..|s|] == s;
    TrimIs(s, 0, |s|);
  }

  method TrimSpace(s: string) returns (r: string)
    ensures r == Trim(s)
  {
    var start, end := 0, |s|;
    while start < end && (s[start] == ' ' || s[start] == '\t')
      invariant start <= end && AllBlank(s[..start])
    {
      assert s[..start + 1] == s[..start] + [s[start]];
      start := start + 1;
    }
    while end > start && (s[end - 1] == ' ' || s[end - 1] == '\t')
      invariant start <= end <= |s| && AllBlank(s[end..])
    {
      assert s[end - 1..] == [s[end - 1]] + s[end..];
      end := end - 1;
    }
    TrimIs(s, start, end);
    return s[start..end];
  }

  // ----------------------------------------------------------------------- line

  datatype Pair = Pair(key: string, value: string)

  function Unquote(v: string): string {
    if |v| >= 2 && v[0] == v[|v| - 1] && (v[0] == '"' || v[0] == '\'') then v[1..|v| - 1] else v
  }

  function PairAt(line: string, i: nat): Option<Pair>
    requires i < |line|
  {
    var k := Trim(line[..i]);
    if k == [] then None else Some(Pair(k, Unquote(Trim(line[i + 1..]))))
  }

  /** The pair at the first '='. */
  function ParseLine(line: string, i: nat := 0): Option<Pair>
    requires i <= |line|
    decreases |line| - i
  {
    if i == |line| then None else if line[i] == '=' then PairAt(line, i) else ParseLine(line, i + 1)
  }

  lemma {:induction false} ParseLineAt(line: string, i: nat, j: nat)
    requires i <= j < |line| && line[j] == '=' && '=' !in line[i..j]
    ensures ParseLine(line, i) == PairAt(line, j)
    decreases j - i
  {
    if i < j {
      assert line[i..j][0] == line[i] && line[i..j][1..] == line[i + 1..j];
      ParseLineAt(line, i + 1, j);
    }
  }

  method ParseEnvLine(line: string) returns (r: Option<Pair>)
    ensures r == ParseLine(line)
  {
    for i := 0 to |line|
      invariant ParseLine(line) == ParseLine(line, i)
    {
      if line[i] != '=' {
        continue;
      }
      var k := TrimSpace(line[..i]);
      var v := TrimSpace(line[i + 1..]);
      if |v| >= 2 {
        if (v[0] == '"' && v[|v| - 1] == '"') || (v[0] == '\'' && v[|v| - 1] == '\'') {
          v := v[1..|v| - 1];
        }
      }
      return if k != "" then Some(Pair(k, v)) else None;
    }
    return None;
  }

  // ----------------------------------------------------------------------- file

  /** Empty lines, comments and lines without a key give nothing. */
  function LinePairs(line: string): seq<Pair> {
    if |line| == 0 || line[0] == '#' then []
    else match ParseLine(line)
         case None => []
         case Some(p) => [p]
  }

  function PairsOf(lines: seq<string>): seq<Pair> {
    if lines == [] then [] else PairsOf(lines[..|lines| - 1]) + LinePairs(lines[|lines| - 1])
  }

  type Env = map<string, string>

  function Getenv(env: Env, key: string): string {
    if key in env then env[key] else ""
  }

  /** What the operating system accepts; other settings fail and the failure is ignored. */
  predicate Settable(p: Pair) {
    p.key != [] && '=' !in p.key && '\0' !in p.key && '\0' !in p.value
  }

  function Export(env: Env, p: Pair): Env {
    if Getenv(env, p.key) == "" && Settable(p) then env[p.key := p.value] else env
  }

  function ExportAll(env: Env, ps: seq<Pair>): Env {
    if ps == [] then env else Export(ExportAll(env, ps[..|ps| - 1]), ps[|ps| - 1])
  }

  function ExportLine(env: Env, line: string): Env {
    var ps := LinePairs(line);
    if ps == [] then env else Export(env, ps[0])
  }

  lemma {:induction false} ExportNextLine(env: Env, lines: seq<string>, i: nat)
    requires i < |lines|
    ensures ExportAll(env, PairsOf(lines[..i + 1])) == ExportLine(ExportAll(env, PairsOf(lines[..i])), lines[i])
  {
    assert lines[..i + 1][..i] == lines[..i];
    var before, ps := PairsOf(lines[..i]), LinePairs(lines[i]);
    assert PairsOf(lines[..i + 1]) == before + ps;
    if ps != [] {
      assert (before + ps)[..|before|] == before;
    } else {
      assert before + ps == before;
    }
  }

  class Environ {
    var vars: Env

    method Setenv(key: string, value: string)
      modifies this
      ensures vars == if Settable(Pair(key, value)) then old(vars)[key := value] else old(vars)
      ensures vars == old(vars)[key := value] || vars == old(vars)
      ensures key != "" && '=' !in key && '\0' !in key + value ==> key in vars && vars[key] == value
    {
      if key != "" && '=' !in key && '\0' !in key && '\0' !in value {
        vars := vars[key := value];
      }
    }

    method ParseEnvFile(data: string)
      modifies this
      ensures vars == ExportAll(old(vars), PairsOf(Lines(data)))
    {
      var lines := SplitLines(data);
      for i := 0 to |lines|
        invariant vars == ExportAll(old(vars), PairsOf(lines[..i]))
      {
        var line := lines[i];
        ExportNextLine(old(vars), lines, i);
        if |line| == 0 || line[0] == '#' {
          continue;
        }
        var p := ParseEnvLine(line);
        if p.None? {
          continue;
        }
        if Getenv(vars, p.value.key) == "" {
          Setenv(p.value.key, p.value.value);
        }
      }
      assert lines[..|lines|] == lines;
    }
  }

  // ------------------------------------------------------------------- who wins

  /** The first value for `key` that is not empty and can be set; "" when there is none. */
  function FirstFor(ps: seq<Pair>, key: string): string {
    if ps == [] then ""
    else if ps[0].key == key && ps[0].value != "" && Settable(ps[0]) then ps[0].value
    else FirstFor(ps[1..], key)
  }

  lemma {:induction false} FirstOfAppend(ps: seq<Pair>, p: Pair, key: string)
    ensures FirstFor(ps + [p], key) == if FirstFor(ps, key) != "" then FirstFor(ps, key) else FirstFor([p], key)
  {
    if ps != [] {
      assert (ps + [p])[1..] == ps[1..] + [p];
      FirstOfAppend(ps[1..], p, key);
    } else {
      assert ps + [p] == [p];
    }
  }

  /** A variable that already has a value keeps it; any other takes the file's first
      usable value, and variables the file does not set stay as they were. */
  lemma {:induction false} FirstValueWins(env: Env, ps: seq<Pair>, key: string)
    ensures Getenv(ExportAll(env, ps), key) ==
            if Getenv(env, key) != "" then Getenv(env, key) else FirstFor(ps, key)
  {
    if ps != [] {
      var n := |ps| - 1;
      FirstValueWins(env, ps[..n], key);
      FirstOfAppend(ps[..n], ps[n], key);
      assert ps == ps[..n] + [ps[n]];
    }
  }

  // ----------------------------------------------------------------- round trip

  /** What a file may hold: lines that set nothing, and pairs, bare or quoted, with
      blanks before and after either side. */
  datatype Item = Note(text: string, crlf: bool) | Setting(pair: Pair, style: Style, pads: Pads, crlf: bool)

  datatype Style = Bare | Quoted(quote: char)

  datatype Pads = Pads(lead: string, beforeEq: string, afterEq: string, trail: string)

  predicate OneLine(s: string) { '\n' !in s && '\r' !in s }

  predicate Wrapped(v: string) {
    |v| >= 2 && v[0] == v[|v| - 1] && (v[0] == '"' || v[0] == '\'')
  }

  /** A comment, or no '=' at all, or nothing but blanks before the first. */
  ghost predicate SetsNothing(text: string) {
    || text == [] || text[0] == '#' || '=' !in text
    || exists n :: 0 <= n < |text| && text[n] == '=' && AllBlank(text[..n])
  }

  ghost predicate Good(it: Item) {
    match it
    case Note(text, _) => OneLine(text) && SetsNothing(text)
    case Setting(p, style, pads, _) =>
      && p.key != [] && OneLine(p.key) && '=' !in p.key && NoEdgeBlanks(p.key) && OneLine(p.value)
      && (pads.lead != "" || p.key[0] != '#')
      && AllBlank(pads.lead) && AllBlank(pads.beforeEq) && AllBlank(pads.afterEq) && AllBlank(pads.trail)
      && match style
         case Bare => NoEdgeBlanks(p.value) && !Wrapped(p.value)
         case Quoted(quote) => quote == '"' || quote == '\''
  }

  function Shown(value: string, style: Style): string {
    match style
    case Bare => value
    case Quoted(quote) => [quote] + value + [quote]
  }

  function Body(it: Item): string {
    match it
    case Note(text, _) => text
    case Setting(p, style, pads, _) =>
      (pads.lead + p.key + pads.beforeEq) + "=" + (pads.afterEq + Shown(p.value, style) + pads.trail)
  }

  function Print(items: seq<Item>): string {
    if items == [] then ""
    else
      var it := items[|items| - 1];
      Print(items[..|items| - 1]) + Body(it) + (if it.crlf then "\r\n" else "\n")
  }

  function Settings(items: seq<Item>): seq<Pair> {
    if items == [] then []
    else
      var it := items[|items| - 1];
      Settings(items[..|items| - 1]) + if it.Setting? then [it.pair] else []
  }

  lemma {:induction false} OneMoreChar(a: string, c: char)
    ensures c == '\n' ==> Ended(a + [c]) == Ended(a) + [Open(a)] && Open(a + [c]) == ""
    ensures c != '\n' ==> Ended(a + [c]) == Ended(a)
    ensures c == '\r' ==> Open(a + [c]) == Open(a)
    ensures c != '\n' && c != '\r' ==> Open(a + [c]) == Open(a) + [c]
  {
    assert (a + [c])[..|a|] == a;
  }

  lemma {:induction false} OneMoreText(a: string, s: string)
    requires OneLine(s)
    ensures Ended(a + s) == Ended(a) && Open(a + s) == Open(a) + s
  {
    if s != [] {
      var n := |s| - 1;
      OneMoreText(a, s[..n]);
      OneMoreChar(a + s[..n], s[n]);
      assert a + s[..n] + [s[n]] == a + s;
      assert Open(a) + s[..n] + [s[n]] == Open(a) + s;
    } else {
      assert a + s == a && Open(a) + s == Open(a);
    }
  }

  lemma {:induction false} OneMoreLine(a: string, s: string, crlf: bool)
    requires OneLine(s) && Open(a) == ""
    ensures
      var b := a + s + (if crlf then "\r\n" else "\n");
      Lines(b) == Lines(a) + [s] && Open(b) == ""
  {
    OneMoreText(a, s);
    assert Open(a) + s == s;
    if crlf {
      OneMoreChar(a + s, '\r');
      OneMoreChar(a + s + ['\r'], '\n');
      assert a + s + ['\r'] + ['\n'] == a + s + "\r\n";
    } else {
      OneMoreChar(a + s, '\n');
    }
  }

  lemma {:induction false} TrimPadded(s: string, before: string, text: string, after: string)
    requires s == before + text + after && AllBlank(before) && AllBlank(after) && NoEdgeBlanks(text)
    ensures Trim(s) == text
  {
    var start, end := |before|, |before| + |text|;
    assert s[..start] == before && s[end..] == after && s[start..end] == text;
    TrimIs(s, start, end);
  }

  lemma {:induction false} SplitAtEq(line: string, left: string, right: string)
    requires line == left + "=" + right && '=' !in left
    ensures ParseLine(line) == PairAt(line, |left|) && line[..|left|] == left && line[|left| + 1..] == right
  {
    assert line[0..|left|] == left;
    ParseLineAt(line, 0, |left|);
  }

  lemma {:induction false} ShownUnquotes(value: string, style: Style)
    requires match style
             case Bare => NoEdgeBlanks(value) && !Wrapped(value)
             case Quoted(quote) => quote == '"' || quote == '\''
    ensures NoEdgeBlanks(Shown(value, style)) && Unquote(Shown(value, style)) == value
  {
    if style.Quoted? {
      var quoted := [style.quote] + value + [style.quote];
      assert quoted[1..|quoted| - 1] == value;
    }
  }

  lemma {:induction false} PaddedParses(line: string, key: string, shown: string, pads: Pads)
    requires line == (pads.lead + key + pads.beforeEq) + "=" + (pads.afterEq + shown + pads.trail)
    requires key != [] && '=' !in key && NoEdgeBlanks(key) && NoEdgeBlanks(shown)
    requires AllBlank(pads.lead) && AllBlank(pads.beforeEq) && AllBlank(pads.afterEq) && AllBlank(pads.trail)
    ensures ParseLine(line) == Some(Pair(key, Unquote(shown)))
  {
    var left, right := pads.lead + key + pads.beforeEq, pads.afterEq + shown + pads.trail;
    SplitAtEq(line, left, right);
    TrimPadded(left, pads.lead, key, pads.beforeEq);
    TrimPadded(right, pads.afterEq, shown, pads.trail);
  }

  lemma {:induction false} SettingParses(it: Item, line: string)
    requires it.Setting? && Good(it) && line == Body(it)
    ensures LinePairs(line) == [it.pair]
  {
    var key, pads, shown := it.pair.key, it.pads, Shown(it.pair.value, it.style);
    ShownUnquotes(it.pair.value, it.style);
    PaddedParses(line, key, shown, pads);
    assert line[0] == (if pads.lead != "" then pads.lead[0] else key[0]);
  }

  lemma {:induction false} NoEqParses(line: string, i: nat)
    requires i <= |line| && '=' !in line
    ensures ParseLine(line, i) == None
    decreases |line| - i
  {
    if i < |line| {
      NoEqParses(line, i + 1);
    }
  }

  lemma {:induction false} NoteParses(text: string)
    requires SetsNothing(text)
    ensures LinePairs(text) == []
  {
    if '=' !in text {
      NoEqParses(text, 0);
    } else if text[0] != '#' {
      var n :| 0 <= n < |text| && text[n] == '=' && AllBlank(text[..n]);
      assert text[0..n] == text[..n];
      assert '=' !in text[..n];
      ParseLineAt(text, 0, n);
      TrimPadded(text[..n], text[..n], "", "");
    }
  }

  lemma {:induction false} ItemParses(it: Item)
    requires Good(it)
    ensures OneLine(Body(it)) && LinePairs(Body(it)) == if it.Setting? then [it.pair] else []
  {
    match it
    case Note(text, _) => NoteParses(text);
    case Setting(_, _, _, _) => SettingParses(it, Body(it));
  }

  /** Reading a printed file back gives its settings, in order: comments, lines without
      a key, padding and the line ending make no difference, a quoted value may hold
      anything but a line end, and a bare one anything that trimming and unquoting leave. */
  lemma {:induction false} PrintThenParse(items: seq<Item>)
    requires forall i :: 0 <= i < |items| ==> Good(items[i])
    ensures PairsOf(Lines(Print(items))) == Settings(items)
    ensures Open(Print(items)) == ""
  {
    if items != [] {
      var n := |items| - 1;
      var it, before := items[n], Print(items[..n]);
      PrintThenParse(items[..n]);
      ItemParses(it);
      OneMoreLine(before, Body(it), it.crlf);
      var lines := Lines(Print(items));
      assert lines == Lines(before) + [Body(it)];
      assert lines[..|lines| - 1] == Lines(before);
    }
  }

  /** The last line counts without a line ending. */
  lemma {:induction false} LastLineCounts(items: seq<Item>, last: Item)
    requires Good(last) && forall i :: 0 <= i < |items| ==> Good(items[i])
    ensures PairsOf(Lines(Print(items) + Body(last))) == Settings(items + [last])
  {
    var before, body := Print(items), Body(last);
    PrintThenParse(items);
    ItemParses(last);
    assert (items + [last])[..|items|] == items;
    if body != [] {
      OneMoreOpenLine(before, body);
      PairsOneMore(Lines(before), body);
    } else {
      assert before + body == before && Settings(items) + [] == Settings(items);
    }
  }

  lemma {:induction false} OneMoreOpenLine(a: string, s: string)
    requires OneLine(s) && Open(a) == "" && s != ""
    ensures Lines(a + s) == Lines(a) + [s]
  {
    OneMoreText(a, s);
    assert Open(a) + s == s;
  }

  lemma {:induction false} PairsOneMore(lines: seq<string>, line: string)
    ensures PairsOf(lines + [line]) == PairsOf(lines) + LinePairs(line)
  {
    assert (lines + [line])[..|lines|] == lines;
  }

  predicate NulFree(p: Pair) { '\0' !in p.key && '\0' !in p.value }

  /** The `i`-th setting is the first with a value for its key. */
  predicate FirstValueAt(ps: seq<Pair>, key: string, i: nat) {
    && i < |ps| && ps[i].key == key && ps[i].value != ""
    && forall j :: 0 <= j < i && ps[j].key == key ==> ps[j].value == ""
  }

  lemma {:induction false} FirstForIs(ps: seq<Pair>, key: string, i: nat)
    requires forall j :: 0 <= j < |ps| ==> Settable(ps[j])
    ensures FirstValueAt(ps, key, i) ==> FirstFor(ps, key) == ps[i].value
    ensures (forall j :: 0 <= j < |ps| && ps[j].key == key ==> ps[j].value == "") ==> FirstFor(ps, key) == ""
  {
    if ps != [] {
      FirstForIs(ps[1..], key, if i > 0 then i - 1 else 0);
    }
  }

  /** What a printed file without NUL bytes does to one variable: a value it has stays,
      otherwise it gets the first value that is not empty, if the file has one. */
  lemma {:induction false} FileSets(env: Env, items: seq<Item>, key: string, i: nat)
    requires forall k :: 0 <= k < |items| ==> Good(items[k]) && (items[k].Setting? ==> NulFree(items[k].pair))
    ensures
      var after, ps := Getenv(ExportAll(env, PairsOf(Lines(Print(items)))), key), Settings(items);
      && (Getenv(env, key) != "" ==> after == Getenv(env, key))
      && (Getenv(env, key) == "" && FirstValueAt(ps, key, i) ==> after == ps[i].value)
      && (Getenv(env, key) == "" && (forall j :: 0 <= j < |ps| && ps[j].key == key ==> ps[j].value == "") ==>
            after == "")
  {
    PrintThenParse(items);
    FirstValueWins(env, Settings(items), key);
    SettingsSettable(items);
    FirstForIs(Settings(items), key, i);
  }

  lemma {:induction false} SettingsSettable(items: seq<Item>)
    requires forall k :: 0 <= k < |items| ==> Good(items[k]) && (items[k].Setting? ==> NulFree(items[k].pair))
    ensures forall j :: 0 <= j < |Settings(items)| ==> Settable(Settings(items)[j])
  {
    if items != [] {
      SettingsSettable(items[..|items| - 1]);
    }
  }
}
