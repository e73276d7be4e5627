/** bs.js: the browser's beanstalkd client. Responses arrive as chunks of text
  * appended to a buffer; a loop cuts the buffer into `\r\n`-terminated headers
  * and, after a `RESERVED`, `FOUND` or `OK` header, into a payload of the
  * announced length, and hands each complete response to the oldest waiting
  * callback. Requests are framed by `_send`; list and dictionary payloads are
  * the server's small YAML subset. The WebSocket and the promises are not
  * modelled: a callback is the `Expect` it was registered with, and calling it
  * appends a `Call` to a log. */
module Beanstalk {
  import opened Wrappers

  // ---------------------------------------------------------------------------
  // The JavaScript string operations the client relies on.

  /** `s.split(sep)`: the pieces between separators, so one more piece than
    * there are separators, and `[""]` for the empty string. */
  function Split(s: string, sep: char): (parts: seq<string>)
    ensures |parts| >= 1
    ensures forall i :: 0 <= i < |parts| ==> sep !in parts[i]
    decreases |s|
  {
    if |s| == 0 then [""]
    else if s[0] == sep then [""] + Split(s[1..], sep)
    else
      var t := Split(s[1..], sep);
      [[s[0]] + t[0]] + t[1..]
  }

  /** `parts.join(sep)`, the inverse of `split`. */
  function Join(parts: seq<string>, sep: char): string
    requires |parts| >= 1
    decreases |parts|
  {
    if |parts| == 1 then parts[0] else parts[0] + [sep] + Join(parts[1..], sep)
  }

  /** `join` undoes `split`. */
  lemma {:induction false} JoinSplit(s: string, sep: char)
    ensures Join(Split(s, sep), sep) == s
    decreases |s|
  {
    if |s| > 0 {
      JoinSplit(s[1..], sep);
      var t := Split(s[1..], sep);
      if s[0] == sep {
        assert ([""] + t)[1..] == t;
      } else {
        assert s == [s[0]] + s[1..];
        assert ([[s[0]] + t[0]] + t[1..])[1..] == t[1..];
      }
    }
  }

  /** A string without the separator is one piece. */
  lemma {:induction false} SplitNoSeparator(s: string, sep: char)
    requires sep !in s
    ensures Split(s, sep) == [s]
    decreases |s|
  {
    if |s| > 0 {
      assert sep !in s[1..];
      SplitNoSeparator(s[1..], sep);
      assert s == [s[0]] + s[1..];
    }
  }

  /** Splitting at a separator splits the two sides independently. */
  lemma {:induction false} SplitAt(a: string, sep: char, b: string)
    ensures Split(a + [sep] + b, sep) == Split(a, sep) + Split(b, sep)
    decreases |a|
  {
    var s := a + [sep] + b;
    if |a| == 0 {
      assert s[1..] == b;
    } else {
      assert s[1..] == a[1..] + [sep] + b;
      SplitAt(a[1..], sep, b);
    }
  }

  /** `split` undoes `join` when no piece holds the separator. */
  lemma {:induction false} SplitJoin(parts: seq<string>, sep: char)
    requires |parts| >= 1
    requires forall i :: 0 <= i < |parts| ==> sep !in parts[i]
    ensures Split(Join(parts, sep), sep) == parts
    decreases |parts|
  {
    SplitNoSeparator(parts[0], sep);
    if |parts| > 1 {
      SplitJoin(parts[1..], sep);
      SplitAt(parts[0], sep, Join(parts[1..], sep));
      assert [parts[0]] + parts[1..] == parts;
    }
  }

  /** `s.substring(start, end)`: both ends clamped to `[0, |s|]`, and swapped
    * when `start > end`. */
  function Substring(s: string, start: int, end: int): (r: string)
    ensures 0 <= start <= end <= |s| ==> r == s[start..end]
    ensures |r| <= |s|
  {
    var a := if start < 0 then 0 else if start > |s| then |s| else start;
    var b := if end < 0 then 0 else if end > |s| then |s| else end;
    if a <= b then s[a..b] else s[b..a]
  }

  /** `s.indexOf(c)`: the first position of `c`. */
  function IndexOf(s: string, c: char): (r: Option<nat>)
    ensures r.None? <==> c !in s
    ensures r.Some? ==> r.value < |s| && s[r.value] == c && c !in s[..r.value]
  {
    if |s| == 0 then None
    else if s[0] == c then Some(0)
    else
      match IndexOf(s[1..], c)
      case None => None
      case Some(i) =>
        assert s[..i + 1] == [s[0]] + s[1..][..i];
        Some(i + 1)
  }

  /** No `\r\n` starts before position `n`. */
  predicate NoCrlfBefore(s: string, n: int) {
    forall i :: 0 <= i < n && i + 1 < |s| ==> !(s[i] == '\r' && s[i + 1] == '\n')
  }

  /** `buffer.indexOf('\r\n')`: the first `\r\n`. */
  function FindCrlf(s: string): (r: Option<nat>)
    ensures r.Some? ==> r.value + 2 <= |s| && s[r.value] == '\r' && s[r.value + 1] == '\n' && NoCrlfBefore(s, r.value)
    ensures r.None? ==> NoCrlfBefore(s, |s|)
  {
    if |s| < 2 then None
    else if s[0] == '\r' && s[1] == '\n' then Some(0)
    else
      match FindCrlf(s[1..])
      case None => None
      case Some(i) => Some(i + 1)
  }

  /** The first `\r\n` of a string is still the first after more is appended. */
  lemma FindCrlfExtends(a: string, b: string)
    requires FindCrlf(a).Some?
    ensures FindCrlf(a + b) == FindCrlf(a)
  {
    var i := FindCrlf(a).value;
    var s := a + b;
    assert s[i] == '\r' && s[i + 1] == '\n';
    forall j | 0 <= j < i
      ensures !(s[j] == '\r' && s[j + 1] == '\n')
    {
      assert s[j] == a[j] && s[j + 1] == a[j + 1];
    }
  }

  /** A header without a line feed, followed by `\r\n`, ends where the header
    * does. */
  lemma FindCrlfAfter(h: string, rest: string)
    requires '\n' !in h
    ensures FindCrlf(h + "\r\n" + rest) == Some(|h|)
  {
    var s := h + "\r\n" + rest;
    assert s[|h|] == '\r' && s[|h| + 1] == '\n';
    forall i | 0 <= i < |h| && i + 1 < |s|
      ensures !(s[i] == '\r' && s[i + 1] == '\n')
    {
      if i + 1 < |h| {
        assert s[i + 1] == h[i + 1];
      } else {
        assert s[i + 1] == '\r';
      }
    }
  }

  // ---------------------------------------------------------------------------
  // Decimal numbers.

  predicate IsDigit(c: char) {
    '0' <= c <= '9'
  }

  predicate AllDigits(s: string) {
    forall i :: 0 <= i < |s| ==> IsDigit(s[i])
  }

  /** The value of a string of decimal digits. */
  function DigitsValue(s: string): nat
    requires AllDigits(s)
  {
    if |s| == 0 then 0
    else DigitsValue(s[..|s| - 1]) * 10 + (s[|s| - 1] as int - '0' as int)
  }

  /** `${n}` for a length `n`: its decimal digits, which read back as `n`. */
  function Decimal(n: nat): (s: string)
    ensures |s| >= 1 && AllDigits(s) && DigitsValue(s) == n
  {
    var last := ('0' as int + n % 10) as char;
    if n < 10 then
      assert [last][..0] == [];
      [last]
    else
      var s := Decimal(n / 10) + [last];
      assert s[..|s| - 1] == Decimal(n / 10);
      s
  }

  /** A decimal number has neither spaces nor line feeds. */
  lemma DigitsAreText(s: string)
    requires AllDigits(s)
    ensures ' ' !in s && '\n' !in s && '\r' !in s
  {
    forall i | 0 <= i < |s|
      ensures s[i] != ' ' && s[i] != '\n' && s[i] != '\r'
    {
      assert IsDigit(s[i]);
    }
  }

  /** `Number(token)` as the truthiness test and payload size use it: a string
    * of digits is its value; anything else beanstalkd could send (an empty
    * token, a word) is `NaN` or 0, both of which the loop treats as 0. */
  function Size(token: string): (n: nat)
    ensures AllDigits(token) && |token| > 0 ==> n == DigitsValue(token)
  {
    if |token| > 0 && AllDigits(token) then DigitsValue(token) else 0
  }

  // ---------------------------------------------------------------------------
  // `_parseYAMLList`: `---\n` then one `- item` per line.

  const Header: string := "---\n"

  /** The `data.substring(0, 4) != "---\n"` test is a prefix test. */
  lemma HeaderTest(data: string)
    ensures Substring(data, 0, 4) == Header <==> |data| >= 4 && data[..4] == Header
  {
    if |data| < 4 {
      assert |Substring(data, 0, 4)| < |Header|;
    }
  }

  datatype YamlList = RawList(text: string) | Items(items: seq<string>)

  /** Without the `---\n` header the text comes back as it is; otherwise the
    * header and the last character are dropped, the rest is split into lines,
    * and each line loses its first two characters. */
  function ParseYamlList(data: string): (r: YamlList)
    ensures r.RawList? <==> !(|data| >= 4 && data[..4] == Header)
    ensures r.RawList? ==> r.text == data
  {
    HeaderTest(data);
    if Substring(data, 0, 4) != Header then
      RawList(data)
    else
      Items(Undash(Split(Substring(data, 4, |data| - 1), '\n')))
  }

  /** `line.substring(2)` for every line. */
  function Undash(lines: seq<string>): (r: seq<string>)
    ensures |r| == |lines| && forall i :: 0 <= i < |lines| ==> r[i] == Substring(lines[i], 2, |lines[i]|)
  {
    seq(|lines|, i requires 0 <= i < |lines| => Substring(lines[i], 2, |lines[i]|))
  }

  /** What beanstalkd sends for a list: the header, then `- item\n` per item. */
  function ListText(items: seq<string>): string {
    if |items| == 0 then "" else "- " + items[0] + "\n" + ListText(items[1..])
  }

  function Dashed(items: seq<string>): (r: seq<string>)
    ensures |r| == |items| && forall i :: 0 <= i < |items| ==> r[i] == "- " + items[i]
  {
    seq(|items|, i requires 0 <= i < |items| => "- " + items[i])
  }

  lemma {:induction false} ListTextJoined(items: seq<string>)
    requires |items| >= 1
    ensures ListText(items) == Join(Dashed(items), '\n') + "\n"
    decreases |items|
  {
    if |items| > 1 {
      ListTextJoined(items[1..]);
      assert Dashed(items)[1..] == Dashed(items[1..]);
    }
  }

  /** The lines between the header and the last line feed are the dashed
    * items. */
  lemma ListLines(items: seq<string>)
    requires |items| >= 1
    requires forall i :: 0 <= i < |items| ==> '\n' !in items[i]
    ensures var data := Header + ListText(items);
      && |data| >= 5 && data[..4] == Header
      && Split(Substring(data, 4, |data| - 1), '\n') == Dashed(items)
  {
    var data := Header + ListText(items);
    ListTextJoined(items);
    var joined := Join(Dashed(items), '\n');
    assert data == Header + joined + "\n";
    assert data[..4] == Header;
    assert data[4..|data| - 1] == joined;
    forall i | 0 <= i < |items|
      ensures '\n' !in Dashed(items)[i]
    {
      assert Dashed(items)[i] == "- " + items[i];
    }
    SplitJoin(Dashed(items), '\n');
  }

  /** A non-empty list of items without line feeds parses back from the text
    * beanstalkd sends for it. */
  lemma ListRoundTrip(items: seq<string>)
    requires |items| >= 1
    requires forall i :: 0 <= i < |items| ==> '\n' !in items[i]
    ensures ParseYamlList(Header + ListText(items)) == Items(items)
  {
    ListLines(items);
    UndashDashed(items);
  }

  /** Undashing the dashed items gives them back. */
  lemma UndashDashed(items: seq<string>)
    ensures Undash(Dashed(items)) == items
  {
    var lines := Dashed(items);
    forall i | 0 <= i < |items|
      ensures Undash(lines)[i] == items[i]
    {
      Undashed(items[i]);
    }
  }

  /** Dropping the first two characters of `- item` gives the item back. */
  lemma Undashed(item: string)
    ensures Substring("- " + item, 2, |"- " + item|) == item
  {
    assert ("- " + item)[2..] == item;
  }

  /** The header alone is not the empty list: the header and last character
    * overlap, so it reads as two empty items. */
  lemma HeaderOnlyList()
    ensures ParseYamlList(Header) == Items(["", ""])
  {
    assert Substring(Header, 4, 3) == "\n";
    assert Split("\n", '\n') == ["", ""] by {
      assert "\n"[1..] == "";
    }
  }

  // ---------------------------------------------------------------------------
  // `_parseYAMLDict`: `---\n` then one `key: value` per line.

  /** A value is kept as text when `isNaN` says so, and otherwise replaced by
    * `parseInt`, which may itself be `NaN`. */
  datatype Value = Text(text: string) | Int(value: int) | NotANumber

  /** The digits of `s` before its first non-digit. */
  function LeadingDigits(s: string): (n: nat)
    ensures n <= |s| && AllDigits(s[..n]) && (n < |s| ==> !IsDigit(s[n]))
  {
    if |s| == 0 || !IsDigit(s[0]) then 0
    else
      var n := LeadingDigits(s[1..]);
      assert s[..n + 1] == [s[0]] + s[1..][..n];
      n + 1
  }

  /** `s` without a leading sign. */
  function Unsigned(s: string): string {
    if |s| > 0 && (s[0] == '+' || s[0] == '-') then s[1..] else s
  }

  /** What `Number` reads as a decimal, so that `isNaN` is false: the empty
    * string, or an optional sign, digits and an optional fraction, with at
    * least one digit. */
  predicate IsNumeric(s: string) {
    var b := Unsigned(s);
    var n := LeadingDigits(b);
    s == "" || (if n == |b| then n > 0 else b[n] == '.' && AllDigits(b[n + 1..]) && (n > 0 || |b| > n + 1))
  }

  /** `parseInt(s)`: an optional sign and the leading digits; none is `NaN`. */
  function ParseInt(s: string): (r: Option<int>)
    ensures r.None? <==> LeadingDigits(Unsigned(s)) == 0
  {
    var b := Unsigned(s);
    var n := LeadingDigits(b);
    var m: int := if n == 0 then 0 else DigitsValue(b[..n]);
    if n == 0 then None
    else if |s| > 0 && s[0] == '-' then Some(-m)
    else Some(m)
  }

  /** `isNaN(v) ? v : parseInt(v)`. */
  function ValueOf(v: string): Value {
    if !IsNumeric(v) then Text(v)
    else match ParseInt(v)
      case Some(n) => Int(n)
      case None => NotANumber
  }

  /** A plain count reads as its value; a decimal fraction is cut to its integer
    * part; a word stays text; the empty value is `NaN`. */
  lemma ValueCases(v: string)
    ensures |v| > 0 && AllDigits(v) ==> ValueOf(v) == Int(DigitsValue(v))
    ensures |v| > 0 && !IsDigit(v[0]) && v[0] != '+' && v[0] != '-' && v[0] != '.' ==> ValueOf(v) == Text(v)
    ensures v == "" ==> ValueOf(v) == NotANumber
  {
    if |v| > 0 && AllDigits(v) {
      assert IsDigit(v[0]);
      var n := LeadingDigits(v);
      assert v[..|v|] == v;
    }
  }

  /** One line: nothing without a `:`; otherwise the text before the first `:`
    * is the key, and the value starts two characters after it. */
  function Entry(line: string): (r: Option<(string, Value)>)
    ensures r.None? <==> ':' !in line
    ensures r.Some? ==> ':' !in r.value.0 && r.value.0 + [':'] <= line
  {
    match IndexOf(line, ':')
    case None => None
    case Some(idx) =>
      assert line[..idx] + [':'] == line[..idx + 1];
      Some((line[..idx], ValueOf(Substring(line, idx + 2, |line|))))
  }

  /** `key: value` with a key that holds no `:` reads back as that pair. */
  lemma EntryRoundTrip(key: string, v: string)
    requires ':' !in key
    ensures Entry(key + ": " + v) == Some((key, ValueOf(v)))
  {
    var line := key + ": " + v;
    assert line[|key|] == ':';
    assert line[..|key|] == key;
    var idx := IndexOf(line, ':').value;
    assert idx <= |key| ==> line[..idx] == key[..idx];
    assert idx == |key|;
    assert Substring(line, idx + 2, |line|) == v;
    assert line[..|key|] == key;
    assert line[|key| + 2..] == v;
  }

  /** The dictionary built from the lines so far: each line with a key sets
    * that key, later lines overwriting earlier ones. */
  function Fold(lines: seq<string>): map<string, Value> {
    if |lines| == 0 then map[]
    else
      var m := Fold(lines[..|lines| - 1]);
      match Entry(lines[|lines| - 1])
      case None => m
      case Some((k, v)) => m[k := v]
  }

  /** The line gives key `k`. */
  predicate Gives(line: string, k: string) {
    Entry(line).Some? && Entry(line).value.0 == k
  }

  /** The last line adds its key, if it has one, to those before it. */
  lemma FoldKeyStep(lines: seq<string>, k: string)
    requires |lines| > 0
    ensures k in Fold(lines) <==> Gives(lines[|lines| - 1], k) || k in Fold(lines[..|lines| - 1])
  {
  }

  /** A key is in the dictionary exactly when some line gives it. */
  lemma {:induction false} FoldKeys(lines: seq<string>, k: string)
    ensures k in Fold(lines) <==> exists i :: 0 <= i < |lines| && Gives(lines[i], k)
    decreases |lines|
  {
    if |lines| > 0 {
      var last := |lines| - 1;
      var init := lines[..last];
      FoldKeys(init, k);
      FoldKeyStep(lines, k);
      if k in Fold(lines) {
        if Gives(lines[last], k) {
          assert 0 <= last < |lines| && Gives(lines[last], k);
        } else {
          var i :| 0 <= i < |init| && Gives(init[i], k);
          assert 0 <= i < |lines| && Gives(lines[i], k);
        }
      }
      if exists i :: 0 <= i < |lines| && Gives(lines[i], k) {
        var i :| 0 <= i < |lines| && Gives(lines[i], k);
        if i < last {
          assert init[i] == lines[i];
          assert k in Fold(init);
        } else {
          assert i == last;
        }
      }
    }
  }

  /** The value of a key is the one on the last line that gives it. */
  lemma {:induction false} FoldLast(lines: seq<string>, i: int)
    requires 0 <= i < |lines| && Entry(lines[i]).Some?
    requires forall j :: i < j < |lines| ==> Entry(lines[j]).None? || Entry(lines[j]).value.0 != Entry(lines[i]).value.0
    ensures Entry(lines[i]).value.0 in Fold(lines)
    ensures Fold(lines)[Entry(lines[i]).value.0] == Entry(lines[i]).value.1
    decreases |lines|
  {
    var init := lines[..|lines| - 1];
    if i < |lines| - 1 {
      assert init[i] == lines[i];
      forall j | i < j < |init|
        ensures Entry(init[j]).None? || Entry(init[j]).value.0 != Entry(init[i]).value.0
      {
        assert init[j] == lines[j];
      }
      FoldLast(init, i);
    }
  }

  /** One more line sets its key, if it has one. */
  lemma FoldStep(lines: seq<string>, i: int)
    requires 0 <= i < |lines|
    ensures Fold(lines[..i + 1]) == match Entry(lines[i])
      case None => Fold(lines[..i])
      case Some((k, v)) => Fold(lines[..i])[k := v]
  {
    assert lines[..i + 1][..i] == lines[..i];
  }

  datatype YamlDict = RawDict(text: string) | Dict(entries: map<string, Value>)

  /** `_parseYAMLDict(data)`: the text unchanged without the header, otherwise
    * the lines after it folded into a dictionary. */
  method ParseYamlDict(data: string) returns (r: YamlDict)
    ensures !(|data| >= 4 && data[..4] == Header) ==> r == RawDict(data)
    ensures |data| >= 4 && data[..4] == Header ==> r == Dict(Fold(Split(data[4..], '\n')))
  {
    HeaderTest(data);
    if Substring(data, 0, 4) != Header {
      return RawDict(data);
    }
    var ret: map<string, Value> := map[];
    assert Substring(data, 4, |data|) == data[4..];
    var l := Split(Substring(data, 4, |data|), '\n');
    for i := 0 to |l|
      invariant ret == Fold(l[..i])
    {
      FoldStep(l, i);
      var line := l[i];
      var idx := IndexOf(line, ':');
      if idx.None? {
        continue;
      }
      var k := line[..idx.value];
      var v := Substring(line, idx.value + 2, |line|);
      ret := ret[k := ValueOf(v)];
    }
    assert l[..|l|] == l;
    assert ret == Fold(l);
    return Dict(ret);
  }

  // ---------------------------------------------------------------------------
  // Responses and the callbacks waiting for them.

  /** The commands whose response carries a payload. */
  const PayloadCommands: seq<string> := ["RESERVED", "FOUND", "OK"]

  /** The errors every request rejects on, before its own. */
  const CommonErrors: seq<string> := ["OUT_OF_MEMORY", "INTERNAL_ERROR", "BAD_FORMAT", "UNKNOWN_COMMAND"]

  /** A callback registered by `_buildr`: the word it accepts and its own error
    * words. */
  datatype Expect = Expect(good: string, bad: seq<string>)

  /** A callback called with the words of a response. */
  datatype Call = Call(callback: Expect, args: seq<string>)

  /** How the promise settles: rejected with the response, resolved with the
    * words after the first, or rejected with `"INVALID_RESPONSE"` (the extra
    * arguments of that `rej` call are dropped by the promise). */
  datatype Outcome = Rejected(response: seq<string>) | Accepted(args: seq<string>) | Invalid

  /** The callback `_buildr` pushes: the error words are checked first, then the
    * good word, and anything else is invalid. */
  function Settle(e: Expect, cmd: seq<string>): (o: Outcome)
    ensures o.Rejected? <==> |cmd| > 0 && cmd[0] in CommonErrors + e.bad
    ensures o.Accepted? <==> |cmd| > 0 && cmd[0] !in CommonErrors + e.bad && cmd[0] == e.good
    ensures o.Rejected? ==> o.response == cmd
    ensures o.Accepted? ==> o.args == cmd[1..]
  {
    var errors := CommonErrors + e.bad;
    if |cmd| > 0 && cmd[0] in errors then Rejected(cmd)
    else if |cmd| > 0 && cmd[0] == e.good then Accepted(cmd[1..])
    else Invalid
  }

  // ---------------------------------------------------------------------------
  // The message loop.

  /** The loop's state: the unread text, the waiting callbacks oldest first, and
    * the size and header words of the payload being waited for. */
  datatype Reader = Reader(buffer: string, pending: seq<Expect>, size: nat, command: Option<seq<string>>)

  /** Where draining the buffer stops, the callbacks it called in order, and
    * whether it threw by calling a callback that was not there. */
  datatype Drained = Drained(reader: Reader, calls: seq<Call>, thrown: bool)

  /** bs.js decides that a payload is awaited by `pendingDataSize` being
    * truthy; the intended test is that a payload header was read. */
  datatype Framing = AsWritten | Intended

  predicate AwaitsPayload(r: Reader, f: Framing) {
    match f
    case AsWritten => r.size != 0
    case Intended => r.command.Some?
  }

  function Words(command: Option<seq<string>>): seq<string> {
    match command
    case None => []
    case Some(words) => words
  }

  /** One turn of the loop over `buffer`. */
  datatype Turn =
    | Stop                             // empty or incomplete: wait for more text
    | Throw(after: Reader)             // a response with no callback waiting for it
    | Next(after: Reader, call: Option<Call>)

  /** A payload of `size` characters is cut off with the two characters after
    * it, whatever they are; a header is cut at its `\r\n` and split into
    * words. A payload header only records what to wait for; any other complete
    * response goes to the oldest callback, and calling a callback that is not
    * there throws after the response was consumed. */
  function Step(r: Reader, f: Framing): (t: Turn)
    ensures t.Throw? ==> t.after.pending == r.pending == [] && |t.after.buffer| < |r.buffer|
    ensures t.Next? ==> |t.after.buffer| < |r.buffer|
    ensures t.Next? && t.call.Some? ==> |r.pending| > 0 && t.call.value.callback == r.pending[0] && t.after.pending == r.pending[1..]
    ensures t.Next? && t.call.None? ==> t.after.pending == r.pending
    ensures t.Next? && t.call.Some? ==> |t.call.value.args| >= 1
  {
    if |r.buffer| == 0 then Stop
    else if AwaitsPayload(r, f) then
      if |r.buffer| < r.size + 2 then Stop
      else
        var data := r.buffer[..r.size];
        var rest := r.buffer[r.size + 2..];
        if |r.pending| == 0 then Throw(r.(buffer := rest))
        else Next(Reader(rest, r.pending[1..], 0, None), Some(Call(r.pending[0], Words(r.command) + [data])))
    else
      match FindCrlf(r.buffer)
      case None => Stop
      case Some(index) =>
        var rest := r.buffer[index + 2..];
        var cmd := Split(r.buffer[..index], ' ');
        if cmd[0] in PayloadCommands then
          Next(r.(buffer := rest, command := Some(cmd[..|cmd| - 1]), size := Size(cmd[|cmd| - 1])), None)
        else if |r.pending| == 0 then Throw(r.(buffer := rest))
        else Next(r.(buffer := rest, pending := r.pending[1..]), Some(Call(r.pending[0], cmd)))
  }

  function Calls(call: Option<Call>): seq<Call> {
    match call
    case None => []
    case Some(c) => [c]
  }

  /** The loop: turns until one stops or throws. */
  function Run(r: Reader, f: Framing): (d: Drained)
    decreases |r.buffer|
  {
    match Step(r, f)
    case Stop => Drained(r, [], false)
    case Throw(after) => Drained(after, [], true)
    case Next(after, call) =>
      var d := Run(after, f);
      d.(calls := Calls(call) + d.calls)
  }

  /** Incomplete input changes nothing and calls nothing: a payload still short
    * of its size plus two, or a header still without its `\r\n`. */
  lemma IncompleteWaits(r: Reader, f: Framing)
    requires AwaitsPayload(r, f) ==> |r.buffer| < r.size + 2
    requires !AwaitsPayload(r, f) ==> FindCrlf(r.buffer).None?
    ensures Run(r, f) == Drained(r, [], false)
  {
  }

  /** The calls in `d` are the first of `pending`, in order, and the rest
    * of `pending` still waits. */
  predicate Fifo(pending: seq<Expect>, d: Drained) {
    && |d.calls| <= |pending|
    && (forall i :: 0 <= i < |d.calls| ==> d.calls[i].callback == pending[i])
    && d.reader.pending == pending[|d.calls|..]
  }

  /** Calling the oldest callback before a FIFO rest keeps FIFO order. */
  lemma FifoPrepend(pending: seq<Expect>, call: Option<Call>, d: Drained)
    requires call.Some? ==> |pending| > 0 && call.value.callback == pending[0] && Fifo(pending[1..], d)
    requires call.None? ==> Fifo(pending, d)
    ensures Fifo(pending, Prepend(call, d))
  {
    if call.Some? {
      assert pending[1..][|d.calls|..] == pending[|d.calls| + 1..];
    }
  }

  /** Callbacks are called oldest first, each at most once: the calls made are
    * the first waiting callbacks in order, and the rest still wait. */
  lemma {:induction false} RunFifo(r: Reader, f: Framing)
    ensures Fifo(r.pending, Run(r, f))
    decreases |r.buffer|
  {
    var t := Step(r, f);
    if t.Next? {
      RunFifo(t.after, f);
      RunNext(r, f);
      FifoPrepend(r.pending, t.call, Run(t.after, f));
    }
  }

  /** Every callback is called with at least one word, so `Settle` always
    * looks at a first word. */
  lemma {:induction false} CallsHaveWords(r: Reader, f: Framing)
    ensures forall i :: 0 <= i < |Run(r, f).calls| ==> |Run(r, f).calls[i].args| >= 1
    decreases |r.buffer|
  {
    match Step(r, f)
    case Stop =>
    case Throw(_) =>
    case Next(after, call) =>
      CallsHaveWords(after, f);
  }

  /** A payload is taken as its `size` characters and the two after them are
    * dropped, even when they are not `\r\n`; the loop then goes on with the
    * rest and no payload awaited. */
  lemma PayloadConsumed(r: Reader, f: Framing)
    requires AwaitsPayload(r, f) && |r.buffer| >= r.size + 2 && |r.pending| > 0
    ensures var rest := Run(Reader(r.buffer[r.size + 2..], r.pending[1..], 0, None), f);
      Run(r, f) == rest.(calls := [Call(r.pending[0], Words(r.command) + [r.buffer[..r.size]])] + rest.calls)
  {
  }

  /** Appending text to the buffer does not change a turn that went ahead: it
    * only lengthens what is left. */
  lemma StepAppend(r: Reader, b: string, f: Framing)
    requires Step(r, f).Next?
    ensures var t := Step(r, f);
      Step(r.(buffer := r.buffer + b), f) == Next(t.after.(buffer := t.after.buffer + b), t.call)
  {
    if AwaitsPayload(r, f) {
      PayloadStepAppend(r, b, f);
    } else {
      HeaderStepAppend(r, b, f);
    }
  }

  lemma PayloadStepAppend(r: Reader, b: string, f: Framing)
    requires Step(r, f).Next? && AwaitsPayload(r, f)
    ensures var t := Step(r, f);
      Step(r.(buffer := r.buffer + b), f) == Next(t.after.(buffer := t.after.buffer + b), t.call)
  {
    var whole := r.(buffer := r.buffer + b);
    assert whole.buffer[..r.size] == r.buffer[..r.size];
    assert whole.buffer[r.size + 2..] == r.buffer[r.size + 2..] + b;
  }

  lemma HeaderStepAppend(r: Reader, b: string, f: Framing)
    requires Step(r, f).Next? && !AwaitsPayload(r, f)
    ensures var t := Step(r, f);
      Step(r.(buffer := r.buffer + b), f) == Next(t.after.(buffer := t.after.buffer + b), t.call)
  {
    var whole := r.(buffer := r.buffer + b);
    var index := FindCrlf(r.buffer).value;
    FindCrlfExtends(r.buffer, b);
    assert whole.buffer[..index] == r.buffer[..index];
    assert whole.buffer[index + 2..] == r.buffer[index + 2..] + b;
  }

  /** A call made before the rest of the loop. */
  function Prepend(call: Option<Call>, d: Drained): Drained {
    d.(calls := Calls(call) + d.calls)
  }

  /** A turn that goes ahead is followed by the rest of the loop. */
  lemma RunNext(r: Reader, f: Framing)
    requires Step(r, f).Next?
    ensures Run(r, f) == Prepend(Step(r, f).call, Run(Step(r, f).after, f))
  {
  }

  /** Reading `b` after the loop stopped at `d`: the calls made so far, then
    * those made on the rest with `b` appended. */
  function Continue(d: Drained, b: string, f: Framing): Drained {
    var e := Run(d.reader.(buffer := d.reader.buffer + b), f);
    Drained(e.reader, d.calls + e.calls, e.thrown)
  }

  lemma ContinuePrepend(call: Option<Call>, d: Drained, b: string, f: Framing)
    ensures Continue(Prepend(call, d), b, f) == Prepend(call, Continue(d, b, f))
  {
    var e := Run(d.reader.(buffer := d.reader.buffer + b), f);
    assert Calls(call) + (d.calls + e.calls) == (Calls(call) + d.calls) + e.calls;
  }

  lemma RunNextAppended(r: Reader, b: string, f: Framing)
    requires Step(r, f).Next?
    ensures Run(r.(buffer := r.buffer + b), f)
         == Prepend(Step(r, f).call, Run(Step(r, f).after.(buffer := Step(r, f).after.buffer + b), f))
  {
    StepAppend(r, b, f);
    RunNext(r.(buffer := r.buffer + b), f);
  }

  /** Where the text is cut into chunks does not matter: reading `r`'s buffer
    * and then `b` calls the same callbacks in the same order and ends in the
    * same state as reading both at once, unless the first reading threw. */
  lemma {:induction false} ChunkingInvariant(r: Reader, b: string, f: Framing)
    ensures !Run(r, f).thrown ==> Run(r.(buffer := r.buffer + b), f) == Continue(Run(r, f), b, f)
    decreases |r.buffer|
  {
    var t := Step(r, f);
    if t.Next? {
      ChunkingInvariant(t.after, b, f);
      RunNext(r, f);
      RunNextAppended(r, b, f);
      ContinuePrepend(t.call, Run(t.after, f), b, f);
    } else if t.Stop? {
      assert Run(r, f) == Drained(r, [], false);
      var e := Run(r.(buffer := r.buffer + b), f);
      assert [] + e.calls == e.calls;
    }
  }

  // ---------------------------------------------------------------------------
  // `_send` framing, and reading it back.

  /** `_send(msg, data)` on an open socket: with a truthy `data`, the header
    * gains the payload's length and the payload follows on its own line;
    * otherwise only the header is sent. */
  function Frame(msg: string, data: Option<string>): string {
    if data.Some? && data.value != "" then msg + " " + Decimal(|data.value|) + "\r\n" + data.value + "\r\n"
    else msg + "\r\n"
  }

  /** The framing meant: any payload, the empty one included, is sent with its
    * length. */
  function FrameIntended(msg: string, data: Option<string>): string {
    if data.Some? then msg + " " + Decimal(|data.value|) + "\r\n" + data.value + "\r\n"
    else msg + "\r\n"
  }

  /** Reading a header without a line feed whose first word expects no payload
    * calls the oldest callback with the header's words. */
  lemma HeaderRoundTrip(msg: string, pending: seq<Expect>, f: Framing)
    requires '\n' !in msg && |pending| > 0 && Split(msg, ' ')[0] !in PayloadCommands
    ensures Run(Reader(Frame(msg, None), pending, 0, None), f)
         == Drained(Reader("", pending[1..], 0, None), [Call(pending[0], Split(msg, ' '))], false)
  {
    var wire := Frame(msg, None);
    assert wire == msg + "\r\n" + "";
    FindCrlfAfter(msg, "");
    assert wire[..|msg|] == msg;
    assert wire[|msg| + 2..] == "";
  }

  /** The turn that reads a payload header: it records the header's words
    * without the last, and the size the last announces. */
  lemma PayloadHeaderStep(msg: string, data: string, pending: seq<Expect>, f: Framing)
    requires '\n' !in msg && Split(msg, ' ')[0] in PayloadCommands
    ensures Step(Reader(FrameIntended(msg, Some(data)), pending, 0, None), f)
         == Next(Reader(data + "\r\n", pending, |data|, Some(Split(msg, ' '))), None)
  {
    var n := Decimal(|data|);
    var head := msg + " " + n;
    var wire := FrameIntended(msg, Some(data));
    assert wire == head + "\r\n" + (data + "\r\n");
    DigitsAreText(n);
    assert '\n' !in head by {
      forall i | 0 <= i < |head|
        ensures head[i] != '\n'
      {
        if i < |msg| {
          assert head[i] == msg[i];
        } else if i > |msg| {
          assert head[i] == n[i - |msg| - 1];
        }
      }
    }
    FindCrlfAfter(head, data + "\r\n");
    assert wire[..|head|] == head;
    assert wire[|head| + 2..] == data + "\r\n";
    SplitAt(msg, ' ', n);
    SplitNoSeparator(n, ' ');
    var cmd := Split(head, ' ');
    assert cmd == Split(msg, ' ') + [n];
    assert cmd[..|cmd| - 1] == Split(msg, ' ');
  }

  /** The turn that reads a complete payload and the `\r\n` after it. */
  lemma PayloadDataStep(data: string, pending: seq<Expect>, words: seq<string>, f: Framing)
    requires |pending| > 0 && AwaitsPayload(Reader(data + "\r\n", pending, |data|, Some(words)), f)
    ensures Step(Reader(data + "\r\n", pending, |data|, Some(words)), f)
         == Next(Reader("", pending[1..], 0, None), Some(Call(pending[0], words + [data])))
  {
    var buffer := data + "\r\n";
    assert buffer[..|data|] == data;
    assert buffer[|data| + 2..] == "";
  }

  /** Reading a framed payload request: the header sets up the wait and the
    * payload, taken by its length, completes it. */
  lemma PayloadRoundTrip(msg: string, data: string, pending: seq<Expect>, f: Framing)
    requires '\n' !in msg && |pending| > 0 && Split(msg, ' ')[0] in PayloadCommands
    requires f == AsWritten ==> data != ""
    ensures Run(Reader(FrameIntended(msg, Some(data)), pending, 0, None), f)
         == Drained(Reader("", pending[1..], 0, None), [Call(pending[0], Split(msg, ' ') + [data])], false)
  {
    var start := Reader(FrameIntended(msg, Some(data)), pending, 0, None);
    var waiting := Reader(data + "\r\n", pending, |data|, Some(Split(msg, ' ')));
    var done := Reader("", pending[1..], 0, None);
    PayloadHeaderStep(msg, data, pending, f);
    RunNext(start, f);
    PayloadDataStep(data, pending, Split(msg, ' '), f);
    RunNext(waiting, f);
    assert Run(done, f) == Drained(done, [], false);
  }

  /** With the framing as written, a payload request round-trips whenever the
    * payload is not empty. */
  lemma SendRoundTrip(msg: string, data: string, pending: seq<Expect>)
    requires '\n' !in msg && |pending| > 0 && Split(msg, ' ')[0] in PayloadCommands && data != ""
    ensures Run(Reader(Frame(msg, Some(data)), pending, 0, None), AsWritten)
         == Drained(Reader("", pending[1..], 0, None), [Call(pending[0], Split(msg, ' ') + [data])], false)
  {
    PayloadRoundTrip(msg, data, pending, AsWritten);
  }

  /** The intended framing read by the intended loop round-trips every
    * payload, the empty one included. */
  lemma IntendedRoundTrip(msg: string, data: string, pending: seq<Expect>)
    requires '\n' !in msg && |pending| > 0 && Split(msg, ' ')[0] in PayloadCommands
    ensures Run(Reader(FrameIntended(msg, Some(data)), pending, 0, None), Intended)
         == Drained(Reader("", pending[1..], 0, None), [Call(pending[0], Split(msg, ' ') + [data])], false)
  {
    PayloadRoundTrip(msg, data, pending, Intended);
  }

  /** As written, an empty payload is sent without its length, so the header
    * reads as announcing nothing and no callback is called. */
  lemma EmptyPayloadUnframed(e: Expect)
    ensures Frame("OK", Some("")) == "OK\r\n"
    ensures Run(Reader(Frame("OK", Some("")), [e], 0, None), AsWritten).calls == []
  {
    var wire := Frame("OK", Some(""));
    assert wire == "OK" + "\r\n" + "";
    FindCrlfAfter("OK", "");
    assert wire[..2] == "OK";
    SplitNoSeparator("OK", ' ');
    assert Size("OK") == 0 by {
      assert !IsDigit("OK"[0]);
    }
    assert wire[4..] == "";
  }

  /** As written, an empty payload announced with its length is misread: with
    * a size of 0 the loop takes the payload's `\r\n` for an empty header and
    * calls the oldest callback with `[""]` instead of the response. */
  lemma EmptyPayloadMisread(msg: string, pending: seq<Expect>)
    requires '\n' !in msg && |pending| > 0 && Split(msg, ' ')[0] in PayloadCommands
    ensures Run(Reader(FrameIntended(msg, Some("")), pending, 0, None), AsWritten).calls == [Call(pending[0], [""])]
  {
    var start := Reader(FrameIntended(msg, Some("")), pending, 0, None);
    var waiting := Reader("" + "\r\n", pending, 0, Some(Split(msg, ' ')));
    var done := Reader("", pending[1..], 0, Some(Split(msg, ' ')));
    PayloadHeaderStep(msg, "", pending, AsWritten);
    RunNext(start, AsWritten);
    EmptyHeaderStep(pending, Split(msg, ' '));
    RunNext(waiting, AsWritten);
    assert Run(done, AsWritten) == Drained(done, [], false);
  }

  /** A bare `\r\n` with no size awaited is an empty header. */
  lemma EmptyHeaderStep(pending: seq<Expect>, words: seq<string>)
    requires |pending| > 0
    ensures Step(Reader("" + "\r\n", pending, 0, Some(words)), AsWritten)
         == Next(Reader("", pending[1..], 0, Some(words)), Some(Call(pending[0], [""])))
  {
    var buffer := "" + "\r\n";
    FindCrlfAfter("", "");
    assert buffer == "" + "\r\n" + "";
    assert buffer[..0] == "" && buffer[2..] == "";
  }

  /** The smallest such input: `OK 0\r\n\r\n`. */
  lemma EmptyOkMisread(e: Expect)
    ensures FrameIntended("OK", Some("")) == "OK 0\r\n\r\n"
    ensures Run(Reader(FrameIntended("OK", Some("")), [e], 0, None), AsWritten).calls == [Call(e, [""])]
  {
    EmptyOkFramed();
    OkIsPayloadCommand();
    EmptyPayloadMisread("OK", [e]);
  }

  lemma EmptyOkFramed()
    ensures FrameIntended("OK", Some("")) == "OK 0\r\n\r\n"
  {
    assert Decimal(0) == "0";
  }

  lemma OkIsPayloadCommand()
    ensures '\n' !in "OK" && Split("OK", ' ')[0] in PayloadCommands
  {
    SplitNoSeparator("OK", ' ');
  }

  // ---------------------------------------------------------------------------
  // The client object.

  /** Where the loop ends when `done` have already been called: the final
    * state, all calls in order, and whether it threw. */
  function Finish(r: Reader, done: seq<Call>): Drained {
    var d := Run(r, AsWritten);
    Drained(d.reader, done + d.calls, d.thrown)
  }

  /** The turns of the `message` listener as the client takes them, each
    * stated on `Finish`: a complete payload calls the oldest callback with
    * the header's words and the data. */
  lemma PayloadStepped(r: Reader, done: seq<Call>)
    requires r.size != 0 && r.command.Some? && |r.buffer| >= r.size + 2 && |r.pending| > 0
    ensures Finish(r, done)
         == Finish(Reader(r.buffer[r.size + 2..], r.pending[1..], 0, None),
                    done + [Call(r.pending[0], r.command.value + [r.buffer[..r.size]])])
  {
    RunNext(r, AsWritten);
    var call := Call(r.pending[0], r.command.value + [r.buffer[..r.size]]);
    var d := Run(Reader(r.buffer[r.size + 2..], r.pending[1..], 0, None), AsWritten);
    assert done + ([call] + d.calls) == (done + [call]) + d.calls;
  }

  /** A complete payload with no callback waiting throws. */
  lemma PayloadThrows(r: Reader, done: seq<Call>)
    requires r.size != 0 && |r.buffer| >= r.size + 2 && |r.pending| == 0
    ensures Finish(r, done) == Drained(r.(buffer := r.buffer[r.size + 2..]), done, true)
  {
  }

  /** A header naming a payload command waits for its data. */
  lemma PayloadHeaderTurn(r: Reader, index: nat, done: seq<Call>)
    requires r.size == 0 && |r.buffer| > 0 && FindCrlf(r.buffer) == Some(index)
    requires Split(r.buffer[..index], ' ')[0] in PayloadCommands
    ensures var cmd := Split(r.buffer[..index], ' ');
      Finish(r, done)
      == Finish(r.(buffer := r.buffer[index + 2..], command := Some(cmd[..|cmd| - 1]), size := Size(cmd[|cmd| - 1])), done)
  {
    var cmd := Split(r.buffer[..index], ' ');
    var after := r.(buffer := r.buffer[index + 2..], command := Some(cmd[..|cmd| - 1]), size := Size(cmd[|cmd| - 1]));
    PayloadHeaderIs(r, index);
    RunNext(r, AsWritten);
    assert Run(r, AsWritten) == Run(after, AsWritten);
  }

  /** The turn of a header naming a payload command. */
  lemma PayloadHeaderIs(r: Reader, index: nat)
    requires r.size == 0 && |r.buffer| > 0 && FindCrlf(r.buffer) == Some(index)
    requires Split(r.buffer[..index], ' ')[0] in PayloadCommands
    ensures var cmd := Split(r.buffer[..index], ' ');
      Step(r, AsWritten) == Next(r.(buffer := r.buffer[index + 2..], command := Some(cmd[..|cmd| - 1]), size := Size(cmd[|cmd| - 1])), None)
  {
  }

  /** Any other header calls the oldest callback with its words. */
  lemma HeaderStepped(r: Reader, index: nat, done: seq<Call>)
    requires r.size == 0 && |r.buffer| > 0 && FindCrlf(r.buffer) == Some(index) && |r.pending| > 0
    requires Split(r.buffer[..index], ' ')[0] !in PayloadCommands
    ensures Finish(r, done)
         == Finish(r.(buffer := r.buffer[index + 2..], pending := r.pending[1..]),
                    done + [Call(r.pending[0], Split(r.buffer[..index], ' '))])
  {
    RunNext(r, AsWritten);
    var call := Call(r.pending[0], Split(r.buffer[..index], ' '));
    var d := Run(r.(buffer := r.buffer[index + 2..], pending := r.pending[1..]), AsWritten);
    assert done + ([call] + d.calls) == (done + [call]) + d.calls;
  }

  /** Any other header with no callback waiting throws. */
  lemma HeaderThrows(r: Reader, index: nat, done: seq<Call>)
    requires r.size == 0 && |r.buffer| > 0 && FindCrlf(r.buffer) == Some(index) && |r.pending| == 0
    requires Split(r.buffer[..index], ' ')[0] !in PayloadCommands
    ensures Finish(r, done) == Drained(r.(buffer := r.buffer[index + 2..]), done, true)
  {
  }

  /** Input still incomplete, or none at all, ends the loop where it is. */
  lemma Waits(r: Reader, done: seq<Call>)
    requires AwaitsPayload(r, AsWritten) ==> |r.buffer| < r.size + 2
    requires !AwaitsPayload(r, AsWritten) ==> FindCrlf(r.buffer).None?
    ensures Finish(r, done) == Drained(r, done, false)
  {
    IncompleteWaits(r, AsWritten);
  }

  /** A `BS` connection: whether the socket is open, the loop's buffer and
    * pending state, and the log of callback calls. */
  class Client {
    var connected: bool
    var buffer: string
    var pending: seq<Expect>
    var pendingDataSize: nat
    var pendingCommand: Option<seq<string>>
    var delivered: seq<Call>

    /** A payload size is only set together with its header words, so the
      * spread of `pendingCommand` never meets `null`. */
    predicate Valid()
      reads this
    {
      pendingDataSize != 0 ==> pendingCommand.Some?
    }

    function State(): Reader
      reads this
    {
      Reader(buffer, pending, pendingDataSize, pendingCommand)
    }

    /** `new BS(url)`: not yet connected, nothing read, nothing waiting. */
    constructor ()
      ensures Valid()
      ensures !connected && buffer == "" && pending == [] && pendingDataSize == 0 && pendingCommand.None? && delivered == []
    {
      connected := false;
      buffer := "";
      pending := [];
      pendingDataSize := 0;
      pendingCommand := None;
      delivered := [];
    }

    /** The socket's `open` event; `error` and `close` set it back. */
    method SetConnected(open: bool)
      modifies this
      ensures connected == open
      ensures buffer == old(buffer) && pending == old(pending) && pendingDataSize == old(pendingDataSize)
      ensures pendingCommand == old(pendingCommand) && delivered == old(delivered)
    {
      connected := open;
    }

    /** `_send(msg, data)`: nothing when disconnected, the framed text
      * otherwise. */
    function Send(msg: string, data: Option<string>): (wire: Option<string>)
      reads this
      ensures wire.None? <==> !connected
      ensures connected && data.Some? && data.value != "" ==> wire == Some(FrameIntended(msg, data))
      ensures connected && (data.None? || data.value == "") ==> wire == Some(msg + "\r\n")
    {
      if !connected then None else Some(Frame(msg, data))
    }

    /** `_buildr`: when connected, one more callback waits at the back. */
    method Buildr(e: Expect)
      modifies this
      ensures pending == if old(connected) then old(pending) + [e] else old(pending)
      ensures connected == old(connected) && buffer == old(buffer) && pendingDataSize == old(pendingDataSize)
      ensures pendingCommand == old(pendingCommand) && delivered == old(delivered)
    {
      if connected {
        pending := pending + [e];
      }
    }

    /** One turn of the `message` listener's loop over a nonempty buffer:
      * `stop` when the loop ends here (input incomplete, or a callback
      * missing, reported in `thrown`); the outcome of the whole loop is
      * unchanged by the turn. */
    method Turn() returns (stop: bool, thrown: bool)
      requires Valid() && |buffer| > 0
      modifies this
      ensures Valid() && connected == old(connected)
      ensures stop ==> Finish(old(State()), old(delivered)) == Drained(State(), delivered, thrown)
      ensures !stop ==> !thrown && |buffer| < old(|buffer|)
      ensures !stop ==> Finish(old(State()), old(delivered)) == Finish(State(), delivered)
    {
      if pendingDataSize != 0 {
        stop, thrown := PayloadTurn();
      } else {
        stop, thrown := HeaderTurn();
      }
    }

    /** The turn while a payload is awaited. */
    method PayloadTurn() returns (stop: bool, thrown: bool)
      requires Valid() && |buffer| > 0 && pendingDataSize != 0
      modifies this
      ensures Valid() && connected == old(connected)
      ensures stop ==> Finish(old(State()), old(delivered)) == Drained(State(), delivered, thrown)
      ensures !stop ==> !thrown && |buffer| < old(|buffer|)
      ensures !stop ==> Finish(old(State()), old(delivered)) == Finish(State(), delivered)
    {
      ghost var before := State();
      if |buffer| < pendingDataSize + 2 {
        Waits(before, delivered);
        return true, false;
      }
      var data := buffer[..pendingDataSize];
      buffer := buffer[pendingDataSize + 2..];
      if |pending| == 0 {
        PayloadThrows(before, delivered);
        return true, true;
      }
      PayloadStepped(before, delivered);
      delivered := delivered + [Call(pending[0], pendingCommand.value + [data])];
      pending := pending[1..];
      pendingCommand := None;
      pendingDataSize := 0;
      return false, false;
    }

    /** The turn that reads a header line. */
    method HeaderTurn() returns (stop: bool, thrown: bool)
      requires Valid() && |buffer| > 0 && pendingDataSize == 0
      modifies this
      ensures Valid() && connected == old(connected)
      ensures stop ==> Finish(old(State()), old(delivered)) == Drained(State(), delivered, thrown)
      ensures !stop ==> !thrown && |buffer| < old(|buffer|)
      ensures !stop ==> Finish(old(State()), old(delivered)) == Finish(State(), delivered)
    {
      ghost var before := State();
      var index := FindCrlf(buffer);
      if index.None? {
        Waits(before, delivered);
        return true, false;
      }
      stop, thrown := LineTurn(index.value);
    }

    /** The header turn once a line ending was found at `index`: a payload
      * command waits for its data, any other line goes to the oldest
      * callback. */
    method LineTurn(index: nat) returns (stop: bool, thrown: bool)
      requires Valid() && |buffer| > 0 && pendingDataSize == 0 && FindCrlf(buffer) == Some(index)
      modifies this
      ensures Valid() && connected == old(connected)
      ensures stop ==> Finish(old(State()), old(delivered)) == Drained(State(), delivered, thrown)
      ensures !stop ==> !thrown && |buffer| < old(|buffer|)
      ensures !stop ==> Finish(old(State()), old(delivered)) == Finish(State(), delivered)
    {
      ghost var before := State();
      var head := buffer[..index];
      buffer := buffer[index + 2..];
      var cmd := Split(head, ' ');
      if cmd[0] in PayloadCommands {
        ghost var after := before.(buffer := buffer, command := Some(cmd[..|cmd| - 1]), size := Size(cmd[|cmd| - 1]));
        PayloadHeaderTurn(before, index, delivered);
        assert Finish(before, delivered) == Finish(after, delivered);
        pendingCommand := Some(cmd[..|cmd| - 1]);
        pendingDataSize := Size(cmd[|cmd| - 1]);
        assert State() == after;
        return false, false;
      }
      if |pending| == 0 {
        HeaderThrows(before, index, delivered);
        return true, true;
      }
      ghost var after := before.(buffer := buffer, pending := pending[1..]);
      var done := delivered + [Call(pending[0], cmd)];
      HeaderStepped(before, index, delivered);
      assert Finish(before, delivered) == Finish(after, done);
      delivered := done;
      pending := pending[1..];
      assert State() == after;
      return false, false;
    }

    /** The `message` listener: the chunk is appended and the buffer drained as
      * `Run` says; `thrown` reports the `TypeError` of calling a callback that
      * is not there. */
    method OnMessage(chunk: string) returns (thrown: bool)
      requires Valid()
      modifies this
      ensures Valid()
      ensures var d := Run(Reader(old(buffer) + chunk, old(pending), old(pendingDataSize), old(pendingCommand)), AsWritten);
        && State() == d.reader && delivered == old(delivered) + d.calls && thrown == d.thrown
      ensures connected == old(connected)
    {
      buffer := buffer + chunk;
      ghost var target := Finish(State(), delivered);
      while |buffer| > 0
        invariant Valid() && connected == old(connected)
        invariant Finish(State(), delivered) == target
        decreases |buffer|
      {
        var stop;
        stop, thrown := Turn();
        if stop {
          return;
        }
      }
      Waits(State(), delivered);
      return false;
    }
  }
}
