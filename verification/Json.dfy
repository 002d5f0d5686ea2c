/**
 JSON values, the compact printer of `JSON.stringify`, a parser for the grammar of RFC 8259,
 and the proof that the parser inverts the printer.

 An object is an ordered list of entries, because the order of own keys is observable in printed
 text. What a value means to the program is `Meaning`, in which an object is a map.
 */
module Json {
  import opened Wrappers

  datatype Json =
    | Null
    | Bool(b: bool)
    | Num(token: string)
    | Str(s: string)
    | Arr(items: seq<Json>)
    | Obj(entries: seq<Entry>)

  datatype Entry = Entry(key: string, value: Json)

  datatype Value =
    | VNull
    | VBool(b: bool)
    | VNum(token: string)
    | VStr(s: string)
    | VArr(items: seq<Value>)
    | VObj(fields: map<string, Value>)

  /** The value a program reads back: a later duplicate of a key wins. */
  function Meaning(j: Json): Value
    decreases j
  {
    match j
    case Null => VNull
    case Bool(b) => VBool(b)
    case Num(t) => VNum(t)
    case Str(s) => VStr(s)
    case Arr(items) => VArr(MeaningItems(items))
    case Obj(entries) => VObj(Fields(entries))
  }

  function MeaningItems(items: seq<Json>): (r: seq<Value>)
    ensures |r| == |items|
    decreases items
  {
    if items == [] then [] else [Meaning(items[0])] + MeaningItems(items[1..])
  }

  function Fields(entries: seq<Entry>): map<string, Value>
    decreases entries
  {
    if entries == [] then map[]
    else map[entries[0].key := Meaning(entries[0].value)] + Fields(entries[1..])
  }

  // ---------------------------------------------------------------- characters

  predicate IsDigit(c: char) { '0' <= c <= '9' }

  function HexDigit(n: nat): (c: char)
    requires n < 16
  {
    "0123456789abcdef"[n]
  }

  function HexValue(c: char): Option<nat> {
    if '0' <= c <= '9' then Some(c as int - '0' as int)
    else if 'a' <= c <= 'f' then Some(c as int - 'a' as int + 10)
    else if 'A' <= c <= 'F' then Some(c as int - 'A' as int + 10)
    else None
  }

  lemma HexDigitValue(n: nat)
    requires n < 16
    ensures HexValue(HexDigit(n)) == Some(n)
  {
    assert "0123456789abcdef" == ['0', '1', '2', '3', '4', '5', '6', '7', '8', '9', 'a', 'b', 'c', 'd', 'e', 'f'];
  }

  // ---------------------------------------------------------------- strings

  /** RFC 8259 section 7: the two mandatory escapes, the short forms, and \u00xx below U+0020. */
  function EscapeChar(c: char): string {
    if c == '"' then "\\\""
    else if c == '\\' then "\\\\"
    else if c == '\U{0008}' then "\\b"
    else if c == '\U{000C}' then "\\f"
    else if c == '\n' then "\\n"
    else if c == '\r' then "\\r"
    else if c == '\t' then "\\t"
    else if c < ' ' then ['\\', 'u', '0', '0', HexDigit(c as int / 16), HexDigit(c as int % 16)]
    else [c]
  }

  function EscapeChars(s: string): string {
    if s == [] then [] else EscapeChar(s[0]) + EscapeChars(s[1..])
  }

  function Hex4(s: string): Option<nat> {
    if |s| < 4 then None
    else match (HexValue(s[0]), HexValue(s[1]), HexValue(s[2]), HexValue(s[3]))
      case (Some(a), Some(b), Some(c), Some(d)) => Some(a * 4096 + b * 256 + c * 16 + d)
      case _ => None
  }

  /** One character or escape at the head of `s`: the character it denotes and how much it spans. */
  function ParseChar(s: string): (r: Option<(char, nat)>)
    ensures r.Some? ==> 0 < r.value.1 <= |s|
  {
    if s == [] || s[0] == '"' || s[0] < ' ' then None
    else if s[0] != '\\' then Some((s[0], 1))
    else if |s| < 2 then None
    else if s[1] == '"' then Some(('"', 2))
    else if s[1] == '\\' then Some(('\\', 2))
    else if s[1] == '/' then Some(('/', 2))
    else if s[1] == 'b' then Some(('\U{0008}', 2))
    else if s[1] == 'f' then Some(('\U{000C}', 2))
    else if s[1] == 'n' then Some(('\n', 2))
    else if s[1] == 'r' then Some(('\r', 2))
    else if s[1] == 't' then Some(('\t', 2))
    else if s[1] == 'u' then
      match Hex4(s[2..])
      case None => None
      case Some(n) =>
        if n < 0xD800 || 0xE000 <= n < 0x10000 then Some((n as char, 6))
        else if n < 0xDC00 && |s| >= 12 && s[6] == '\\' && s[7] == 'u' then
          match Hex4(s[8..])
          case Some(m) =>
            if 0xDC00 <= m < 0xE000 then Some(((0x10000 + (n - 0xD800) * 1024 + (m - 0xDC00)) as char, 12)) else None
          case None => None
        else None
    else None
  }

  /** The body of a string literal up to and including its closing quotation mark. */
  function ParseChars(s: string): (r: Option<(string, string)>)
    ensures r.Some? ==> |r.value.1| < |s|
    decreases |s|
  {
    if s == [] then None
    else if s[0] == '"' then Some(("", s[1..]))
    else match ParseChar(s)
      case None => None
      case Some((c, n)) =>
        match ParseChars(s[n..])
        case None => None
        case Some((cs, rest)) => Some(([c] + cs, rest))
  }

  lemma EscapeCharParses(c: char, rest: string)
    ensures EscapeChar(c) != [] && EscapeChar(c)[0] != '"'
    ensures ParseChar(EscapeChar(c) + rest) == Some((c, |EscapeChar(c)|))
  {
    var e := EscapeChar(c);
    if c < ' ' && |e| == 6 {
      var s := e + rest;
      HexDigitValue(0);
      HexDigitValue(c as int / 16);
      HexDigitValue(c as int % 16);
      assert HexDigit(0) == '0';
      assert s[2..][0] == '0' && s[2..][1] == '0' && s[2..][2] == e[4] && s[2..][3] == e[5];
      assert Hex4(s[2..]) == Some(c as int);
    }
  }

  lemma {:induction false} EscapedCharsParse(s: string, rest: string)
    ensures ParseChars(EscapeChars(s) + "\"" + rest) == Some((s, rest))
  {
    if s == [] {
      assert EscapeChars(s) + "\"" + rest == "\"" + rest;
      assert ("\"" + rest)[1..] == rest;
    } else {
      var e := EscapeChar(s[0]);
      var tail := EscapeChars(s[1..]) + "\"" + rest;
      assert EscapeChars(s) + "\"" + rest == e + tail;
      EscapeCharParses(s[0], tail);
      assert (e + tail)[|e|..] == tail;
      EscapedCharsParse(s[1..], rest);
      assert [s[0]] + s[1..] == s;
    }
  }

  // ---------------------------------------------------------------- numbers

  predicate IsNumberChar(c: char) {
    IsDigit(c) || c == '-' || c == '+' || c == '.' || c == 'e' || c == 'E'
  }

  predicate AllDigits(s: string) { forall i :: 0 <= i < |s| ==> IsDigit(s[i]) }

  function DigitRun(s: string): (n: nat)
    ensures n <= |s| && AllDigits(s[..n])
  {
    if s == [] || !IsDigit(s[0]) then 0
    else
      var n := DigitRun(s[1..]);
      assert s[..n + 1] == [s[0]] + s[1..][..n];
      1 + n
  }

  /** int of RFC 8259 section 6, followed by optional frac and exp. */
  predicate IsNumberToken(t: string) {
    var u := if t != [] && t[0] == '-' then t[1..] else t;
    var n := DigitRun(u);
    && n > 0
    && (u[0] == '0' ==> n == 1)
    && IsFraction(u[n..])
    && (forall i :: 0 <= i < |t| ==> IsNumberChar(t[i]))
  }

  predicate IsFraction(s: string) {
    if s != [] && s[0] == '.' then
      var n := DigitRun(s[1..]);
      n > 0 && IsExponent(s[1..][n..])
    else IsExponent(s)
  }

  predicate IsExponent(s: string) {
    s != [] ==>
      && (s[0] == 'e' || s[0] == 'E')
      && var u := if |s| > 1 && (s[1] == '+' || s[1] == '-') then s[2..] else s[1..];
         u != [] && DigitRun(u) == |u|
  }

  function NumberRun(s: string): (n: nat)
    ensures n <= |s|
  {
    if s == [] || !IsNumberChar(s[0]) then 0 else 1 + NumberRun(s[1..])
  }

  lemma {:induction false} NumberRunStops(t: string, rest: string)
    requires forall i :: 0 <= i < |t| ==> IsNumberChar(t[i])
    requires rest != [] ==> !IsNumberChar(rest[0])
    ensures NumberRun(t + rest) == |t|
  {
    if t == [] {
      assert t + rest == rest;
    } else {
      assert (t + rest)[1..] == t[1..] + rest;
      NumberRunStops(t[1..], rest);
    }
  }

  // ---------------------------------------------------------------- printer

  function Print(j: Json): string
    decreases j
  {
    match j
    case Null => "null"
    case Bool(b) => if b then "true" else "false"
    case Num(t) => t
    case Str(s) => Quote(s)
    case Arr(items) => "[" + PrintItems(items) + "]"
    case Obj(entries) => "{" + PrintEntries(entries) + "}"
  }

  function Quote(s: string): string { "\"" + EscapeChars(s) + "\"" }

  function PrintItems(items: seq<Json>): string
    decreases items
  {
    if items == [] then ""
    else if |items| == 1 then Print(items[0])
    else Print(items[0]) + "," + PrintItems(items[1..])
  }

  function PrintEntry(e: Entry): string
    decreases e
  {
    Quote(e.key) + ":" + Print(e.value)
  }

  function PrintEntries(entries: seq<Entry>): string
    decreases entries
  {
    if entries == [] then ""
    else if |entries| == 1 then PrintEntry(entries[0])
    else PrintEntry(entries[0]) + "," + PrintEntries(entries[1..])
  }

  // ---------------------------------------------------------------- parser

  predicate IsWhitespace(c: char) { c == ' ' || c == '\t' || c == '\n' || c == '\r' }

  function SkipWhitespace(s: string): (r: string)
    ensures |r| <= |s|
  {
    if s != [] && IsWhitespace(s[0]) then SkipWhitespace(s[1..]) else s
  }

  function ParseValue(text: string): (r: Option<(Json, string)>)
    ensures r.Some? ==> |r.value.1| < |text|
    decreases |text|, 1
  {
    var s := SkipWhitespace(text);
    if s == [] then None
    else if s[0] == '"' then ParseString(s[1..])
    else if s[0] == '[' then ParseArray(SkipWhitespace(s[1..]))
    else if s[0] == '{' then ParseObject(SkipWhitespace(s[1..]))
    else ParseScalar(s)
  }

  function ParseString(s: string): (r: Option<(Json, string)>)
    ensures r.Some? ==> |r.value.1| < |s|
  {
    match ParseChars(s)
    case None => None
    case Some((cs, rest)) => Some((Str(cs), rest))
  }

  function ParseScalar(s: string): (r: Option<(Json, string)>)
    ensures r.Some? ==> |r.value.1| < |s|
  {
    if "null" <= s then Some((Null, s[4..]))
    else if "true" <= s then Some((Bool(true), s[4..]))
    else if "false" <= s then Some((Bool(false), s[5..]))
    else
      var n := NumberRun(s);
      if n > 0 && IsNumberToken(s[..n]) then Some((Num(s[..n]), s[n..])) else None
  }

  function ParseArray(s: string): (r: Option<(Json, string)>)
    ensures r.Some? ==> |r.value.1| < |s|
    decreases |s|, 3
  {
    if s != [] && s[0] == ']' then Some((Arr([]), s[1..]))
    else match ParseItems(s)
      case None => None
      case Some((items, rest)) => Some((Arr(items), rest))
  }

  function ParseObject(s: string): (r: Option<(Json, string)>)
    ensures r.Some? ==> |r.value.1| < |s|
    decreases |s|, 4
  {
    if s != [] && s[0] == '}' then Some((Obj([]), s[1..]))
    else match ParseEntries(s)
      case None => None
      case Some((entries, rest)) => Some((Obj(entries), rest))
  }

  /** value *( value-separator value ) end-array */
  function ParseItems(s: string): (r: Option<(seq<Json>, string)>)
    ensures r.Some? ==> |r.value.1| < |s|
    decreases |s|, 2
  {
    match ParseValue(s)
    case None => None
    case Some((j, afterValue)) =>
      var rest := SkipWhitespace(afterValue);
      if rest == [] then None
      else if rest[0] == ']' then Some(([j], rest[1..]))
      else if rest[0] == ',' then
        match ParseItems(rest[1..])
        case None => None
        case Some((items, tail)) => Some(([j] + items, tail))
      else None
  }

  /** string name-separator value */
  function ParseEntry(text: string): (r: Option<(Entry, string)>)
    ensures r.Some? ==> |r.value.1| < |text|
    decreases |text|, 2
  {
    var s := SkipWhitespace(text);
    if s == [] || s[0] != '"' then None
    else match ParseChars(s[1..])
      case None => None
      case Some((key, afterKey)) =>
        var rest := SkipWhitespace(afterKey);
        if rest == [] || rest[0] != ':' then None
        else match ParseValue(rest[1..])
          case None => None
          case Some((v, tail)) => Some((Entry(key, v), tail))
  }

  /** member *( value-separator member ) end-object */
  function ParseEntries(s: string): (r: Option<(seq<Entry>, string)>)
    ensures r.Some? ==> |r.value.1| < |s|
    decreases |s|, 3
  {
    match ParseEntry(s)
    case None => None
    case Some((e, afterEntry)) =>
      var rest := SkipWhitespace(afterEntry);
      if rest == [] then None
      else if rest[0] == '}' then Some(([e], rest[1..]))
      else if rest[0] == ',' then
        match ParseEntries(rest[1..])
        case None => None
        case Some((entries, tail)) => Some(([e] + entries, tail))
      else None
  }

  /** JSON-text = ws value ws */
  function Parse(text: string): Option<Json> {
    match ParseValue(text)
    case None => None
    case Some((j, rest)) => if SkipWhitespace(rest) == [] then Some(j) else None
  }

  // ---------------------------------------------------------------- the parser inverts the printer

  /** Every number is a token of the number grammar; nothing else is asked of a value. */
  predicate Printable(j: Json)
    decreases j
  {
    match j
    case Num(t) => IsNumberToken(t)
    case Arr(items) => forall i :: 0 <= i < |items| ==> Printable(items[i])
    case Obj(entries) => forall i :: 0 <= i < |entries| ==> Printable(entries[i].value)
    case _ => true
  }

  /** What may follow a value inside a text: nothing, or a structural character. */
  predicate Delimited(rest: string) {
    rest != [] ==> rest[0] == ',' || rest[0] == ']' || rest[0] == '}'
  }

  lemma PrintStart(j: Json)
    requires Printable(j)
    ensures Print(j) != [] && !IsWhitespace(Print(j)[0]) && Print(j)[0] != ']' && Print(j)[0] != '}'
  {
    if j.Num? {
      assert IsNumberChar(j.token[0]);
    }
  }

  lemma NumberTokenChars(t: string)
    requires IsNumberToken(t)
    ensures t != [] && forall i :: 0 <= i < |t| ==> IsNumberChar(t[i])
  {
  }

  lemma NumberParses(t: string, rest: string)
    requires IsNumberToken(t) && Delimited(rest)
    ensures t != [] && IsNumberChar(t[0])
    ensures ParseScalar(t + rest) == Some((Num(t), rest))
  {
    var s := t + rest;
    NumberTokenChars(t);
    hide IsNumberToken;
    NumberRunStops(t, rest);
    assert "null"[0] != s[0] && "true"[0] != s[0] && "false"[0] != s[0];
    assert s[..|t|] == t && s[|t|..] == rest;
  }

  lemma LiteralParses(j: Json, rest: string)
    requires j.Null? || j.Bool?
    ensures ParseScalar(Print(j) + rest) == Some((j, rest))
  {
    var t := Print(j);
    var s := t + rest;
    assert t <= s && s[|t|..] == rest;
    if j.Bool? {
      assert "null"[0] != s[0];
      if !j.b { assert "true"[0] != s[0]; }
    }
  }

  lemma ScalarParses(j: Json, rest: string)
    requires Printable(j) && Delimited(rest) && (j.Null? || j.Bool? || j.Num?)
    ensures ParseValue(Print(j) + rest) == Some((j, rest))
  {
    hide ParseScalar, IsNumberToken;
    if j.Num? {
      NumberParses(j.token, rest);
    } else {
      LiteralParses(j, rest);
    }
    assert SkipWhitespace(Print(j) + rest) == Print(j) + rest;
  }

  lemma StringParses(v: string, rest: string)
    ensures ParseValue(Quote(v) + rest) == Some((Str(v), rest))
  {
    var s := Quote(v) + rest;
    assert s[1..] == EscapeChars(v) + "\"" + rest;
    assert SkipWhitespace(s) == s;
    EscapedCharsParse(v, rest);
  }

  /** A bracketed body parses to the array of its items. `body` starts at the first item or at `]`. */
  lemma ArrayParses(items: seq<Json>, body: string, rest: string)
    requires body != [] && !IsWhitespace(body[0])
    requires if items == [] then body == "]" + rest else body[0] != ']' && ParseItems(body) == Some((items, rest))
    ensures ParseValue("[" + body) == Some((Arr(items), rest))
  {
    var s := "[" + body;
    assert SkipWhitespace(s) == s && s[1..] == body;
    assert SkipWhitespace(body) == body;
    if items == [] { assert body[1..] == rest; }
  }

  lemma ObjectParses(entries: seq<Entry>, body: string, rest: string)
    requires body != [] && !IsWhitespace(body[0])
    requires if entries == [] then body == "}" + rest else body[0] != '}' && ParseEntries(body) == Some((entries, rest))
    ensures ParseValue("{" + body) == Some((Obj(entries), rest))
  {
    var s := "{" + body;
    assert SkipWhitespace(s) == s && s[1..] == body;
    assert SkipWhitespace(body) == body;
    if entries == [] { assert body[1..] == rest; }
  }

  lemma EntryParses(key: string, v: Json, body: string, rest: string)
    requires ParseValue(body) == Some((v, rest))
    ensures ParseEntry(Quote(key) + ":" + body) == Some((Entry(key, v), rest))
  {
    hide ParseValue, ParseChars, EscapeChars;
    var s := Quote(key) + ":" + body;
    var tail := ":" + body;
    var chars := EscapeChars(key) + "\"" + tail;
    assert s == "\"" + chars;
    assert SkipWhitespace(s) == s && s[1..] == chars;
    EscapedCharsParse(key, tail);
    assert SkipWhitespace(tail) == tail && tail[1..] == body;
  }

  lemma LastItemParses(j: Json, text: string, rest: string)
    requires ParseValue(text) == Some((j, "]" + rest))
    ensures ParseItems(text) == Some(([j], rest))
  {
    var tail := "]" + rest;
    assert SkipWhitespace(tail) == tail && tail[1..] == rest;
  }

  lemma NextItemParses(j: Json, text: string, more: string, items: seq<Json>, rest: string)
    requires ParseValue(text) == Some((j, "," + more)) && ParseItems(more) == Some((items, rest))
    ensures ParseItems(text) == Some(([j] + items, rest))
  {
    var tail := "," + more;
    assert SkipWhitespace(tail) == tail && tail[1..] == more;
  }

  lemma LastEntryParses(e: Entry, text: string, rest: string)
    requires ParseEntry(text) == Some((e, "}" + rest))
    ensures ParseEntries(text) == Some(([e], rest))
  {
    var tail := "}" + rest;
    assert SkipWhitespace(tail) == tail && tail[1..] == rest;
  }

  lemma NextEntryParses(e: Entry, text: string, more: string, entries: seq<Entry>, rest: string)
    requires ParseEntry(text) == Some((e, "," + more)) && ParseEntries(more) == Some((entries, rest))
    ensures ParseEntries(text) == Some(([e] + entries, rest))
  {
    var tail := "," + more;
    assert SkipWhitespace(tail) == tail && tail[1..] == more;
  }

  lemma {:induction false} PrintedValueParses(j: Json, rest: string)
    requires Printable(j) && Delimited(rest)
    ensures ParseValue(Print(j) + rest) == Some((j, rest))
    decreases j, 0
  {
    hide ParseValue, ParseItems, ParseEntries, Print, PrintItems, PrintEntries, EscapeChars, IsNumberToken;
    match j
    case Str(v) =>
      PrintUnfold(j);
      StringParses(v, rest);
    case Arr(items) =>
      var body := PrintItems(items) + ("]" + rest);
      PrintUnfold(j);
      assert Print(j) + rest == "[" + body;
      if items != [] {
        PrintItemsStart(items);
        PrintedItemsParse(items, rest);
      }
      ArrayParses(items, body, rest);
    case Obj(entries) =>
      var body := PrintEntries(entries) + ("}" + rest);
      PrintUnfold(j);
      assert Print(j) + rest == "{" + body;
      if entries != [] {
        PrintEntriesStart(entries);
        PrintedEntriesParse(entries, rest);
      }
      ObjectParses(entries, body, rest);
    case _ => ScalarParses(j, rest);
  }

  lemma PrintUnfold(j: Json)
    ensures j.Str? ==> Print(j) == Quote(j.s)
    ensures j.Arr? ==> Print(j) == "[" + PrintItems(j.items) + "]" && (j.items == [] ==> PrintItems(j.items) == "")
    ensures j.Obj? ==> Print(j) == "{" + PrintEntries(j.entries) + "}" && (j.entries == [] ==> PrintEntries(j.entries) == "")
  {
  }

  lemma PrintItemsStart(items: seq<Json>)
    requires items != [] && Printable(items[0])
    ensures PrintItems(items) != [] && !IsWhitespace(PrintItems(items)[0]) && PrintItems(items)[0] != ']'
  {
    PrintStart(items[0]);
  }

  lemma PrintEntriesStart(entries: seq<Entry>)
    requires entries != []
    ensures PrintEntries(entries) != [] && PrintEntries(entries)[0] == '"'
  {
    assert PrintEntry(entries[0])[0] == '"';
  }

  lemma PrintItemsSplit(items: seq<Json>, rest: string)
    requires items != []
    ensures PrintItems(items) + rest
         == Print(items[0]) + (if |items| == 1 then rest else "," + (PrintItems(items[1..]) + rest))
  {
    hide Print;
    if |items| > 1 {
      var v, more := Print(items[0]), PrintItems(items[1..]);
      assert PrintItems(items) == v + "," + more;
      AppendSeparated(v, more, rest);
    }
  }

  lemma AppendSeparated(v: string, more: string, rest: string)
    ensures v + "," + more + rest == v + ("," + (more + rest))
  {
  }

  lemma {:induction false} PrintedItemsParse(items: seq<Json>, rest: string)
    requires items != [] && forall i :: 0 <= i < |items| ==> Printable(items[i])
    ensures ParseItems(PrintItems(items) + ("]" + rest)) == Some((items, rest))
    decreases items, 1
  {
    hide ParseValue, ParseItems, Print, PrintItems, Printable;
    var text := PrintItems(items) + ("]" + rest);
    PrintItemsSplit(items, "]" + rest);
    if |items| == 1 {
      PrintedValueParses(items[0], "]" + rest);
      LastItemParses(items[0], text, rest);
      assert [items[0]] == items;
    } else {
      var more := PrintItems(items[1..]) + ("]" + rest);
      PrintedItemsParse(items[1..], rest);
      PrintedValueParses(items[0], "," + more);
      NextItemParses(items[0], text, more, items[1..], rest);
      assert [items[0]] + items[1..] == items;
    }
  }

  /** What follows the first member's value in the text of a non-empty object body. */
  function AfterFirst(entries: seq<Entry>, rest: string): string
    requires entries != []
  {
    if |entries| == 1 then rest else "," + (PrintEntries(entries[1..]) + rest)
  }

  lemma PrintEntriesSplit(entries: seq<Entry>, rest: string)
    requires entries != []
    ensures PrintEntries(entries) + rest
         == Quote(entries[0].key) + ":" + (Print(entries[0].value) + AfterFirst(entries, rest))
  {
    hide Quote, Print;
    var e := entries[0];
    var k, v := Quote(e.key), Print(e.value);
    assert PrintEntry(e) == k + ":" + v;
    if |entries| > 1 {
      var more := PrintEntries(entries[1..]);
      assert PrintEntries(entries) == PrintEntry(e) + "," + more;
      Reassociate(k, v, more, rest);
    } else {
      assert PrintEntries(entries) == PrintEntry(e);
      assert (k + ":" + v) + rest == k + ":" + (v + rest);
    }
  }

  lemma Reassociate(k: string, v: string, more: string, rest: string)
    ensures (k + ":" + v + "," + more) + rest == k + ":" + (v + ("," + (more + rest)))
  {
  }

  lemma {:induction false} PrintedEntriesParse(entries: seq<Entry>, rest: string)
    requires entries != [] && forall i :: 0 <= i < |entries| ==> Printable(entries[i].value)
    ensures ParseEntries(PrintEntries(entries) + ("}" + rest)) == Some((entries, rest))
    decreases entries, 2
  {
    hide ParseValue, ParseItems, ParseEntry, ParseEntries, Print, PrintEntry, PrintEntries, Quote, Printable;
    var text := PrintEntries(entries) + ("}" + rest);
    var tail := AfterFirst(entries, "}" + rest);
    var Entry(key, v) := entries[0];
    PrintEntriesSplit(entries, "}" + rest);
    PrintedValueParses(v, tail);
    EntryParses(key, v, Print(v) + tail, tail);
    if |entries| == 1 {
      LastEntryParses(entries[0], text, rest);
      assert [entries[0]] == entries;
    } else {
      var more := PrintEntries(entries[1..]) + ("}" + rest);
      PrintedEntriesParse(entries[1..], rest);
      NextEntryParses(entries[0], text, more, entries[1..], rest);
      assert [entries[0]] + entries[1..] == entries;
    }
  }

  /** The round trip on whole texts: printing loses nothing. */
  lemma PrintRoundTrip(j: Json)
    requires Printable(j)
    ensures Parse(Print(j)) == Some(j)
  {
    assert Print(j) + "" == Print(j);
    PrintedValueParses(j, "");
  }

  // ---------------------------------------------------------------- integers

  function DigitChar(n: nat): char
    requires n < 10
  {
    ('0' as int + n) as char
  }

  function NatToken(n: nat): (t: string)
    ensures t != [] && AllDigits(t)
    ensures t[0] == '0' ==> n == 0 && |t| == 1
  {
    if n < 10 then [DigitChar(n)]
    else
      NatToken(n / 10) + [DigitChar(n % 10)]
  }

  function IntToken(n: int): string {
    if n < 0 then "-" + NatToken(-n) else NatToken(n)
  }

  function DigitsValue(t: string): nat
    requires AllDigits(t)
  {
    if t == [] then 0 else DigitsValue(t[..|t| - 1]) * 10 + (t[|t| - 1] as int - '0' as int)
  }

  /** The integer a token denotes, when it has neither fraction nor exponent. */
  function TokenInt(t: string): Option<int> {
    if t != [] && AllDigits(t) then Some(DigitsValue(t))
    else if |t| > 1 && t[0] == '-' && AllDigits(t[1..]) then (var n := 0 - DigitsValue(t[1..]) as int; Some(n))
    else None
  }

  lemma {:induction false} NatTokenValue(n: nat)
    ensures DigitsValue(NatToken(n)) == n
  {
    if n < 10 {
      assert NatToken(n)[..0] == [];
    } else {
      NatTokenValue(n / 10);
      assert NatToken(n)[..|NatToken(n)| - 1] == NatToken(n / 10);
    }
  }

  lemma IntTokenValue(n: int)
    ensures TokenInt(IntToken(n)) == Some(n)
  {
    if n < 0 {
      NatTokenValue(-n);
      assert IntToken(n)[1..] == NatToken(-n);
    } else {
      NatTokenValue(n);
    }
  }

  lemma {:induction false} DigitRunAll(t: string)
    requires AllDigits(t)
    ensures DigitRun(t) == |t|
  {
    if t != [] { DigitRunAll(t[1..]); }
  }

  lemma IntTokenIsNumber(n: int)
    ensures IsNumberToken(IntToken(n))
  {
    var t := IntToken(n);
    var u := if t[0] == '-' then t[1..] else t;
    assert u == NatToken(if n < 0 then -n else n);
    DigitRunAll(u);
    assert forall i :: 0 <= i < |u| ==> IsNumberChar(u[i]);
    assert forall i :: 0 <= i < |t| ==> t[i] == (if n < 0 then (if i == 0 then '-' else u[i - 1]) else u[i]);
  }

  /** A bound on the length of a decimal, for the size of a persisted text. */
  lemma {:induction false} NatTokenLength(n: nat, digits: nat, bound: nat)
    requires digits > 0 && n < bound && bound == Pow10(digits)
    ensures |NatToken(n)| <= digits
    decreases digits
  {
    if n >= 10 {
      assert digits > 1;
      NatTokenLength(n / 10, digits - 1, Pow10(digits - 1));
    }
  }

  function Pow10(n: nat): (r: nat)
    ensures r > 0
  {
    if n == 0 then 1 else 10 * Pow10(n - 1)
  }
}
