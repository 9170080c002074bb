/**
 One event as one JSON line: the printer, and the small reader for what it prints. Strings are
 sequences of Unicode characters; only ASCII characters are ever escaped. Escaping and the string
 grammar follow section 7 of RFC 8259.
 */
module Jsonl {
  import opened Base
  import opened Decimal
  import opened Events
  import opened HexText

  // ---------- Strings ----------

  function ControlText(c: char): string
    requires c < ' '
  {
    "\\u00" + [HexDigit(c as nat / 16), HexDigit(c as nat % 16)]
  }

  function EscapeChar(c: char): string {
    if c == '"' then "\\\""
    else if c == '\\' then "\\\\"
    else if c == 8 as char then "\\b"
    else if c == 12 as char then "\\f"
    else if c == '\n' then "\\n"
    else if c == '\r' then "\\r"
    else if c == '\t' then "\\t"
    else if c < ' ' then ControlText(c)
    else [c]
  }

  function Escape(s: string): string {
    if s == "" then "" else EscapeChar(s[0]) + Escape(s[1..])
  }

  method EscapeJson(value: string) returns (escaped: string)
    ensures escaped == Escape(value)
  {
    hide EscapeChar;
    escaped := "";
    for i := 0 to |value|
      invariant escaped + Escape(value[i..]) == Escape(value)
    {
      assert value[i..][1..] == value[i + 1..];
      assert (escaped + EscapeChar(value[i])) + Escape(value[i + 1..]) == escaped + Escape(value[i..]);
      escaped := escaped + EscapeChar(value[i]);
    }
    assert value[|value|..] == "";
  }

  /** The character a four-digit escape stands for; surrogates are not read. */
  function UnicodeEscape(s: string): Option<char>
    requires |s| == 4
  {
    if exists i :: 0 <= i < 4 && !IsHex(s[i]) then None
    else
      var n := 4096 * HexValue(s[0]) + 256 * HexValue(s[1]) + 16 * HexValue(s[2]) + HexValue(s[3]);
      if 0xD800 <= n < 0xE000 then None else Some(n as char)
  }

  function SimpleEscape(c: char): Option<char> {
    match c
    case '"' => Some('"')
    case '\\' => Some('\\')
    case '/' => Some('/')
    case 'b' => Some(8 as char)
    case 'f' => Some(12 as char)
    case 'n' => Some('\n')
    case 'r' => Some('\r')
    case 't' => Some('\t')
    case _ => None
  }

  /** The first character of a string body, and how many characters it takes. */
  function ReadChar(s: string): (r: Option<(char, nat)>)
    ensures r.Some? ==> 0 < r.value.1 <= |s|
  {
    if s == "" || s[0] < ' ' || s[0] == '"' then None
    else if s[0] != '\\' then Some((s[0], 1))
    else if |s| < 2 then None
    else if s[1] == 'u' then
      if |s| < 6 then None
      else
        var c := UnicodeEscape(s[2..6]);
        if c.None? then None else Some((c.value, 6))
    else
      var c := SimpleEscape(s[1]);
      if c.None? then None else Some((c.value, 2))
  }

  /** What follows an opening quote: the string, and the text after the closing quote. */
  function ReadString(s: string): Option<(string, string)>
    decreases |s|
  {
    if s != "" && s[0] == '"' then Some(("", s[1..]))
    else
      var c := ReadChar(s);
      if c.None? then None
      else
        var more := ReadString(s[c.value.1..]);
        if more.None? then None else Some(([c.value.0] + more.value.0, more.value.1))
  }

  lemma ReadEscapedChar(c: char, rest: string)
    ensures ReadChar(EscapeChar(c) + rest) == Some((c, |EscapeChar(c)|))
    ensures EscapeChar(c) != "" && EscapeChar(c)[0] != '"'
  {
    var e := EscapeChar(c);
    var s := e + rest;
    if c < ' ' && |e| == 6 {
      assert s[2..6] == ['0', '0', HexDigit(c as nat / 16), HexDigit(c as nat % 16)];
    }
  }

  /** An escaped string reads back as itself, up to the closing quote and no further. */
  lemma {:induction false} EscapeRoundTrip(s: string, rest: string)
    ensures ReadString(Escape(s) + "\"" + rest) == Some((s, rest))
  {
    hide EscapeChar, ReadChar;
    var text := Escape(s) + "\"" + rest;
    if s == "" {
      assert text == "\"" + rest && text[1..] == rest;
    } else {
      var e, after := EscapeChar(s[0]), Escape(s[1..]);
      var tail := after + "\"" + rest;
      EscapeRoundTrip(s[1..], rest);
      assert Escape(s) == e + after;
      hide Escape;
      assert text == e + tail;
      ReadEscapedChar(s[0], tail);
      assert text[0] == e[0] && text[|e|..] == tail;
      assert s == [s[0]] + s[1..];
    }
  }

  lemma EscapeInjective(s: string, t: string)
    requires Escape(s) == Escape(t)
    ensures s == t
  {
    EscapeRoundTrip(s, "");
    EscapeRoundTrip(t, "");
  }

  /** No control characters. */
  predicate Visible(s: string) {
    forall i :: 0 <= i < |s| ==> s[i] >= ' '
  }

  /**
   The text between the quotes of a string, as section 7 of RFC 8259 has it: characters other than quote,
   backslash and controls stand for themselves; a backslash begins an escape.
   */
  predicate StringBody(s: string) {
    || s == ""
    || (s[0] >= ' ' && s[0] != '"' && s[0] != '\\' && StringBody(s[1..]))
    || (|s| > 1 && s[0] == '\\' && SimpleEscape(s[1]).Some? && StringBody(s[2..]))
    || (|s| > 5 && s[0] == '\\' && s[1] == 'u' && (forall i :: 2 <= i < 6 ==> IsHex(s[i])) && StringBody(s[6..]))
  }

  lemma EscapedCharIsBody(c: char, rest: string)
    requires StringBody(rest)
    ensures StringBody(EscapeChar(c) + rest)
  {
    var e := EscapeChar(c);
    var s := e + rest;
    assert s[|e|..] == rest;
  }

  /** Escaped text is a string body: no raw quote, no lone backslash, no control character. */
  lemma {:induction false} EscapeIsStringBody(s: string)
    ensures StringBody(Escape(s))
  {
    if s != "" {
      EscapeIsStringBody(s[1..]);
      EscapedCharIsBody(s[0], Escape(s[1..]));
    }
  }

  lemma {:induction false} StringBodyIsVisible(s: string)
    requires StringBody(s)
    ensures Visible(s)
  {
    if s != "" {
      if s[0] != '\\' {
        StringBodyIsVisible(s[1..]);
      } else if SimpleEscape(s[1]).Some? && StringBody(s[2..]) {
        StringBodyIsVisible(s[2..]);
      } else {
        StringBodyIsVisible(s[6..]);
      }
    }
  }

  /** In a string body a quote is only ever the second character of an escape. */
  lemma {:induction false} EscapeIsClean(s: string)
    ensures StringBody(Escape(s)) && Visible(Escape(s))
  {
    EscapeIsStringBody(s);
    StringBodyIsVisible(Escape(s));
  }

  /** A text that needs no escaping. */
  predicate Literal(s: string) {
    forall i :: 0 <= i < |s| ==> s[i] >= ' ' && s[i] != '"' && s[i] != '\\'
  }

  lemma {:induction false} LiteralEscape(s: string)
    requires Literal(s)
    ensures Escape(s) == s
  {
    if s != "" {
      LiteralEscape(s[1..]);
      assert s == [s[0]] + s[1..];
    }
  }

  // ---------- Numbers ----------

  function DigitSpan(s: string): (n: nat)
    ensures n <= |s| && AllDigits(s[..n])
  {
    if s == "" || !IsDigit(s[0]) then 0
    else
      var n := DigitSpan(s[1..]);
      assert s[..n + 1] == [s[0]] + s[1..][..n];
      n + 1
  }

  /** An unsigned JSON integer: no leading zeros. */
  function ReadNat(s: string): Option<(nat, string)> {
    var n := DigitSpan(s);
    if n == 0 || (n > 1 && s[0] == '0') then None else Some((NatValue(s[..n]), s[n..]))
  }

  function ReadInt(s: string): Option<(int, string)> {
    if s != "" && s[0] == '-' then
      var r := ReadNat(s[1..]);
      if r.None? then None
      else
        var n: int := r.value.0;
        Some((-n, r.value.1))
    else
      var r := ReadNat(s);
      if r.None? then None else Some((r.value.0, r.value.1))
  }

  /** The text after a number does not go on with a digit. */
  predicate Ends(rest: string) {
    rest == "" || !IsDigit(rest[0])
  }

  lemma {:induction false} SpanOfDigits(s: string, rest: string)
    requires AllDigits(s) && Ends(rest)
    ensures DigitSpan(s + rest) == |s|
  {
    if s == "" {
      assert s + rest == rest;
    } else {
      assert (s + rest)[1..] == s[1..] + rest;
      SpanOfDigits(s[1..], rest);
    }
  }

  lemma {:induction false} NoLeadingZero(n: nat)
    ensures NatText(n)[0] == '0' ==> n == 0
    ensures |NatText(n)| > 1 ==> n >= 10
  {
    if n >= 10 {
      NoLeadingZero(n / 10);
    }
  }

  lemma ReadNatText(n: nat, rest: string)
    requires Ends(rest)
    ensures ReadNat(NatText(n) + rest) == Some((n, rest))
  {
    var s := NatText(n);
    SpanOfDigits(s, rest);
    NoLeadingZero(n);
    NatRoundTrip(n);
    assert (s + rest)[..|s|] == s && (s + rest)[|s|..] == rest;
  }

  lemma NatTextStart(n: nat)
    ensures NatText(n) != "" && IsDigit(NatText(n)[0])
  {
    NatRoundTrip(n);
  }

  lemma ReadIntText(n: int, rest: string)
    requires Ends(rest)
    ensures ReadInt(IntText(n) + rest) == Some((n, rest))
  {
    hide ReadNat, NatText;
    if n < 0 {
      var s := IntText(n) + rest;
      assert IntText(n) == "-" + NatText(-n);
      assert s[0] == '-' && s[1..] == NatText(-n) + rest;
      ReadNatText(-n, rest);
    } else {
      assert IntText(n) == NatText(n);
      NatTextStart(n);
      assert (NatText(n) + rest)[0] == NatText(n)[0];
      ReadNatText(n, rest);
    }
  }

  // ---------- Values and objects ----------

  datatype Value = Text(s: string) | Number(n: int) | Numbers(ns: seq<int>)

  // The members of an object in the order they are written.
  type Object = seq<(string, Value)>

  function NumbersText(ns: seq<int>): string {
    if ns == [] then ""
    else if |ns| == 1 then IntText(ns[0])
    else IntText(ns[0]) + "," + NumbersText(ns[1..])
  }

  function ValueText(v: Value): string {
    match v
    case Text(s) => "\"" + Escape(s) + "\""
    case Number(n) => IntText(n)
    case Numbers(ns) => "[" + NumbersText(ns) + "]"
  }

  function MemberText(m: (string, Value)): string {
    "\"" + m.0 + "\":" + ValueText(m.1)
  }

  function MembersText(ms: Object): string
    requires ms != []
  {
    if |ms| == 1 then MemberText(ms[0]) else MemberText(ms[0]) + "," + MembersText(ms[1..])
  }

  function ObjectText(ms: Object): string
    requires ms != []
  {
    "{" + MembersText(ms) + "}"
  }

  /** What follows an opening bracket, up to and including the closing one. */
  function ReadNumbers(s: string): Option<(seq<int>, string)>
    decreases |s|
  {
    var first := ReadInt(s);
    if first.None? then None
    else
      var (n, rest) := first.value;
      if rest == "" || |rest| >= |s| then None
      else if rest[0] == ']' then Some(([n], rest[1..]))
      else if rest[0] == ',' then
        var more := ReadNumbers(rest[1..]);
        if more.None? then None else Some(([n] + more.value.0, more.value.1))
      else None
  }

  function ReadValue(s: string): Option<(Value, string)> {
    if s == "" then None
    else if s[0] == '"' then
      var r := ReadString(s[1..]);
      if r.None? then None else Some((Text(r.value.0), r.value.1))
    else if s[0] == '[' then
      if |s| > 1 && s[1] == ']' then Some((Numbers([]), s[2..]))
      else
        var r := ReadNumbers(s[1..]);
        if r.None? then None else Some((Numbers(r.value.0), r.value.1))
    else
      var r := ReadInt(s);
      if r.None? then None else Some((Number(r.value.0), r.value.1))
  }

  function ReadMember(s: string): Option<((string, Value), string)> {
    if s == "" || s[0] != '"' then None
    else
      var key := ReadString(s[1..]);
      if key.None? || key.value.1 == "" || key.value.1[0] != ':' then None
      else
        var v := ReadValue(key.value.1[1..]);
        if v.None? then None else Some(((key.value.0, v.value.0), v.value.1))
  }

  /** What follows an opening brace of a non-empty object, up to and including the closing one. */
  function ReadMembers(s: string): Option<(Object, string)>
    decreases |s|
  {
    var first := ReadMember(s);
    if first.None? then None
    else
      var (m, rest) := first.value;
      if rest == "" || |rest| >= |s| then None
      else if rest[0] == '}' then Some(([m], rest[1..]))
      else if rest[0] == ',' then
        var more := ReadMembers(rest[1..]);
        if more.None? then None else Some(([m] + more.value.0, more.value.1))
      else None
  }

  /** A line that is exactly one object. */
  function ReadObject(line: string): Option<Object> {
    if line == "" || line[0] != '{' then None
    else if line == "{}" then Some([])
    else
      var r := ReadMembers(line[1..]);
      if r.None? || r.value.1 != "" then None else Some(r.value.0)
  }

  predicate LiteralKeys(ms: Object) {
    forall i :: 0 <= i < |ms| ==> Literal(ms[i].0)
  }

  lemma {:induction false} ReadNumbersText(ns: seq<int>, rest: string)
    requires ns != []
    ensures ReadNumbers(NumbersText(ns) + "]" + rest) == Some((ns, rest))
  {
    hide ReadInt, IntText;
    var s := NumbersText(ns) + "]" + rest;
    var head := IntText(ns[0]);
    if |ns| == 1 {
      var tail := "]" + rest;
      assert s == head + tail;
      ReadIntText(ns[0], tail);
      assert tail[1..] == rest;
      assert ns == [ns[0]];
    } else {
      var inner := NumbersText(ns[1..]) + "]" + rest;
      var tail := "," + inner;
      assert s == head + tail;
      ReadIntText(ns[0], tail);
      assert tail[1..] == inner;
      ReadNumbersText(ns[1..], rest);
      assert ns == [ns[0]] + ns[1..];
    }
  }

  lemma IntTextStart(n: int)
    ensures IntText(n) != "" && (IntText(n)[0] == '-' || IsDigit(IntText(n)[0]))
  {
    hide NatText;
    if n >= 0 {
      NatTextStart(n);
    }
  }

  lemma ReadTextValue(t: string, rest: string)
    ensures ReadValue(ValueText(Text(t)) + rest) == Some((Text(t), rest))
  {
    hide Escape, ReadString, ReadInt, ReadNumbers;
    var s := ValueText(Text(t)) + rest;
    var body := Escape(t) + "\"" + rest;
    assert s == "\"" + body;
    assert s[0] == '"' && s[1..] == body;
    EscapeRoundTrip(t, rest);
  }

  lemma ReadNumberValue(n: int, rest: string)
    requires Ends(rest)
    ensures ReadValue(ValueText(Number(n)) + rest) == Some((Number(n), rest))
  {
    hide ReadString, ReadInt, ReadNumbers, IntText;
    var s := IntText(n) + rest;
    IntTextStart(n);
    assert s[0] == IntText(n)[0];
    ReadIntText(n, rest);
  }

  lemma ReadNumbersValue(ns: seq<int>, rest: string)
    ensures ReadValue(ValueText(Numbers(ns)) + rest) == Some((Numbers(ns), rest))
  {
    hide ReadString, ReadInt, ReadNumbers, IntText;
    var s := ValueText(Numbers(ns)) + rest;
    if ns == [] {
      assert s == "[]" + rest;
      assert s[0] == '[' && s[1] == ']' && s[2..] == rest;
    } else {
      var body := NumbersText(ns) + "]" + rest;
      assert s == "[" + body;
      assert s[0] == '[' && s[1..] == body;
      NumbersTextStart(ns);
      assert s[1] == NumbersText(ns)[0];
      ReadNumbersText(ns, rest);
    }
  }

  lemma NumbersTextStart(ns: seq<int>)
    requires ns != []
    ensures NumbersText(ns) != "" && NumbersText(ns)[0] != ']'
  {
    hide IntText;
    IntTextStart(ns[0]);
  }

  lemma ReadValueText(v: Value, rest: string)
    requires Ends(rest)
    ensures ReadValue(ValueText(v) + rest) == Some((v, rest))
  {
    hide ReadValue, ValueText;
    match v
    case Text(t) => ReadTextValue(t, rest);
    case Number(n) => ReadNumberValue(n, rest);
    case Numbers(ns) => ReadNumbersValue(ns, rest);
  }

  lemma ReadMemberText(m: (string, Value), rest: string)
    requires Literal(m.0) && Ends(rest)
    ensures ReadMember(MemberText(m) + rest) == Some((m, rest))
  {
    hide Escape, ReadString, ReadValue, ValueText;
    var s := MemberText(m) + rest;
    var tail := ":" + (ValueText(m.1) + rest);
    var body := m.0 + "\"" + tail;
    LiteralEscape(m.0);
    assert s == "\"" + body;
    assert s[0] == '"' && s[1..] == body;
    EscapeRoundTrip(m.0, tail);
    assert tail[0] == ':' && tail[1..] == ValueText(m.1) + rest;
    ReadValueText(m.1, rest);
  }

  lemma MemberTextStart(m: (string, Value))
    ensures MemberText(m) != "" && MemberText(m)[0] == '"'
  {
  }

  lemma {:induction false} ReadMembersText(ms: Object, rest: string)
    requires ms != [] && LiteralKeys(ms)
    ensures ReadMembers(MembersText(ms) + "}" + rest) == Some((ms, rest))
  {
    hide ReadMember, MemberText;
    var s := MembersText(ms) + "}" + rest;
    var head := MemberText(ms[0]);
    MemberTextStart(ms[0]);
    if |ms| == 1 {
      var tail := "}" + rest;
      assert s == head + tail;
      ReadMemberText(ms[0], tail);
      assert tail[1..] == rest;
      assert ms == [ms[0]];
    } else {
      var inner := MembersText(ms[1..]) + "}" + rest;
      var tail := "," + inner;
      assert s == head + tail;
      ReadMemberText(ms[0], tail);
      assert tail[1..] == inner;
      ReadMembersText(ms[1..], rest);
      assert ms == [ms[0]] + ms[1..];
    }
  }

  /** Every printed object reads back with all its members, in order. */
  lemma ObjectRoundTrip(ms: Object)
    requires ms != [] && LiteralKeys(ms)
    ensures ReadObject(ObjectText(ms)) == Some(ms)
  {
    hide ReadMembers, ValueText;
    var line := ObjectText(ms);
    assert line[1..] == MembersText(ms) + "}" + "";
    assert line[1] == '"';
    ReadMembersText(ms, "");
  }

  lemma {:induction false} VisibleNumbers(ns: seq<int>)
    ensures Visible(NumbersText(ns))
  {
    if ns != [] {
      VisibleNumbers(ns[1..]);
    }
  }

  lemma VisibleValue(v: Value)
    ensures Visible(ValueText(v))
  {
    match v
    case Text(s) => EscapeIsClean(s);
    case Number(_) =>
    case Numbers(ns) => VisibleNumbers(ns);
  }

  lemma {:induction false} VisibleMembers(ms: Object)
    requires ms != [] && LiteralKeys(ms)
    ensures Visible(MembersText(ms))
  {
    VisibleValue(ms[0].1);
    assert Literal(ms[0].0);
    if |ms| > 1 {
      VisibleMembers(ms[1..]);
    }
  }

  lemma MembersCons(m: (string, Value), ms: Object)
    requires ms != []
    ensures MembersText([m] + ms) == MemberText(m) + "," + MembersText(ms)
  {
    hide MemberText;
    assert ([m] + ms)[1..] == ms;
  }

  lemma {:induction false} MembersAppend(a: Object, b: Object)
    requires a != [] && b != []
    ensures MembersText(a + b) == MembersText(a) + "," + MembersText(b)
  {
    hide MemberText;
    assert a + b == [a[0]] + (a[1..] + b);
    MembersCons(a[0], a[1..] + b);
    if |a| == 1 {
      assert a[1..] + b == b;
    } else {
      MembersAppend(a[1..], b);
      var head, middle, last := MemberText(a[0]) + ",", MembersText(a[1..]), MembersText(b);
      assert MembersText(a) == head + middle;
      assert MembersText(a + b) == head + (middle + "," + last);
      assert head + (middle + "," + last) == head + middle + "," + last;
    }
  }

  // ---------- Dictionaries ----------

  type Dict = map<string, Value>

  /** The dictionary of an object's members; the last of two members with one name wins. */
  function AsDict(ms: Object): Dict {
    if ms == [] then map[]
    else
      var n := |ms| - 1;
      AsDict(ms[..n])[ms[n].0 := ms[n].1]
  }

  predicate DistinctKeys(ms: Object) {
    forall i, j :: 0 <= i < j < |ms| ==> ms[i].0 != ms[j].0
  }

  lemma {:induction false} DictKeys(ms: Object, key: string)
    requires key in AsDict(ms)
    ensures exists i :: 0 <= i < |ms| && ms[i].0 == key
  {
    var n := |ms| - 1;
    if ms[n].0 != key {
      DictKeys(ms[..n], key);
      var i :| 0 <= i < n && ms[..n][i].0 == key;
      assert ms[i].0 == key;
    }
  }

  lemma {:induction false} DictLookup(ms: Object, i: nat)
    requires DistinctKeys(ms) && i < |ms|
    ensures ms[i].0 in AsDict(ms) && AsDict(ms)[ms[i].0] == ms[i].1
  {
    var n := |ms| - 1;
    if i < n {
      DictLookup(ms[..n], i);
    }
  }
}
