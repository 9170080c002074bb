/** Hexadecimal text: the printer, the send-input parser and the delimiter parser. */
module HexText {
  import opened Base
  import opened Decoders

  // ---------- Characters ----------

  function HexValue(c: char): (v: int)
    ensures -1 <= v < 16
  {
    if '0' <= c <= '9' then c as int - '0' as int
    else if 'a' <= c <= 'f' then 10 + c as int - 'a' as int
    else if 'A' <= c <= 'F' then 10 + c as int - 'A' as int
    else -1
  }

  predicate IsHex(c: char) {
    HexValue(c) >= 0
  }

  /** `std::isspace` in the "C" locale. */
  predicate IsSpace(c: char) {
    c == ' ' || '\t' <= c <= '\r'
  }

  predicate IsSeparator(c: char) {
    IsSpace(c) || c == ':' || c == '-'
  }

  /** `s` goes on with `0x` or `0X` at `i`. */
  predicate PrefixAt(s: string, i: nat) {
    i + 1 < |s| && s[i] == '0' && (s[i + 1] == 'x' || s[i + 1] == 'X')
  }

  predicate PairAt(s: string, i: nat) {
    i + 1 < |s| && IsHex(s[i]) && IsHex(s[i + 1])
  }

  function PairValue(s: string, i: nat): (b: byte)
    requires PairAt(s, i)
  {
    16 * HexValue(s[i]) + HexValue(s[i + 1])
  }

  const LOWER: string := "0123456789abcdef"
  const UPPER: string := "0123456789ABCDEF"

  /** The character is the hexadecimal digit of this value. */
  predicate Denotes(c: char, v: int) {
    0 <= v < 16 && (c == LOWER[v] || c == UPPER[v])
  }

  lemma DigitsDenote(c: char, v: int)
    ensures HexValue(c) == v && v >= 0 <==> Denotes(c, v)
  {
    assert v == 0 || v == 1 || v == 2 || v == 3 || v == 4 || v == 5 || v == 6 || v == 7
        || v == 8 || v == 9 || v == 10 || v == 11 || v == 12 || v == 13 || v == 14 || v == 15 || v < 0 || v >= 16;
  }

  /** The characters between bytes: tabulator to carriage return, space, colon and hyphen. */
  lemma SeparatorsAre(c: char)
    ensures IsSpace(c) <==> c as int in {9, 10, 11, 12, 13, 32}
    ensures IsSeparator(c) <==> c as int in {9, 10, 11, 12, 13, 32, 45, 58}
  {
  }

  /** A pair stands for a byte: its digits are the byte's two halves, the upper one first. */
  lemma PairIff(s: string, i: nat, b: byte)
    ensures PairAt(s, i) && PairValue(s, i) == b <==>
            i + 1 < |s| && Denotes(s[i], b / 16) && Denotes(s[i + 1], b % 16)
  {
    hide HexValue, Denotes;
    if i + 1 < |s| {
      DigitsDenote(s[i], b / 16);
      DigitsDenote(s[i + 1], b % 16);
    }
  }

  // ---------- The grammar of send input ----------

  /** `line` is in (separator | [0x|0X] digit digit)*, and its bytes are `p`. */
  ghost predicate Spells(line: string, p: bytes) {
    || (line == "" && p == [])
    || (line != "" && IsSeparator(line[0]) && Spells(line[1..], p))
    || (p != [] && PairAt(line, 0) && PairValue(line, 0) == p[0] && Spells(line[2..], p[1..]))
    || (p != [] && PrefixAt(line, 0) && PairAt(line, 2) && PairValue(line, 2) == p[0] && Spells(line[4..], p[1..]))
  }

  datatype HexResult = Bytes(payload: bytes) | HexError(column: nat, message: string)

  const TWO_DIGITS: string := "expected two hex digits"
  const DIGIT_OR_SEPARATOR: string := "expected hex digit or separator"

  function Skip(s: string): nat {
    if PrefixAt(s, 0) then 2 else 0
  }

  /** What the parser does with the text from a token boundary on; columns count from there. */
  function ParseFrom(s: string, afterByte: bool): HexResult
    decreases |s|
  {
    if s == "" then Bytes([])
    else if IsSeparator(s[0]) then Later(ParseFrom(s[1..], false), [], 1)
    else if PairAt(s, Skip(s)) then
      Later(ParseFrom(s[Skip(s) + 2..], true), [PairValue(s, Skip(s))], Skip(s) + 2)
    else HexError(1, if afterByte && !IsHex(s[0]) then DIGIT_OR_SEPARATOR else TWO_DIGITS)
  }

  function Later(r: HexResult, head: bytes, width: nat): HexResult {
    match r
    case Bytes(p) => Bytes(head + p)
    case HexError(column, message) => HexError(column + width, message)
  }

  function ParseHexPayload(line: string): HexResult {
    ParseFrom(line, false)
  }

  /** `read_hex_byte`: two digits at `index`, or `None` where the source throws. */
  method ReadHexByte(line: string, index: nat) returns (r: Option<byte>)
    ensures r == if PairAt(line, index) then Some(PairValue(line, index)) else None
  {
    if index >= |line| || HexValue(line[index]) < 0 {
      return None;
    }
    var high := HexValue(line[index]);
    if index + 1 >= |line| || HexValue(line[index + 1]) < 0 {
      return None;
    }
    var low := HexValue(line[index + 1]);
    return Some(16 * high + low);
  }

  /** Loop invariant: `payload` holds the bytes in front of `index`, the rest is still to be parsed. */
  ghost predicate Resumes(line: string, index: nat, afterByte: bool, payload: bytes)
    requires index <= |line|
  {
    ParseHexPayload(line) == Later(ParseFrom(line[index..], afterByte), payload, index)
  }

  lemma ResumesAtStart(line: string)
    ensures Resumes(line, 0, false, [])
  {
    assert line[0..] == line;
    var r := ParseFrom(line, false);
    if r.Bytes? {
      assert [] + r.payload == r.payload;
    }
  }

  lemma ResumesAtEnd(line: string, afterByte: bool, payload: bytes)
    requires Resumes(line, |line|, afterByte, payload)
    ensures ParseHexPayload(line) == Bytes(payload)
  {
    assert line[|line|..] == "";
    assert payload + [] == payload;
  }

  lemma ResumesAfterSeparator(line: string, index: nat, afterByte: bool, payload: bytes)
    requires index < |line| && Resumes(line, index, afterByte, payload) && IsSeparator(line[index])
    ensures Resumes(line, index + 1, false, payload)
  {
    var s := line[index..];
    assert s[1..] == line[index + 1..];
    assert payload + [] == payload;
    LaterLater(ParseFrom(s[1..], false), payload, index, [], 1);
  }

  lemma SuffixPair(line: string, index: nat, i: nat)
    requires index <= |line|
    ensures PairAt(line[index..], i) <==> PairAt(line, index + i)
    ensures PairAt(line[index..], i) ==> PairValue(line[index..], i) == PairValue(line, index + i)
    ensures PrefixAt(line[index..], i) <==> PrefixAt(line, index + i)
  {
  }

  lemma ResumesAfterByte(line: string, index: nat, afterByte: bool, payload: bytes, skip: nat)
    requires index < |line| && Resumes(line, index, afterByte, payload) && !IsSeparator(line[index])
    requires skip == (if PrefixAt(line, index) then 2 else 0) && PairAt(line, index + skip)
    ensures Resumes(line, index + skip + 2, true, payload + [PairValue(line, index + skip)])
  {
    var s := line[index..];
    SuffixPair(line, index, 0);
    SuffixPair(line, index, skip);
    assert |s| >= skip + 2 && s[skip + 2..] == line[index + skip + 2..];
    hide PairAt, PrefixAt, PairValue, IsSeparator;
    LaterLater(ParseFrom(s[skip + 2..], true), payload, index, [PairValue(line, index + skip)], skip + 2);
  }

  lemma FailsHere(line: string, index: nat, afterByte: bool, payload: bytes)
    requires index < |line| && Resumes(line, index, afterByte, payload) && !IsSeparator(line[index])
    requires !PairAt(line, index + if PrefixAt(line, index) then 2 else 0)
    ensures ParseHexPayload(line) ==
            HexError(index + 1, if afterByte && !IsHex(line[index]) then DIGIT_OR_SEPARATOR else TWO_DIGITS)
  {
    var s := line[index..];
    assert !PairAt(s, Skip(s));
  }

  method ParseHexPayloadLoop(line: string) returns (r: HexResult)
    ensures r == ParseHexPayload(line)
  {
    hide Resumes, ParseHexPayload;
    var payload: bytes := [];
    var index := 0;
    ghost var afterByte := false;
    ResumesAtStart(line);
    while index < |line|
      invariant index <= |line|
      invariant afterByte && index < |line| && !IsSeparator(line[index]) ==> IsHex(line[index])
      invariant Resumes(line, index, afterByte, payload)
    {
      if IsSeparator(line[index]) {
        ResumesAfterSeparator(line, index, afterByte, payload);
        index, afterByte := index + 1, false;
        continue;
      }
      var column := index + 1;
      ghost var token := index;
      if line[index] == '0' && index + 1 < |line| && (line[index + 1] == 'x' || line[index + 1] == 'X') {
        index := index + 2;
      }
      if index >= |line| || HexValue(line[index]) < 0 {
        FailsHere(line, token, afterByte, payload);
        return HexError(column, TWO_DIGITS);
      }
      var b := ReadHexByte(line, index);
      if b.None? {
        FailsHere(line, token, afterByte, payload);
        return HexError(column, TWO_DIGITS);
      }
      ResumesAfterByte(line, token, afterByte, payload, index - token);
      index, afterByte := index + 2, true;
      payload := payload + [b.value];
      if index < |line| && !IsSeparator(line[index]) {
        if line[index] == '0' && index + 1 < |line| && (line[index + 1] == 'x' || line[index + 1] == 'X') {
          continue;
        }
        if HexValue(line[index]) < 0 {
          FailsHere(line, index, afterByte, payload);
          return HexError(index + 1, DIGIT_OR_SEPARATOR);
        }
      }
    }
    ResumesAtEnd(line, afterByte, payload);
    return Bytes(payload);
  }

  lemma LaterLater(r: HexResult, head: bytes, width: nat, head': bytes, width': nat)
    ensures Later(Later(r, head', width'), head, width) == Later(r, head + head', width + width')
  {
    if r.Bytes? {
      assert head + (head' + r.payload) == (head + head') + r.payload;
    }
  }

  // ---------- Exactness ----------

  /** The parser accepts exactly the grammar, and returns exactly the bytes the line spells. */
  lemma {:induction false} ParseIffSpells(line: string, afterByte: bool, p: bytes)
    ensures ParseFrom(line, afterByte) == Bytes(p) <==> Spells(line, p)
    decreases |line|
  {
    if line == "" {
    } else if IsSeparator(line[0]) {
      ParseIffSpells(line[1..], false, p);
    } else if PairAt(line, Skip(line)) {
      var k := Skip(line);
      if p != [] {
        ParseIffSpells(line[k + 2..], true, p[1..]);
        assert p == [p[0]] + p[1..];
      }
      var q := ParseFrom(line[k + 2..], true);
      if q.Bytes? && ParseFrom(line, afterByte) == Bytes(p) {
        assert p[1..] == q.payload;
      }
    }
  }

  lemma HexExactness(line: string, p: bytes)
    ensures ParseHexPayload(line) == Bytes(p) <==> Spells(line, p)
  {
    ParseIffSpells(line, false, p);
  }

  /** After a failure, what stands in front of the reported column parses, and nothing longer does. */
  lemma {:induction false} FailureIsLocal(s: string, afterByte: bool, n: nat)
    requires ParseFrom(s, afterByte).HexError?
    requires n <= |s|
    ensures var k := ParseFrom(s, afterByte).column - 1;
            0 <= k < |s| && (ParseFrom(s[..n], afterByte).Bytes? <== n == k)
                         && (n > k ==> ParseFrom(s[..n], afterByte).HexError?)
    decreases |s|
  {
    var t := s[..n];
    if IsSeparator(s[0]) {
      if n > 0 {
        assert t[1..] == s[1..][..n - 1];
      }
      FailureIsLocal(s[1..], false, if n > 0 then n - 1 else 0);
    } else if PairAt(s, Skip(s)) {
      var w := Skip(s) + 2;
      if n >= w {
        assert t[w..] == s[w..][..n - w];
        assert Skip(t) == Skip(s) && PairAt(t, Skip(t)) && PairValue(t, Skip(t)) == PairValue(s, Skip(s));
      }
      hide PairAt, PrefixAt, PairValue;
      FailureIsLocal(s[w..], true, if n >= w then n - w else 0);
    } else if n > 0 {
      assert t[0] == s[0] && !PairAt(t, Skip(t));
    }
  }

  lemma {:induction false} MessageAt(s: string, afterByte: bool)
    requires ParseFrom(s, afterByte).HexError?
    ensures var k, message := ParseFrom(s, afterByte).column - 1, ParseFrom(s, afterByte).message;
            && 0 <= k < |s|
            && message == if (if k == 0 then afterByte else IsHex(s[k - 1])) && !IsHex(s[k])
                          then DIGIT_OR_SEPARATOR else TWO_DIGITS
    decreases |s|
  {
    if IsSeparator(s[0]) {
      MessageAt(s[1..], false);
    } else if PairAt(s, Skip(s)) {
      MessageAt(s[Skip(s) + 2..], true);
    }
  }

  /** The message says whether the bad character directly follows a digit and is none itself. */
  lemma MessageIff(line: string)
    requires ParseHexPayload(line).HexError?
    ensures var k := ParseHexPayload(line).column - 1;
            && 0 <= k < |line|
            && ParseHexPayload(line).message ==
                 if k > 0 && IsHex(line[k - 1]) && !IsHex(line[k]) then "expected hex digit or separator"
                 else "expected two hex digits"
  {
    hide ParseFrom;
    MessageAt(line, false);
  }

  /** The reported column is one past the length of the longest parseable prefix. */
  lemma ColumnIsLongestPrefix(line: string)
    requires ParseHexPayload(line).HexError?
    ensures var k := ParseHexPayload(line).column - 1;
            && 0 <= k < |line|
            && (exists p :: Spells(line[..k], p))
            && (forall n, p :: k < n <= |line| ==> !Spells(line[..n], p))
  {
    var k := ParseHexPayload(line).column - 1;
    FailureIsLocal(line, false, 0);
    FailureIsLocal(line, false, k);
    HexExactness(line[..k], ParseHexPayload(line[..k]).payload);
    forall n, p | k < n <= |line| ensures !Spells(line[..n], p) {
      FailureIsLocal(line, false, n);
      HexExactness(line[..n], p);
    }
  }

  lemma {:induction false} SpellsConcat(a: string, p: bytes, b: string, q: bytes)
    requires Spells(a, p) && Spells(b, q)
    ensures Spells(a + b, p + q)
    decreases |a|
  {
    var s := a + b;
    if a == "" {
      assert s == b && p + q == q;
    } else if IsSeparator(a[0]) && Spells(a[1..], p) {
      assert s[1..] == a[1..] + b;
      SpellsConcat(a[1..], p, b, q);
    } else {
      var k := if PairAt(a, 0) && PairValue(a, 0) == p[0] && Spells(a[2..], p[1..]) then 2 else 4;
      assert s[k..] == a[k..] + b;
      assert (p + q)[1..] == p[1..] + q;
      SpellsConcat(a[k..], p[1..], b, q);
    }
  }

  /** Concatenating two inputs that parse concatenates their bytes. */
  lemma ParseHomomorphism(a: string, b: string)
    requires ParseHexPayload(a).Bytes? && ParseHexPayload(b).Bytes?
    ensures ParseHexPayload(a + b) == Bytes(ParseHexPayload(a).payload + ParseHexPayload(b).payload)
  {
    var p, q := ParseHexPayload(a).payload, ParseHexPayload(b).payload;
    HexExactness(a, p);
    HexExactness(b, q);
    SpellsConcat(a, p, b, q);
    HexExactness(a + b, p + q);
  }

  // ---------- The printer ----------

  /** An uppercase hexadecimal digit. */
  function HexDigit(v: nat): (c: char)
    requires v < 16
    ensures IsHex(c) && HexValue(c) == v && ('0' <= c <= '9' || 'A' <= c <= 'F')
  {
    if v < 10 then ('0' as nat + v) as char else ('A' as nat + v - 10) as char
  }

  function PairText(b: byte): (s: string)
    ensures |s| == 2
  {
    [HexDigit(b / 16), HexDigit(b % 16)]
  }

  function ToHex(p: bytes, spaced: bool): string {
    if p == [] then ""
    else
      var n := |p| - 1;
      ToHex(p[..n], spaced) + (if spaced && n != 0 then " " else "") + PairText(p[n])
  }

  method ToHexLoop(payload: bytes, spaced: bool) returns (out: string)
    ensures out == ToHex(payload, spaced)
  {
    out := "";
    for i := 0 to |payload|
      invariant out == ToHex(payload[..i], spaced)
    {
      if spaced && i != 0 {
        out := out + " ";
      }
      out := out + PairText(payload[i]);
      assert payload[..i + 1][..i] == payload[..i];
    }
    assert payload[..|payload|] == payload;
  }

  lemma PairSpells(b: byte)
    ensures Spells(PairText(b), [b])
  {
    var s := PairText(b);
    assert PairAt(s, 0) && PairValue(s, 0) == b;
    assert s[2..] == "" && [b][1..] == [];
    assert Spells(s[2..], [b][1..]);
  }

  lemma {:induction false} ToHexSpells(p: bytes, spaced: bool)
    ensures Spells(ToHex(p, spaced), p)
  {
    if p != [] {
      var n := |p| - 1;
      var gap := if spaced && n != 0 then " " else "";
      ToHexSpells(p[..n], spaced);
      PairSpells(p[n]);
      assert Spells(gap, []) by {
        assert Spells("", []);
        assert " "[1..] == "";
      }
      SpellsConcat(ToHex(p[..n], spaced), p[..n], gap, []);
      assert p[..n] + [] == p[..n];
      SpellsConcat(ToHex(p[..n], spaced) + gap, p[..n], PairText(p[n]), [p[n]]);
      assert p[..n] + [p[n]] == p;
    }
  }

  /** Parsing printed bytes gives the bytes back, with and without spaces. */
  lemma HexRoundTrip(p: bytes, spaced: bool)
    ensures ParseHexPayload(ToHex(p, spaced)) == Bytes(p)
  {
    ToHexSpells(p, spaced);
    HexExactness(ToHex(p, spaced), p);
  }

  // ---------- The delimiter parser ----------

  /** `parse_hex_byte` on two characters: `std::stoul` in base 16 also takes a sign. */
  function HexByte(a: char, b: char): Result<byte> {
    if IsHex(a) && IsHex(b) then Ok(16 * HexValue(a) + HexValue(b))
    else if (a == '+' || a == '-') && IsHex(b) then
      if a == '+' || HexValue(b) == 0 then Ok(HexValue(b)) else Err("invalid hex byte: " + [a, b])
    else if IsHex(a) then Err("invalid hex byte: " + [a, b])
    else Err("stoul")
  }

  function Compact(s: string): string {
    if s == "" then ""
    else Compact(s[..|s| - 1]) + (if IsSpace(s[|s| - 1]) then "" else [s[|s| - 1]])
  }

  /** Pairs are read from left to right; the first bad pair is the error. */
  function BytesOfPairs(s: string): Result<bytes>
    requires |s| % 2 == 0
  {
    if s == "" then Ok([])
    else
      var n := |s| - 2;
      var before := BytesOfPairs(s[..n]);
      if before.Err? then before
      else
        var last := HexByte(s[n], s[n + 1]);
        if last.Err? then Err(last.error) else Ok(before.value + [last.value])
  }

  function DelimiterBytes(value: string): Result<bytes> {
    var named := Lowercase(value);
    if named == "crlf" then Ok([0x0D, 0x0A])
    else if named == "lf" then Ok([0x0A])
    else
      var compact := Compact(value);
      if compact == "" || |compact| % 2 != 0 then Err("--delimiter requires hex bytes, LF, or CRLF")
      else BytesOfPairs(compact)
  }

  /** What a pair of a delimiter may be: two digits, a plus and a digit, or a negative zero. */
  predicate PairReads(a: char, b: char, v: byte) {
    || (Denotes(a, v / 16) && Denotes(b, v % 16))
    || (a == '+' && Denotes(b, v))
    || (a == '-' && b == '0' && v == 0)
  }

  lemma HexByteIff(a: char, b: char, v: byte)
    ensures HexByte(a, b) == Ok(v) <==> PairReads(a, b, v)
  {
    hide Denotes;
    DigitsDenote(a, v / 16);
    DigitsDenote(b, v % 16);
    DigitsDenote(b, v);
  }

  predicate PairsRead(s: string, p: bytes) {
    |s| == 2 * |p| && forall i :: 0 <= i < |p| ==> PairReads(s[2 * i], s[2 * i + 1], p[i])
  }

  lemma {:induction false} PairsIff(s: string, p: bytes)
    requires |s| % 2 == 0
    ensures BytesOfPairs(s) == Ok(p) <==> PairsRead(s, p)
  {
    hide HexByte, PairReads;
    if s != "" && p != [] {
      var n, m := |s| - 2, |p| - 1;
      PairsIff(s[..n], p[..m]);
      HexByteIff(s[n], s[n + 1], p[m]);
      assert p == p[..m] + [p[m]];
      if PairsRead(s, p) {
        assert n == 2 * m;
        assert PairsRead(s[..n], p[..m]);
      }
    }
  }

  /** White space is dropped wherever it stands, and everything else is kept in order. */
  lemma CompactRules(s: string, t: string, c: char)
    ensures Compact("") == "" && Compact([c]) == if c as int in {9, 10, 11, 12, 13, 32} then "" else [c]
    ensures Compact(s + t) == Compact(s) + Compact(t)
  {
    CompactConcat(s, t);
    assert [c][..0] == "";
    assert Compact([c]) == Compact("") + (if IsSpace(c) then "" else [c]);
  }

  /**
   Which bytes a delimiter argument stands for: a line feed or the pair of carriage return and line feed by
   name, otherwise the bytes of its pairs, of which there must be one.
   */
  lemma DelimiterIff(value: string, p: bytes)
    ensures Lowercase(value) == "lf" ==> (DelimiterBytes(value) == Ok(p) <==> p == [10])
    ensures Lowercase(value) == "crlf" ==> (DelimiterBytes(value) == Ok(p) <==> p == [13, 10])
    ensures Lowercase(value) !in {"lf", "crlf"} ==>
              (DelimiterBytes(value) == Ok(p) <==> p != [] && PairsRead(Compact(value), p))
  {
    hide Lowercase, Compact, BytesOfPairs;
    assert |"lf"| == 2 && |"crlf"| == 4;
    if |Compact(value)| % 2 == 0 {
      PairsIff(Compact(value), p);
    }
  }

  ghost predicate ReadsAsNothing(a: char, b: char) {
    forall v: byte :: !PairReads(a, b, v)
  }

  lemma NothingIff(a: char, b: char)
    ensures HexByte(a, b).Err? <==> ReadsAsNothing(a, b)
  {
    hide HexByte, PairReads;
    forall v: byte ensures HexByte(a, b) == Ok(v) <==> PairReads(a, b, v) {
      HexByteIff(a, b, v);
    }
    if HexByte(a, b).Ok? {
      assert PairReads(a, b, HexByte(a, b).value);
    }
  }

  /** The first pair that does not read decides the error. */
  lemma {:induction false} FirstBadPair(s: string) returns (i: nat)
    requires |s| % 2 == 0 && BytesOfPairs(s).Err?
    ensures 2 * i + 1 < |s| && (exists p :: PairsRead(s[..2 * i], p))
    ensures ReadsAsNothing(s[2 * i], s[2 * i + 1])
    ensures var a, b := s[2 * i], s[2 * i + 1];
            BytesOfPairs(s).error ==
              if IsHex(a) || ((a == '+' || a == '-') && IsHex(b)) then "invalid hex byte: " + [a, b] else "stoul"
  {
    var n := |s| - 2;
    if BytesOfPairs(s[..n]).Err? {
      i := FirstBadPair(s[..n]);
      assert s[..n][..2 * i] == s[..2 * i];
    } else {
      i := n / 2;
      PairsIff(s[..n], BytesOfPairs(s[..n]).value);
      NothingIff(s[n], s[n + 1]);
    }
  }

  method ParseDelimiterBytes(value: string) returns (r: Result<bytes>)
    ensures r == DelimiterBytes(value)
  {
    hide Lowercase, HexByte;
    var named := Lowercase(value);
    if named == "crlf" {
      return Ok([0x0D, 0x0A]);
    }
    if named == "lf" {
      return Ok([0x0A]);
    }
    var compact := "";
    for i := 0 to |value|
      invariant compact == Compact(value[..i])
    {
      assert value[..i + 1][..i] == value[..i];
      if !IsSpace(value[i]) {
        compact := compact + [value[i]];
      }
    }
    assert value[..|value|] == value;
    if compact == "" || |compact| % 2 != 0 {
      return Err("--delimiter requires hex bytes, LF, or CRLF");
    }
    var bytes: bytes := [];
    var i := 0;
    while i < |compact|
      invariant i <= |compact| && i % 2 == 0
      invariant BytesOfPairs(compact[..i]) == Ok(bytes)
    {
      assert compact[..i + 2][..i] == compact[..i];
      var b := HexByte(compact[i], compact[i + 1]);
      if b.Err? {
        ErrorStays(compact, i + 2);
        return Err(b.error);
      }
      bytes := bytes + [b.value];
      i := i + 2;
    }
    assert compact[..i] == compact;
    return Ok(bytes);
  }

  lemma {:induction false} ErrorStays(s: string, i: nat)
    requires |s| % 2 == 0 && i % 2 == 0 && i <= |s|
    requires BytesOfPairs(s[..i]).Err?
    ensures BytesOfPairs(s) == BytesOfPairs(s[..i])
    decreases |s|
  {
    if i < |s| {
      var n := |s| - 2;
      assert s[..n][..i] == s[..i];
      ErrorStays(s[..n], i);
    } else {
      assert s[..i] == s;
    }
  }

  lemma {:induction false} CompactConcat(s: string, t: string)
    ensures Compact(s + t) == Compact(s) + Compact(t)
  {
    if t == "" {
      assert s + t == s;
    } else {
      var n := |t| - 1;
      assert (s + t)[..|s| + n] == s + t[..n];
      CompactConcat(s, t[..n]);
    }
  }

  lemma CompactPair(b: byte)
    ensures Compact(PairText(b)) == PairText(b)
    ensures Compact(" ") == "" && Compact("") == ""
  {
    var s := PairText(b);
    assert s[..1] == [s[0]] && s[..1][..0] == "" && s == s[..1] + [s[1]];
    assert Compact(s[..1]) == [s[0]];
    assert " "[..0] == "";
  }

  lemma {:induction false} CompactDropsSpaces(p: bytes, spaced: bool)
    ensures Compact(ToHex(p, spaced)) == ToHex(p, false)
  {
    if p != [] {
      var n := |p| - 1;
      var head, gap := ToHex(p[..n], spaced), if spaced && n != 0 then " " else "";
      CompactDropsSpaces(p[..n], spaced);
      CompactPair(p[n]);
      CompactConcat(head, gap);
      CompactConcat(head + gap, PairText(p[n]));
    }
  }

  lemma HexByteOfPair(b: byte)
    ensures HexByte(PairText(b)[0], PairText(b)[1]) == Ok(b)
  {
  }

  lemma PairsSnoc(s: string, b: byte)
    requires |s| % 2 == 0 && BytesOfPairs(s).Ok?
    ensures BytesOfPairs(s + PairText(b)) == Ok(BytesOfPairs(s).value + [b])
  {
    HexByteOfPair(b);
    var pair := PairText(b);
    hide HexByte, PairText;
    var t := s + pair;
    assert t[..|t| - 2] == s && t[|t| - 2] == pair[0] && t[|t| - 1] == pair[1];
  }

  lemma {:induction false} PairsOfToHex(p: bytes)
    ensures |ToHex(p, false)| == 2 * |p|
    ensures BytesOfPairs(ToHex(p, false)) == Ok(p)
  {
    if p != [] {
      var n := |p| - 1;
      var head := ToHex(p[..n], false);
      assert ToHex(p, false) == head + PairText(p[n]);
      hide ToHex, BytesOfPairs, PairText;
      PairsOfToHex(p[..n]);
      PairsSnoc(head, p[n]);
      assert p == p[..n] + [p[n]];
    }
  }

  lemma {:induction false} ToHexStarts(p: bytes, spaced: bool)
    requires p != []
    ensures PairText(p[0]) <= ToHex(p, spaced)
  {
    if |p| > 1 {
      ToHexStarts(p[..|p| - 1], spaced);
    }
  }

  lemma LowercaseAt(s: string, i: nat)
    requires i < |s|
    ensures Lowercase(s)[i] == Lowercase([s[i]])[0]
  {
    if i > 0 {
      LowercaseAt(s[1..], i - 1);
    }
  }

  lemma LowercaseDigit(c: char)
    requires '0' <= c <= '9' || 'A' <= c <= 'F'
    ensures Lowercase([c])[0] != 'l' && Lowercase([c])[0] != 'r'
  {
  }

  /** Printed bytes read back as a delimiter, for every non-empty delimiter. */
  lemma DelimiterRoundTrip(p: bytes, spaced: bool)
    requires p != []
    ensures DelimiterBytes(ToHex(p, spaced)) == Ok(p)
  {
    hide ToHex, Compact, BytesOfPairs, Lowercase;
    var s := ToHex(p, spaced);
    ToHexStarts(p, spaced);
    assert s[0] == HexDigit(p[0] / 16) && s[1] == HexDigit(p[0] % 16);
    LowercaseAt(s, 0);
    LowercaseAt(s, 1);
    LowercaseDigit(s[0]);
    LowercaseDigit(s[1]);
    assert Lowercase(s)[0] != 'l' && Lowercase(s)[1] != 'r';
    CompactDropsSpaces(p, spaced);
    PairsOfToHex(p);
  }
}
