/** The JSON-lines export of a ledger (c3r/telemetry/trace_ledger.py:63-85): the ASCII string
    escaping of section 7 of RFC 8259 as Python's `json` writes and reads it, `str.splitlines`,
    and the round trip. Only objects whose values are strings are modelled on the reading side. */
module JsonLines {
  import opened Schema
  import opened Unicode
  import opened TraceLedger

  const QUOTE: CodePoint := 0x22
  const BACKSLASH: CodePoint := 0x5C
  const LETTER_U: CodePoint := 0x75

  // ----- Writing a string

  function HexDigit(n: nat): CodePoint
    requires n < 16
  {
    if n < 10 then 0x30 + n else 0x57 + n
  }

  function UnicodeEscape(n: nat): Text
    requires n < 0x10000
  {
    [BACKSLASH, LETTER_U, HexDigit(n / 0x1000), HexDigit(n / 0x100 % 16), HexDigit(n / 0x10 % 16), HexDigit(n % 16)]
  }

  function HighHalf(c: CodePoint): nat
    requires c >= 0x10000
  {
    0xD800 + (c - 0x10000) / 0x400
  }

  function LowHalf(c: CodePoint): nat
    requires c >= 0x10000
  {
    0xDC00 + (c - 0x10000) % 0x400
  }

  /** The letter of a two-character escape, if `c` has one. */
  function ShortEscape(c: CodePoint): Option<CodePoint> {
    if c == QUOTE || c == BACKSLASH then Some(c)
    else if c == 0x08 then Some(0x62)
    else if c == 0x09 then Some(0x74)
    else if c == 0x0A then Some(0x6E)
    else if c == 0x0C then Some(0x66)
    else if c == 0x0D then Some(0x72)
    else None
  }

  function EscapeOne(c: CodePoint): Text {
    if ShortEscape(c).Some? then [BACKSLASH, ShortEscape(c).value]
    else if 0x20 <= c <= 0x7E then [c]
    else if c < 0x10000 then UnicodeEscape(c)
    else UnicodeEscape(HighHalf(c)) + UnicodeEscape(LowHalf(c))
  }

  function Escape(text: Text): Text {
    if text == [] then [] else EscapeOne(text[0]) + Escape(text[1..])
  }

  // ----- Reading a string

  function HexValue(c: CodePoint): Option<nat> {
    if 0x30 <= c <= 0x39 then Some(c - 0x30)
    else if 0x61 <= c <= 0x66 then Some(c - 0x57)
    else if 0x41 <= c <= 0x46 then Some(c - 0x37)
    else None
  }

  /** The value of a `\uXXXX` escape at the start of `s`. */
  function ReadUnicode(s: Text): Option<nat> {
    if |s| < 6 || s[0] != BACKSLASH || s[1] != LETTER_U then None
    else
      var a, b, c, d := HexValue(s[2]), HexValue(s[3]), HexValue(s[4]), HexValue(s[5]);
      if a.Some? && b.Some? && c.Some? && d.Some?
      then Some(((a.value * 16 + b.value) * 16 + c.value) * 16 + d.value) else None
  }

  function ShortUnescape(c: CodePoint): Option<CodePoint> {
    if c == QUOTE || c == BACKSLASH || c == 0x2F then Some(c)
    else if c == 0x62 then Some(0x08)
    else if c == 0x74 then Some(0x09)
    else if c == 0x6E then Some(0x0A)
    else if c == 0x66 then Some(0x0C)
    else if c == 0x72 then Some(0x0D)
    else None
  }

  function Combine(high: CodePoint, low: CodePoint): CodePoint
    requires IsHighSurrogate(high) && IsLowSurrogate(low)
  {
    0x10000 + (high - 0xD800) * 0x400 + (low - 0xDC00)
  }

  datatype Unit = Unit(value: CodePoint, length: nat)

  /** One character of a string body and how much input it took. A high surrogate escape
      followed by a low surrogate escape reads as one code point. */
  function ReadUnit(s: Text): Option<Unit>
    requires s != [] && s[0] != QUOTE
  {
    if s[0] < 0x20 then None
    else if s[0] != BACKSLASH then Some(Unit(s[0], 1))
    else if |s| < 2 then None
    else if s[1] != LETTER_U then
      match ShortUnescape(s[1]) { case Some(c) => Some(Unit(c, 2)) case None => None }
    else
      match ReadUnicode(s) {
        case None => None
        case Some(n) =>
          if n >= 0x110000 then None
          else if IsHighSurrogate(n) && ReadUnicode(s[6..]).Some? && 0xDC00 <= ReadUnicode(s[6..]).value <= 0xDFFF
          then Some(Unit(Combine(n, ReadUnicode(s[6..]).value), 12))
          else Some(Unit(n, 6))
      }
  }

  datatype Read = Read(text: Text, rest: Text)

  /** The string body up to its closing quote, and what follows the quote. */
  function ReadString(s: Text): Option<Read>
    decreases |s|
  {
    if s == [] then None
    else if s[0] == QUOTE then Some(Read([], s[1..]))
    else
      match ReadUnit(s)
      case None => None
      case Some(u) =>
        if u.length > |s| then None
        else
          match ReadString(s[u.length..])
          case None => None
          case Some(r) => Some(Read([u.value] + r.text, r.rest))
  }

  // ----- Reading undoes writing

  /** What reading back an escaped string gives: surrogate pairs are fused. */
  function Fused(text: Text): Text {
    if text == [] then []
    else if |text| >= 2 && IsHighSurrogate(text[0]) && IsLowSurrogate(text[1])
    then [Combine(text[0], text[1])] + Fused(text[2..])
    else [text[0]] + Fused(text[1..])
  }

  predicate HasSurrogatePair(text: Text) {
    exists i :: 0 <= i < |text| - 1 && IsHighSurrogate(text[i]) && IsLowSurrogate(text[i + 1])
  }

  lemma ReadUnicodeEscape(n: nat, rest: Text)
    requires n < 0x10000
    ensures ReadUnicode(UnicodeEscape(n) + rest) == Some(n)
    ensures (UnicodeEscape(n) + rest)[6..] == rest
  {
    var s := UnicodeEscape(n) + rest;
    HexDigitsOf(n);
    HexReads(n / 0x1000);
    HexReads(n / 0x100 % 16);
    HexReads(n / 0x10 % 16);
    HexReads(n % 16);
    assert s[2] == HexDigit(n / 0x1000) && s[3] == HexDigit(n / 0x100 % 16) && s[4] == HexDigit(n / 0x10 % 16) && s[5] == HexDigit(n % 16);
  }

  lemma HexDigitsOf(n: nat)
    requires n < 0x10000
    ensures n == ((n / 0x1000 * 16 + n / 0x100 % 16) * 16 + n / 0x10 % 16) * 16 + n % 16
  {
  }

  lemma HexReads(d: nat)
    requires d < 16
    ensures HexValue(HexDigit(d)) == Some(d)
  {
  }

  /** The rest of an escaped string, closed by its quote. */
  function Tail(text: Text, rest: Text): Text {
    Escape(text) + [QUOTE] + rest
  }

  lemma TailStep(text: Text, rest: Text)
    requires text != []
    ensures Tail(text, rest) == EscapeOne(text[0]) + Tail(text[1..], rest)
  {
  }

  predicate LowAhead(s: Text) {
    ReadUnicode(s).Some? && 0xDC00 <= ReadUnicode(s).value <= 0xDFFF
  }

  lemma LowAheadOfOne(c: CodePoint, after: Text)
    ensures LowAhead(EscapeOne(c) + after) <==> IsLowSurrogate(c)
  {
    var s := EscapeOne(c) + after;
    if ShortEscape(c).Some? {
      assert s[0] == BACKSLASH && s[1] != LETTER_U;
    } else if 0x20 <= c <= 0x7E {
      assert s[0] == c;
    } else if c < 0x10000 {
      ReadUnicodeEscape(c, after);
    } else {
      assert s == UnicodeEscape(HighHalf(c)) + (UnicodeEscape(LowHalf(c)) + after);
      ReadUnicodeEscape(HighHalf(c), UnicodeEscape(LowHalf(c)) + after);
    }
  }

  /** What is left starts with a low surrogate escape only if the text does. */
  lemma LowAheadOfTail(text: Text, rest: Text)
    ensures LowAhead(Tail(text, rest)) <==> text != [] && IsLowSurrogate(text[0])
  {
    if text == [] {
      assert Tail(text, rest)[0] == QUOTE;
    } else {
      TailStep(text, rest);
      LowAheadOfOne(text[0], Tail(text[1..], rest));
    }
  }

  predicate ReadsAs(s: Text, c: CodePoint, after: Text) {
    && s != [] && s[0] != QUOTE && ReadUnit(s).Some? && ReadUnit(s).value.value == c
    && ReadUnit(s).value.length <= |s| && s[ReadUnit(s).value.length..] == after
  }

  lemma ReadsShort(c: CodePoint, after: Text)
    requires ShortEscape(c).Some?
    ensures ReadsAs([BACKSLASH, ShortEscape(c).value] + after, c, after)
  {
    var s := [BACKSLASH, ShortEscape(c).value] + after;
    assert s[0] == BACKSLASH && s[1] == ShortEscape(c).value && s[2..] == after;
  }

  lemma ReadsUnicode(n: CodePoint, after: Text)
    requires n < 0x10000 && !(IsHighSurrogate(n) && LowAhead(after))
    ensures ReadsAs(UnicodeEscape(n) + after, n, after)
  {
    ReadUnicodeEscape(n, after);
  }

  lemma ReadsPair(high: CodePoint, low: CodePoint, after: Text)
    requires IsHighSurrogate(high) && IsLowSurrogate(low)
    ensures ReadsAs(UnicodeEscape(high) + (UnicodeEscape(low) + after), Combine(high, low), after)
  {
    var s := UnicodeEscape(high) + (UnicodeEscape(low) + after);
    ReadUnicodeEscape(high, UnicodeEscape(low) + after);
    ReadUnicodeEscape(low, after);
    assert s[12..] == s[6..][6..];
  }

  lemma HalvesCombine(c: CodePoint)
    requires c >= 0x10000
    ensures IsHighSurrogate(HighHalf(c)) && IsLowSurrogate(LowHalf(c)) && Combine(HighHalf(c), LowHalf(c)) == c
  {
  }

  lemma ReadsAstral(c: CodePoint, after: Text)
    requires c >= 0x10000
    ensures ReadsAs(EscapeOne(c) + after, c, after)
  {
    HalvesCombine(c);
    ReadsPair(HighHalf(c), LowHalf(c), after);
    assert EscapeOne(c) + after == UnicodeEscape(HighHalf(c)) + (UnicodeEscape(LowHalf(c)) + after);
  }

  lemma ReadsPlain(c: CodePoint, after: Text)
    requires 0x20 <= c <= 0x7E && c != QUOTE && c != BACKSLASH
    ensures ReadsAs([c] + after, c, after)
  {
    assert ([c] + after)[1..] == after;
  }

  lemma ReadsEscapedPair(high: CodePoint, low: CodePoint, after: Text)
    requires IsHighSurrogate(high) && IsLowSurrogate(low)
    ensures ReadsAs(EscapeOne(high) + (EscapeOne(low) + after), Combine(high, low), after)
  {
    ReadsPair(high, low, after);
  }

  /** One code point that does not open a surrogate pair is read back as itself. */
  lemma ReadsOne(c: CodePoint, after: Text)
    requires !(IsHighSurrogate(c) && LowAhead(after))
    ensures ReadsAs(EscapeOne(c) + after, c, after)
  {
    if ShortEscape(c).Some? {
      ReadsShort(c, after);
    } else if 0x20 <= c <= 0x7E {
      ReadsPlain(c, after);
    } else if c < 0x10000 {
      ReadsUnicode(c, after);
    } else {
      ReadsAstral(c, after);
    }
  }

  lemma ReadStep(s: Text, c: CodePoint, after: Text, text: Text, rest: Text)
    requires ReadsAs(s, c, after) && ReadString(after) == Some(Read(text, rest))
    ensures ReadString(s) == Some(Read([c] + text, rest))
  {
  }

  /** Reading an escaped string gives it back with its surrogate pairs fused. */
  lemma {:induction false} ReadEscaped(text: Text, rest: Text)
    ensures ReadString(Tail(text, rest)) == Some(Read(Fused(text), rest))
    decreases |text|
  {
    if text == [] {
      assert Tail(text, rest) == [QUOTE] + rest;
    } else {
      TailStep(text, rest);
      LowAheadOfTail(text[1..], rest);
      if |text| >= 2 && IsHighSurrogate(text[0]) && IsLowSurrogate(text[1]) {
        TailStep(text[1..], rest);
        assert text[1..][1..] == text[2..];
        ReadsEscapedPair(text[0], text[1], Tail(text[2..], rest));
        ReadEscaped(text[2..], rest);
        ReadStep(Tail(text, rest), Combine(text[0], text[1]), Tail(text[2..], rest), Fused(text[2..]), rest);
      } else {
        ReadsOne(text[0], Tail(text[1..], rest));
        ReadEscaped(text[1..], rest);
        ReadStep(Tail(text, rest), text[0], Tail(text[1..], rest), Fused(text[1..]), rest);
      }
    }
  }

  lemma {:induction false} FusedShrinks(text: Text)
    ensures |Fused(text)| <= |text|
    ensures HasSurrogatePair(text) <==> |Fused(text)| < |text|
    ensures !HasSurrogatePair(text) ==> Fused(text) == text
    decreases |text|
  {
    if text != [] {
      if |text| >= 2 && IsHighSurrogate(text[0]) && IsLowSurrogate(text[1]) {
        FusedShrinks(text[2..]);
      } else {
        FusedShrinks(text[1..]);
        var tail := text[1..];
        if HasSurrogatePair(tail) {
          var i :| 0 <= i < |tail| - 1 && IsHighSurrogate(tail[i]) && IsLowSurrogate(tail[i + 1]);
          assert IsHighSurrogate(text[i + 1]) && IsLowSurrogate(text[i + 1 + 1]);
        }
        if HasSurrogatePair(text) {
          var i :| 0 <= i < |text| - 1 && IsHighSurrogate(text[i]) && IsLowSurrogate(text[i + 1]);
          assert i > 0;
          assert IsHighSurrogate(tail[i - 1]) && IsLowSurrogate(tail[i - 1 + 1]);
        }
        assert text == [text[0]] + tail;
      }
    }
  }

  /** A string survives escaping and reading exactly when no high surrogate is directly
      followed by a low one. */
  lemma StringRoundTrip(text: Text, rest: Text)
    ensures ReadString(Tail(text, rest)) == Some(Read(text, rest)) <==> !HasSurrogatePair(text)
  {
    ReadEscaped(text, rest);
    FusedShrinks(text);
  }

  /** Two surrogates that form a pair are read back as one code point. */
  lemma SurrogatePairIsFused(high: CodePoint, low: CodePoint, rest: Text)
    requires IsHighSurrogate(high) && IsLowSurrogate(low)
    ensures ReadString(Tail([high, low], rest)) == Some(Read([Combine(high, low)], rest))
  {
    var text: Text := [high, low];
    ReadEscaped(text, rest);
    assert text[2..] == [];
    assert Fused(text) == [Combine(high, low)] + Fused(text[2..]) == [Combine(high, low)];
  }

  lemma EncodableHasNoPair(text: Text)
    requires Encodable(text)
    ensures !HasSurrogatePair(text)
  {
  }

  // ----- Objects

  const OPEN: CodePoint := 0x7B
  const CLOSE: CodePoint := 0x7D
  const COLON: CodePoint := 0x3A
  const COMMA: CodePoint := 0x2C

  // The member names, in the order `sort_keys` puts them.
  const CANONICAL_JSON: Text := [0x63, 0x61, 0x6E, 0x6F, 0x6E, 0x69, 0x63, 0x61, 0x6C, 0x5F, 0x6A, 0x73, 0x6F, 0x6E]
  const PREVIOUS_HASH: Text := [0x70, 0x72, 0x65, 0x76, 0x69, 0x6F, 0x75, 0x73, 0x5F, 0x68, 0x61, 0x73, 0x68]
  const RECORD_HASH: Text := [0x72, 0x65, 0x63, 0x6F, 0x72, 0x64, 0x5F, 0x68, 0x61, 0x73, 0x68]

  function Quoted(text: Text): Text {
    [QUOTE] + Escape(text) + [QUOTE]
  }

  function Member(name: Text, value: Text): Text {
    Quoted(name) + [COLON] + Quoted(value)
  }

  /** `json.dumps(asdict(record), sort_keys=True, separators=(",", ":"))`. */
  function Line(r: LedgerRecord): Text {
    [OPEN] + Member(CANONICAL_JSON, r.canonicalJson)
    + [COMMA] + Member(PREVIOUS_HASH, r.previousHash)
    + [COMMA] + Member(RECORD_HASH, r.recordHash) + [CLOSE]
  }

  predicate JsonSpace(c: CodePoint) { c == 0x20 || c == 0x09 || c == 0x0A || c == 0x0D }

  function SkipSpace(s: Text): (r: Text)
    ensures |r| <= |s|
  {
    if s != [] && JsonSpace(s[0]) then SkipSpace(s[1..]) else s
  }

  datatype Field = Field(name: Text, value: Text, rest: Text)

  /** `"name" : "value"` at the start of `s`. */
  function ReadMember(s: Text): (r: Option<Field>)
    ensures r.Some? ==> |r.value.rest| < |s|
  {
    if s == [] || s[0] != QUOTE then None
    else
      match ReadString(s[1..])
      case None => None
      case Some(name) =>
        ReadShortens(s[1..]);
        var colon := SkipSpace(name.rest);
        if colon == [] || colon[0] != COLON then None
        else
          var quote := SkipSpace(colon[1..]);
          if quote == [] || quote[0] != QUOTE then None
          else
            match ReadString(quote[1..])
            case None => None
            case Some(value) => ReadShortens(quote[1..]); Some(Field(name.text, value.text, value.rest))
  }

  lemma {:induction false} ReadShortens(s: Text)
    ensures ReadString(s).Some? ==> |ReadString(s).value.rest| < |s|
    decreases |s|
  {
    if s != [] && s[0] != QUOTE && ReadUnit(s).Some? && ReadUnit(s).value.length <= |s| {
      ReadShortens(s[ReadUnit(s).value.length..]);
    }
  }

  /** The members after `{` or `,`, later ones overriding earlier ones, up to a closing brace
      that only white space may follow. */
  function ReadMembers(s: Text, seen: map<Text, Text>): Option<map<Text, Text>>
    decreases |s|
  {
    match ReadMember(SkipSpace(s))
    case None => None
    case Some(field) =>
      var next, known := SkipSpace(field.rest), seen[field.name := field.value];
      if next == [] then None
      else if next[0] == COMMA then ReadMembers(next[1..], known)
      else if next[0] == CLOSE && SkipSpace(next[1..]) == [] then Some(known)
      else None
  }

  /** `json.loads(line)` for an object of strings. */
  function ReadObject(line: Text): Option<map<Text, Text>> {
    var s := SkipSpace(line);
    if s == [] || s[0] != OPEN then None
    else
      var t := SkipSpace(s[1..]);
      if t != [] && t[0] == CLOSE then (if SkipSpace(t[1..]) == [] then Some(map[]) else None)
      else ReadMembers(s[1..], map[])
  }

  /** How the JSON decoder and `str` treat a line that is not an object of strings: the record they
      make of its values, or `None` for the ValueError of a malformed line. */
  type Foreign = Text -> Option<LedgerRecord>

  /** The record on a line; `None` is the ValueError of a malformed line. */
  function ReadRecord(foreign: Foreign, line: Text): Option<LedgerRecord> {
    match ReadObject(line)
    case None => foreign(line)
    case Some(fields) =>
      if PREVIOUS_HASH in fields && RECORD_HASH in fields && CANONICAL_JSON in fields
      then Some(LedgerRecord(fields[PREVIOUS_HASH], fields[RECORD_HASH], fields[CANONICAL_JSON])) else None
  }

  predicate Plain(text: Text) { !HasSurrogatePair(text) }

  lemma ReadQuoted(text: Text, rest: Text)
    requires Plain(text)
    ensures var s := Quoted(text) + rest; s[0] == QUOTE && ReadString(s[1..]) == Some(Read(text, rest))
  {
    assert (Quoted(text) + rest)[1..] == Tail(text, rest);
    StringRoundTrip(text, rest);
  }

  lemma ReadMemberSteps(s: Text, name: Text, colon: Text, value: Text, rest: Text)
    requires s != [] && s[0] == QUOTE && ReadString(s[1..]) == Some(Read(name, colon))
    requires |colon| > 1 && colon[0] == COLON && colon[1] == QUOTE && ReadString(colon[2..]) == Some(Read(value, rest))
    ensures ReadMember(s) == Some(Field(name, value, rest))
  {
    var quote := colon[1..];
    assert SkipSpace(colon) == colon && SkipSpace(quote) == quote;
    assert quote[1..] == colon[2..];
  }

  lemma ColonFollows(n: Text, v: Text, rest: Text, colon: Text)
    requires v != [] && colon == [COLON] + (v + rest)
    ensures n + [COLON] + v + rest == n + colon && |colon| > 1 && colon[0] == COLON && colon[1] == v[0]
    ensures colon[2..] == (v + rest)[1..]
  {
  }

  lemma AssembleMember(n: Text, v: Text, name: Text, value: Text, rest: Text)
    requires n != [] && v != [] && n[0] == QUOTE && v[0] == QUOTE
    requires ReadString((n + ([COLON] + (v + rest)))[1..]) == Some(Read(name, [COLON] + (v + rest)))
    requires ReadString((v + rest)[1..]) == Some(Read(value, rest))
    ensures ReadMember(n + [COLON] + v + rest) == Some(Field(name, value, rest))
  {
    var colon := [COLON] + (v + rest);
    ColonFollows(n, v, rest, colon);
    ReadMemberSteps(n + colon, name, colon, value, rest);
  }

  lemma ReadWrittenMember(name: Text, value: Text, rest: Text)
    requires Plain(name) && Plain(value)
    ensures ReadMember(Member(name, value) + rest) == Some(Field(name, value, rest))
    ensures Member(name, value)[0] == QUOTE
  {
    ReadQuoted(name, [COLON] + (Quoted(value) + rest));
    ReadQuoted(value, rest);
    AssembleMember(Quoted(name), Quoted(value), name, value, rest);
  }

  lemma Regroup(o: Text, x: Text, c: Text, y: Text, d: Text, z: Text, e: Text)
    ensures o + x + c + y + d + z + e == o + (x + (c + (y + (d + (z + e)))))
  {
  }

  lemma ReadObjectStart(first: Text)
    requires first != [] && first[0] == QUOTE
    ensures ReadObject([OPEN] + first) == ReadMembers(first, map[])
  {
    assert ([OPEN] + first)[1..] == first;
  }

  lemma MembersStep(s: Text, field: Field, seen: map<Text, Text>)
    requires s != [] && s[0] == QUOTE && ReadMember(s) == Some(field)
    requires field.rest != [] && field.rest[0] == COMMA
    ensures ReadMembers(s, seen) == ReadMembers(field.rest[1..], seen[field.name := field.value])
  {
  }

  lemma MembersStop(s: Text, field: Field, seen: map<Text, Text>)
    requires s != [] && s[0] == QUOTE && ReadMember(s) == Some(field) && field.rest == [CLOSE]
    ensures ReadMembers(s, seen) == Some(seen[field.name := field.value])
  {
    assert [CLOSE][1..] == [];
  }

  lemma MembersContinue(name: Text, value: Text, rest: Text, seen: map<Text, Text>)
    requires Plain(name) && Plain(value)
    ensures ReadMembers(Member(name, value) + ([COMMA] + rest), seen) == ReadMembers(rest, seen[name := value])
  {
    ReadWrittenMember(name, value, [COMMA] + rest);
    MembersStep(Member(name, value) + ([COMMA] + rest), Field(name, value, [COMMA] + rest), seen);
    assert ([COMMA] + rest)[1..] == rest;
  }

  lemma MembersEnd(name: Text, value: Text, seen: map<Text, Text>)
    requires Plain(name) && Plain(value)
    ensures ReadMembers(Member(name, value) + [CLOSE], seen) == Some(seen[name := value])
  {
    ReadWrittenMember(name, value, [CLOSE]);
    MembersStop(Member(name, value) + [CLOSE], Field(name, value, [CLOSE]), seen);
  }

  predicate PlainRecord(r: LedgerRecord) {
    Plain(r.previousHash) && Plain(r.recordHash) && Plain(r.canonicalJson)
  }

  lemma NamesArePlain()
    ensures Plain(CANONICAL_JSON) && Plain(PREVIOUS_HASH) && Plain(RECORD_HASH)
    ensures CANONICAL_JSON != PREVIOUS_HASH && PREVIOUS_HASH != RECORD_HASH && CANONICAL_JSON != RECORD_HASH
  {
    assert Encodable(CANONICAL_JSON) && Encodable(PREVIOUS_HASH) && Encodable(RECORD_HASH);
    assert CANONICAL_JSON[0] != PREVIOUS_HASH[0] && PREVIOUS_HASH[0] != RECORD_HASH[0] && CANONICAL_JSON[0] != RECORD_HASH[0];
  }

  lemma WrittenObject(a: Text, b: Text, c: Text, x: Text, y: Text, z: Text)
    requires Plain(a) && Plain(b) && Plain(c) && Plain(x) && Plain(y) && Plain(z)
    ensures ReadObject([OPEN] + Member(a, x) + [COMMA] + Member(b, y) + [COMMA] + Member(c, z) + [CLOSE])
         == Some(map[][a := x][b := y][c := z])
  {
    var mx, my, mz := Member(a, x), Member(b, y), Member(c, z);
    Regroup([OPEN], mx, [COMMA], my, [COMMA], mz, [CLOSE]);
    var third := mz + [CLOSE];
    var second := my + ([COMMA] + third);
    var first := mx + ([COMMA] + second);
    ReadWrittenMember(a, x, [COMMA] + second);
    ReadObjectStart(first);
    MembersContinue(a, x, second, map[]);
    MembersContinue(b, y, third, map[][a := x]);
    MembersEnd(c, z, map[][a := x][b := y]);
  }

  lemma ThreeFields(a: Text, b: Text, c: Text, x: Text, y: Text, z: Text)
    requires a != b && b != c && a != c
    ensures var m := map[][a := x][b := y][c := z]; a in m && b in m && c in m && m[a] == x && m[b] == y && m[c] == z
  {
  }

  /** A written line is read back as the record it was written from. */
  lemma RecordRoundTrip(foreign: Foreign, r: LedgerRecord)
    requires PlainRecord(r)
    ensures ReadRecord(foreign, Line(r)) == Some(r)
  {
    NamesArePlain();
    WrittenObject(CANONICAL_JSON, PREVIOUS_HASH, RECORD_HASH, r.canonicalJson, r.previousHash, r.recordHash);
    ThreeFields(CANONICAL_JSON, PREVIOUS_HASH, RECORD_HASH, r.canonicalJson, r.previousHash, r.recordHash);
  }

  // ----- Lines

  /** The characters at which `str.splitlines` breaks. */
  predicate LineBreak(c: CodePoint) {
    (0x0A <= c <= 0x0D) || (0x1C <= c <= 0x1E) || c == 0x85 || c == 0x2028 || c == 0x2029
  }

  /** The length of the first line. */
  function FirstLine(s: Text): (n: nat)
    ensures n <= |s| && (n < |s| ==> LineBreak(s[n])) && forall i :: 0 <= i < n ==> !LineBreak(s[i])
  {
    if s == [] || LineBreak(s[0]) then 0 else 1 + FirstLine(s[1..])
  }

  function SplitLines(s: Text): seq<Text>
    decreases |s|
  {
    if s == [] then []
    else
      var n := FirstLine(s);
      var skip := if n == |s| then n else if s[n] == 0x0D && n + 1 < |s| && s[n + 1] == 0x0A then n + 2 else n + 1;
      [s[..n]] + SplitLines(s[skip..])
  }

  /** `"\n".join(lines)`. */
  function JoinLines(lines: seq<Text>): Text {
    if lines == [] then []
    else if |lines| == 1 then lines[0]
    else lines[0] + [NEWLINE] + JoinLines(lines[1..])
  }

  predicate Unbroken(line: Text) { forall i :: 0 <= i < |line| ==> !LineBreak(line[i]) }

  lemma FirstLineIs(line: Text, rest: Text)
    requires Unbroken(line) && (rest == [] || LineBreak(rest[0]))
    ensures FirstLine(line + rest) == |line|
  {
    var n := FirstLine(line + rest);
    assert forall i :: 0 <= i < |line| ==> (line + rest)[i] == line[i];
    assert rest != [] ==> (line + rest)[|line|] == rest[0];
  }

  lemma SplitOne(line: Text)
    requires Unbroken(line) && line != []
    ensures SplitLines(line) == [line]
  {
    FirstLineIs(line, []);
    assert line + [] == line && line[..|line|] == line;
  }

  lemma SplitFirst(line: Text, rest: Text)
    requires Unbroken(line)
    ensures SplitLines(line + [NEWLINE] + rest) == [line] + SplitLines(rest)
  {
    var s := line + [NEWLINE] + rest;
    assert s == line + ([NEWLINE] + rest);
    FirstLineIs(line, [NEWLINE] + rest);
    assert s[|line|] == NEWLINE && s[..|line|] == line && s[|line| + 1..] == rest;
  }

  /** Splitting gives back joined lines that are nonempty and hold no line break. */
  lemma {:induction false} SplitJoined(lines: seq<Text>)
    requires forall i :: 0 <= i < |lines| ==> lines[i] != [] && Unbroken(lines[i])
    ensures SplitLines(JoinLines(lines)) == lines
  {
    if |lines| == 1 {
      SplitOne(lines[0]);
      assert lines == [lines[0]];
    } else if |lines| > 1 {
      SplitJoined(lines[1..]);
      SplitFirst(lines[0], JoinLines(lines[1..]));
      assert lines == [lines[0]] + lines[1..];
    }
  }

  predicate Printable(text: Text) { forall i :: 0 <= i < |text| ==> 0x20 <= text[i] <= 0x7E }

  /** Escaping emits printable ASCII only, so no line break. */
  lemma {:induction false} EscapeIsPrintable(text: Text)
    ensures Printable(Escape(text))
  {
    if text != [] {
      EscapeIsPrintable(text[1..]);
      EscapeOneIsPrintable(text[0]);
    }
  }

  lemma EscapeOneIsPrintable(c: CodePoint)
    ensures Printable(EscapeOne(c))
  {
  }

  lemma MemberIsPrintable(name: Text, value: Text)
    ensures Printable(Member(name, value))
  {
    EscapeIsPrintable(name);
    EscapeIsPrintable(value);
  }

  lemma PrintableAround(x: Text, y: Text, z: Text)
    requires Printable(x) && Printable(y) && Printable(z)
    ensures var s := [OPEN] + x + [COMMA] + y + [COMMA] + z + [CLOSE]; Printable(s) && s[0] == OPEN
  {
  }

  lemma PrintableIsUnbroken(text: Text)
    requires Printable(text)
    ensures Unbroken(text)
  {
  }

  lemma LineIsPrintable(r: LedgerRecord)
    ensures Line(r) != [] && Line(r)[0] == OPEN && Unbroken(Line(r))
  {
    MemberIsPrintable(CANONICAL_JSON, r.canonicalJson);
    MemberIsPrintable(PREVIOUS_HASH, r.previousHash);
    MemberIsPrintable(RECORD_HASH, r.recordHash);
    PrintableAround(Member(CANONICAL_JSON, r.canonicalJson), Member(PREVIOUS_HASH, r.previousHash), Member(RECORD_HASH, r.recordHash));
    PrintableIsUnbroken(Line(r));
  }

  function Lines(records: seq<LedgerRecord>, write: LedgerRecord -> Text): seq<Text> {
    if records == [] then [] else Lines(records[..|records| - 1], write) + [write(records[|records| - 1])]
  }

  /** `TraceLedger.to_jsonl`. */
  function ToJsonl(records: seq<LedgerRecord>): Text {
    JoinLines(Lines(records, Line))
  }

  /** `not line.strip()`: nothing but Unicode white space. */
  predicate Blank(line: Text) {
    forall i :: 0 <= i < |line| ==>
      (0x09 <= line[i] <= 0x0D) || (0x1C <= line[i] <= 0x20) || line[i] == 0x85 || line[i] == 0xA0 || line[i] == 0x1680
      || (0x2000 <= line[i] <= 0x200A) || line[i] == 0x2028 || line[i] == 0x2029 || line[i] == 0x202F || line[i] == 0x205F || line[i] == 0x3000
  }

  /** The records of the nonblank lines, `None` if one is malformed. */
  function Parsed(foreign: Foreign, lines: seq<Text>): Option<seq<LedgerRecord>> {
    if lines == [] then Some([])
    else
      match Parsed(foreign, lines[..|lines| - 1])
      case None => None
      case Some(earlier) =>
        if Blank(lines[|lines| - 1]) then Some(earlier)
        else
          match ReadRecord(foreign, lines[|lines| - 1])
          case None => None
          case Some(r) => Some(earlier + [r])
  }

  /** `TraceLedger.from_jsonl`; `None` is the raised ValueError. */
  method FromJsonl(foreign: Foreign, prims: Primitives, payload: Text) returns (result: Option<seq<LedgerRecord>>)
    ensures var parsed := Parsed(foreign, SplitLines(payload));
            result == if parsed.Some? && Chain(prims, GENESIS, parsed.value) then parsed else None
  {
    var lines := SplitLines(payload);
    var records: seq<LedgerRecord> := [];
    for i := 0 to |lines|
      invariant Parsed(foreign, lines[..i]) == Some(records)
    {
      assert lines[..i + 1] == lines[..i] + [lines[i]];
      if Blank(lines[i]) {
        BlankStep(foreign, lines[..i], lines[i], records);
      } else {
        var record := ReadRecord(foreign, lines[i]);
        if record.None? {
          BadStep(foreign, lines[..i], lines[i]);
          ParsedFails(foreign, lines, i + 1);
          return None;
        }
        ParseStep(foreign, lines[..i], lines[i], records, record.value);
        records := records + [record.value];
      }
    }
    assert lines[..|lines|] == lines;
    var verdict := VerifyRecords(prims, records);
    return if verdict == Accepted then Some(records) else None;
  }

  lemma {:induction false} ParsedFails(foreign: Foreign, lines: seq<Text>, n: nat)
    requires n <= |lines| && Parsed(foreign, lines[..n]).None?
    ensures Parsed(foreign, lines).None?
  {
    if n < |lines| {
      assert lines[..|lines| - 1][..n] == lines[..n];
      ParsedFails(foreign, lines[..|lines| - 1], n);
    } else {
      assert lines[..n] == lines;
    }
  }

  lemma SplitLast<T>(s: seq<T>)
    requires s != []
    ensures s == s[..|s| - 1] + [s[|s| - 1]]
  {
  }

  lemma BlankStep(foreign: Foreign, lines: seq<Text>, line: Text, records: seq<LedgerRecord>)
    requires Parsed(foreign, lines) == Some(records) && Blank(line)
    ensures Parsed(foreign, lines + [line]) == Some(records)
  {
    assert (lines + [line])[..|lines|] == lines;
  }

  lemma BadStep(foreign: Foreign, lines: seq<Text>, line: Text)
    requires !Blank(line) && ReadRecord(foreign, line).None?
    ensures Parsed(foreign, lines + [line]).None?
  {
    assert (lines + [line])[..|lines|] == lines;
  }

  lemma ParseStep(foreign: Foreign, lines: seq<Text>, line: Text, records: seq<LedgerRecord>, r: LedgerRecord)
    requires Parsed(foreign, lines) == Some(records) && !Blank(line) && ReadRecord(foreign, line) == Some(r)
    ensures Parsed(foreign, lines + [line]) == Some(records + [r])
  {
    assert (lines + [line])[..|lines|] == lines;
  }

  lemma LineIsRead(foreign: Foreign, r: LedgerRecord)
    requires PlainRecord(r)
    ensures !Blank(Line(r)) && ReadRecord(foreign, Line(r)) == Some(r)
  {
    LineIsPrintable(r);
    RecordRoundTrip(foreign, r);
  }

  lemma {:induction false} ParseWritten(foreign: Foreign, records: seq<LedgerRecord>, write: LedgerRecord -> Text)
    requires forall i :: 0 <= i < |records| ==> !Blank(write(records[i])) && ReadRecord(foreign, write(records[i])) == Some(records[i])
    ensures Parsed(foreign, Lines(records, write)) == Some(records)
  {
    if records != [] {
      var init, last := records[..|records| - 1], records[|records| - 1];
      ParseWritten(foreign, init, write);
      ParseStep(foreign, Lines(init, write), write(last), init, last);
      SplitLast(records);
    }
  }

  lemma {:induction false} LinesAreUnbroken(records: seq<LedgerRecord>, write: LedgerRecord -> Text)
    requires forall r :: write(r) != [] && Unbroken(write(r))
    ensures forall i :: 0 <= i < |Lines(records, write)| ==> Lines(records, write)[i] != [] && Unbroken(Lines(records, write)[i])
  {
    if records != [] {
      LinesAreUnbroken(records[..|records| - 1], write);
    }
  }

  lemma LedgerIsPlain(prims: Primitives, records: seq<LedgerRecord>)
    requires Chain(prims, GENESIS, records) && HexDigests(prims.sha256)
    ensures forall i :: 0 <= i < |records| ==> PlainRecord(records[i])
  {
    forall i | 0 <= i < |records|
      ensures PlainRecord(records[i])
    {
      assert LinkHolds(prims, GENESIS, records, i);
      ChainPrefix(prims, GENESIS, records, i);
      HeadIsHex(prims, GENESIS, records[..i]);
      var previous := HashBefore(GENESIS, records, i);
      EncodablePreimage(previous, records[i].canonicalJson);
      EncodableHasNoPair(records[i].canonicalJson);
    }
  }

  /** Exporting a verified ledger and reading it back gives the same, still verified, ledger. */
  lemma LedgerRoundTrip(foreign: Foreign, prims: Primitives, records: seq<LedgerRecord>)
    requires Chain(prims, GENESIS, records) && HexDigests(prims.sha256)
    ensures Parsed(foreign, SplitLines(ToJsonl(records))) == Some(records)
  {
    LedgerIsPlain(prims, records);
    forall i | 0 <= i < |records|
      ensures !Blank(Line(records[i])) && ReadRecord(foreign, Line(records[i])) == Some(records[i])
    {
      LineIsRead(foreign, records[i]);
    }
    forall r
      ensures Line(r) != [] && Unbroken(Line(r))
    {
      LineIsPrintable(r);
    }
    ParseWritten(foreign, records, Line);
    LinesAreUnbroken(records, Line);
    SplitJoined(Lines(records, Line));
  }

  /** The same, as the two calls of the source. */
  method ExportAndImport(foreign: Foreign, ledger: Ledger) returns (result: Option<seq<LedgerRecord>>)
    requires ledger.Valid() && HexDigests(ledger.prims.sha256)
    ensures result == Some(ledger.records)
  {
    LedgerRoundTrip(foreign, ledger.prims, ledger.records);
    result := FromJsonl(foreign, ledger.prims, ToJsonl(ledger.records));
  }

  predicate Spells(t: Text, name: string) { |t| == |name| && forall i :: 0 <= i < |t| ==> t[i] == name[i] as int }

  /** The member names are those of the source's record. */
  lemma NamesSpelled()
    ensures Spells(PREVIOUS_HASH, "previous_hash") && Spells(RECORD_HASH, "record_hash") && Spells(CANONICAL_JSON, "canonical_json")
  {
  }

  /** A written line is a JSON object with the three named members and no other, each with its value. */
  lemma LineNamesItsMembers(r: LedgerRecord)
    requires PlainRecord(r)
    ensures var o := ReadObject(Line(r));
            && o.Some? && o.value.Keys == {PREVIOUS_HASH, RECORD_HASH, CANONICAL_JSON}
            && o.value[PREVIOUS_HASH] == r.previousHash && o.value[RECORD_HASH] == r.recordHash && o.value[CANONICAL_JSON] == r.canonicalJson
  {
    NamesArePlain();
    WrittenObject(CANONICAL_JSON, PREVIOUS_HASH, RECORD_HASH, r.canonicalJson, r.previousHash, r.recordHash);
    NamedFields(CANONICAL_JSON, PREVIOUS_HASH, RECORD_HASH, r.canonicalJson, r.previousHash, r.recordHash);
  }

  lemma NamedFields(a: Text, b: Text, c: Text, x: Text, y: Text, z: Text)
    requires a != b && b != c && a != c
    ensures var m := map[][a := x][b := y][c := z]; m.Keys == {a, b, c} && m[a] == x && m[b] == y && m[c] == z
  {
  }
}
