/** Python's `str`: a sequence of code points, lone surrogates included. */
module Unicode {

  type CodePoint = c: int | 0 <= c < 0x110000

  type Text = seq<CodePoint>

  predicate IsHighSurrogate(c: CodePoint) { 0xD800 <= c <= 0xDBFF }

  predicate IsLowSurrogate(c: CodePoint) { 0xDC00 <= c <= 0xDFFF }

  /** `text.encode("utf-8")` succeeds: it raises UnicodeEncodeError on any surrogate. */
  predicate Encodable(text: Text) {
    forall i :: 0 <= i < |text| ==> !IsHighSurrogate(text[i]) && !IsLowSurrogate(text[i])
  }

  /** The number of bytes a code point takes in UTF-8. */
  function Utf8Width(c: CodePoint): nat {
    if c < 0x80 then 1 else if c < 0x800 then 2 else if c < 0x10000 then 3 else 4
  }

  /** `len(text.encode("utf-8"))`. */
  function Utf8Length(text: Text): nat {
    if text == [] then 0 else Utf8Length(text[..|text| - 1]) + Utf8Width(text[|text| - 1])
  }

  lemma {:induction false} Utf8LengthConcat(a: Text, b: Text)
    ensures Utf8Length(a + b) == Utf8Length(a) + Utf8Length(b)
  {
    if b == [] {
      assert a + b == a;
    } else {
      assert (a + b)[..|a + b| - 1] == a + b[..|b| - 1];
      Utf8LengthConcat(a, b[..|b| - 1]);
    }
  }
}
