/** The scalars of the Hermes config: quoting on the way out, unquoting on the way in. Models
    `_yaml_scalar` and `_yaml_unquote_scalar` of agent_launcher.py. */
module HermesScalar {
  import opened PyText

  const BACKSLASH := "\\"
  const QUOTE := "\""
  const TWO_BACKSLASHES := "\\\\"
  const ESCAPED_QUOTE := "\\\""

  predicate IsSpecial(c: char)
  {
    c in ":#\"'\\{}\n\t"
  }

  predicate IsPlain(value: string)
  {
    value != "" && forall i :: 0 <= i < |value| ==> !IsSpecial(value[i])
  }

  function Escape(value: string): string
  {
    ReplaceAll(ReplaceAll(value, BACKSLASH, TWO_BACKSLASHES), QUOTE, ESCAPED_QUOTE)
  }

  function Unescape(text: string): string
  {
    ReplaceAll(ReplaceAll(text, ESCAPED_QUOTE, QUOTE), TWO_BACKSLASHES, BACKSLASH)
  }

  /** `_yaml_scalar` */
  function Scalar(value: string): string
  {
    if IsPlain(value) then value else QUOTE + Escape(value) + QUOTE
  }

  /** `_yaml_unquote_scalar` */
  function Unquote(value: string): string
  {
    var text := Strip(value);
    if |text| >= 2 && text[0] == '"' && text[|text| - 1] == '"'
    then Unescape(text[1..|text| - 1])
    else text
  }

  /** A scalar is written as it is exactly when it is not empty and holds none of nine characters; otherwise it is put
      between quotes, with a backslash before each backslash and each quote. */
  lemma ScalarExactly(value: string)
    ensures Scalar(value) == value
       <==> value != "" && forall c :: c in value ==> c !in [':', '#', '"', '\'', '\\', '{', '}', '\n', '\t']
    ensures Scalar(value) != value ==> Scalar(value) == "\"" + EscapedChars(value) + "\""
  {
    EscapeGrows(value);
    EscapePass1(value);
    EscapePass2(value);
  }

  lemma EscapeGrows(value: string)
    ensures |Escape(value)| >= |value|
  {
    EscapePass1(value);
    EscapePass2(value);
    EscapedCharsGrow(value);
  }

  lemma {:induction false} EscapedCharsGrow(value: string)
    ensures |EscapedChars(value)| >= |value|
  {
    if value != "" {
      EscapedCharsGrow(value[1..]);
    }
  }

  // --- What the two passes do, character by character -------------------------

  function EscapedChar(c: char): string
  {
    if c == '\\' then TWO_BACKSLASHES else if c == '"' then ESCAPED_QUOTE else [c]
  }

  function EscapedChars(value: string): string
  {
    if value == "" then "" else EscapedChar(value[0]) + EscapedChars(value[1..])
  }

  /** The text between the two unescaping passes: quotes bare, backslashes still doubled. */
  function DoubledBackslashes(value: string): string
  {
    if value == "" then ""
    else (if value[0] == '\\' then TWO_BACKSLASHES else [value[0]]) + DoubledBackslashes(value[1..])
  }

  lemma {:induction false} EscapePass1(value: string)
    ensures ReplaceAll(value, BACKSLASH, TWO_BACKSLASHES) == DoubledBackslashes(value)
  {
    if value != "" {
      EscapePass1(value[1..]);
    }
  }

  lemma {:induction false} EscapePass2(value: string)
    ensures ReplaceAll(DoubledBackslashes(value), QUOTE, ESCAPED_QUOTE) == EscapedChars(value)
  {
    if value != "" {
      var rest := DoubledBackslashes(value[1..]);
      EscapePass2(value[1..]);
      if value[0] == '\\' {
        var s := TWO_BACKSLASHES + rest;
        assert s[0] == '\\' && s[1] == '\\' && s[1..] == BACKSLASH + rest && s[1..][1..] == rest;
        assert BACKSLASH + (BACKSLASH + EscapedChars(value[1..])) == TWO_BACKSLASHES + EscapedChars(value[1..]);
      } else {
        var s := [value[0]] + rest;
        assert s[1..] == rest;
      }
    }
  }

  /** The first unescaping pass touches only the backslash right before a quote, and that one is
      always an escaping one. */
  lemma {:induction false} UnescapePass1(value: string)
    ensures ReplaceAll(EscapedChars(value), ESCAPED_QUOTE, QUOTE) == DoubledBackslashes(value)
  {
    if value != "" {
      var rest := EscapedChars(value[1..]);
      UnescapePass1(value[1..]);
      if value[0] == '\\' {
        var s := TWO_BACKSLASHES + rest;
        var t := BACKSLASH + rest;
        NoLeadingQuote(value[1..]);
        assert s[1..] == t && t[1..] == rest;
        assert s[..2] == TWO_BACKSLASHES && s[..2][1] == '\\' && ESCAPED_QUOTE[1] == '"';
        assert !StartsWith(s, ESCAPED_QUOTE);
        if |t| >= 2 {
          assert t[..2][1] == rest[0];
        }
        assert !StartsWith(t, ESCAPED_QUOTE);
        assert BACKSLASH + (BACKSLASH + DoubledBackslashes(value[1..]))
            == TWO_BACKSLASHES + DoubledBackslashes(value[1..]);
      } else if value[0] == '"' {
        var s := ESCAPED_QUOTE + rest;
        assert s[..2] == ESCAPED_QUOTE && s[2..] == rest;
      } else {
        var s := [value[0]] + rest;
        assert s[1..] == rest;
        assert !StartsWith(s, ESCAPED_QUOTE);
      }
    }
  }

  lemma NoLeadingQuote(value: string)
    ensures EscapedChars(value) != "" ==> EscapedChars(value)[0] != '"'
  {
  }

  lemma {:induction false} UnescapePass2(value: string)
    ensures ReplaceAll(DoubledBackslashes(value), TWO_BACKSLASHES, BACKSLASH) == value
  {
    if value != "" {
      var rest := DoubledBackslashes(value[1..]);
      UnescapePass2(value[1..]);
      if value[0] == '\\' {
        var s := TWO_BACKSLASHES + rest;
        assert s[..2] == TWO_BACKSLASHES && s[2..] == rest;
      } else {
        var s := [value[0]] + rest;
        assert s[1..] == rest;
        assert !StartsWith(s, TWO_BACKSLASHES);
      }
      assert value == [value[0]] + value[1..];
    }
  }

  /** Unescaping undoes escaping, for every string. */
  lemma UnescapeEscape(value: string)
    ensures Unescape(Escape(value)) == value
  {
    EscapePass1(value);
    EscapePass2(value);
    UnescapePass1(value);
    UnescapePass2(value);
  }

  /** What a scalar comes back as: plain scalars lose the whitespace at their ends. */
  function Kept(value: string): string
  {
    if IsPlain(value) then Strip(value) else value
  }

  /** Reading back a scalar, whatever whitespace the line puts around it. */
  lemma UnquoteScalar(pad: string, value: string)
    requires Blank(pad)
    ensures Unquote(pad + Scalar(value)) == Kept(value)
    ensures Unquote(pad + RStrip(Scalar(value))) == Kept(value)
  {
    var text := Scalar(value);
    LStripPad(pad, text);
    LStripPad(pad, RStrip(text));
    StripAfterRStrip(text);
    StripTrimmed(text);
    if IsPlain(value) {
      PlainHasNoQuotes(value);
    } else {
      assert text[0] == '"' && text[|text| - 1] == '"' && Trimmed(text);
      assert text[1..|text| - 1] == Escape(value);
      UnescapeEscape(value);
    }
  }

  lemma PlainHasNoQuotes(value: string)
    requires IsPlain(value)
    ensures Strip(value) != "" ==> Strip(value)[0] != '"'
  {
    LStripPart(value);
    RStripEnds(LStrip(value));
    if Strip(value) != "" {
      assert Strip(value)[0] == LStrip(value)[0];
      assert LStrip(value)[0] in value;
    }
  }

  lemma {:induction false} LStripPart(s: string)
    ensures forall c :: c in LStrip(s) ==> c in s
  {
    if s != "" && IsSpace(s[0]) {
      LStripPart(s[1..]);
    }
  }

  /** A scalar survives the round trip exactly when it is quoted or has no outer whitespace. */
  lemma ScalarRoundTrip(value: string)
    ensures Unquote(Scalar(value)) == value <==> !IsPlain(value) || Trimmed(value)
  {
    UnquoteScalar("", value);
    assert "" + Scalar(value) == Scalar(value);
    StripTrimmed(value);
  }

  lemma {:induction false} EscapedOneLine(value: string)
    requires OneLine(value)
    ensures OneLine(EscapedChars(value))
  {
    if value != "" {
      EscapedOneLine(value[1..]);
      assert OneLine(EscapedChar(value[0]));
    }
  }

  lemma ScalarOneLine(value: string)
    requires OneLine(value)
    ensures OneLine(Scalar(value))
  {
    EscapePass1(value);
    EscapePass2(value);
    EscapedOneLine(value);
  }
}
