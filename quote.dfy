/** The three ways the encoders quote a string:
    - JsonQuote: the `appendQuote` closure of the Alert, Sound and APS encoders
      (escapes `"` and `\`, writes bytes 0x00-0x1F as \u00 and two lowercase hex digits);
    - KeyQuote: the `appendQuote` closure of marshalCustomData (escapes `"` and `\` only);
    - GoQuote: strconv.AppendQuote, used by EncodeValue (Go string-literal syntax).
    A reference grammar for the body of a JSON string (section 7 of RFC 8259)
    says which of them always produce JSON. */
module Quote {
  import opened Base

  /** The d-th character of "0123456789abcdef". */
  function HexDigit(d: int): (c: Byte)
    requires 0 <= d < 16
    ensures IsLowerHex(c) && HexValue(c) == d
  {
    if d < 10 then ('0' as int + d) as char else ('a' as int + d - 10) as char
  }

  predicate IsLowerHex(c: Byte) {
    '0' <= c <= '9' || 'a' <= c <= 'f'
  }

  function HexValue(c: Byte): (d: int)
    requires IsLowerHex(c)
    ensures 0 <= d < 16
  {
    if c <= '9' then c as int - '0' as int else c as int - 'a' as int + 10
  }

  /** Bytes U+0000 through U+001F, which a JSON string may not hold raw. */
  predicate IsControl(c: Byte) {
    c as int <= 0x1F
  }

  predicate NoControl(s: Bytes) {
    forall i :: 0 <= i < |s| ==> !IsControl(s[i])
  }

  // ---------------------------------------------------------------------------
  // JsonQuote: appendQuote of the Alert, Sound and APS encoders

  function JsonEscape(c: Byte): Bytes {
    if c == '"' || c == '\\' then ['\\', c]
    else if IsControl(c) then ['\\', 'u', '0', '0', HexDigit(c as int / 16), HexDigit(c as int % 16)]
    else [c]
  }

  function JsonEscaped(s: Bytes): Bytes {
    if s == [] then [] else JsonEscape(s[0]) + JsonEscaped(s[1..])
  }

  function JsonQuote(s: Bytes): Bytes {
    "\"" + JsonEscaped(s) + "\""
  }

  lemma {:induction false} JsonEscapedSnoc(s: Bytes, c: Byte)
    ensures JsonEscaped(s + [c]) == JsonEscaped(s) + JsonEscape(c)
  {
    if s != [] {
      assert (s + [c])[1..] == s[1..] + [c];
      JsonEscapedSnoc(s[1..], c);
    }
  }

  lemma JsonEscapedStep(s: Bytes, i: nat)
    requires i < |s|
    ensures JsonEscaped(s[..i + 1]) == JsonEscaped(s[..i]) + JsonEscape(s[i])
  {
    assert s[..i + 1] == s[..i] + [s[i]];
    JsonEscapedSnoc(s[..i], s[i]);
  }

  /** The appendQuote closure: a byte loop appending to the buffer. */
  method AppendQuote(b: Bytes, val: Bytes) returns (r: Bytes)
    ensures r == b + JsonQuote(val)
  {
    r := b + ['"'];
    ghost var open := r;
    for i := 0 to |val|
      invariant r == open + JsonEscaped(val[..i])
    {
      var c := val[i];
      ghost var before := r;
      if c == '"' || c == '\\' {
        r := r + ['\\', c];
      } else if c as int <= 0x1F {
        r := r + ['\\', 'u', '0', '0'];
        r := r + [HexDigit(c as int / 16), HexDigit(c as int % 16)];
      } else {
        r := r + [c];
      }
      assert r == before + JsonEscape(c);
      JsonEscapedStep(val, i);
      Regroup(open, JsonEscaped(val[..i]), JsonEscape(c));
    }
    assert val[..|val|] == val;
    r := r + ['"'];
  }

  // ---------------------------------------------------------------------------
  // KeyQuote: appendQuote of marshalCustomData

  function KeyEscape(c: Byte): Bytes {
    if c == '"' || c == '\\' then ['\\', c] else [c]
  }

  function KeyEscaped(s: Bytes): Bytes {
    if s == [] then [] else KeyEscape(s[0]) + KeyEscaped(s[1..])
  }

  function KeyQuote(s: Bytes): Bytes {
    "\"" + KeyEscaped(s) + "\""
  }

  lemma {:induction false} KeyEscapedSnoc(s: Bytes, c: Byte)
    ensures KeyEscaped(s + [c]) == KeyEscaped(s) + KeyEscape(c)
  {
    if s != [] {
      assert (s + [c])[1..] == s[1..] + [c];
      KeyEscapedSnoc(s[1..], c);
    }
  }

  method AppendKeyQuote(b: Bytes, val: Bytes) returns (r: Bytes)
    ensures r == b + KeyQuote(val)
  {
    r := b + ['"'];
    ghost var open := r;
    for i := 0 to |val|
      invariant r == open + KeyEscaped(val[..i])
    {
      var c := val[i];
      ghost var before := r;
      if c == '"' || c == '\\' {
        r := r + ['\\', c];
      } else {
        r := r + [c];
      }
      assert r == before + KeyEscape(c);
      assert val[..i + 1] == val[..i] + [c];
      KeyEscapedSnoc(val[..i], c);
      Regroup(open, KeyEscaped(val[..i]), KeyEscape(c));
    }
    assert val[..|val|] == val;
    r := r + ['"'];
  }

  // ---------------------------------------------------------------------------
  // GoQuote: strconv.AppendQuote, exact for ASCII

  function GoEscape(c: Byte): Bytes {
    if c == '"' || c == '\\' then ['\\', c]
    else if 0x20 <= c as int < 0x7F || c as int >= 0x80 then [c]
    else if c as int == 7 then "\\a"
    else if c as int == 8 then "\\b"
    else if c as int == 12 then "\\f"
    else if c as int == 10 then "\\n"
    else if c as int == 13 then "\\r"
    else if c as int == 9 then "\\t"
    else if c as int == 11 then "\\v"
    else ['\\', 'x', HexDigit(c as int / 16), HexDigit(c as int % 16)]
  }

  function GoEscaped(s: Bytes): Bytes {
    if s == [] then [] else GoEscape(s[0]) + GoEscaped(s[1..])
  }

  function GoQuote(s: Bytes): Bytes {
    "\"" + GoEscaped(s) + "\""
  }

  // ---------------------------------------------------------------------------
  // Decoders: the inverses of JsonQuote and KeyQuote

  function Prepend(c: Byte, rest: Option<Bytes>): Option<Bytes> {
    match rest
    case None => None
    case Some(s) => Some([c] + s)
  }

  /** Decodes the escapes JsonEscape writes; anything else is rejected. */
  function JsonUnescaped(t: Bytes): Option<Bytes>
    decreases |t|
  {
    if t == [] then Some([])
    else if t[0] == '\\' then
      if |t| >= 2 && (t[1] == '"' || t[1] == '\\') then Prepend(t[1], JsonUnescaped(t[2..]))
      else if |t| >= 6 && t[1] == 'u' && t[2] == '0' && t[3] == '0' && IsLowerHex(t[4]) && IsLowerHex(t[5])
      then Prepend((HexValue(t[4]) * 16 + HexValue(t[5])) as char, JsonUnescaped(t[6..]))
      else None
    else if t[0] == '"' || IsControl(t[0]) then None
    else Prepend(t[0], JsonUnescaped(t[1..]))
  }

  function Unquote(t: Bytes, unescape: Bytes -> Option<Bytes>): Option<Bytes> {
    if |t| >= 2 && t[0] == '"' && t[|t| - 1] == '"' then unescape(t[1..|t| - 1]) else None
  }

  /** Decodes the escapes KeyEscape writes. */
  function KeyUnescaped(t: Bytes): Option<Bytes>
    decreases |t|
  {
    if t == [] then Some([])
    else if t[0] == '\\' then
      if |t| >= 2 && (t[1] == '"' || t[1] == '\\') then Prepend(t[1], KeyUnescaped(t[2..])) else None
    else if t[0] == '"' then None
    else Prepend(t[0], KeyUnescaped(t[1..]))
  }

  /** Decoding one escaped byte in front of any text. */
  lemma JsonEscapeDecodes(c: Byte, rest: Bytes)
    ensures JsonUnescaped(JsonEscape(c) + rest) == Prepend(c, JsonUnescaped(rest))
  {
    var t := JsonEscape(c) + rest;
    if c == '"' || c == '\\' {
      assert t[2..] == rest;
    } else if IsControl(c) {
      assert t[6..] == rest;
      assert (HexValue(t[4]) * 16 + HexValue(t[5])) as char == c;
    } else {
      assert t[1..] == rest;
    }
  }

  lemma {:induction false} JsonUnescapedRoundTrip(s: Bytes)
    ensures JsonUnescaped(JsonEscaped(s)) == Some(s)
  {
    if s != [] {
      JsonUnescapedRoundTrip(s[1..]);
      JsonEscapeDecodes(s[0], JsonEscaped(s[1..]));
      assert [s[0]] + s[1..] == s;
    }
  }

  /** Decoding what JsonQuote wrote gives back the original string. */
  lemma JsonQuoteRoundTrip(s: Bytes)
    ensures Unquote(JsonQuote(s), JsonUnescaped) == Some(s)
  {
    var t := JsonQuote(s);
    assert t[1..|t| - 1] == JsonEscaped(s);
    JsonUnescapedRoundTrip(s);
  }

  lemma {:induction false} KeyUnescapedRoundTrip(s: Bytes)
    ensures KeyUnescaped(KeyEscaped(s)) == Some(s)
  {
    if s != [] {
      var c, rest := s[0], KeyEscaped(s[1..]);
      KeyUnescapedRoundTrip(s[1..]);
      var t := KeyEscape(c) + rest;
      assert KeyEscaped(s) == t;
      assert [c] + s[1..] == s;
      if c == '"' || c == '\\' {
        assert t[2..] == rest;
      } else {
        assert t[1..] == rest;
      }
    }
  }

  /** Decoding what KeyQuote wrote gives back the original key. */
  lemma KeyQuoteRoundTrip(s: Bytes)
    ensures Unquote(KeyQuote(s), KeyUnescaped) == Some(s)
  {
    var t := KeyQuote(s);
    assert t[1..|t| - 1] == KeyEscaped(s);
    KeyUnescapedRoundTrip(s);
  }

  lemma JsonEscapedInjective(s: Bytes, s': Bytes)
    requires JsonEscaped(s) == JsonEscaped(s')
    ensures s == s'
  {
    JsonUnescapedRoundTrip(s);
    JsonUnescapedRoundTrip(s');
  }

  lemma KeyEscapedInjective(s: Bytes, s': Bytes)
    requires KeyEscaped(s) == KeyEscaped(s')
    ensures s == s'
  {
    KeyUnescapedRoundTrip(s);
    KeyUnescapedRoundTrip(s');
  }

  /** A quoting that never writes two strings the same way. */
  ghost predicate Injective(quote: Bytes -> Bytes) {
    forall s, s' :: quote(s) == quote(s') ==> s == s'
  }

  lemma JsonQuoteInjective()
    ensures Injective(JsonQuote)
  {
    forall s, s' | JsonQuote(s) == JsonQuote(s')
      ensures s == s'
    {
      JsonQuoteRoundTrip(s);
      JsonQuoteRoundTrip(s');
    }
  }

  lemma KeyQuoteInjective()
    ensures Injective(KeyQuote)
  {
    forall s, s' | KeyQuote(s) == KeyQuote(s')
      ensures s == s'
    {
      KeyQuoteRoundTrip(s);
      KeyQuoteRoundTrip(s');
    }
  }

  /** The byte a one-letter Go escape stands for: \a \b \f \n \r \t \v. */
  function GoControl(c: Byte): Option<Byte> {
    if c == 'a' then Some(7 as char)
    else if c == 'b' then Some(8 as char)
    else if c == 'f' then Some(12 as char)
    else if c == 'n' then Some(10 as char)
    else if c == 'r' then Some(13 as char)
    else if c == 't' then Some(9 as char)
    else if c == 'v' then Some(11 as char)
    else None
  }

  /** Decodes the escapes GoEscape writes: \" \\, the one-letter escapes and \x
      with two lowercase hex digits; a lone backslash is rejected. */
  function GoUnescaped(t: Bytes): Option<Bytes>
    decreases |t|
  {
    if t == [] then Some([])
    else if t[0] == '\\' then
      if |t| >= 2 && (t[1] == '"' || t[1] == '\\') then Prepend(t[1], GoUnescaped(t[2..]))
      else if |t| >= 2 && GoControl(t[1]).Some? then Prepend(GoControl(t[1]).value, GoUnescaped(t[2..]))
      else if |t| >= 4 && t[1] == 'x' && IsLowerHex(t[2]) && IsLowerHex(t[3])
      then Prepend((HexValue(t[2]) * 16 + HexValue(t[3])) as char, GoUnescaped(t[4..]))
      else None
    else Prepend(t[0], GoUnescaped(t[1..]))
  }

  lemma GoEscapeDecodes(c: Byte, rest: Bytes)
    ensures GoUnescaped(GoEscape(c) + rest) == Prepend(c, GoUnescaped(rest))
  {
    var t := GoEscape(c) + rest;
    if c == '"' || c == '\\' {
      assert t[2..] == rest;
    } else if 0x20 <= c as int < 0x7F || c as int >= 0x80 {
      assert t[1..] == rest;
    } else if c as int in {7, 8, 9, 10, 11, 12, 13} {
      assert t[2..] == rest;
    } else {
      assert t[4..] == rest;
      assert (HexValue(t[2]) * 16 + HexValue(t[3])) as char == c;
    }
  }

  lemma {:induction false} GoUnescapedRoundTrip(s: Bytes)
    ensures GoUnescaped(GoEscaped(s)) == Some(s)
  {
    if s != [] {
      GoUnescapedRoundTrip(s[1..]);
      GoEscapeDecodes(s[0], GoEscaped(s[1..]));
      assert [s[0]] + s[1..] == s;
    }
  }

  /** Decoding what GoQuote wrote gives back the original string. */
  lemma GoQuoteRoundTrip(s: Bytes)
    ensures Unquote(GoQuote(s), GoUnescaped) == Some(s)
  {
    var t := GoQuote(s);
    assert t[1..|t| - 1] == GoEscaped(s);
    GoUnescapedRoundTrip(s);
  }

  lemma GoQuoteInjective()
    ensures Injective(GoQuote)
  {
    forall s, s' | GoQuote(s) == GoQuote(s')
      ensures s == s'
    {
      GoQuoteRoundTrip(s);
      GoQuoteRoundTrip(s');
    }
  }

  // ---------------------------------------------------------------------------
  // What a JSON string body is (section 7 of RFC 8259), and who produces one

  predicate IsHexDigit(c: Byte) {
    '0' <= c <= '9' || 'a' <= c <= 'f' || 'A' <= c <= 'F'
  }

  /** The characters between the quotes of a JSON string: unescaped bytes other
      than `"`, `\` and controls, or one of the escapes \" \\ \/ \b \f \n \r \t \uXXXX. */
  predicate IsJsonStringBody(t: Bytes)
    decreases |t|
  {
    if t == [] then true
    else if t[0] == '\\' then
      if |t| >= 2 && t[1] in "\"\\/bfnrt" then IsJsonStringBody(t[2..])
      else |t| >= 6 && t[1] == 'u' && IsHexDigit(t[2]) && IsHexDigit(t[3]) && IsHexDigit(t[4]) && IsHexDigit(t[5])
           && IsJsonStringBody(t[6..])
    else t[0] != '"' && !IsControl(t[0]) && IsJsonStringBody(t[1..])
  }

  /** JsonQuote always writes a valid JSON string body. */
  lemma {:induction false} JsonEscapedIsJson(s: Bytes)
    ensures IsJsonStringBody(JsonEscaped(s))
  {
    if s != [] {
      var c, rest := s[0], JsonEscaped(s[1..]);
      JsonEscapedIsJson(s[1..]);
      var t := JsonEscape(c) + rest;
      assert JsonEscaped(s) == t;
      if c == '"' || c == '\\' {
        assert t[2..] == rest;
      } else if IsControl(c) {
        assert t[6..] == rest;
      } else {
        assert t[1..] == rest;
      }
    }
  }

  /** A JSON string body holds no raw control byte. */
  lemma {:induction false} JsonBodyHasNoControl(t: Bytes)
    requires IsJsonStringBody(t)
    ensures NoControl(t)
    decreases |t|
  {
    if t != [] {
      if t[0] == '\\' {
        if |t| >= 2 && t[1] in "\"\\/bfnrt" {
          JsonBodyHasNoControl(t[2..]);
          assert forall i :: 2 <= i < |t| ==> t[i] == t[2..][i - 2];
        } else {
          JsonBodyHasNoControl(t[6..]);
          assert forall i :: 6 <= i < |t| ==> t[i] == t[6..][i - 6];
        }
      } else {
        JsonBodyHasNoControl(t[1..]);
        assert forall i :: 1 <= i < |t| ==> t[i] == t[1..][i - 1];
      }
    }
  }

  lemma {:induction false} KeyEscapedIsJson(s: Bytes)
    requires NoControl(s)
    ensures IsJsonStringBody(KeyEscaped(s))
  {
    if s != [] {
      var c, rest := s[0], KeyEscaped(s[1..]);
      KeyEscapedIsJson(s[1..]);
      var t := KeyEscape(c) + rest;
      assert KeyEscaped(s) == t;
      if c == '"' || c == '\\' {
        assert t[2..] == rest;
      } else {
        assert t[1..] == rest;
      }
    }
  }

  lemma {:induction false} KeyEscapedKeepsControl(s: Bytes, i: nat)
    requires i < |s| && IsControl(s[i])
    ensures !NoControl(KeyEscaped(s))
  {
    if i == 0 {
      assert KeyEscaped(s)[0] == s[0];
    } else {
      KeyEscapedKeepsControl(s[1..], i - 1);
      var k :| 0 <= k < |KeyEscaped(s[1..])| && IsControl(KeyEscaped(s[1..])[k]);
      var e := KeyEscape(s[0]);
      assert KeyEscaped(s)[|e| + k] == KeyEscaped(s[1..])[k];
    }
  }

  /** A custom-data key is written as valid JSON exactly when it holds no control byte:
      KeyQuote copies control bytes raw. */
  lemma KeyQuoteIsJsonIff(s: Bytes)
    ensures IsJsonStringBody(KeyEscaped(s)) <==> NoControl(s)
  {
    if NoControl(s) {
      KeyEscapedIsJson(s);
    } else {
      var i :| 0 <= i < |s| && IsControl(s[i]);
      KeyEscapedKeepsControl(s, i);
      if IsJsonStringBody(KeyEscaped(s)) {
        JsonBodyHasNoControl(KeyEscaped(s));
      }
    }
  }

  /** The two APS-side quoting routines agree exactly on strings without control bytes. */
  lemma {:induction false} KeyQuoteAgreesWithJsonQuote(s: Bytes)
    ensures KeyEscaped(s) == JsonEscaped(s) <==> NoControl(s)
  {
    if s != [] {
      KeyQuoteAgreesWithJsonQuote(s[1..]);
      var c := s[0];
      assert NoControl(s) <==> !IsControl(c) && NoControl(s[1..]) by {
        assert forall i :: 1 <= i < |s| ==> s[i] == s[1..][i - 1];
      }
      if IsControl(c) {
        assert |JsonEscape(c)| == 6 && |KeyEscape(c)| == 1;
        assert KeyEscaped(s)[0] == c;
        assert JsonEscaped(s)[0] == '\\';
      } else if KeyEscaped(s) == JsonEscaped(s) {
        assert KeyEscape(c) == JsonEscape(c);
        assert KeyEscaped(s[1..]) == KeyEscaped(s)[|KeyEscape(c)|..];
        assert JsonEscaped(s[1..]) == JsonEscaped(s)[|JsonEscape(c)|..];
      }
    }
  }

  /** strconv.AppendQuote coincides with JsonQuote on strings with no control byte and no DEL. */
  lemma {:induction false} GoQuoteAgreesWithJsonQuote(s: Bytes)
    requires NoControl(s) && forall i :: 0 <= i < |s| ==> s[i] as int != 0x7F
    ensures GoQuote(s) == JsonQuote(s)
  {
    GoEscapedAgrees(s);
  }

  lemma {:induction false} GoEscapedAgrees(s: Bytes)
    requires NoControl(s) && forall i :: 0 <= i < |s| ==> s[i] as int != 0x7F
    ensures GoEscaped(s) == JsonEscaped(s)
  {
    if s != [] {
      GoEscapedAgrees(s[1..]);
    }
  }

  /** strconv.AppendQuote writes the bell byte as \a, an escape JSON does not have. */
  lemma GoQuoteOfBellIsNotJson()
    ensures GoEscaped([7 as char]) == "\\a"
    ensures !IsJsonStringBody(GoEscaped([7 as char]))
  {
  }
}
