/** A JSON reader after RFC 8259, as far as what the agent prints needs one: every form of value,
  * whitespace (section 2) and escapes, except \u escapes of surrogates, which it does not accept. */
module Json {
  import opened Wrappers

  datatype Value =
    | Null
    | Bool(b: bool)
    | Number(text: string)
    | String(s: string)
    | Array(items: seq<Value>)
    | Object(members: seq<(string, Value)>)

  /** What was read, and the text after it. */
  datatype Parse<+T> = Fail | Read(value: T, rest: string)

  // ---------- Section 2: whitespace ----------

  predicate IsSpace(c: char) {
    c == ' ' || c == '\t' || c == '\n' || c == '\r'
  }

  function SkipSpace(s: string): (r: string)
    ensures |r| <= |s|
    ensures r != "" ==> !IsSpace(r[0])
  {
    if s != "" && IsSpace(s[0]) then SkipSpace(s[1..]) else s
  }

  // ---------- Section 6: numbers ----------

  predicate IsDigit(c: char) {
    '0' <= c <= '9'
  }

  function TakeDigits(s: string): (r: (string, string))
    ensures |r.0| + |r.1| == |s|
    ensures r.0 == "" <==> s == "" || !IsDigit(s[0])
  {
    if s != "" && IsDigit(s[0]) then
      var (digits, rest) := TakeDigits(s[1..]);
      ([s[0]] + digits, rest)
    else ("", s)
  }

  function ParseInt(s: string): (p: Parse<string>)
    ensures p.Read? ==> |p.rest| < |s|
  {
    if s == "" || !IsDigit(s[0]) then Fail
    else if s[0] == '0' then Read("0", s[1..])
    else
      var (digits, rest) := TakeDigits(s);
      Read(digits, rest)
  }

  function ParseFraction(s: string): (p: Parse<string>)
    ensures p.Read? ==> |p.rest| <= |s|
  {
    if s == "" || s[0] != '.' then Read("", s)
    else
      var (digits, rest) := TakeDigits(s[1..]);
      if digits == "" then Fail else Read("." + digits, rest)
  }

  function ParseExponent(s: string): (p: Parse<string>)
    ensures p.Read? ==> |p.rest| <= |s|
  {
    if s == "" || (s[0] != 'e' && s[0] != 'E') then Read("", s)
    else
      var sign := if |s| > 1 && (s[1] == '+' || s[1] == '-') then 1 else 0;
      var (digits, rest) := TakeDigits(s[1 + sign..]);
      if digits == "" then Fail else Read(s[..1 + sign] + digits, rest)
  }

  function ParseNumber(s: string): (p: Parse<Value>)
    ensures p.Read? ==> |p.rest| < |s| && p.value.Number?
  {
    var sign := if s != "" && s[0] == '-' then 1 else 0;
    match ParseInt(s[sign..])
    case Fail => Fail
    case Read(whole, r1) =>
      match ParseFraction(r1)
      case Fail => Fail
      case Read(fraction, r2) =>
        match ParseExponent(r2)
        case Fail => Fail
        case Read(exponent, r3) => Read(Number(s[..sign] + whole + fraction + exponent), r3)
  }

  // ---------- Section 7: strings ----------

  function HexDigit(c: char): Option<nat> {
    if '0' <= c <= '9' then Some((c as int) - ('0' as int))
    else if 'a' <= c <= 'f' then Some((c as int) - ('a' as int) + 10)
    else if 'A' <= c <= 'F' then Some((c as int) - ('A' as int) + 10)
    else None
  }

  function SimpleEscape(c: char): Option<char> {
    match c
    case '"' => Some('"')
    case '\\' => Some('\\')
    case '/' => Some('/')
    case 'b' => Some(8 as char)
    case 'f' => Some(12 as char)
    case 'n' => Some('\n')
    case 'r' => Some('\r')
    case 't' => Some('\t')
    case _ => None
  }

  function UnicodeEscape(s: string): Option<char>
    requires |s| == 4
  {
    var a, b, c, d := HexDigit(s[0]), HexDigit(s[1]), HexDigit(s[2]), HexDigit(s[3]);
    if a.None? || b.None? || c.None? || d.None? then None
    else
      var n := ((a.value * 16 + b.value) * 16 + c.value) * 16 + d.value;
      if 0 <= n < 0xD800 || 0xE000 <= n < 0x1_0000 then Some(n as char) else None
  }

  /** The characters after the opening quotation mark, up to the closing one. */
  function ParseChars(s: string): (p: Parse<string>)
    ensures p.Read? ==> |p.rest| < |s|
  {
    if s == "" || s[0] < ' ' then Fail
    else if s[0] == '"' then Read("", s[1..])
    else if s[0] != '\\' then Cons(s[0], ParseChars(s[1..]))
    else if |s| < 2 then Fail
    else if s[1] == 'u' then
      if |s| < 6 then Fail
      else
        match UnicodeEscape(s[2..6])
        case None => Fail
        case Some(c) => Cons(c, ParseChars(s[6..]))
    else
      match SimpleEscape(s[1])
      case None => Fail
      case Some(c) => Cons(c, ParseChars(s[2..]))
  }

  function Cons(c: char, p: Parse<string>): Parse<string> {
    match p case Fail => Fail case Read(cs, rest) => Read([c] + cs, rest)
  }

  function ParseString(s: string): (p: Parse<string>)
    ensures p.Read? ==> |p.rest| < |s|
  {
    if s == "" || s[0] != '"' then Fail else ParseChars(s[1..])
  }

  // ---------- Sections 3, 4 and 5: values, objects and arrays ----------

  predicate StartsWith(s: string, word: string) {
    |word| <= |s| && s[..|word|] == word
  }

  function ParseWord(s: string, word: string, v: Value): (p: Parse<Value>)
    ensures p.Read? && word != "" ==> |p.rest| < |s|
  {
    if StartsWith(s, word) then Read(v, s[|word|..]) else Fail
  }

  function ParseValue(s: string): (p: Parse<Value>)
    ensures p.Read? ==> |p.rest| < |s|
    decreases |s|, 0
  {
    if s == "" then Fail
    else
      match s[0]
      case '"' => (match ParseString(s) case Fail => Fail case Read(cs, rest) => Read(String(cs), rest))
      case '[' =>
        var r := SkipSpace(s[1..]);
        if r != "" && r[0] == ']' then Read(Array([]), r[1..])
        else (match ParseElements(r) case Fail => Fail case Read(vs, rest) => Read(Array(vs), rest))
      case '{' =>
        var r := SkipSpace(s[1..]);
        if r != "" && r[0] == '}' then Read(Object([]), r[1..])
        else (match ParseMembers(r) case Fail => Fail case Read(ms, rest) => Read(Object(ms), rest))
      case 't' => ParseWord(s, "true", Bool(true))
      case 'f' => ParseWord(s, "false", Bool(false))
      case 'n' => ParseWord(s, "null", Null)
      case _ => ParseNumber(s)
  }

  /** The elements of a non-empty array, up to and including the closing bracket. */
  function ParseElements(s: string): (p: Parse<seq<Value>>)
    ensures p.Read? ==> |p.rest| < |s|
    decreases |s|, 1
  {
    match ParseValue(s)
    case Fail => Fail
    case Read(v, after) =>
      var r := SkipSpace(after);
      if r == "" then Fail
      else if r[0] == ']' then Read([v], r[1..])
      else if r[0] != ',' then Fail
      else
        match ParseElements(SkipSpace(r[1..]))
        case Fail => Fail
        case Read(vs, rest) => Read([v] + vs, rest)
  }

  /** The members of a non-empty object, up to and including the closing brace. */
  function ParseMembers(s: string): (p: Parse<seq<(string, Value)>>)
    ensures p.Read? ==> |p.rest| < |s|
    decreases |s|, 1
  {
    match ParseString(s)
    case Fail => Fail
    case Read(key, afterKey) =>
      var k := SkipSpace(afterKey);
      if k == "" || k[0] != ':' then Fail
      else
        match ParseValue(SkipSpace(k[1..]))
        case Fail => Fail
        case Read(v, after) =>
          var r := SkipSpace(after);
          if r == "" then Fail
          else if r[0] == '}' then Read([(key, v)], r[1..])
          else if r[0] != ',' then Fail
          else
            match ParseMembers(SkipSpace(r[1..]))
            case Fail => Fail
            case Read(ms, rest) => Read([(key, v)] + ms, rest)
  }

  // ---------- Locality: what follows a value does not change how it is read ----------

  lemma Drop(s: string, t: string, n: nat)
    requires n <= |s|
    ensures (s + t)[n..] == s[n..] + t
    ensures (s + t)[..n] == s[..n]
  {
  }

  lemma {:induction false} SkipSpaceLocal(s: string, t: string)
    requires SkipSpace(s) != ""
    ensures SkipSpace(s + t) == SkipSpace(s) + t
  {
    if IsSpace(s[0]) {
      Drop(s, t, 1);
      SkipSpaceLocal(s[1..], t);
    }
  }

  lemma {:induction false} DigitsLocal(s: string, t: string)
    requires TakeDigits(s).1 != ""
    ensures TakeDigits(s + t) == (TakeDigits(s).0, TakeDigits(s).1 + t)
  {
    if IsDigit(s[0]) {
      Drop(s, t, 1);
      DigitsLocal(s[1..], t);
    }
  }

  lemma IntLocal(s: string, t: string)
    requires ParseInt(s).Read? && ParseInt(s).rest != ""
    ensures ParseInt(s + t) == Read(ParseInt(s).value, ParseInt(s).rest + t)
  {
    Drop(s, t, 1);
    if s[0] != '0' {
      DigitsLocal(s, t);
    }
  }

  lemma FractionLocal(s: string, t: string)
    requires ParseFraction(s).Read? && ParseFraction(s).rest != ""
    ensures ParseFraction(s + t) == Read(ParseFraction(s).value, ParseFraction(s).rest + t)
  {
    Drop(s, t, 1);
    if s[0] == '.' {
      DigitsLocal(s[1..], t);
    }
  }

  lemma ExponentLocal(s: string, t: string)
    requires ParseExponent(s).Read? && ParseExponent(s).rest != ""
    ensures ParseExponent(s + t) == Read(ParseExponent(s).value, ParseExponent(s).rest + t)
  {
    if s[0] == 'e' || s[0] == 'E' {
      var sign := if |s| > 1 && (s[1] == '+' || s[1] == '-') then 1 else 0;
      assert |s| > 1;
      Drop(s, t, 1 + sign);
      DigitsLocal(s[1 + sign..], t);
    }
  }

  lemma NumberLocal(s: string, t: string)
    requires ParseNumber(s).Read? && ParseNumber(s).rest != ""
    ensures ParseNumber(s + t) == Read(ParseNumber(s).value, ParseNumber(s).rest + t)
  {
    var sign := if s != "" && s[0] == '-' then 1 else 0;
    assert s != "";
    Drop(s, t, sign);
    var r1 := ParseInt(s[sign..]).rest;
    var r2 := ParseFraction(r1).rest;
    IntLocal(s[sign..], t);
    FractionLocal(r1, t);
    ExponentLocal(r2, t);
  }

  lemma {:induction false} CharsLocal(s: string, t: string)
    requires ParseChars(s).Read?
    ensures ParseChars(s + t) == Read(ParseChars(s).value, ParseChars(s).rest + t)
  {
    Drop(s, t, 1);
    if s[0] != '"' {
      if s[0] != '\\' {
        CharsLocal(s[1..], t);
      } else if s[1] == 'u' {
        Drop(s, t, 6);
        assert (s + t)[2..6] == s[2..6];
        CharsLocal(s[6..], t);
      } else {
        Drop(s, t, 2);
        CharsLocal(s[2..], t);
      }
    }
  }

  lemma WordLocal(s: string, t: string, word: string, v: Value)
    requires ParseWord(s, word, v).Read?
    ensures ParseWord(s + t, word, v) == Read(v, ParseWord(s, word, v).rest + t)
  {
    Drop(s, t, |word|);
  }

  /** A value followed by something is read the same whatever comes after that; a value other than a
    * number is read the same even when nothing followed it. */
  lemma {:induction false} ValueLocal(s: string, t: string)
    requires ParseValue(s).Read? && (ParseValue(s).rest != "" || !ParseValue(s).value.Number?)
    ensures ParseValue(s + t) == Read(ParseValue(s).value, ParseValue(s).rest + t)
    decreases |s|, 0
  {
    Drop(s, t, 1);
    match s[0]
    case '"' => CharsLocal(s[1..], t);
    case '[' =>
      var r := SkipSpace(s[1..]);
      SkipSpaceLocal(s[1..], t);
      Drop(r, t, 1);
      if r[0] != ']' { ElementsLocal(r, t); }
    case '{' =>
      var r := SkipSpace(s[1..]);
      SkipSpaceLocal(s[1..], t);
      Drop(r, t, 1);
      if r[0] != '}' { MembersLocal(r, t); }
    case 't' => WordLocal(s, t, "true", Bool(true));
    case 'f' => WordLocal(s, t, "false", Bool(false));
    case 'n' => WordLocal(s, t, "null", Null);
    case _ => NumberLocal(s, t);
  }

  lemma {:induction false} ElementsLocal(s: string, t: string)
    requires ParseElements(s).Read?
    ensures ParseElements(s + t) == Read(ParseElements(s).value, ParseElements(s).rest + t)
    decreases |s|, 1
  {
    var after := ParseValue(s).rest;
    var r := SkipSpace(after);
    ValueLocal(s, t);
    SkipSpaceLocal(after, t);
    Drop(r, t, 1);
    if r[0] == ',' {
      SkipSpaceLocal(r[1..], t);
      ElementsLocal(SkipSpace(r[1..]), t);
    }
  }

  lemma {:induction false} MembersLocal(s: string, t: string)
    requires ParseMembers(s).Read?
    ensures ParseMembers(s + t) == Read(ParseMembers(s).value, ParseMembers(s).rest + t)
    decreases |s|, 1
  {
    KeyLocal(s, t);
    var k := SkipSpace(ParseString(s).rest);
    var value := SkipSpace(k[1..]);
    var after := ParseValue(value).rest;
    ValueLocal(value, t);
    var r := SkipSpace(after);
    SkipSpaceLocal(after, t);
    Drop(r, t, 1);
    if r[0] == ',' {
      SkipSpaceLocal(r[1..], t);
      MembersLocal(SkipSpace(r[1..]), t);
    }
  }

  /** A member's key and colon. */
  lemma KeyLocal(s: string, t: string)
    requires ParseString(s).Read?
    ensures ParseString(s + t) == Read(ParseString(s).value, ParseString(s).rest + t)
    ensures var k := SkipSpace(ParseString(s).rest);
      k != "" ==> SkipSpace(ParseString(s).rest + t) == k + t && (k + t)[1..] == k[1..] + t
    ensures var k := SkipSpace(ParseString(s).rest);
      k != "" && SkipSpace(k[1..]) != "" ==> SkipSpace(k[1..] + t) == SkipSpace(k[1..]) + t
  {
    Drop(s, t, 1);
    CharsLocal(s[1..], t);
    var afterKey := ParseString(s).rest;
    var k := SkipSpace(afterKey);
    if k != "" {
      SkipSpaceLocal(afterKey, t);
      Drop(k, t, 1);
      if SkipSpace(k[1..]) != "" {
        SkipSpaceLocal(k[1..], t);
      }
    }
  }
}
