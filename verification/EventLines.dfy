/** How the agent prints its event log as JSON (agent/wifi-agent.sh, record_event and events_json), and
  * that a JSON reader gets back what was recorded. */
module EventLines {
  import opened Json
  import opened EventLog

  // ---------- Escaping ----------

  /** `sed 's/c/by/g'` for a single character. */
  function Substitute(s: string, c: char, with: string): string {
    if s == "" then ""
    else (if s[0] == c then with else [s[0]]) + Substitute(s[1..], c, with)
  }

  /** The two substitutions, one after the other. */
  function EscapedBySed(message: string): string {
    Substitute(Substitute(message, '\\', "\\\\"), '"', "\\\"")
  }

  function EscapeChar(c: char): string {
    if c == '"' then "\\\"" else if c == '\\' then "\\\\" else [c]
  }

  /** A JSON string escape in a single pass. */
  function Escape(message: string): string {
    if message == "" then "" else EscapeChar(message[0]) + Escape(message[1..])
  }

  lemma {:induction false} SubstituteAppend(a: string, b: string, c: char, with: string)
    ensures Substitute(a + b, c, with) == Substitute(a, c, with) + Substitute(b, c, with)
  {
    if a == "" {
      assert a + b == b;
    } else {
      assert (a + b)[1..] == a[1..] + b;
      SubstituteAppend(a[1..], b, c, with);
    }
  }

  lemma SubstituteOne(a: char, c: char, with: string)
    ensures Substitute([a], c, with) == if a == c then with else [a]
  {
    assert [a][1..] == "";
  }

  /** Backslashes first, quotation marks second: the second pass does not disturb the first. */
  lemma {:induction false} SedChainIsEscape(message: string)
    ensures EscapedBySed(message) == Escape(message)
  {
    if message != "" {
      SedChainIsEscape(message[1..]);
      var head := if message[0] == '\\' then "\\\\" else [message[0]];
      SubstituteAppend(head, Substitute(message[1..], '\\', "\\\\"), '"', "\\\"");
      SubstituteOne(message[0], '"', "\\\"");
      SubstituteOne('\\', '"', "\\\"");
      SubstituteAppend(['\\'], ['\\'], '"', "\\\"");
      assert "\\\\" == ['\\'] + ['\\'];
    }
  }

  predicate Printable(s: string) {
    forall k :: 0 <= k < |s| ==> s[k] >= ' '
  }

  lemma EscapedCharReads(c: char, tail: string)
    requires c >= ' '
    ensures ParseChars(EscapeChar(c) + tail) == Cons(c, ParseChars(tail))
  {
    var s := EscapeChar(c) + tail;
    if c == '"' || c == '\\' {
      assert s[0] == '\\' && s[1] == c && s[2..] == tail;
    } else {
      assert s[0] == c && s[1..] == tail;
    }
  }

  lemma EscapeHead(message: string, t: string)
    requires message != ""
    ensures Escape(message) + "\"" + t == EscapeChar(message[0]) + (Escape(message[1..]) + "\"" + t)
  {
  }

  /** Reading an escaped message up to its closing quotation mark gives the message back. */
  lemma {:induction false} EscapeReadsBack(message: string, t: string)
    requires Printable(message)
    ensures ParseChars(Escape(message) + "\"" + t) == Read(message, t)
  {
    if message == "" {
      assert ("\"" + t)[1..] == t && Escape(message) + "\"" + t == "\"" + t;
    } else {
      EscapeReadsBack(message[1..], t);
      EscapedCharReads(message[0], Escape(message[1..]) + "\"" + t);
      EscapeHead(message, t);
      assert message == [message[0]] + message[1..];
    }
  }

  lemma {:induction false} ControlCharacterFails(message: string, t: string)
    requires !Printable(message)
    ensures ParseChars(Escape(message) + "\"" + t).Fail?
  {
    var tail := Escape(message[1..]) + "\"" + t;
    EscapeHead(message, t);
    if message[0] < ' ' {
      assert (EscapeChar(message[0]) + tail)[0] == message[0];
    } else {
      assert message == [message[0]] + message[1..];
      ControlCharacterFails(message[1..], t);
      EscapedCharReads(message[0], tail);
    }
  }

  /** What the two substitutions leave unescaped is the control characters: an escaped message reads
    * back exactly when it has none. */
  lemma SedReadsBackExactlyWhen(message: string, t: string)
    ensures ParseChars(EscapedBySed(message) + "\"" + t) == Read(message, t) <==> Printable(message)
  {
    SedChainIsEscape(message);
    if Printable(message) {
      EscapeReadsBack(message, t);
    } else {
      ControlCharacterFails(message, t);
    }
  }

  // ---------- Numbers ----------

  function Decimal(n: nat): (s: string)
    ensures s != ""
  {
    if n < 10 then [DigitOf(n)] else Decimal(n / 10) + [DigitOf(n % 10)]
  }

  function DigitOf(d: nat): char
    requires d < 10
  {
    (('0' as int) + d) as char
  }

  function DecimalValue(s: string): int {
    if s == "" then 0 else 10 * DecimalValue(s[..|s| - 1]) + (s[|s| - 1] as int) - ('0' as int)
  }

  lemma {:induction false} DecimalShape(n: nat)
    ensures forall k :: 0 <= k < |Decimal(n)| ==> IsDigit(Decimal(n)[k])
    ensures n > 0 ==> Decimal(n)[0] != '0'
    ensures DecimalValue(Decimal(n)) == n
    ensures n == 0 ==> Decimal(n) == "0"
  {
    if n >= 10 {
      DecimalShape(n / 10);
      var s := Decimal(n);
      assert s[..|s| - 1] == Decimal(n / 10);
    } else {
      var s := Decimal(n);
      assert s[..|s| - 1] == "";
    }
  }

  lemma {:induction false} DigitsTaken(digits: string, t: string)
    requires forall k :: 0 <= k < |digits| ==> IsDigit(digits[k])
    requires t != "" && !IsDigit(t[0])
    ensures TakeDigits(digits + t) == (digits, t)
  {
    if digits == "" {
      assert digits + t == t;
    } else {
      assert (digits + t)[1..] == digits[1..] + t;
      DigitsTaken(digits[1..], t);
      assert digits == [digits[0]] + digits[1..];
    }
  }

  lemma DigitsReadBack(d: string, t: string)
    requires d != "" && forall k :: 0 <= k < |d| ==> IsDigit(d[k])
    requires d[0] != '0' || |d| == 1
    requires t != "" && (t[0] == ',' || t[0] == '}')
    ensures ParseNumber(d + t) == Read(Number(d), t)
  {
    var s := d + t;
    assert s[0..] == s && s[0] == d[0] && s[..0] + d + "" + "" == d;
    if d[0] == '0' {
      assert s[1..] == t && d == "0";
    } else {
      DigitsTaken(d, t);
    }
  }

  lemma DecimalReadsBack(n: nat, t: string)
    requires t != "" && (t[0] == ',' || t[0] == '}')
    ensures ParseValue(Decimal(n) + t) == Read(Number(Decimal(n)), t)
  {
    DecimalShape(n);
    DigitsReadBack(Decimal(n), t);
    NumberCharacter(Decimal(n) + t);
  }

  lemma NumberCharacter(s: string)
    requires s != "" && (s[0] == '-' || IsDigit(s[0]))
    ensures ParseValue(s) == ParseNumber(s)
  {
    assert s[0] != '"' && s[0] != '[' && s[0] != '{' && s[0] != 't' && s[0] != 'f' && s[0] != 'n';
  }

  // ---------- Items with commas between ----------

  function Joined(items: seq<string>): string {
    if items == [] then ""
    else if |items| == 1 then items[0]
    else Then(items[0], Joined(items[1..]))
  }

  /** `item,more` */
  function Then(item: string, more: string): string {
    item + ("," + more)
  }

  /** The items from the i-th on with commas between, then `tail`. */
  function Chain(items: seq<string>, i: nat, tail: string): string
    requires i < |items|
    decreases |items| - i
  {
    if i == |items| - 1 then items[i] + tail else Then(items[i], Chain(items, i + 1, tail))
  }

  lemma ThenAppend(item: string, more: string, tail: string)
    ensures Then(item, more) + tail == Then(item, more + tail)
  {
  }

  lemma {:induction false} JoinedIsChain(items: seq<string>, i: nat, tail: string)
    requires i < |items|
    ensures Joined(items[i..]) + tail == Chain(items, i, tail)
    decreases |items| - i
  {
    if i < |items| - 1 {
      JoinedIsChain(items, i + 1, tail);
      assert items[i..][1..] == items[i + 1..];
      ThenAppend(items[i], Joined(items[i + 1..]), tail);
    }
  }

  function Head(s: string): char {
    if s == "" then ' ' else s[0]
  }

  predicate StartsItem(s: string) {
    s != "" && !IsSpace(Head(s)) && Head(s) != '}' && Head(s) != ']'
  }

  function Prepend<T>(value: T, p: Parse<seq<T>>): Parse<seq<T>> {
    match p case Fail => Fail case Read(values, rest) => Read([value] + values, rest)
  }

  lemma PrependIs<T>(value: T, p: Parse<seq<T>>, values: seq<T>, rest: string)
    ensures Prepend(value, p) == Read([value] + values, rest) <==> p == Read(values, rest)
  {
    if p.Read? && [value] + p.value == [value] + values {
      assert ([value] + p.value)[1..] == p.value && ([value] + values)[1..] == values;
    }
  }

  /** The reader takes the item and its comma off the front, whatever comes of the rest. */
  ghost predicate StepsOver<T(!new)>(read: string -> Parse<seq<T>>, item: string, value: T) {
    && StartsItem(item)
    && forall more | StartsItem(more) :: read(Then(item, more)) == Prepend(value, read(more))
  }

  lemma StartsAppend(item: string, more: string)
    requires item != ""
    ensures item + more != "" && Head(item + more) == Head(item)
  {
  }

  function ValuesFrom<T>(values: seq<T>, i: nat): seq<T>
    requires i < |values|
    decreases |values| - i
  {
    if i == |values| - 1 then [values[i]] else [values[i]] + ValuesFrom(values, i + 1)
  }

  lemma {:induction false} ValuesFromIsSlice<T>(values: seq<T>, i: nat)
    requires i < |values|
    ensures ValuesFrom(values, i) == values[i..]
    decreases |values| - i
  {
    if i < |values| - 1 {
      ValuesFromIsSlice(values, i + 1);
    }
  }

  lemma ChainStarts(items: seq<string>, i: nat, tail: string)
    requires i < |items| && StartsItem(items[i])
    ensures StartsItem(Chain(items, i, tail)) && Head(Chain(items, i, tail)) == Head(items[i])
  {
    StartsAppend(items[i], if i == |items| - 1 then tail else "," + Chain(items, i + 1, tail));
  }

  /** Item by item, for any reader: all of them are read up to `rest` exactly when the last one is. */
  lemma {:induction false} ChainReads<T(!new)>(read: string -> Parse<seq<T>>, items: seq<string>, values: seq<T>,
                                               i: nat, tail: string, rest: string)
    requires |items| == |values| && i < |items| && StartsItem(items[|items| - 1])
    requires forall j :: 0 <= j < |items| - 1 ==> StepsOver(read, items[j], values[j])
    ensures read(Chain(items, i, tail)) == Read(ValuesFrom(values, i), rest) <==>
            read(items[|items| - 1] + tail) == Read([values[|items| - 1]], rest)
    decreases |items| - i
  {
    if i < |items| - 1 {
      ChainReads(read, items, values, i + 1, tail, rest);
      assert StartsItem(items[i + 1]) by {
        assert i + 1 < |items| - 1 ==> StepsOver(read, items[i + 1], values[i + 1]);
      }
      ChainStarts(items, i + 1, tail);
      var more := Chain(items, i + 1, tail);
      assert StepsOver(read, items[i], values[i]);
      assert read(Then(items[i], more)) == Prepend(values[i], read(more));
      PrependIs(values[i], read(more), ValuesFrom(values, i + 1), rest);
    }
  }

  lemma JoinedReads<T(!new)>(read: string -> Parse<seq<T>>, items: seq<string>, values: seq<T>, tail: string,
                             rest: string)
    requires |items| == |values| > 0 && StartsItem(items[0]) && StartsItem(items[|items| - 1])
    requires forall j :: 0 <= j < |items| - 1 ==> StepsOver(read, items[j], values[j])
    ensures StartsItem(Joined(items) + tail) && Head(Joined(items) + tail) == Head(items[0])
    ensures read(Joined(items) + tail) == Read(values, rest) <==>
            read(items[|items| - 1] + tail) == Read([values[|items| - 1]], rest)
  {
    JoinedIsChain(items, 0, tail);
    assert items[0..] == items;
    ChainReads(read, items, values, 0, tail, rest);
    ChainStarts(items, 0, tail);
    ValuesFromIsSlice(values, 0);
    assert values[0..] == values;
  }

  // ---------- One line ----------

  function Quoted(escaped: string): string {
    "\"" + escaped + "\""
  }

  function Member(key: string, value: string): string {
    Quoted(key) + ":" + value
  }

  function Members(e: Event): seq<string> {
    [Member("seq", Decimal(e.seqNo)), Member("ts", Decimal(e.ts)), Member("type", Quoted(e.kind)),
     Member("message", Quoted(EscapedBySed(e.message))), Member("details", e.details)]
  }

  /** The line without its newline. The event type is printed as it is. */
  function PrintLine(e: Event): string {
    "{" + Joined(Members(e)) + "}"
  }

  /** Plain enough to be printed without escaping. */
  predicate Plain(s: string) {
    Printable(s) && forall k :: 0 <= k < |s| ==> s[k] != '"' && s[k] != '\\'
  }

  /** The details are the text of one JSON value, as the closing brace finds it. */
  predicate IsJson(details: string, v: Value) {
    ParseValue(details + "}") == Read(v, "}")
  }

  function Pairs(e: Event, details: Value): seq<(string, Value)> {
    [("seq", Number(Decimal(e.seqNo))), ("ts", Number(Decimal(e.ts))), ("type", String(e.kind)),
     ("message", String(e.message)), ("details", details)]
  }

  /** What a reader should get. */
  function AsJson(e: Event, details: Value): Value {
    Object(Pairs(e, details))
  }

  lemma {:induction false} PlainIsUnescaped(s: string)
    requires Plain(s)
    ensures Escape(s) == s
  {
    if s != "" {
      PlainIsUnescaped(s[1..]);
      assert s == [s[0]] + s[1..];
    }
  }

  lemma StringReadsBack(message: string, t: string)
    requires Printable(message)
    ensures ParseString(Quoted(Escape(message)) + t) == Read(message, t)
  {
    EscapeReadsBack(message, t);
    QuotedReads(Escape(message), t);
  }

  lemma QuotedReads(escaped: string, t: string)
    ensures ParseString(Quoted(escaped) + t) == ParseChars(escaped + "\"" + t)
  {
    QuotedSplit(escaped, t);
  }

  lemma QuotedSplit(escaped: string, t: string)
    ensures var s := Quoted(escaped) + t; s != "" && s[0] == '"' && s[1..] == escaped + "\"" + t
  {
    assert Quoted(escaped) + t == ['"'] + (escaped + "\"" + t);
  }

  lemma QuoteStartsString(s: string)
    requires s != "" && s[0] == '"' && ParseString(s).Read?
    ensures ParseValue(s) == Read(String(ParseString(s).value), ParseString(s).rest)
  {
  }

  lemma StringValueReadsBack(message: string, t: string)
    requires Printable(message)
    ensures ParseValue(Quoted(Escape(message)) + t) == Read(String(message), t)
  {
    StringReadsBack(message, t);
    QuoteStartsString(Quoted(Escape(message)) + t);
  }

  /** The key and the colon of a member leave its value to be read. */
  lemma MemberKey(key: string, value: string, t: string)
    requires Plain(key)
    ensures ParseString(Member(key, value) + t) == Read(key, ":" + (value + t))
    ensures SkipSpace(":" + (value + t)) == ":" + (value + t) && (":" + (value + t))[1..] == value + t
    ensures value != "" && !IsSpace(value[0]) ==> SkipSpace(value + t) == value + t
  {
    PlainIsUnescaped(key);
    StringReadsBack(key, ":" + (value + t));
    MemberSplit(key, value, t);
    ColonRead(value + t);
  }

  lemma MemberSplit(key: string, value: string, t: string)
    ensures Member(key, value) + t == Quoted(key) + (":" + (value + t))
  {
  }

  lemma ColonRead(t: string)
    ensures SkipSpace(":" + t) == ":" + t && (":" + t)[1..] == t
  {
  }

  /** A member followed by a comma and more members. */
  lemma MemberThen(key: string, value: string, v: Value, more: string)
    requires Plain(key) && value != "" && !IsSpace(value[0]) && more != "" && !IsSpace(more[0])
    requires ParseValue(value + ("," + more)) == Read(v, "," + more)
    ensures ParseMembers(Then(Member(key, value), more)) == Prepend((key, v), ParseMembers(more))
  {
    MemberKey(key, value, "," + more);
    assert ("," + more)[1..] == more;
    assert SkipSpace("," + more) == "," + more && SkipSpace(more) == more;
  }

  /** The last member of an object. */
  lemma MemberLast(key: string, value: string, v: Value, t: string)
    requires Plain(key) && value != "" && !IsSpace(value[0])
    requires ParseValue(value + ("}" + t)) == Read(v, "}" + t)
    ensures ParseMembers(Member(key, value) + ("}" + t)) == Read([(key, v)], t)
  {
    MemberKey(key, value, "}" + t);
    assert ("}" + t)[1..] == t;
    assert SkipSpace("}" + t) == "}" + t;
  }

  /** `text` is the text of one value, read as v wherever the separator follows it. */
  ghost predicate ReadsBefore(separator: string, text: string, v: Value) {
    text != "" && !IsSpace(text[0]) && forall t :: ParseValue(text + (separator + t)) == Read(v, separator + t)
  }

  lemma DecimalReadsBefore(n: nat)
    ensures ReadsBefore(",", Decimal(n), Number(Decimal(n)))
  {
    DecimalShape(n);
    forall t ensures ParseValue(Decimal(n) + ("," + t)) == Read(Number(Decimal(n)), "," + t) {
      DecimalReadsBack(n, "," + t);
    }
  }

  lemma StringReadsBefore(message: string)
    requires Printable(message)
    ensures ReadsBefore(",", Quoted(Escape(message)), String(message))
  {
    forall t ensures ParseValue(Quoted(Escape(message)) + ("," + t)) == Read(String(message), "," + t) {
      StringValueReadsBack(message, "," + t);
    }
  }

  lemma ValueStart(s: string)
    requires ParseValue(s).Read?
    ensures s != "" && !IsSpace(s[0]) && s[0] != '}' && s[0] != ']'
  {
    var c := s[0];
    assert c == '}' || c == ']' || IsSpace(c) ==> ParseNumber(s).Fail?;
  }

  function MembersReader(): string -> Parse<seq<(string, Value)>> {
    s => ParseMembers(s)
  }

  lemma MemberStarts(key: string, text: string)
    ensures StartsItem(Member(key, text)) && Head(Member(key, text)) == '"'
  {
  }

  lemma MemberSteps(key: string, text: string, v: Value)
    requires Plain(key) && ReadsBefore(",", text, v)
    ensures StepsOver(MembersReader(), Member(key, text), (key, v))
  {
    MemberStarts(key, text);
    forall more | StartsItem(more)
      ensures MembersReader()(Then(Member(key, text), more)) == Prepend((key, v), MembersReader()(more))
    {
      MemberThen(key, text, v, more);
    }
  }

  predicate Sound(e: Event, details: Value) {
    Plain(e.kind) && Printable(e.message) && Printable(e.details) && IsJson(e.details, details)
  }

  lemma Associates(a: string, b: string, c: string)
    ensures a + (b + c) == a + b + c
  {
  }

  lemma DetailsReadBefore(e: Event, details: Value)
    requires IsJson(e.details, details)
    ensures ReadsBefore("}", e.details, details)
  {
    var s := e.details + "}";
    ValueStart(s);
    assert e.details != "" && e.details[0] == s[0];
    forall t ensures ParseValue(e.details + ("}" + t)) == Read(details, "}" + t) {
      ValueLocal(s, t);
      Associates(e.details, "}", t);
    }
  }

  /** `line` reads as v whatever comes after it. */
  ghost predicate ReadsAs(line: string, v: Value) {
    && StartsItem(line)
    && forall t :: ParseValue(line + t) == Read(v, t)
  }

  lemma NumberSteps(key: string, n: nat)
    requires Plain(key)
    ensures StepsOver(MembersReader(), Member(key, Decimal(n)), (key, Number(Decimal(n))))
  {
    DecimalReadsBefore(n);
    MemberSteps(key, Decimal(n), Number(Decimal(n)));
  }

  lemma StringSteps(key: string, message: string)
    requires Plain(key) && Printable(message)
    ensures StepsOver(MembersReader(), Member(key, Quoted(Escape(message))), (key, String(message)))
  {
    StringReadsBefore(message);
    MemberSteps(key, Quoted(Escape(message)), String(message));
  }

  lemma DetailsEnd(key: string, e: Event, details: Value, t: string)
    requires Plain(key) && IsJson(e.details, details)
    ensures MembersReader()(Member(key, e.details) + ("}" + t)) == Read([(key, details)], t)
  {
    DetailsReadBefore(e, details);
    MemberLast(key, e.details, details, t);
  }

  lemma SeqSteps(e: Event)
    ensures StepsOver(MembersReader(), Member("seq", Decimal(e.seqNo)), ("seq", Number(Decimal(e.seqNo))))
  {
    NumberSteps("seq", e.seqNo);
  }

  lemma TsSteps(e: Event)
    ensures StepsOver(MembersReader(), Member("ts", Decimal(e.ts)), ("ts", Number(Decimal(e.ts))))
  {
    NumberSteps("ts", e.ts);
  }

  lemma TypeSteps(e: Event)
    requires Plain(e.kind)
    ensures StepsOver(MembersReader(), Member("type", Quoted(e.kind)), ("type", String(e.kind)))
  {
    PlainIsUnescaped(e.kind);
    StringSteps("type", e.kind);
  }

  lemma MessageSteps(e: Event)
    requires Printable(e.message)
    ensures StepsOver(MembersReader(), Member("message", Quoted(EscapedBySed(e.message))),
                      ("message", String(e.message)))
  {
    SedChainIsEscape(e.message);
    StringSteps("message", e.message);
  }

  lemma FiveRead<T(!new)>(read: string -> Parse<seq<T>>, m0: string, v0: T, m1: string, v1: T, m2: string, v2: T,
                          m3: string, v3: T, m4: string, v4: T, tail: string, rest: string)
    requires StepsOver(read, m0, v0) && StepsOver(read, m1, v1) && StepsOver(read, m2, v2) && StepsOver(read, m3, v3)
    requires StartsItem(m4)
    ensures var s := Joined([m0, m1, m2, m3, m4]) + tail; s != "" && Head(s) == Head(m0)
    ensures read(Joined([m0, m1, m2, m3, m4]) + tail) == Read([v0, v1, v2, v3, v4], rest) <==>
            read(m4 + tail) == Read([v4], rest)
  {
    var items, values := [m0, m1, m2, m3, m4], [v0, v1, v2, v3, v4];
    forall j | 0 <= j < |items| - 1 ensures StepsOver(read, items[j], values[j]) {
      if j == 0 {
      } else if j == 1 {
      } else if j == 2 {
      } else {
      }
    }
    JoinedReads(read, items, values, tail, rest);
  }

  /** The first four members of a line. */
  ghost predicate FourStep(e: Event) {
    && StepsOver(MembersReader(), Member("seq", Decimal(e.seqNo)), ("seq", Number(Decimal(e.seqNo))))
    && StepsOver(MembersReader(), Member("ts", Decimal(e.ts)), ("ts", Number(Decimal(e.ts))))
    && StepsOver(MembersReader(), Member("type", Quoted(e.kind)), ("type", String(e.kind)))
    && StepsOver(MembersReader(), Member("message", Quoted(EscapedBySed(e.message))), ("message", String(e.message)))
  }

  lemma MembersStep(e: Event)
    requires Plain(e.kind) && Printable(e.message)
    ensures FourStep(e)
  {
    SeqSteps(e);
    TsSteps(e);
    TypeSteps(e);
    MessageSteps(e);
  }

  /** The details member, before the closing brace, is read as v up to `rest`. */
  predicate DetailsRead(details: string, v: Value, t: string, rest: string) {
    MembersReader()(Member("details", details) + ("}" + t)) == Read([("details", v)], rest)
  }

  lemma MembersRead(e: Event, details: Value, t: string, rest: string)
    requires FourStep(e)
    ensures var s := Joined(Members(e)) + ("}" + t); s != "" && Head(s) == '"'
    ensures ParseMembers(Joined(Members(e)) + ("}" + t)) == Read(Pairs(e, details), rest) <==>
            DetailsRead(e.details, details, t, rest)
  {
    MemberStarts("seq", Decimal(e.seqNo));
    MemberStarts("details", e.details);
    FiveRead(MembersReader(), Member("seq", Decimal(e.seqNo)), ("seq", Number(Decimal(e.seqNo))),
             Member("ts", Decimal(e.ts)), ("ts", Number(Decimal(e.ts))),
             Member("type", Quoted(e.kind)), ("type", String(e.kind)),
             Member("message", Quoted(EscapedBySed(e.message))), ("message", String(e.message)),
             Member("details", e.details), ("details", details), "}" + t, rest);
  }

  /** A line reads as the event exactly when its details are read up to the closing brace. */
  lemma LineReadsExactlyWhen(e: Event, details: Value, t: string, rest: string)
    requires Plain(e.kind) && Printable(e.message)
    ensures ParseValue(PrintLine(e) + t) == Read(AsJson(e, details), rest) <==>
            DetailsRead(e.details, details, t, rest)
  {
    MembersStep(e);
    MembersRead(e, details, t, rest);
    Braced(Joined(Members(e)), t);
    ObjectFromMembers(Joined(Members(e)) + ("}" + t));
  }

  lemma Braced(members: string, t: string)
    ensures ("{" + members + "}") + t == "{" + (members + ("}" + t))
  {
  }

  /** Reading a printed line gives back the event: its number, time, type, the message exactly as it
    * was before escaping, and the details. */
  lemma LineReadsBack(e: Event, details: Value)
    requires Sound(e, details)
    ensures ReadsAs(PrintLine(e), AsJson(e, details))
  {
    forall t ensures ParseValue(PrintLine(e) + t) == Read(AsJson(e, details), t) {
      DetailsEnd("details", e, details, t);
      LineReadsExactlyWhen(e, details, t, t);
    }
  }

  function ObjectOf(p: Parse<seq<(string, Value)>>): Parse<Value> {
    match p case Fail => Fail case Read(members, rest) => Read(Object(members), rest)
  }

  lemma ObjectFromMembers(members: string)
    requires members != "" && Head(members) == '"'
    ensures ParseValue("{" + members) == ObjectOf(ParseMembers(members))
  {
    assert ("{" + members)[1..] == members;
    assert SkipSpace(members) == members;
  }

  // ---------- The whole log ----------

  function NonEmpty(lines: seq<string>): seq<string> {
    if lines == [] then []
    else
      var n := |lines| - 1;
      NonEmpty(lines[..n]) + if lines[n] == "" then [] else [lines[n]]
  }

  lemma {:induction false} JoinedSnoc(lines: seq<string>, line: string)
    ensures Joined(lines + [line]) == if lines == [] then line else Joined(lines) + "," + line
  {
    if lines == [] {
      assert lines + [line] == [line];
    } else {
      assert (lines + [line])[1..] == lines[1..] + [line];
      JoinedSnoc(lines[1..], line);
      if |lines| > 1 {
        ThenAppend(lines[0], Joined(lines[1..]), ",");
        ThenAppend(lines[0], Joined(lines[1..]) + ",", line);
      } else {
        assert lines[0] + ("," + line) == lines[0] + "," + line;
      }
    }
  }

  lemma Regroup(a: string, b: string, c: string, d: string)
    ensures a + b + c + d == a + (b + c + d)
    ensures b == "" ==> a + b + d == a + d
  {
  }

  lemma NonEmptySnoc(lines: seq<string>, k: nat)
    requires k < |lines|
    ensures NonEmpty(lines[..k + 1]) ==
      if lines[k] == "" then NonEmpty(lines[..k]) else NonEmpty(lines[..k]) + [lines[k]]
  {
    assert lines[..k + 1][..k] == lines[..k];
  }

  /** The file is read line by line; empty lines are skipped; commas go between. */
  method EventsJson(lines: seq<string>) returns (out: string)
    ensures out == "[" + Joined(NonEmpty(lines)) + "]"
  {
    if lines == [] {
      return "[]";
    }
    out := "[";
    var first := true;
    for k := 0 to |lines|
      invariant first <==> NonEmpty(lines[..k]) == []
      invariant out == "[" + Joined(NonEmpty(lines[..k]))
    {
      var line := lines[k];
      NonEmptySnoc(lines, k);
      if line != "" {
        ghost var before := NonEmpty(lines[..k]);
        JoinedSnoc(before, line);
        Regroup("[", Joined(before), ",", line);
        if !first {
          out := out + ",";
        }
        out := out + line;
        assert out == "[" + Joined(before + [line]);
        first := false;
      }
    }
    assert lines[..|lines|] == lines;
    out := out + "]";
  }

  function ElementsReader(): string -> Parse<seq<Value>> {
    s => ParseElements(s)
  }

  lemma ElementSteps(line: string, v: Value)
    requires ReadsAs(line, v)
    ensures StepsOver(ElementsReader(), line, v)
  {
    forall more | StartsItem(more) ensures ElementsReader()(Then(line, more)) == Prepend(v, ElementsReader()(more)) {
      ElementThen(line, v, more);
    }
  }

  lemma ElementThen(line: string, v: Value, more: string)
    requires ReadsAs(line, v) && StartsItem(more)
    ensures ParseElements(Then(line, more)) == Prepend(v, ParseElements(more))
  {
    assert ParseValue(line + ("," + more)) == Read(v, "," + more);
    assert ("," + more)[1..] == more && SkipSpace("," + more) == "," + more;
    assert SkipSpace(more) == more;
  }

  lemma ElementLast(line: string, v: Value, t: string)
    requires ReadsAs(line, v)
    ensures ParseElements(line + ("]" + t)) == Read([v], t)
  {
    assert ParseValue(line + ("]" + t)) == Read(v, "]" + t);
    assert ("]" + t)[1..] == t && SkipSpace("]" + t) == "]" + t;
  }

  lemma ElementsParse(lines: seq<string>, values: seq<Value>, t: string)
    requires |lines| == |values| > 0 && forall k :: 0 <= k < |lines| ==> ReadsAs(lines[k], values[k])
    ensures var s := Joined(lines) + ("]" + t);
      StartsItem(s) && ParseElements(s) == Read(values, t)
  {
    forall j | 0 <= j < |lines| - 1 ensures StepsOver(ElementsReader(), lines[j], values[j]) {
      ElementSteps(lines[j], values[j]);
    }
    ElementLast(lines[|lines| - 1], values[|lines| - 1], t);
    JoinedReads(ElementsReader(), lines, values, "]" + t, t);
  }

  lemma ArrayFromElements(elements: string)
    requires StartsItem(elements) && ParseElements(elements).Read?
    ensures ParseValue("[" + elements) == Read(Array(ParseElements(elements).value), ParseElements(elements).rest)
  {
    assert ("[" + elements)[1..] == elements;
    assert SkipSpace(elements) == elements;
  }

  lemma EmptyArray(t: string)
    ensures ParseValue("[" + ("]" + t)) == Read(Array([]), t)
  {
    assert ("[" + ("]" + t))[1..] == "]" + t && ("]" + t)[1..] == t;
    assert SkipSpace("]" + t) == "]" + t;
  }

  /** The array reads as exactly the log's lines, in order. */
  lemma ArrayReadsBack(lines: seq<string>, values: seq<Value>, t: string)
    requires |lines| == |values| && forall k :: 0 <= k < |lines| ==> ReadsAs(lines[k], values[k])
    ensures ParseValue("[" + Joined(lines) + "]" + t) == Read(Array(values), t)
  {
    var inner := Joined(lines) + ("]" + t);
    Bracketed(Joined(lines), t);
    if lines == [] {
      EmptyArray(t);
      assert inner == "]" + t;
    } else {
      ElementsParse(lines, values, t);
      ArrayFromElements(inner);
    }
  }

  lemma Bracketed(elements: string, t: string)
    ensures "[" + elements + "]" + t == "[" + (elements + ("]" + t))
  {
  }

  function Lines(events: seq<Event>): seq<string> {
    seq(|events|, k requires 0 <= k < |events| => PrintLine(events[k]))
  }

  function Values(events: seq<Event>, details: seq<Value>): seq<Value>
    requires |events| == |details|
  {
    seq(|events|, k requires 0 <= k < |events| => AsJson(events[k], details[k]))
  }

  lemma {:induction false} NothingSkipped(lines: seq<string>)
    requires forall k :: 0 <= k < |lines| ==> lines[k] != ""
    ensures NonEmpty(lines) == lines
    decreases |lines|
  {
    if lines != [] {
      NothingSkipped(lines[..|lines| - 1]);
      assert lines == lines[..|lines| - 1] + [lines[|lines| - 1]];
    }
  }

  /** What collect prints for a log of events reads as the array of the recorded events, in order, whatever
    * the rest of the output is. */
  lemma LogReadsBack(events: seq<Event>, details: seq<Value>, t: string)
    requires |events| == |details| && forall k :: 0 <= k < |events| ==> Sound(events[k], details[k])
    ensures ParseValue("[" + Joined(NonEmpty(Lines(events))) + "]" + t) == Read(Array(Values(events, details)), t)
    ensures |Values(events, details)| == |events| &&
      forall k :: 0 <= k < |events| ==> Values(events, details)[k] == AsJson(events[k], details[k])
  {
    forall k | 0 <= k < |events| ensures ReadsAs(Lines(events)[k], Values(events, details)[k]) {
      LineReadsBack(events[k], details[k]);
    }
    NothingSkipped(Lines(events));
    ArrayReadsBack(Lines(events), Values(events, details), t);
  }
}
