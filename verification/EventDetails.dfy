/** The details the agent's own events carry (agent/wifi-agent.sh, verify_and_recover_radio and
  * recover_from_corrupted_defaults). They are printed by hand, the configured channel unquoted as uci gives it. */
module EventDetails {
  import opened Wrappers
  import opened Json
  import opened EventLog
  import opened EventLines

  // ---------- The printed templates ----------

  /** `configured` is what `uci get` printed; `live` the channel the radio reports, if it reports one. */
  datatype Details =
    | Nothing
    | CorruptionExhausted(attempts: nat)
    | CorruptionReboot(attempt: nat, configured: string)
    | ChipReset(attempt: nat, live: Option<nat>, configured: string)
    | ChannelExhausted(attempts: nat, configured: string)
    | ChannelReboot(attempt: nat, configured: string)

  /** A member as printed, and as it is meant. */
  datatype Field = Field(key: string, text: string, value: Value)

  function Path(name: string): Field {
    Field("path", Quoted(name), String(name))
  }

  function Count(key: string, n: nat): Field {
    Field(key, Decimal(n), Number(Decimal(n)))
  }

  /** `jnum`: the number, or null for nothing. */
  function Live(channel: Option<nat>): Field {
    match channel
    case None => Field("live_channel", "null", Null)
    case Some(n) => Count("live_channel", n)
  }

  function Configured(text: string): Field {
    Field("expected_channel", text, Number(text))
  }

  /** All but the last member. */
  function Front(d: Details): seq<Field> {
    match d
    case Nothing => []
    case CorruptionExhausted(_) => [Path("corrupted_defaults")]
    case CorruptionReboot(attempt, _) =>
      [Path("corrupted_defaults"), Count("attempt", attempt), Count("max_attempts", 4)]
    case ChipReset(attempt, live, _) => [Count("attempt", attempt), Live(live)]
    case ChannelExhausted(attempts, _) => [Path("channel_mismatch"), Count("attempts", attempts)]
    case ChannelReboot(attempt, _) =>
      [Path("channel_mismatch"), Count("attempt", attempt), Count("max_attempts", 2)]
  }

  function Last(d: Details): Field
    requires !d.Nothing?
  {
    if d.CorruptionExhausted? then Count("attempts", d.attempts) else Configured(d.configured)
  }

  function Printed(fields: seq<Field>): seq<string> {
    seq(|fields|, k requires 0 <= k < |fields| => Member(fields[k].key, fields[k].text))
  }

  function Meant(fields: seq<Field>): seq<(string, Value)> {
    seq(|fields|, k requires 0 <= k < |fields| => (fields[k].key, fields[k].value))
  }

  function Braces(fields: seq<Field>): string {
    "{" + Joined(Printed(fields)) + "}"
  }

  /** The text, `null` where record_event is given none. */
  function PrintDetails(d: Details): string {
    if d.Nothing? then "null" else Braces(Front(d) + [Last(d)])
  }

  /** What a reader should get: which recovery path, which attempt of how many, and the channels. */
  function Intended(d: Details): Value {
    match d
    case Nothing => Null
    case CorruptionExhausted(n) =>
      Object([("path", String("corrupted_defaults")), ("attempts", Number(Decimal(n)))])
    case CorruptionReboot(k, text) =>
      Object([("path", String("corrupted_defaults")), ("attempt", Number(Decimal(k))), ("max_attempts", Number("4")),
              ("expected_channel", Number(text))])
    case ChipReset(k, live, text) =>
      Object([("attempt", Number(Decimal(k))),
              ("live_channel", if live.None? then Null else Number(Decimal(live.value))),
              ("expected_channel", Number(text))])
    case ChannelExhausted(n, text) =>
      Object([("path", String("channel_mismatch")), ("attempts", Number(Decimal(n))),
              ("expected_channel", Number(text))])
    case ChannelReboot(k, text) =>
      Object([("path", String("channel_mismatch")), ("attempt", Number(Decimal(k))), ("max_attempts", Number("2")),
              ("expected_channel", Number(text))])
  }

  /** The text is a JSON number, and nothing else. */
  predicate IsNumber(text: string) {
    ParseNumber(text) == Read(Number(text), "")
  }

  /** The configured channel, if it is printed, is a JSON number. */
  predicate Numeric(d: Details) {
    d.Nothing? || d.CorruptionExhausted? || IsNumber(d.configured)
  }

  // ---------- Numbers ----------

  predicate Ends(t: string) {
    t != "" && (t[0] == ',' || t[0] == '}')
  }

  function Followed<T>(p: Parse<T>, t: string): Parse<T> {
    match p case Fail => Fail case Read(v, rest) => Read(v, rest + t)
  }

  lemma {:induction false} DigitsEnd(s: string, t: string)
    requires Ends(t)
    ensures TakeDigits(s + t) == (TakeDigits(s).0, TakeDigits(s).1 + t)
  {
    if s == "" {
      assert s + t == t;
    } else {
      Drop(s, t, 1);
      DigitsEnd(s[1..], t);
    }
  }

  lemma IntEnds(s: string, t: string)
    requires Ends(t)
    ensures ParseInt(s + t) == Followed(ParseInt(s), t)
  {
    if s == "" {
      assert s + t == t;
    } else {
      Drop(s, t, 1);
      DigitsEnd(s, t);
    }
  }

  lemma FractionEnds(s: string, t: string)
    requires Ends(t)
    ensures ParseFraction(s + t) == Followed(ParseFraction(s), t)
  {
    if s == "" {
      assert s + t == t;
    } else {
      Drop(s, t, 1);
      DigitsEnd(s[1..], t);
    }
  }

  lemma ExponentEnds(s: string, t: string)
    requires Ends(t)
    ensures ParseExponent(s + t) == Followed(ParseExponent(s), t)
  {
    if s == "" {
      assert s + t == t;
    } else {
      var sign := if |s| > 1 && (s[1] == '+' || s[1] == '-') then 1 else 0;
      Drop(s, t, 1 + sign);
      DigitsEnd(s[1 + sign..], t);
    }
  }

  /** A comma or a brace ends a number without having a part in it. */
  lemma NumberEnds(s: string, t: string)
    requires Ends(t)
    ensures ParseNumber(s + t) == Followed(ParseNumber(s), t)
  {
    var sign := if s != "" && s[0] == '-' then 1 else 0;
    Drop(s, t, sign);
    IntEnds(s[sign..], t);
    if ParseInt(s[sign..]).Read? {
      var r1 := ParseInt(s[sign..]).rest;
      FractionEnds(r1, t);
      if ParseFraction(r1).Read? {
        ExponentEnds(ParseFraction(r1).rest, t);
      }
    }
  }

  lemma {:induction false} DigitsTile(s: string)
    ensures TakeDigits(s).0 + TakeDigits(s).1 == s
  {
    if s != "" && IsDigit(s[0]) {
      DigitsTile(s[1..]);
    }
  }

  lemma FractionTiles(s: string)
    requires ParseFraction(s).Read?
    ensures ParseFraction(s).value + ParseFraction(s).rest == s
  {
    if s != "" && s[0] == '.' {
      DigitsTile(s[1..]);
    }
  }

  lemma ExponentTiles(s: string)
    requires ParseExponent(s).Read?
    ensures ParseExponent(s).value + ParseExponent(s).rest == s
  {
    if s != "" && (s[0] == 'e' || s[0] == 'E') {
      var sign := if |s| > 1 && (s[1] == '+' || s[1] == '-') then 1 else 0;
      DigitsTile(s[1 + sign..]);
      assert s == s[..1 + sign] + s[1 + sign..];
    }
  }

  lemma IntTiles(s: string)
    requires ParseInt(s).Read?
    ensures ParseInt(s).value + ParseInt(s).rest == s && ParseInt(s).value != ""
  {
    DigitsTile(s);
  }

  lemma NumberHead(s: string)
    requires ParseNumber(s).Read?
    ensures s != "" && (s[0] == '-' || IsDigit(s[0]))
  {
    assert s[0..] == s;
  }

  /** What a number is read from is its own text and the rest, and does not start with a space. */
  lemma NumberTiles(s: string)
    requires ParseNumber(s).Read?
    ensures ParseNumber(s).value.text + ParseNumber(s).rest == s
    ensures ParseNumber(s).value.text != "" && !IsSpace(s[0])
  {
    NumberHead(s);
    var sign := if s != "" && s[0] == '-' then 1 else 0;
    assert s == s[..sign] + s[sign..];
    PartsTile(s, s[..sign], s[sign..]);
  }

  lemma PartsTile(s: string, sign: string, body: string)
    requires s == sign + body && ParseInt(body).Read? && ParseFraction(ParseInt(body).rest).Read?
    requires ParseExponent(ParseFraction(ParseInt(body).rest).rest).Read?
    ensures var whole := ParseInt(body); var fraction := ParseFraction(whole.rest);
      var exponent := ParseExponent(fraction.rest);
      whole.value != "" && (sign + whole.value + fraction.value + exponent.value) + exponent.rest == s
  {
    var whole := ParseInt(body);
    var fraction := ParseFraction(whole.rest);
    var exponent := ParseExponent(fraction.rest);
    IntTiles(body);
    FractionTiles(whole.rest);
    ExponentTiles(fraction.rest);
    Associates(sign, whole.value, whole.rest);
    Associates(sign + whole.value, fraction.value, fraction.rest);
    Associates(sign + whole.value + fraction.value, exponent.value, exponent.rest);
  }

  /** Only a number is read as one. */
  lemma ReadAsNumber(s: string)
    requires ParseValue(s).Read? && ParseValue(s).value.Number?
    ensures ParseNumber(s) == ParseValue(s)
  {
  }

  // ---------- The last member ----------

  lemma PathsArePlain()
    ensures Plain("corrupted_defaults") && Plain("channel_mismatch")
  {
  }

  lemma KeysArePlain()
    ensures Plain("attempt") && Plain("attempts") && Plain("max_attempts") && Plain("expected_channel")
  {
  }

  lemma MembersNotEmpty(s: string)
    requires ParseMembers(s).Read?
    ensures ParseMembers(s).value != []
  {
  }

  /** What it takes for a member to be read as the only one. */
  lemma OnlyMember(key: string, text: string, v: Value, t: string, rest: string)
    requires Plain(key)
    ensures ParseMembers(Member(key, text) + t) == Read([(key, v)], rest) <==>
      var p := ParseValue(SkipSpace(text + t));
      p.Read? && p.value == v && SkipSpace(p.rest) == "}" + rest
  {
    MemberKey(key, text, t);
    var p := ParseValue(SkipSpace(text + t));
    if p.Read? {
      var r := SkipSpace(p.rest);
      assert r != "" && r[0] == '}' ==> (r == "}" + rest <==> r[1..] == rest);
      if r != "" && r[0] == ',' && ParseMembers(SkipSpace(r[1..])).Read? {
        MembersNotEmpty(SkipSpace(r[1..]));
      }
    }
  }

  /** A text that is read as v only up to the brace behind it. */
  predicate EndsAtBrace(text: string, v: Value, t: string) {
    var p := ParseValue(text + ("}" + t));
    p.Read? && p.value == v ==> p.rest == "}" + t
  }

  lemma MemberReadsExactlyWhen(key: string, text: string, v: Value, t: string, rest: string)
    requires Plain(key) && text != "" && !IsSpace(text[0]) && EndsAtBrace(text, v, t)
    ensures ParseMembers(Member(key, text) + ("}" + t)) == Read([(key, v)], rest) <==>
            ParseValue(text + ("}" + t)) == Read(v, "}" + t) && rest == t
  {
    OnlyMember(key, text, v, "}" + t, rest);
    assert SkipSpace(text + ("}" + t)) == text + ("}" + t) && SkipSpace("}" + t) == "}" + t;
    assert ("}" + t)[1..] == t && ("}" + rest)[1..] == rest;
  }

  lemma NumberEndsAtBrace(text: string, t: string)
    ensures EndsAtBrace(text, Number(text), t)
    ensures ParseValue(text + ("}" + t)) == Read(Number(text), "}" + t) <==> IsNumber(text)
  {
    var s := text + ("}" + t);
    NumberEnds(text, "}" + t);
    if ParseValue(s).Read? && ParseValue(s).value == Number(text) {
      ReadAsNumber(s);
      NumberTiles(s);
      Cancelled(text, ParseValue(s).rest, "}" + t);
      Cancelled(ParseNumber(text).rest, "}" + t, "");
    }
    if IsNumber(text) {
      assert "" + ("}" + t) == "}" + t;
      NumberHead(s);
      NumberCharacter(s);
    }
  }

  lemma Cancelled(a: string, b: string, c: string)
    ensures a + b == a + c ==> b == c
    ensures a + b == b ==> a == ""
  {
    assert (a + b)[|a|..] == b && (a + c)[|a|..] == c;
    assert |a + b| == |a| + |b|;
  }

  /** A text printed unquoted, last before the brace, is read as a number exactly when it is one. */
  lemma RawReadsExactlyWhen(key: string, text: string, t: string, rest: string)
    requires Plain(key)
    ensures ParseMembers(Member(key, text) + ("}" + t)) == Read([(key, Number(text))], rest) <==>
            IsNumber(text) && rest == t
  {
    if text == "" || IsSpace(text[0]) {
      NotANumber(key, text, t, rest);
    } else {
      NumberEndsAtBrace(text, t);
      MemberReadsExactlyWhen(key, text, Number(text), t, rest);
    }
  }

  lemma NotANumber(key: string, text: string, t: string, rest: string)
    requires Plain(key) && (text == "" || IsSpace(text[0]))
    ensures !IsNumber(text)
    ensures ParseMembers(Member(key, text) + ("}" + t)) != Read([(key, Number(text))], rest)
  {
    if IsNumber(text) {
      NumberTiles(text);
    }
    OnlyMember(key, text, Number(text), "}" + t, rest);
    var s := SkipSpace(text + ("}" + t));
    if ParseValue(s).Read? && ParseValue(s).value == Number(text) {
      ReadAsNumber(s);
      NumberTiles(s);
      assert text != "" && s[0] == text[0];
    }
  }

  lemma CountReads(key: string, n: nat, t: string, rest: string)
    requires Plain(key)
    ensures ParseMembers(Member(key, Decimal(n)) + ("}" + t)) == Read([(key, Number(Decimal(n)))], rest) <==>
            rest == t
  {
    DecimalShape(n);
    DecimalReadsBack(n, "}" + t);
    MemberReadsExactlyWhen(key, Decimal(n), Number(Decimal(n)), t, rest);
  }

  /** Printed last before the brace, the field is read as meant, and no further, exactly when `fine`. */
  ghost predicate EndsFine(f: Field, fine: bool) {
    forall t, rest ::
      ParseMembers(Member(f.key, f.text) + ("}" + t)) == Read([(f.key, f.value)], rest) <==> fine && rest == t
  }

  lemma CountEndsFine(key: string, n: nat)
    requires Plain(key)
    ensures EndsFine(Count(key, n), true)
  {
    forall t, rest
      ensures ParseMembers(Member(key, Decimal(n)) + ("}" + t)) == Read([(key, Number(Decimal(n)))], rest) <==>
              rest == t
    {
      CountReads(key, n, t, rest);
    }
  }

  lemma RawEndsFine(key: string, text: string)
    requires Plain(key)
    ensures EndsFine(Field(key, text, Number(text)), IsNumber(text))
  {
    forall t, rest
      ensures ParseMembers(Member(key, text) + ("}" + t)) == Read([(key, Number(text))], rest) <==>
              IsNumber(text) && rest == t
    {
      RawReadsExactlyWhen(key, text, t, rest);
    }
  }

  lemma LastEndsFine(d: Details)
    requires !d.Nothing?
    ensures EndsFine(Last(d), Numeric(d))
  {
    if d.CorruptionExhausted? {
      KeysArePlain();
      CountEndsFine("attempts", d.attempts);
    } else {
      KeysArePlain();
      RawEndsFine("expected_channel", d.configured);
    }
  }

  // ---------- The details as a whole ----------

  /** A member that is read off the front whatever follows it. */
  ghost predicate Steady(f: Field) {
    StepsOver(MembersReader(), Member(f.key, f.text), (f.key, f.value))
  }

  lemma PathSteady(name: string)
    requires Plain(name)
    ensures Steady(Path(name))
  {
    PlainIsUnescaped(name);
    StringSteps("path", name);
  }

  lemma CountSteady(key: string, n: nat)
    requires Plain(key)
    ensures Steady(Count(key, n))
  {
    NumberSteps(key, n);
  }

  lemma LiveSteady(channel: Option<nat>)
    ensures Steady(Live(channel))
  {
    match channel
    case None =>
      forall t ensures ParseValue("null" + ("," + t)) == Read(Null, "," + t) {
        assert ("null" + ("," + t))[..4] == "null" && ("null" + ("," + t))[4..] == "," + t;
      }
      MemberSteps("live_channel", "null", Null);
    case Some(n) => CountSteady("live_channel", n);
  }

  ghost predicate Each<T>(holds: T -> bool, items: seq<T>) {
    forall k :: 0 <= k < |items| ==> holds(items[k])
  }

  lemma EachOfTwo<T>(holds: T -> bool, a: T, b: T)
    requires holds(a) && holds(b)
    ensures Each(holds, [a, b])
  {
  }

  lemma EachOfThree<T>(holds: T -> bool, a: T, b: T, c: T)
    requires holds(a) && holds(b) && holds(c)
    ensures Each(holds, [a, b, c])
  {
  }

  ghost function Steadily(): Field -> bool {
    f => Steady(f)
  }

  ghost predicate AllSteady(fields: seq<Field>) {
    Each(Steadily(), fields)
  }

  lemma FrontSteady(d: Details)
    ensures AllSteady(Front(d))
  {
    PathsArePlain();
    KeysArePlain();
    match d
    case Nothing =>
    case CorruptionExhausted(_) => CorruptionSteady();
    case CorruptionReboot(attempt, _) => RebootSteady("corrupted_defaults", attempt, 4);
    case ChipReset(attempt, live, _) => ResetSteady("attempt", attempt, live);
    case ChannelExhausted(attempts, _) => ExhaustedSteady("channel_mismatch", attempts);
    case ChannelReboot(attempt, _) => RebootSteady("channel_mismatch", attempt, 2);
  }

  lemma CorruptionSteady()
    ensures AllSteady([Path("corrupted_defaults")])
  {
    PathsArePlain();
    PathSteady("corrupted_defaults");
  }

  lemma RebootSteady(name: string, attempt: nat, most: nat)
    requires Plain(name)
    ensures AllSteady([Path(name), Count("attempt", attempt), Count("max_attempts", most)])
  {
    KeysArePlain();
    PathSteady(name);
    CountSteady("attempt", attempt);
    CountSteady("max_attempts", most);
    EachOfThree(Steadily(), Path(name), Count("attempt", attempt), Count("max_attempts", most));
  }

  lemma ResetSteady(key: string, attempt: nat, live: Option<nat>)
    requires Plain(key)
    ensures AllSteady([Count(key, attempt), Live(live)])
  {
    CountSteady(key, attempt);
    LiveSteady(live);
    EachOfTwo(Steadily(), Count(key, attempt), Live(live));
  }

  lemma ExhaustedSteady(name: string, attempts: nat)
    requires Plain(name)
    ensures AllSteady([Path(name), Count("attempts", attempts)])
  {
    KeysArePlain();
    PathSteady(name);
    CountSteady("attempts", attempts);
    EachOfTwo(Steadily(), Path(name), Count("attempts", attempts));
  }

  /** Fields in braces are read as meant exactly when the last one is. */
  lemma BracesReadExactlyWhen(front: seq<Field>, last: Field, t: string, rest: string)
    requires AllSteady(front)
    ensures ParseValue(Braces(front + [last]) + t) == Read(Object(Meant(front + [last])), rest) <==>
            ParseMembers(Member(last.key, last.text) + ("}" + t)) == Read([(last.key, last.value)], rest)
  {
    var fields := front + [last];
    var items, values := Printed(fields), Meant(fields);
    forall k | 0 <= k < |items| - 1 ensures StepsOver(MembersReader(), items[k], values[k]) {
      assert Steadily()(front[k]);
    }
    MemberStarts(fields[0].key, fields[0].text);
    MemberStarts(last.key, last.text);
    JoinedReads(MembersReader(), items, values, "}" + t, rest);
    Braced(Joined(items), t);
    ObjectFromMembers(Joined(items) + ("}" + t));
  }

  lemma BracesStart(fields: seq<Field>)
    ensures Braces(fields) != "" && Braces(fields)[0] == '{'
  {
  }

  lemma NothingReads(t: string)
    ensures ParseValue("null" + ("}" + t)) == Read(Null, "}" + t)
  {
    assert ("null" + ("}" + t))[..4] == "null" && ("null" + ("}" + t))[4..] == "}" + t;
  }

  lemma FieldsReadBackExactlyWhen(front: seq<Field>, last: Field, fine: bool, t: string, rest: string)
    requires AllSteady(front) && EndsFine(last, fine)
    ensures DetailsRead(Braces(front + [last]), Object(Meant(front + [last])), t, rest) <==> fine && rest == t
  {
    var text, v := Braces(front + [last]), Object(Meant(front + [last]));
    BracesStart(front + [last]);
    BracesReadFine(front, last, fine, "}" + t);
    MemberReadsExactlyWhen("details", text, v, t, rest);
  }

  lemma BracesReadFine(front: seq<Field>, last: Field, fine: bool, t: string)
    requires AllSteady(front) && EndsFine(last, fine)
    ensures var p := ParseValue(Braces(front + [last]) + t);
      if fine then p == Read(Object(Meant(front + [last])), t)
      else !(p.Read? && p.value == Object(Meant(front + [last])))
  {
    var p := ParseValue(Braces(front + [last]) + t);
    if p.Read? {
      BracesReadExactlyWhen(front, last, t, p.rest);
    }
    BracesReadExactlyWhen(front, last, t, t);
  }

  lemma FieldsAreIntended(d: Details)
    requires !d.Nothing?
    ensures Intended(d) == Object(Meant(Front(d) + [Last(d)]))
  {
    var fields := Meant(Front(d) + [Last(d)]);
    match d
    case CorruptionExhausted(n) =>
      assert fields == [("path", String("corrupted_defaults")), ("attempts", Number(Decimal(n)))];
    case CorruptionReboot(k, text) =>
      assert fields == [("path", String("corrupted_defaults")), ("attempt", Number(Decimal(k))),
                        ("max_attempts", Number(Decimal(4))), ("expected_channel", Number(text))];
    case ChipReset(k, live, text) =>
      assert fields[0] == ("attempt", Number(Decimal(k))) && fields[1].0 == "live_channel";
      assert fields == [fields[0], fields[1], ("expected_channel", Number(text))];
    case ChannelExhausted(n, text) =>
      assert fields == [("path", String("channel_mismatch")), ("attempts", Number(Decimal(n))),
                        ("expected_channel", Number(text))];
    case ChannelReboot(k, text) =>
      assert fields == [("path", String("channel_mismatch")), ("attempt", Number(Decimal(k))),
                        ("max_attempts", Number(Decimal(2))), ("expected_channel", Number(text))];
  }

  /** Printed before the closing brace of its line, every detail reads back as meant if and only if the configured
    * channel, where it is printed, is a JSON number. */
  lemma DetailsReadBackExactlyWhen(d: Details, t: string, rest: string)
    ensures DetailsRead(PrintDetails(d), Intended(d), t, rest) <==> Numeric(d) && rest == t
  {
    if d.Nothing? {
      NothingReads(t);
      MemberReadsExactlyWhen("details", "null", Null, t, rest);
    } else {
      FrontSteady(d);
      LastEndsFine(d);
      FieldsReadBackExactlyWhen(Front(d), Last(d), Numeric(d), t, rest);
      FieldsAreIntended(d);
    }
  }

  /** A channel number is one; `auto`, which the configuration may say instead, is none. */
  lemma ChannelNumbersAreNumeric(n: nat)
    ensures IsNumber(Decimal(n)) && !IsNumber("auto")
  {
    DecimalShape(n);
    DigitsReadBack(Decimal(n), ",");
    NumberEnds(Decimal(n), ",");
    Cancelled(ParseNumber(Decimal(n)).rest, ",", "");
  }

  // ---------- Arrays of lines ----------

  /** The line reads as v, and no further, exactly when `fine`. */
  ghost predicate ReadsFine(line: string, v: Value, fine: bool) {
    && StartsItem(line)
    && forall t ::
         var p := ParseValue(line + t); if fine then p == Read(v, t) else !(p.Read? && p.value == v)
  }

  ghost predicate AllReadFine(lines: seq<string>, values: seq<Value>, fine: seq<bool>) {
    && |lines| == |values| == |fine|
    && forall k :: 0 <= k < |lines| ==> FineAt(lines, values, fine, k)
  }

  ghost predicate FineAt(lines: seq<string>, values: seq<Value>, fine: seq<bool>, k: nat)
    requires k < |lines| == |values| == |fine|
  {
    ReadsFine(lines[k], values[k], fine[k])
  }

  /** An element that is read as v leaves the rest of the array to be read. */
  lemma FirstElement(line: string, v: Value, fine: bool, more: string, vs: seq<Value>, rest: string)
    requires ReadsFine(line, v, fine) && StartsItem(more)
    requires ParseElements(Then(line, more)) == Read([v] + vs, rest)
    ensures fine && ParseElements(more) == Read(vs, rest)
  {
    var p := ParseValue(line + ("," + more));
    assert p.Read? && ([v] + vs)[0] == v && p.value == v;
    assert SkipSpace("," + more) == "," + more && ("," + more)[1..] == more && SkipSpace(more) == more;
    PrependIs(v, ParseElements(more), vs, rest);
  }

  lemma OnlyElement(line: string, v: Value, fine: bool, tail: string, rest: string)
    requires ReadsFine(line, v, fine) && ParseElements(line + tail) == Read([v], rest)
    ensures fine
  {
    var p := ParseValue(line + tail);
    assert p.Read? && p.value == v;
  }

  /** What each place hands on to the next. */
  lemma {:induction false} HandedOn(holds: nat -> bool, fine: seq<bool>, i: nat)
    requires forall k :: 0 <= k < |fine| && holds(k) ==> fine[k] && (k + 1 < |fine| ==> holds(k + 1))
    requires i < |fine| && holds(i)
    ensures forall k :: i <= k < |fine| ==> fine[k]
    decreases |fine| - i
  {
    if i < |fine| - 1 {
      HandedOn(holds, fine, i + 1);
    }
  }

  /** From the i-th line on, the text reads as the values. */
  predicate ReadsOn(lines: seq<string>, values: seq<Value>, i: nat, tail: string, rest: string)
    requires i < |lines| == |values|
  {
    ParseElements(Chain(lines, i, tail)) == Read(ValuesFrom(values, i), rest)
  }

  lemma ElementIsFine(lines: seq<string>, values: seq<Value>, fine: seq<bool>, i: nat, tail: string, rest: string)
    requires AllReadFine(lines, values, fine) && i < |lines|
    requires ReadsOn(lines, values, i, tail, rest)
    ensures fine[i] && (i + 1 < |lines| ==> ReadsOn(lines, values, i + 1, tail, rest))
  {
    assert FineAt(lines, values, fine, i);
    if i == |lines| - 1 {
      OnlyElement(lines[i], values[i], fine[i], tail, rest);
    } else {
      assert FineAt(lines, values, fine, i + 1);
      ChainStarts(lines, i + 1, tail);
      FirstElement(lines[i], values[i], fine[i], Chain(lines, i + 1, tail), ValuesFrom(values, i + 1), rest);
    }
  }

  /** Non-empty lines in brackets read as the array of their values exactly when every line is fine. */
  lemma ArrayReadsExactlyWhen(lines: seq<string>, values: seq<Value>, fine: seq<bool>, t: string)
    requires AllReadFine(lines, values, fine)
    ensures ParseValue("[" + Joined(lines) + "]" + t) == Read(Array(values), t) <==>
            forall k :: 0 <= k < |fine| ==> fine[k]
  {
    if forall k :: 0 <= k < |fine| ==> fine[k] {
      forall k | 0 <= k < |lines| ensures ReadsAs(lines[k], values[k]) {
        assert FineAt(lines, values, fine, k);
      }
      ArrayReadsBack(lines, values, t);
    }
    if lines != [] && ParseValue("[" + Joined(lines) + "]" + t) == Read(Array(values), t) {
      AllFine(lines, values, fine, t);
    }
  }

  lemma AllFine(lines: seq<string>, values: seq<Value>, fine: seq<bool>, t: string)
    requires AllReadFine(lines, values, fine) && lines != []
    requires ParseValue("[" + Joined(lines) + "]" + t) == Read(Array(values), t)
    ensures forall k :: 0 <= k < |fine| ==> fine[k]
  {
    assert FineAt(lines, values, fine, 0);
    InnerElements(lines, values, t);
    var holds := (i: nat) => i < |lines| && ReadsOn(lines, values, i, "]" + t, t);
    forall k | 0 <= k < |fine| && holds(k) ensures fine[k] && (k + 1 < |fine| ==> holds(k + 1)) {
      ElementIsFine(lines, values, fine, k, "]" + t, t);
    }
    HandedOn(holds, fine, 0);
  }

  lemma InnerElements(lines: seq<string>, values: seq<Value>, t: string)
    requires |lines| == |values| > 0 && StartsItem(lines[0])
    requires ParseValue("[" + Joined(lines) + "]" + t) == Read(Array(values), t)
    ensures ReadsOn(lines, values, 0, "]" + t, t)
  {
    Bracketed(Joined(lines), t);
    JoinedIsChain(lines, 0, "]" + t);
    assert lines[0..] == lines && values[0..] == values;
    ChainStarts(lines, 0, "]" + t);
    ValuesFromIsSlice(values, 0);
    BracketReads(Chain(lines, 0, "]" + t), values, t);
  }

  lemma BracketReads(elements: string, values: seq<Value>, t: string)
    requires StartsItem(elements) && ParseValue("[" + elements) == Read(Array(values), t)
    ensures ParseElements(elements) == Read(values, t)
  {
    assert ("[" + elements)[1..] == elements;
    assert SkipSpace(elements) == elements;
  }

  // ---------- The log of the agent's own events ----------

  /** An event of the agent, with details d. */
  predicate Carries(e: Event, d: Details) {
    Plain(e.kind) && Printable(e.message) && e.details == PrintDetails(d)
  }

  lemma EventReadsFine(e: Event, d: Details)
    requires Carries(e, d)
    ensures ReadsFine(PrintLine(e), AsJson(e, Intended(d)), Numeric(d))
  {
    assert PrintLine(e)[0] == '{';
    var v := AsJson(e, Intended(d));
    forall t
      ensures var p := ParseValue(PrintLine(e) + t);
        if Numeric(d) then p == Read(v, t) else !(p.Read? && p.value == v)
    {
      var p := ParseValue(PrintLine(e) + t);
      EventReadsAt(e, d, t, t);
      if p.Read? {
        EventReadsAt(e, d, t, p.rest);
      }
    }
  }

  lemma EventReadsAt(e: Event, d: Details, t: string, rest: string)
    requires Carries(e, d)
    ensures ParseValue(PrintLine(e) + t) == Read(AsJson(e, Intended(d)), rest) <==> Numeric(d) && rest == t
  {
    LineReadsExactlyWhen(e, Intended(d), t, rest);
    DetailsReadBackExactlyWhen(d, t, rest);
  }

  function AllIntended(ds: seq<Details>): seq<Value> {
    seq(|ds|, k requires 0 <= k < |ds| => Intended(ds[k]))
  }

  function AllNumeric(ds: seq<Details>): seq<bool> {
    seq(|ds|, k requires 0 <= k < |ds| => Numeric(ds[k]))
  }

  lemma LineAt(events: seq<Event>, ds: seq<Details>, k: nat)
    requires |events| == |ds| && k < |events| && Carries(events[k], ds[k])
    ensures FineAt(Lines(events), Values(events, AllIntended(ds)), AllNumeric(ds), k)
  {
    EventReadsFine(events[k], ds[k]);
    assert Lines(events)[k] == PrintLine(events[k]);
    assert Values(events, AllIntended(ds))[k] == AsJson(events[k], Intended(ds[k]));
  }

  /** What collect prints for a log of the agent's own events reads as the array of the events as meant if and only if
    * the configured channel was a JSON number whenever an event carried it. */
  lemma LogReadsBackExactlyWhen(events: seq<Event>, ds: seq<Details>, t: string)
    requires |events| == |ds| && forall k :: 0 <= k < |events| ==> Carries(events[k], ds[k])
    ensures ParseValue("[" + Joined(NonEmpty(Lines(events))) + "]" + t) ==
              Read(Array(Values(events, AllIntended(ds))), t) <==>
            forall k :: 0 <= k < |ds| ==> Numeric(ds[k])
  {
    LinesReadFine(events, ds);
    LinesAreThere(events);
    FileReadsExactlyWhen(Lines(events), Values(events, AllIntended(ds)), AllNumeric(ds), t);
    NumericAt(ds);
  }

  lemma FileReadsExactlyWhen(lines: seq<string>, values: seq<Value>, fine: seq<bool>, t: string)
    requires AllReadFine(lines, values, fine) && forall k :: 0 <= k < |lines| ==> lines[k] != ""
    ensures ParseValue("[" + Joined(NonEmpty(lines)) + "]" + t) == Read(Array(values), t) <==>
            forall k :: 0 <= k < |fine| ==> fine[k]
  {
    NothingSkipped(lines);
    ArrayReadsExactlyWhen(lines, values, fine, t);
  }

  lemma NumericAt(ds: seq<Details>)
    ensures (forall k :: 0 <= k < |ds| ==> AllNumeric(ds)[k]) <==> (forall k :: 0 <= k < |ds| ==> Numeric(ds[k]))
  {
    forall k | 0 <= k < |ds| ensures AllNumeric(ds)[k] <==> Numeric(ds[k]) {
    }
  }

  lemma LinesReadFine(events: seq<Event>, ds: seq<Details>)
    requires |events| == |ds| && forall k :: 0 <= k < |events| ==> Carries(events[k], ds[k])
    ensures AllReadFine(Lines(events), Values(events, AllIntended(ds)), AllNumeric(ds))
  {
    var lines, values, fine := Lines(events), Values(events, AllIntended(ds)), AllNumeric(ds);
    forall k | 0 <= k < |events| ensures FineAt(lines, values, fine, k) {
      LineAt(events, ds, k);
    }
  }

  lemma LinesAreThere(events: seq<Event>)
    ensures forall k :: 0 <= k < |Lines(events)| ==> Lines(events)[k] != ""
  {
    forall k | 0 <= k < |Lines(events)| ensures Lines(events)[k] != "" {
      assert Lines(events)[k] == PrintLine(events[k]);
      assert PrintLine(events[k])[0] == '{';
    }
  }
}
