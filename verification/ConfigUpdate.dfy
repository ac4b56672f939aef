/** What a configuration update means: the parser on any flat JSON object, spaced in
any way. */
module ConfigUpdate {
  import opened Wrappers
  import opened ConfigText
  import opened ConfigRoundTrip

  predicate Blank(s: string) {
    forall i :: 0 <= i < |s| ==> s[i] in {' ', '\t', '\r', '\n'}
  }

  const STOPS := {',', '\n', '\r', '}'}

  // ---- Any text -----------------------------------------------------------

  /** `pat` occurs in `s` at `at`, and nowhere before. */
  predicate FirstAt(s: string, pat: string, at: nat) {
    at <= |s| && pat <= s[at..] && forall i :: 0 <= i < at ==> !(pat <= s[i..])
  }

  lemma {:induction false} AfterFirst(s: string, pat: string, at: nat)
    requires FirstAt(s, pat, at)
    ensures After(s, pat) == Some(s[at + |pat|..])
    decreases at
  {
    if at == 0 {
      assert s[0..] == s;
    } else {
      assert !(pat <= s[0..]) && s[0..] == s;
      forall i | 0 <= i < at - 1 ensures !(pat <= s[1..][i..]) {
        assert s[1..][i..] == s[i + 1..];
      }
      assert s[1..][at - 1..] == s[at..];
      AfterFirst(s[1..], pat, at - 1);
      assert s[1..][at - 1 + |pat|..] == s[at + |pat|..];
    }
  }

  lemma {:induction false} TrimBlank(space: string, rest: string)
    requires Blank(space) && rest != "" && rest[0] !in {' ', '\t', '\r', '\n'}
    ensures Trim(space + rest) == rest
    decreases |space|
  {
    var s := space + rest;
    if space == "" {
      assert s == rest;
    } else {
      assert s[0] == space[0] && s[1..] == space[1..] + rest;
      TrimBlank(space[1..], rest);
    }
  }

  /** What stands behind a key: a colon somewhere, and the value after any blanks. */
  lemma ReadBehind(gap: string, space: string, rest: string)
    requires ':' !in gap && Blank(space) && rest != "" && rest[0] !in {' ', '\t', '\r', '\n'}
    ensures
      ReadValue(gap + ":" + space + rest)
      == if rest[0] == '"' then (if '"' in rest[1..] then Upto(rest[1..], {'"'}) else "") else Upto(rest, STOPS)
  {
    assert gap + ":" + space + rest == gap + [':'] + (space + rest);
    AfterSkips(gap, ':', space + rest);
    TrimBlank(space, rest);
  }

  lemma ReadTextBehind(gap: string, space: string, v: string, tail: string)
    requires ':' !in gap && Blank(space) && QuoteFree(v)
    ensures ReadValue(gap + ":" + space + (Quoted(v) + tail)) == v
  {
    var rest := Quoted(v) + tail;
    ReadBehind(gap, space, rest);
    assert rest[1..] == v + "\"" + tail && (v + "\"" + tail)[|v|] == '"';
    UptoFirstQuote(v, tail);
    UptoWhole(v);
  }

  lemma ReadNumberBehind(gap: string, space: string, n: int32, after: string, stop: char, tail: string)
    requires ':' !in gap && Blank(space) && stop in STOPS && forall x :: x in after ==> x !in STOPS
    ensures ReadValue(gap + ":" + space + (Dec(n) + after + [stop] + tail)) == Dec(n) + after
  {
    DecShape(n);
    var rest := Dec(n) + after + [stop] + tail;
    assert Dec(n)[0] in Dec(n) && rest[0] == Dec(n)[0];
    ReadBehind(gap, space, rest);
    UptoStops(Dec(n) + after, stop, tail, STOPS);
  }

  /** A number is printed with a sign exactly when it is negative, and without leading
      zeros. */
  lemma DecIsCanonical(n: int)
    ensures Dec(n) != "" && (Dec(n)[0] == '-' <==> n < 0)
    ensures Dec(n)[0] == '0' ==> Dec(n) == "0"
    ensures n < 0 ==> |Dec(n)| > 1 && Dec(n)[1] != '0'
  {
    NoLeadingZero(if n < 0 then -n else n);
  }

  lemma {:induction false} NoLeadingZero(n: nat)
    ensures Digits(n) != "" && '0' <= Digits(n)[0] <= '9'
    ensures if n == 0 then Digits(n) == "0" else Digits(n)[0] != '0'
  {
    if n >= 10 {
      NoLeadingZero(n / 10);
    }
  }

  /** A number that does not fit 32 bits is no number, nor is a text without a digit behind
      its sign. */
  lemma StoiFails(s: string)
    ensures
      var t := SkipSpace(s);
      var body := if t != "" && t[0] in {'+', '-'} then t[1..] else t;
      && (body == "" || !('0' <= body[0] <= '9') ==> Stoi(s) == None)
      && (body != "" && '0' <= body[0] <= '9' ==>
            var m := Magnitude(body, 0);
            Stoi(s).Some? <==> if t[0] == '-' then m <= 0x8000_0000 else m < 0x8000_0000)
  {
  }

  /** The text of a key: the quoted text behind the key's first occurrence, after any
      blanks. */
  lemma TextIsRead(before: string, key: string, gap: string, space: string, v: string, tail: string)
    requires FirstAt(before + Quoted(key) + (gap + ":" + space + (Quoted(v) + tail)), Quoted(key), |before|)
    requires ':' !in gap && Blank(space) && QuoteFree(v)
    ensures ExtractStr(before + Quoted(key) + (gap + ":" + space + (Quoted(v) + tail)), key) == v
  {
    var behind := gap + ":" + space + (Quoted(v) + tail);
    var json := before + Quoted(key) + behind;
    AfterFirst(json, Quoted(key), |before|);
    assert json[|before| + |Quoted(key)|..] == behind;
    ReadTextBehind(gap, space, v, tail);
  }

  /** The number of a key: likewise, up to a comma, a brace or the end of the line. */
  lemma NumberIsRead(before: string, key: string, gap: string, space: string, n: int32, stop: char, tail: string,
                     defaultValue: int32)
    requires FirstAt(before + Quoted(key) + (gap + ":" + space + (Dec(n) + "" + [stop] + tail)), Quoted(key), |before|)
    requires ':' !in gap && Blank(space) && stop in STOPS
    ensures
      ExtractInt(before + Quoted(key) + (gap + ":" + space + (Dec(n) + "" + [stop] + tail)), key, defaultValue) == n
  {
    var behind := gap + ":" + space + (Dec(n) + "" + [stop] + tail);
    var json := before + Quoted(key) + behind;
    AfterFirst(json, Quoted(key), |before|);
    assert json[|before| + |Quoted(key)|..] == behind;
    ReadNumberBehind(gap, space, n, "", stop, tail);
    StoiStops(n, "");
  }

  // ---- Flat objects -------------------------------------------------------

  /** A text, a 32-bit number, or any other value without quotes. */
  datatype Item = Words(text: string) | Figure(number: int32) | Bare(value: string)

  /** A member of an object, with the blanks before and behind its key, before and
      behind its value. */
  datatype Member = Member(key: string, item: Item, lead: string, gap: string, space: string, after: string)

  function Shown(item: Item): string {
    match item
    case Words(v) => Quoted(v)
    case Figure(n) => Dec(n)
    case Bare(v) => v
  }

  /** The members from the first on, up to the closing brace and what follows it. */
  function Members(members: seq<Member>, end: string): string
    decreases |members|, 1
  {
    if members == [] then "}" + end
    else
      var m := members[0];
      m.lead + Quoted(m.key) + Behind(m, Rest(members, end))
  }

  function Behind(m: Member, rest: string): string {
    m.gap + ":" + m.space + (Shown(m.item) + m.after + rest)
  }

  /** What follows the first member. */
  function Rest(members: seq<Member>, end: string): string
    requires members != []
    decreases |members|, 0
  {
    (if |members| > 1 then "," else "") + Members(members[1..], end)
  }

  /** Quotes stand around keys and texts only, and spacing is blank. */
  predicate Flat(m: Member) {
    && QuoteFree(m.key) && Blank(m.lead) && Blank(m.gap) && Blank(m.space) && Blank(m.after)
    && (m.item.Words? ==> QuoteFree(m.item.text))
    && (m.item.Bare? ==> QuoteFree(m.item.value))
  }

  predicate AllFlat(members: seq<Member>) {
    forall i :: 0 <= i < |members| ==> Flat(members[i])
  }

  /** No text of the object spells `k`. */
  predicate Unspelt(members: seq<Member>, k: string) {
    forall i :: 0 <= i < |members| && members[i].item.Words? ==> members[i].item.text != k
  }

  /** A key that starts like none of an object's separators. */
  predicate Name(k: string) {
    Key(k) && k[0] !in {' ', '\t', '\r', '\n', '}'}
  }

  /** The item of the first member with key `k`. */
  function Lookup(members: seq<Member>, k: string): Option<Item> {
    if members == [] then None
    else if members[0].key == k then Some(members[0].item)
    else Lookup(members[1..], k)
  }

  lemma BlankIsQuoteFree(s: string)
    requires Blank(s)
    ensures QuoteFree(s) && ':' !in s
  {
  }

  lemma RestStarts(members: seq<Member>, end: string)
    requires members != []
    ensures Rest(members, end) != "" && Rest(members, end)[0] in {',', '}'}
  {
  }

  /** A value in front of the rest is passed over, unless it is a text that spells the
      key. */
  lemma PastValue(m: Member, rest: string, k: string)
    requires Flat(m) && Name(k) && rest != "" && rest[0] in {',', '}'}
    requires m.item.Words? ==> m.item.text != k
    ensures Find("\"" + Behind(m, rest), k) == Find(rest, k)
  {
    BlankIsQuoteFree(m.gap);
    BlankIsQuoteFree(m.space);
    BlankIsQuoteFree(m.after);
    SkipQuote(Behind(m, rest), k);
    match m.item
    case Figure(n) =>
      DecShape(n);
      var plain := m.gap + ":" + m.space + (Dec(n) + m.after);
      assert Behind(m, rest) == plain + rest;
      SkipPlain(plain, rest, k);
    case Bare(v) =>
      var plain := m.gap + ":" + m.space + (v + m.after);
      assert Behind(m, rest) == plain + rest;
      SkipPlain(plain, rest, k);
    case Words(v) =>
      var plain := m.gap + ":" + m.space;
      assert Behind(m, rest) == plain + (Quoted(v) + (m.after + rest));
      SkipPlain(plain, Quoted(v) + (m.after + rest), k);
      FindQuoted(v, m.after + rest, k);
      SkipQuote(m.after + rest, k);
      SkipPlain(m.after, rest, k);
  }

  /** What is found for a key in an object: what stands behind it. */
  lemma {:induction false} FindMember(members: seq<Member>, end: string, k: string)
    requires AllFlat(members) && Unspelt(members, k) && Name(k) && QuoteFree(end)
    ensures match Lookup(members, k)
            case None => Find(Members(members, end), k) == None
            case Some(item) =>
              exists m: Member, rest: string :: Flat(m) && m.item == item && rest != "" && rest[0] in {',', '}'}
                && Find(Members(members, end), k) == Some(Behind(m, rest))
    decreases |members|
  {
    if members == [] {
      assert "}" + end == ("}" + end) + "";
      SkipPlain("}" + end, "", k);
    } else {
      var m, rest := members[0], Rest(members, end);
      RestStarts(members, end);
      BlankIsQuoteFree(m.lead);
      assert Members(members, end) == m.lead + (Quoted(m.key) + Behind(m, rest));
      SkipPlain(m.lead, Quoted(m.key) + Behind(m, rest), k);
      FindQuoted(m.key, Behind(m, rest), k);
      if m.key != k {
        PastValue(m, rest, k);
        var comma := if |members| > 1 then "," else "";
        SkipPlain(comma, Members(members[1..], end), k);
        FindMember(members[1..], end, k);
      }
    }
  }

  lemma ReadMember(m: Member, rest: string)
    requires Flat(m) && rest != "" && rest[0] in {',', '}'}
    ensures m.item.Words? ==> ReadValue(Behind(m, rest)) == m.item.text
    ensures m.item.Figure? ==> Stoi(ReadValue(Behind(m, rest))) == Some(m.item.number)
  {
    BlankIsQuoteFree(m.gap);
    match m.item
    case Words(v) =>
      assert Behind(m, rest) == m.gap + ":" + m.space + (Quoted(v) + (m.after + rest));
      ReadTextBehind(m.gap, m.space, v, m.after + rest);
    case Figure(n) => ReadFigure(m, n, rest);
    case Bare(_) =>
  }

  /** Blanks up to the first line break are read along with a number, to no effect. */
  lemma ReadFigure(m: Member, n: int32, rest: string)
    requires Flat(m) && m.item == Figure(n) && rest != "" && rest[0] in {',', '}'}
    ensures Stoi(ReadValue(Behind(m, rest))) == Some(n)
  {
    BlankIsQuoteFree(m.gap);
    var blanks, stop, tail := FirstStop(m.after, rest);
    assert Shown(m.item) + m.after + rest == Dec(n) + (m.after + rest);
    assert Dec(n) + (blanks + [stop] + tail) == Dec(n) + blanks + [stop] + tail;
    ReadNumberBehind(m.gap, m.space, n, blanks, stop, tail);
    StoiStops(n, blanks);
  }

  lemma {:induction false} FirstStop(after: string, rest: string) returns (blanks: string, stop: char, tail: string)
    requires Blank(after) && rest != "" && rest[0] in {',', '}'}
    ensures after + rest == blanks + [stop] + tail && stop in STOPS
    ensures Blank(blanks) && forall x :: x in blanks ==> x !in STOPS
    decreases |after|
  {
    var all := after + rest;
    if after == "" || after[0] in STOPS {
      blanks, stop, tail := "", all[0], all[1..];
    } else {
      blanks, stop, tail := FirstStop(after[1..], rest);
      blanks := [after[0]] + blanks;
      assert all == [after[0]] + (after[1..] + rest);
    }
  }

  // ---- Updates ------------------------------------------------------------

  function Object(members: seq<Member>, end: string): string {
    "{" + Members(members, end)
  }

  /** The text an object gives a key, `d` if it gives none. */
  function TextOf(members: seq<Member>, k: string, d: string): string {
    match Lookup(members, k)
    case Some(Words(v)) => OrDefault(v, d)
    case _ => d
  }

  function FigureOf(members: seq<Member>, k: string, d: int32): int32 {
    match Lookup(members, k)
    case Some(Figure(n)) => n
    case _ => d
  }

  lemma FindInObject(members: seq<Member>, end: string, k: string)
    requires AllFlat(members) && Unspelt(members, k) && Name(k) && QuoteFree(end)
    ensures Find(Object(members, end), k) == Find(Members(members, end), k)
  {
    SkipPlain("{", Members(members, end), k);
  }

  /** A member with a text is read as that text, one that is missing as nothing. */
  lemma ObjectText(members: seq<Member>, end: string, k: string, d: string)
    requires AllFlat(members) && Unspelt(members, k) && Name(k) && QuoteFree(end)
    requires Lookup(members, k).Some? ==> Lookup(members, k).value.Words?
    ensures OrDefault(ExtractStr(Object(members, end), k), d) == TextOf(members, k, d)
  {
    FindInObject(members, end, k);
    FindMember(members, end, k);
    if Lookup(members, k).Some? {
      var m: Member, rest: string :| Flat(m) && m.item == Lookup(members, k).value && rest != ""
        && rest[0] in {',', '}'} && Find(Members(members, end), k) == Some(Behind(m, rest));
      ReadMember(m, rest);
    }
  }

  lemma ObjectFigure(members: seq<Member>, end: string, k: string, d: int32)
    requires AllFlat(members) && Unspelt(members, k) && Name(k) && QuoteFree(end)
    requires Lookup(members, k).Some? ==> Lookup(members, k).value.Figure?
    ensures ExtractInt(Object(members, end), k, d) == FigureOf(members, k, d)
  {
    FindInObject(members, end, k);
    FindMember(members, end, k);
    if Lookup(members, k).Some? {
      var m: Member, rest: string :| Flat(m) && m.item == Lookup(members, k).value && rest != ""
        && rest[0] in {',', '}'} && Find(Members(members, end), k) == Some(Behind(m, rest));
      ReadMember(m, rest);
    } else {
      NothingToRead();
    }
  }

  /** Key `k`, if given, is given a text, or a number; and no text spells it. */
  predicate GivesText(members: seq<Member>, k: string) {
    Unspelt(members, k) && (Lookup(members, k).Some? ==> Lookup(members, k).value.Words?)
  }

  predicate GivesFigure(members: seq<Member>, k: string) {
    Unspelt(members, k) && (Lookup(members, k).Some? ==> Lookup(members, k).value.Figure?)
  }

  predicate GivesTexts(members: seq<Member>) {
    && GivesText(members, "mqtt_host") && GivesText(members, "mode")
    && GivesText(members, "inference_topic") && GivesText(members, "telemetry_topic")
  }

  predicate GivesFigures(members: seq<Member>) {
    && GivesFigure(members, "mqtt_port") && GivesFigure(members, "camera_index")
    && GivesFigure(members, "inference_interval_ms") && GivesFigure(members, "watchdog_interval_sec")
  }

  lemma HostRead(members: seq<Member>, end: string)
    requires AllFlat(members) && GivesText(members, "mqtt_host") && QuoteFree(end)
    ensures ParseJson(Object(members, end)).host == TextOf(members, "mqtt_host", DEFAULTS.host)
  {
    ObjectText(members, end, "mqtt_host", DEFAULTS.host);
  }

  lemma ModeRead(members: seq<Member>, end: string)
    requires AllFlat(members) && GivesText(members, "mode") && QuoteFree(end)
    ensures ParseJson(Object(members, end)).mode == TextOf(members, "mode", DEFAULTS.mode)
  {
    ObjectText(members, end, "mode", DEFAULTS.mode);
  }

  lemma InferenceRead(members: seq<Member>, end: string)
    requires AllFlat(members) && GivesText(members, "inference_topic") && QuoteFree(end)
    ensures ParseJson(Object(members, end)).inference == TextOf(members, "inference_topic", DEFAULTS.inference)
  {
    ObjectText(members, end, "inference_topic", DEFAULTS.inference);
  }

  lemma TelemetryRead(members: seq<Member>, end: string)
    requires AllFlat(members) && GivesText(members, "telemetry_topic") && QuoteFree(end)
    ensures ParseJson(Object(members, end)).telemetry == TextOf(members, "telemetry_topic", DEFAULTS.telemetry)
  {
    ObjectText(members, end, "telemetry_topic", DEFAULTS.telemetry);
  }

  lemma PortRead(members: seq<Member>, end: string)
    requires AllFlat(members) && GivesFigure(members, "mqtt_port") && QuoteFree(end)
    ensures ParseJson(Object(members, end)).port == FigureOf(members, "mqtt_port", DEFAULTS.port)
  {
    ObjectFigure(members, end, "mqtt_port", DEFAULTS.port);
  }

  lemma CameraRead(members: seq<Member>, end: string)
    requires AllFlat(members) && GivesFigure(members, "camera_index") && QuoteFree(end)
    ensures ParseJson(Object(members, end)).camera == FigureOf(members, "camera_index", DEFAULTS.camera)
  {
    ObjectFigure(members, end, "camera_index", DEFAULTS.camera);
  }

  lemma IntervalRead(members: seq<Member>, end: string)
    requires AllFlat(members) && GivesFigure(members, "inference_interval_ms") && QuoteFree(end)
    ensures ParseJson(Object(members, end)).interval == FigureOf(members, "inference_interval_ms", DEFAULTS.interval)
  {
    ObjectFigure(members, end, "inference_interval_ms", DEFAULTS.interval);
  }

  lemma WatchdogRead(members: seq<Member>, end: string)
    requires AllFlat(members) && GivesFigure(members, "watchdog_interval_sec") && QuoteFree(end)
    ensures ParseJson(Object(members, end)).watchdog == FigureOf(members, "watchdog_interval_sec", DEFAULTS.watchdog)
  {
    ObjectFigure(members, end, "watchdog_interval_sec", DEFAULTS.watchdog);
  }

  /** An update gives each of the eight fields what its object says, in any order and
      however it is spaced, or the default if it says nothing; only a port of 0 keeps
      the current one. */
  lemma UpdateMeans(current: Config, members: seq<Member>, end: string)
    requires AllFlat(members) && GivesTexts(members) && GivesFigures(members) && QuoteFree(end)
    ensures
      var port := FigureOf(members, "mqtt_port", DEFAULTS.port);
      Applied(current, Object(members, end)) == Config(
        TextOf(members, "mqtt_host", DEFAULTS.host),
        if port == 0 then current.port else port,
        FigureOf(members, "camera_index", DEFAULTS.camera),
        FigureOf(members, "inference_interval_ms", DEFAULTS.interval),
        FigureOf(members, "watchdog_interval_sec", DEFAULTS.watchdog),
        TextOf(members, "mode", DEFAULTS.mode),
        TextOf(members, "inference_topic", DEFAULTS.inference),
        TextOf(members, "telemetry_topic", DEFAULTS.telemetry),
        [],
        DEFAULTS.configTopic)
  {
    HostRead(members, end);
    ModeRead(members, end);
    InferenceRead(members, end);
    TelemetryRead(members, end);
    PortRead(members, end);
    CameraRead(members, end);
    IntervalRead(members, end);
    WatchdogRead(members, end);
    AppliedIsParsed(current, Object(members, end));
  }
}
