/** When a configuration survives being written to its file and read back. */
module ConfigRoundTrip {
  import opened Wrappers
  import opened ConfigText

  // ---- Numbers ------------------------------------------------------------

  predicate AllDigits(s: string) {
    forall i :: 0 <= i < |s| ==> '0' <= s[i] <= '9'
  }

  lemma {:induction false} DigitsShape(n: nat)
    ensures Digits(n) != "" && AllDigits(Digits(n))
  {
    if n >= 10 {
      DigitsShape(n / 10);
    }
  }

  lemma {:induction false} MagnitudeSnoc(s: string, d: nat, soFar: nat)
    requires AllDigits(s) && d < 10
    ensures Magnitude(s + [Digit(d)], soFar) == 10 * Magnitude(s, soFar) + d
    decreases |s|
  {
    var t := s + [Digit(d)];
    if s == "" {
      assert t[1..] == "";
    } else {
      assert t[1..] == s[1..] + [Digit(d)];
      MagnitudeSnoc(s[1..], d, 10 * soFar + DigitValue(s[0]).value);
    }
  }

  lemma {:induction false} MagnitudeDigits(n: nat)
    ensures Magnitude(Digits(n), 0) == n
  {
    if n >= 10 {
      MagnitudeDigits(n / 10);
      DigitsShape(n / 10);
      MagnitudeSnoc(Digits(n / 10), n % 10, 0);
    } else {
      assert Digits(n)[1..] == "";
    }
  }

  /** Digits are read up to the first other character. */
  lemma {:induction false} MagnitudeStops(digits: string, after: string, soFar: nat)
    requires AllDigits(digits) && (after == "" || DigitValue(after[0]).None?)
    ensures Magnitude(digits + after, soFar) == Magnitude(digits, soFar)
    decreases |digits|
  {
    if digits == "" {
      assert digits + after == after;
    } else {
      assert (digits + after)[1..] == digits[1..] + after;
      MagnitudeStops(digits[1..], after, 10 * soFar + DigitValue(digits[0]).value);
    }
  }

  lemma UnsignedStops(size: nat, after: string)
    requires after == "" || DigitValue(after[0]).None?
    ensures Unsigned(Digits(size) + after) == Some(size)
    ensures Digits(size) + after != "" && '0' <= (Digits(size) + after)[0] <= '9'
  {
    DigitsShape(size);
    MagnitudeDigits(size);
    MagnitudeStops(Digits(size), after, 0);
    assert (Digits(size) + after)[0] == Digits(size)[0];
  }

  lemma StoiOfDigits(digits: string, size: nat)
    requires digits != "" && '0' <= digits[0] <= '9' && Unsigned(digits) == Some(size)
    ensures size < 0x8000_0000 ==> Stoi(digits) == Some(size)
    ensures size <= 0x8000_0000 ==> Stoi("-" + digits).Some? && Stoi("-" + digits).value + size == 0
  {
    assert SkipSpace(digits) == digits;
    var s := "-" + digits;
    assert SkipSpace(s) == s && s[1..] == digits;
  }

  lemma StoiStops(n: int32, after: string)
    requires after == "" || DigitValue(after[0]).None?
    ensures Stoi(Dec(n) + after) == Some(n)
  {
    var m: int := n;
    var size: int := if m < 0 then -m else m;
    UnsignedStops(size, after);
    StoiOfDigits(Digits(size) + after, size);
    if m < 0 {
      assert Dec(n) + after == "-" + (Digits(size) + after);
    }
  }

  /** Every 32-bit number is read back from its decimal text. */
  lemma StoiDec(n: int32)
    ensures Stoi(Dec(n)) == Some(n)
  {
    StoiStops(n, "");
    assert Dec(n) + "" == Dec(n);
  }

  // ---- Finding a key ------------------------------------------------------

  predicate QuoteFree(s: string) {
    forall i :: 0 <= i < |s| ==> s[i] != '"'
  }

  /** A key: no quote, and no printed separator starts like it. */
  predicate Key(k: string) {
    k != "" && QuoteFree(k) && k[0] !in {':', ','}
  }

  function Find(s: string, k: string): Option<string> {
    After(s, Quoted(k))
  }

  lemma {:induction false} SkipPlain(a: string, rest: string, k: string)
    requires QuoteFree(a)
    ensures Find(a + rest, k) == Find(rest, k)
    decreases |a|
  {
    if a == "" {
      assert a + rest == rest;
    } else {
      assert (a + rest)[0] == a[0] && Quoted(k)[0] == '"';
      assert (a + rest)[1..] == a[1..] + rest;
      SkipPlain(a[1..], rest, k);
    }
  }

  /** A quote that opens nothing like the key is passed over. */
  lemma SkipQuote(rest: string, k: string)
    requires k != "" && rest != "" && rest[0] != k[0]
    ensures Find("\"" + rest, k) == Find(rest, k)
  {
  }

  lemma PrefixOfQuoted(v: string, k: string, rest: string)
    requires QuoteFree(v) && QuoteFree(k)
    ensures Quoted(k) <= Quoted(v) + rest <==> v == k
  {
    var s, q := Quoted(v) + rest, Quoted(k);
    if |v| < |k| {
      assert s[|v| + 1] == '"' && q[|v| + 1] == k[|v|];
    } else if |k| < |v| {
      assert q[|k| + 1] == '"' && s[|k| + 1] == v[|k|];
    } else if q <= s {
      forall i | 0 <= i < |k| ensures v[i] == k[i] {
        assert q[i + 1] == k[i] && s[i + 1] == v[i];
      }
    }
  }

  /** A quoted text is the key, or the search goes on at its closing quote. */
  lemma FindQuoted(v: string, rest: string, k: string)
    requires QuoteFree(v) && QuoteFree(k)
    ensures Find(Quoted(v) + rest, k) == if v == k then Some(rest) else Find("\"" + rest, k)
  {
    var s := Quoted(v) + rest;
    PrefixOfQuoted(v, k, rest);
    if v == k {
      assert s[|Quoted(k)|..] == rest;
    } else {
      assert s[1..] == v + ("\"" + rest);
      SkipPlain(v, "\"" + rest, k);
    }
  }

  /** Searching a line whose value has no quotes. */
  lemma FindInNumberLine(key: string, value: string, rest: string, k: string)
    requires Key(key) && Key(k) && QuoteFree(value)
    ensures Find(Field(key, value, rest), k) ==
      if key == k then Some(": " + value + ",\n" + rest) else Find(rest, k)
  {
    var tail := ": " + value + ",\n" + rest;
    assert Field(key, value, rest) == "  " + (Quoted(key) + tail);
    SkipPlain("  ", Quoted(key) + tail, k);
    FindQuoted(key, tail, k);
    if key != k {
      SkipQuote(tail, k);
      assert tail == (": " + value + ",\n") + rest;
      SkipPlain(": " + value + ",\n", rest, k);
    }
  }

  /** Searching a line whose value is a text in quotes. */
  lemma FindInTextLine(key: string, value: string, rest: string, k: string)
    requires Key(key) && Key(k) && (key == k || QuoteFree(value))
    ensures Find(Field(key, Quoted(value), rest), k) ==
      if key == k then Some(": " + Quoted(value) + ",\n" + rest)
      else if value == k then Some(",\n" + rest)
      else Find(rest, k)
  {
    var tail := ": " + Quoted(value) + ",\n" + rest;
    assert Field(key, Quoted(value), rest) == "  " + (Quoted(key) + tail);
    SkipPlain("  ", Quoted(key) + tail, k);
    FindQuoted(key, tail, k);
    if key != k {
      SkipQuote(tail, k);
      assert tail == ": " + (Quoted(value) + (",\n" + rest));
      SkipPlain(": ", Quoted(value) + (",\n" + rest), k);
      FindQuoted(value, ",\n" + rest, k);
      if value != k {
        SkipQuote(",\n" + rest, k);
        SkipPlain(",\n", rest, k);
      }
    }
  }

  // ---- Reading a value ----------------------------------------------------

  lemma {:induction false} AfterSkips(a: string, c: char, rest: string)
    requires c !in a
    ensures After(a + [c] + rest, [c]) == Some(rest)
    decreases |a|
  {
    var s := a + [c] + rest;
    if a == "" {
      assert s[1..] == rest;
    } else {
      assert s[0] == a[0] && a[0] in a;
      assert s[1..] == a[1..] + [c] + rest;
      AfterSkips(a[1..], c, rest);
    }
  }

  lemma {:induction false} UptoStops(a: string, c: char, rest: string, stops: set<char>)
    requires c in stops && forall x :: x in a ==> x !in stops
    ensures Upto(a + [c] + rest, stops) == a
    decreases |a|
  {
    var s := a + [c] + rest;
    if a != "" {
      assert a[0] in a && s[1..] == a[1..] + [c] + rest;
      UptoStops(a[1..], c, rest, stops);
    }
  }

  lemma {:induction false} UptoQuoteFree(s: string)
    ensures QuoteFree(Upto(s, {'"'}))
  {
    if s != "" && s[0] != '"' {
      UptoQuoteFree(s[1..]);
    }
  }

  lemma {:induction false} UptoFirstQuote(v: string, rest: string)
    ensures Upto(v + "\"" + rest, {'"'}) == Upto(v, {'"'})
  {
    var s := v + "\"" + rest;
    if v != "" {
      assert s[0] == v[0] && s[1..] == v[1..] + "\"" + rest;
      UptoFirstQuote(v[1..], rest);
    }
  }

  lemma {:induction false} UptoWhole(v: string)
    ensures Upto(v, {'"'}) == v <==> QuoteFree(v)
  {
    UptoQuoteFree(v);
    if QuoteFree(v) && v != "" {
      UptoWhole(v[1..]);
    }
  }

  lemma ReadNumber(n: int32, rest: string)
    ensures ReadValue(": " + Dec(n) + ",\n" + rest) == Dec(n)
  {
    var v, tail := Dec(n), "\n" + rest;
    var s := ": " + v + ",\n" + rest;
    AfterSkips("", ':', " " + v + ",\n" + rest);
    assert s == "" + [':'] + (" " + v + ",\n" + rest);
    var w := " " + v + ",\n" + rest;
    DecShape(n);
    assert w[1..] == v + [','] + tail;
    assert v[0] in v && (v + [','] + tail)[0] == v[0];
    assert Trim(w) == v + [','] + tail;
    UptoStops(v, ',', tail, {',', '\n', '\r', '}'});
  }

  lemma DecShape(n: int32)
    ensures Dec(n) != "" && QuoteFree(Dec(n))
    ensures forall x :: x in Dec(n) ==> x == '-' || '0' <= x <= '9'
  {
    var m: int := n;
    DigitsShape(if m < 0 then -m else m);
  }

  lemma ReadText(v: string, rest: string)
    ensures ReadValue(": " + Quoted(v) + ",\n" + rest) == Upto(v, {'"'})
  {
    var tail := ",\n" + rest;
    var w := " " + (Quoted(v) + tail);
    AfterSkips("", ':', w);
    assert ": " + Quoted(v) + ",\n" + rest == "" + [':'] + w;
    ReadQuoted(v, tail);
  }

  lemma ReadQuoted(v: string, tail: string)
    ensures
      var w := " " + (Quoted(v) + tail);
      && Trim(w) == Quoted(v) + tail && (Quoted(v) + tail)[0] == '"'
      && '"' in (Quoted(v) + tail)[1..] && Upto((Quoted(v) + tail)[1..], {'"'}) == Upto(v, {'"'})
  {
    var q := Quoted(v) + tail;
    assert (" " + q)[1..] == q;
    assert q[1..] == v + "\"" + tail && (v + "\"" + tail)[|v|] == '"';
    UptoFirstQuote(v, tail);
  }

  /** After a value that looks like a key, the next line's value is read. */
  lemma ReadNextLine(key: string, value: string, rest: string)
    requires ':' !in key
    ensures ReadValue(",\n" + Field(key, value, rest)) == ReadValue(": " + value + ",\n" + rest)
  {
    var v := " " + value + ",\n" + rest;
    var head := ",\n  " + Quoted(key);
    assert ",\n" + Field(key, value, rest) == head + [':'] + v;
    AfterSkips(head, ':', v);
    assert ": " + value + ",\n" + rest == "" + [':'] + v;
    AfterSkips("", ':', v);
  }

  lemma ReadNextText(key: string, v: string, rest: string)
    requires ':' !in key
    ensures ReadValue(",\n" + Field(key, Quoted(v), rest)) == Upto(v, {'"'})
  {
    ReadNextLine(key, Quoted(v), rest);
    ReadText(v, rest);
  }

  // ---- Reading the whole file ---------------------------------------------

  lemma OwnLine(key: string, v: string, rest: string)
    requires Key(key)
    ensures ExtractStr(Field(key, Quoted(v), rest), key) == Upto(v, {'"'})
  {
    FindInTextLine(key, v, rest, key);
    ReadText(v, rest);
  }

  lemma OpenLine(rest: string, k: string)
    ensures Find("{\n" + rest, k) == Find(rest, k)
  {
    SkipPlain("{\n", rest, k);
  }

  lemma HostLine(c: Config, k: string)
    ensures Find(Text(c), k) == Find(Field("mqtt_host", Quoted(c.host), FromPort(c)), k)
  {
    OpenLine(Field("mqtt_host", Quoted(c.host), FromPort(c)), k);
  }

  lemma HostIsKey()
    ensures Key("mqtt_host")
  {
  }

  lemma PastHost(c: Config, k: string)
    requires Key(k) && (k == "mqtt_host" || QuoteFree(c.host))
    ensures Find(Text(c), k) ==
      if k == "mqtt_host" then Some(": " + Quoted(c.host) + ",\n" + FromPort(c))
      else if c.host == k then Some(",\n" + FromPort(c))
      else Find(FromPort(c), k)
  {
    HostLine(c, k);
    HostIsKey();
    FindInTextLine("mqtt_host", c.host, FromPort(c), k);
  }

  /** What is read for a key that the host's text happens to spell. */
  lemma HostAsKey(c: Config, k: string)
    requires Key(k) && k != "mqtt_host" && c.host == k
    ensures ExtractStr(Text(c), k) == Dec(c.port)
  {
    PastHost(c, k);
    ReadNextLine("mqtt_port", Dec(c.port), FromCamera(c));
    ReadNumber(c.port, FromCamera(c));
  }

  lemma ExtractHost(c: Config)
    ensures ExtractStr(Text(c), "mqtt_host") == Upto(c.host, {'"'})
  {
    PastHost(c, "mqtt_host");
    ReadText(c.host, FromPort(c));
  }

  lemma NumberLine(key: string, n: int32, rest: string, k: string)
    requires Key(key) && Key(k)
    ensures Find(Field(key, Dec(n), rest), k) ==
      if key == k then Some(": " + Dec(n) + ",\n" + rest) else Find(rest, k)
  {
    DecShape(n);
    FindInNumberLine(key, Dec(n), rest, k);
  }

  lemma PastPort(c: Config, k: string)
    requires Key(k)
    ensures Find(FromPort(c), k) ==
      if k == "mqtt_port" then Some(": " + Dec(c.port) + ",\n" + FromCamera(c)) else Find(FromCamera(c), k)
  {
    NumberLine("mqtt_port", c.port, FromCamera(c), k);
  }

  lemma PastCamera(c: Config, k: string)
    requires Key(k)
    ensures Find(FromCamera(c), k) ==
      if k == "camera_index" then Some(": " + Dec(c.camera) + ",\n" + FromInterval(c)) else Find(FromInterval(c), k)
  {
    NumberLine("camera_index", c.camera, FromInterval(c), k);
  }

  lemma PastInterval(c: Config, k: string)
    requires Key(k)
    ensures Find(FromInterval(c), k) ==
      if k == "inference_interval_ms" then Some(": " + Dec(c.interval) + ",\n" + FromWatchdog(c))
      else Find(FromWatchdog(c), k)
  {
    NumberLine("inference_interval_ms", c.interval, FromWatchdog(c), k);
  }

  lemma PastWatchdog(c: Config, k: string)
    requires Key(k)
    ensures Find(FromWatchdog(c), k) ==
      if k == "watchdog_interval_sec" then Some(": " + Dec(c.watchdog) + ",\n" + FromMode(c)) else Find(FromMode(c), k)
  {
    NumberLine("watchdog_interval_sec", c.watchdog, FromMode(c), k);
  }

  /** Past the four numbers. */
  lemma PastNumbers(c: Config, k: string)
    requires Key(k) && k != "mqtt_port" && k != "camera_index"
    requires k != "inference_interval_ms" && k != "watchdog_interval_sec"
    ensures Find(FromPort(c), k) == Find(FromMode(c), k)
  {
    PastPort(c, k);
    PastCamera(c, k);
    PastInterval(c, k);
    PastWatchdog(c, k);
  }

  lemma ExtractPort(c: Config)
    requires QuoteFree(c.host)
    ensures ExtractStr(Text(c), "mqtt_port") == Dec(c.port)
  {
    var k := "mqtt_port";
    if c.host == k {
      HostAsKey(c, k);
    } else {
      PastHost(c, k);
      PastPort(c, k);
      ReadNumber(c.port, FromCamera(c));
    }
  }

  lemma ExtractCamera(c: Config)
    requires QuoteFree(c.host)
    ensures ExtractStr(Text(c), "camera_index") == Dec(if c.host == "camera_index" then c.port else c.camera)
  {
    var k := "camera_index";
    if c.host == k {
      HostAsKey(c, k);
    } else {
      PastHost(c, k);
      PastPort(c, k);
      PastCamera(c, k);
      ReadNumber(c.camera, FromInterval(c));
    }
  }

  lemma ExtractInterval(c: Config)
    requires QuoteFree(c.host)
    ensures ExtractStr(Text(c), "inference_interval_ms")
      == Dec(if c.host == "inference_interval_ms" then c.port else c.interval)
  {
    var k := "inference_interval_ms";
    if c.host == k {
      HostAsKey(c, k);
    } else {
      PastHost(c, k);
      PastPort(c, k);
      PastCamera(c, k);
      PastInterval(c, k);
      ReadNumber(c.interval, FromWatchdog(c));
    }
  }

  lemma ExtractWatchdog(c: Config)
    requires QuoteFree(c.host)
    ensures ExtractStr(Text(c), "watchdog_interval_sec")
      == Dec(if c.host == "watchdog_interval_sec" then c.port else c.watchdog)
  {
    var k := "watchdog_interval_sec";
    if c.host == k {
      HostAsKey(c, k);
    } else {
      PastHost(c, k);
      PastPort(c, k);
      PastCamera(c, k);
      PastInterval(c, k);
      PastWatchdog(c, k);
      ReadNumber(c.watchdog, FromMode(c));
    }
  }

  lemma ExtractMode(c: Config)
    requires QuoteFree(c.host)
    ensures ExtractStr(Text(c), "mode") == if c.host == "mode" then Dec(c.port) else Upto(c.mode, {'"'})
  {
    var k := "mode";
    if c.host == k {
      HostAsKey(c, k);
    } else {
      PastHost(c, k);
      PastNumbers(c, k);
      ModeText(c);
    }
  }

  lemma ModeText(c: Config)
    ensures ExtractStr(FromMode(c), "mode") == Upto(c.mode, {'"'})
  {
    OwnLine("mode", c.mode, FromInference(c));
  }

  lemma ExtractInference(c: Config)
    requires QuoteFree(c.host) && QuoteFree(c.mode)
    ensures ExtractStr(Text(c), "inference_topic")
      == if c.host == "inference_topic" then Dec(c.port) else Upto(c.inference, {'"'})
  {
    var k := "inference_topic";
    if c.host == k {
      HostAsKey(c, k);
    } else {
      PastHost(c, k);
      PastNumbers(c, k);
      PastMode(c, k);
      InferenceText(c);
      InferenceLine(c);
    }
  }

  lemma PastMode(c: Config, k: string)
    requires Key(k) && k != "mode" && QuoteFree(c.mode)
    ensures Find(FromMode(c), k) == if c.mode == k then Some(",\n" + FromInference(c)) else Find(FromInference(c), k)
  {
    FindInTextLine("mode", c.mode, FromInference(c), k);
  }

  lemma PastInference(c: Config, k: string)
    requires Key(k) && k != "inference_topic" && QuoteFree(c.inference)
    ensures Find(FromInference(c), k) ==
      if c.inference == k then Some(",\n" + FromTelemetry(c)) else Find(FromTelemetry(c), k)
  {
    FindInTextLine("inference_topic", c.inference, FromTelemetry(c), k);
  }

  lemma NoColons()
    ensures ':' !in "inference_topic" && ':' !in "telemetry_topic"
  {
  }

  lemma InferenceText(c: Config)
    ensures ReadValue(",\n" + FromInference(c)) == Upto(c.inference, {'"'})
  {
    NoColons();
    ReadNextText("inference_topic", c.inference, FromTelemetry(c));
  }

  lemma InferenceIsKey()
    ensures Key("inference_topic")
  {
  }

  lemma InferenceLine(c: Config)
    ensures ExtractStr(FromInference(c), "inference_topic") == Upto(c.inference, {'"'})
  {
    InferenceIsKey();
    OwnLine("inference_topic", c.inference, FromTelemetry(c));
  }

  lemma TelemetryText(c: Config)
    ensures ReadValue(",\n" + FromTelemetry(c)) == Upto(c.telemetry, {'"'})
  {
    NoColons();
    ReadNextText("telemetry_topic", c.telemetry, FromThresholds(c));
  }

  lemma ExtractTelemetry(c: Config)
    requires QuoteFree(c.host) && QuoteFree(c.mode) && QuoteFree(c.inference)
    ensures ExtractStr(Text(c), "telemetry_topic")
      == if c.host == "telemetry_topic" then Dec(c.port)
         else if c.mode == "telemetry_topic" then c.inference
         else Upto(c.telemetry, {'"'})
  {
    var k := "telemetry_topic";
    if c.host == k {
      HostAsKey(c, k);
    } else {
      PastHost(c, k);
      PastNumbers(c, k);
      PastMode(c, k);
      if c.mode == k {
        InferenceText(c);
        UptoWhole(c.inference);
      } else {
        PastInference(c, k);
        TelemetryText(c);
        OwnLine(k, c.telemetry, FromThresholds(c));
      }
    }
  }

  // ---- The round trip -----------------------------------------------------

  /** A text the printer can quote and the parser can tell from "absent". */
  predicate Printable(s: string) {
    s != "" && QuoteFree(s)
  }

  /** No text value stands in for a later key, or it does so harmlessly. */
  predicate NoFalseKeys(c: Config) {
    && (c.host == "camera_index" ==> c.camera == c.port)
    && (c.host == "inference_interval_ms" ==> c.interval == c.port)
    && (c.host == "watchdog_interval_sec" ==> c.watchdog == c.port)
    && (c.host == "mode" ==> c.mode == Dec(c.port))
    && (c.host == "inference_topic" ==> c.inference == Dec(c.port))
    && (c.host == "telemetry_topic" ==> c.telemetry == Dec(c.port))
    && (c.mode == "telemetry_topic" && c.host != "telemetry_topic" ==> c.telemetry == c.inference)
  }

  predicate Survives(c: Config) {
    && Printable(c.host) && Printable(c.mode) && Printable(c.inference) && Printable(c.telemetry)
    && NoFalseKeys(c)
  }

  /** The eight flat fields agree. */
  predicate SameFields(a: Config, b: Config) {
    && a.host == b.host && a.port == b.port && a.camera == b.camera && a.interval == b.interval
    && a.watchdog == b.watchdog && a.mode == b.mode && a.inference == b.inference && a.telemetry == b.telemetry
  }

  /** The numbers that are read back. */
  lemma NumbersReread(c: Config)
    requires QuoteFree(c.host)
    ensures
      var r := ParseJson(Text(c));
      && r.port == c.port
      && r.camera == (if c.host == "camera_index" then c.port else c.camera)
      && r.interval == (if c.host == "inference_interval_ms" then c.port else c.interval)
      && r.watchdog == (if c.host == "watchdog_interval_sec" then c.port else c.watchdog)
  {
    ExtractPort(c);
    ExtractCamera(c);
    ExtractInterval(c);
    ExtractWatchdog(c);
    StoiDec(c.port);
    StoiDec(c.camera);
    StoiDec(c.interval);
    StoiDec(c.watchdog);
  }

  lemma DefaultsArePrintable()
    ensures Printable(DEFAULTS.host) && Printable(DEFAULTS.mode)
    ensures Printable(DEFAULTS.inference) && Printable(DEFAULTS.telemetry)
  {
  }

  /** A text is kept if it was read whole, and replaced if nothing was read. */
  lemma {:induction false} TextKept(v: string, d: string)
    requires Printable(d)
    ensures OrDefault(Upto(v, {'"'}), d) == v <==> Printable(v)
  {
    UptoWhole(v);
    UptoQuoteFree(v);
  }

  lemma NumberKept(n: int32, v: string, d: string)
    ensures OrDefault(Dec(n), d) == v <==> v == Dec(n)
    ensures Printable(Dec(n))
  {
    DecShape(n);
  }

  lemma HostReread(c: Config)
    ensures ParseJson(Text(c)).host == c.host <==> Printable(c.host)
  {
    ExtractHost(c);
    DefaultsArePrintable();
    TextKept(c.host, DEFAULTS.host);
  }

  lemma ModeReread(c: Config)
    requires QuoteFree(c.host)
    ensures ParseJson(Text(c)).mode == c.mode <==>
      Printable(c.mode) && (c.host == "mode" ==> c.mode == Dec(c.port))
  {
    ExtractMode(c);
    DefaultsArePrintable();
    TextKept(c.mode, DEFAULTS.mode);
    NumberKept(c.port, c.mode, DEFAULTS.mode);
  }

  lemma InferenceReread(c: Config)
    requires QuoteFree(c.host) && QuoteFree(c.mode)
    ensures ParseJson(Text(c)).inference == c.inference <==>
      Printable(c.inference) && (c.host == "inference_topic" ==> c.inference == Dec(c.port))
  {
    ExtractInference(c);
    DefaultsArePrintable();
    TextKept(c.inference, DEFAULTS.inference);
    NumberKept(c.port, c.inference, DEFAULTS.inference);
  }

  lemma TelemetryReread(c: Config)
    requires QuoteFree(c.host) && QuoteFree(c.mode) && Printable(c.inference)
    ensures ParseJson(Text(c)).telemetry == c.telemetry <==>
      && Printable(c.telemetry) && (c.host == "telemetry_topic" ==> c.telemetry == Dec(c.port))
      && (c.mode == "telemetry_topic" && c.host != "telemetry_topic" ==> c.telemetry == c.inference)
  {
    ExtractTelemetry(c);
    DefaultsArePrintable();
    TextKept(c.telemetry, DEFAULTS.telemetry);
    NumberKept(c.port, c.telemetry, DEFAULTS.telemetry);
  }

  /** Exactly which configurations come back from their file; the threshold list
      and the config topic never do. */
  lemma RoundTripIff(c: Config)
    ensures SameFields(ParseJson(Text(c)), c) <==> Survives(c)
    ensures ParseJson(Text(c)).thresholds == [] && ParseJson(Text(c)).configTopic == DEFAULTS.configTopic
  {
    HostReread(c);
    if Printable(c.host) {
      NumbersReread(c);
      ModeReread(c);
      if QuoteFree(c.mode) {
        InferenceReread(c);
        if Printable(c.inference) {
          TelemetryReread(c);
        }
      }
    }
  }

  lemma AppliedIsParsed(current: Config, json: string)
    ensures Applied(current, json) ==
      ParseJson(json).(port := if ParseJson(json).port == 0 then current.port else ParseJson(json).port)
  {
    DefaultsArePrintable();
  }

  lemma {:induction false} TooShortToFind(s: string, pat: string)
    requires |s| < |pat|
    ensures After(s, pat) == None
    decreases |s|
  {
    if s != "" {
      TooShortToFind(s[1..], pat);
    }
  }

  lemma NothingToRead()
    ensures Stoi("") == None
  {
  }

  /** What an update leaves out is not inherited: each field that reads as missing
      falls back to its default, so the current value survives exactly when it is
      the default. */
  lemma MissingTextsReset(current: Config, json: string)
    ensures
      var next := Applied(current, json);
      && (ExtractStr(json, "mqtt_host") == "" ==> (next.host == current.host <==> current.host == DEFAULTS.host))
      && (ExtractStr(json, "mode") == "" ==> (next.mode == current.mode <==> current.mode == DEFAULTS.mode))
      && (ExtractStr(json, "inference_topic") == "" ==>
            (next.inference == current.inference <==> current.inference == DEFAULTS.inference))
      && (ExtractStr(json, "telemetry_topic") == "" ==>
            (next.telemetry == current.telemetry <==> current.telemetry == DEFAULTS.telemetry))
  {
    AppliedIsParsed(current, json);
  }

  lemma MissingNumbersReset(current: Config, json: string)
    ensures
      var next := Applied(current, json);
      && (ExtractStr(json, "mqtt_port") == "" ==> (next.port == current.port <==> current.port == DEFAULTS.port))
      && (ExtractStr(json, "camera_index") == "" ==>
            (next.camera == current.camera <==> current.camera == DEFAULTS.camera))
      && (ExtractStr(json, "inference_interval_ms") == "" ==>
            (next.interval == current.interval <==> current.interval == DEFAULTS.interval))
      && (ExtractStr(json, "watchdog_interval_sec") == "" ==>
            (next.watchdog == current.watchdog <==> current.watchdog == DEFAULTS.watchdog))
  {
    AppliedIsParsed(current, json);
    NothingToRead();
  }

  /** An update that sets nothing resets everything. */
  lemma EmptyUpdateResets(current: Config)
    ensures Applied(current, "{}") == DEFAULTS
  {
    AppliedIsParsed(current, "{}");
    NothingToRead();
    TooShortToFind("{}", Quoted("mqtt_host"));
    TooShortToFind("{}", Quoted("mqtt_port"));
    TooShortToFind("{}", Quoted("camera_index"));
    TooShortToFind("{}", Quoted("inference_interval_ms"));
    TooShortToFind("{}", Quoted("watchdog_interval_sec"));
    TooShortToFind("{}", Quoted("mode"));
    TooShortToFind("{}", Quoted("inference_topic"));
    TooShortToFind("{}", Quoted("telemetry_topic"));
  }

  lemma SameButPort(parsed: Config, applied: Config, c: Config, current: Config)
    requires applied == parsed.(port := if parsed.port == 0 then current.port else parsed.port)
    requires parsed.host == c.host ==> parsed.port == c.port
    requires current.port != 0
    ensures SameFields(applied, c) <==> SameFields(parsed, c) && c.port != 0
  {
  }

  /** A restart reloads the file into a fresh manager, where port 0 means "keep
      the default port". */
  lemma RestartIff(c: Config)
    ensures SameFields(Applied(DEFAULTS, Text(c)), c) <==> Survives(c) && c.port != 0
  {
    RoundTripIff(c);
    HostReread(c);
    if Printable(c.host) {
      NumbersReread(c);
    }
    AppliedIsParsed(DEFAULTS, Text(c));
    SameButPort(ParseJson(Text(c)), Applied(DEFAULTS, Text(c)), c, DEFAULTS);
  }
}
