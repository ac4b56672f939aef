/** The vision daemon's configuration file: how it is printed, and the
find-based parser that reads it back. */
module ConfigText {
  import opened Wrappers

  type int32 = x: int | -0x8000_0000 <= x < 0x8000_0000

  /** `passRatio` is the text the stream prints for that float. */
  datatype Threshold = Threshold(classId: int32, hueLow: int32, hueHigh: int32, satMin: int32, valMin: int32,
                                 passRatio: string)

  datatype Config = Config(
    host: string,
    port: int32,
    camera: int32,
    interval: int32,
    watchdog: int32,
    mode: string,
    inference: string,
    telemetry: string,
    thresholds: seq<Threshold>,
    configTopic: string)

  const DEFAULTS := Config("localhost", 1883, 0, 666, 5, "inspection",
                           "novamex/vision/inference", "novamex/vision/telemetry", [],
                           "novamex/vision/config/update")

  // ---- Printing -----------------------------------------------------------

  function Digit(n: nat): char
    requires n < 10
  {
    ['0', '1', '2', '3', '4', '5', '6', '7', '8', '9'][n]
  }

  function Digits(n: nat): string {
    if n < 10 then [Digit(n)] else Digits(n / 10) + [Digit(n % 10)]
  }

  function Dec(n: int): string {
    if n < 0 then "-" + Digits(-n) else Digits(n)
  }

  function Quoted(s: string): string {
    "\"" + s + "\""
  }

  function Line(key: string, value: string): string {
    "  " + Quoted(key) + ": " + value + ",\n"
  }

  /** One line of the file, and what follows it. */
  function Field(key: string, value: string, rest: string): string {
    Line(key, value) + rest
  }

  /** A line four columns further in. */
  function Inner(key: string, value: string, rest: string): string {
    "    " + Field(key, value, rest)
  }

  /** The end of a threshold, with a comma if another follows. */
  function Closing(last: bool): string {
    "    }" + (if last then "" else ",") + "\n"
  }

  function FromRatio(t: Threshold, last: bool): string {
    "      " + Quoted("pass_ratio") + ": " + t.passRatio + "\n" + Closing(last)
  }

  function FromValMin(t: Threshold, last: bool): string {
    Inner("val_min", Dec(t.valMin), FromRatio(t, last))
  }

  function FromSatMin(t: Threshold, last: bool): string {
    Inner("sat_min", Dec(t.satMin), FromValMin(t, last))
  }

  function FromHueHigh(t: Threshold, last: bool): string {
    Inner("hue_high", Dec(t.hueHigh), FromSatMin(t, last))
  }

  function FromHueLow(t: Threshold, last: bool): string {
    Inner("hue_low", Dec(t.hueLow), FromHueHigh(t, last))
  }

  function ThresholdText(t: Threshold, last: bool): string {
    "    {\n" + Inner("class_id", Dec(t.classId), FromHueLow(t, last))
  }

  function Pieces(ts: seq<Threshold>): seq<string> {
    seq(|ts|, i requires 0 <= i < |ts| => ThresholdText(ts[i], i + 1 == |ts|))
  }

  function Joined(pieces: seq<string>): string {
    if pieces == [] then "" else Joined(pieces[..|pieces| - 1]) + pieces[|pieces| - 1]
  }

  const THRESHOLDS_OPEN := "  \"color_thresholds\": [\n"
  const THRESHOLDS_CLOSE := "  ]\n}\n"

  function FromThresholds(c: Config): string {
    THRESHOLDS_OPEN + (Joined(Pieces(c.thresholds)) + THRESHOLDS_CLOSE)
  }

  function FromTelemetry(c: Config): string {
    Field("telemetry_topic", Quoted(c.telemetry), FromThresholds(c))
  }

  function FromInference(c: Config): string {
    Field("inference_topic", Quoted(c.inference), FromTelemetry(c))
  }

  function FromMode(c: Config): string {
    Field("mode", Quoted(c.mode), FromInference(c))
  }

  function FromWatchdog(c: Config): string {
    Field("watchdog_interval_sec", Dec(c.watchdog), FromMode(c))
  }

  function FromInterval(c: Config): string {
    Field("inference_interval_ms", Dec(c.interval), FromWatchdog(c))
  }

  function FromCamera(c: Config): string {
    Field("camera_index", Dec(c.camera), FromInterval(c))
  }

  function FromPort(c: Config): string {
    Field("mqtt_port", Dec(c.port), FromCamera(c))
  }

  /** The whole file. */
  function Text(c: Config): string {
    "{\n" + Field("mqtt_host", Quoted(c.host), FromPort(c))
  }

  lemma Assoc(a: string, b: string, c: string)
    ensures (a + b) + c == a + (b + c)
  {
  }

  method AppendAll(head: string, pieces: seq<string>) returns (json: string)
    ensures json == head + Joined(pieces)
  {
    json := head;
    var i := 0;
    while i < |pieces|
      invariant i <= |pieces|
      invariant json == head + Joined(pieces[..i])
    {
      assert pieces[..i + 1][..i] == pieces[..i];
      Assoc(head, Joined(pieces[..i]), pieces[i]);
      json := json + pieces[i];
      i := i + 1;
    }
    assert pieces[..i] == pieces;
  }

  /** `serialize` up to the watchdog's line. */
  method SerializeHead(c: Config) returns (json: string)
    ensures json + FromMode(c) == Text(c)
  {
    json := "{\n";
    Assoc(json, Line("mqtt_host", Quoted(c.host)), FromPort(c));
    json := json + Line("mqtt_host", Quoted(c.host));
    Assoc(json, Line("mqtt_port", Dec(c.port)), FromCamera(c));
    json := json + Line("mqtt_port", Dec(c.port));
    Assoc(json, Line("camera_index", Dec(c.camera)), FromInterval(c));
    json := json + Line("camera_index", Dec(c.camera));
    Assoc(json, Line("inference_interval_ms", Dec(c.interval)), FromWatchdog(c));
    json := json + Line("inference_interval_ms", Dec(c.interval));
    Assoc(json, Line("watchdog_interval_sec", Dec(c.watchdog)), FromMode(c));
    json := json + Line("watchdog_interval_sec", Dec(c.watchdog));
  }

  /** `serialize`, appending to its stream line by line. */
  method Serialize(c: Config) returns (json: string)
    ensures json == Text(c)
  {
    json := SerializeHead(c);
    Assoc(json, Line("mode", Quoted(c.mode)), FromInference(c));
    json := json + Line("mode", Quoted(c.mode));
    Assoc(json, Line("inference_topic", Quoted(c.inference)), FromTelemetry(c));
    json := json + Line("inference_topic", Quoted(c.inference));
    Assoc(json, Line("telemetry_topic", Quoted(c.telemetry)), FromThresholds(c));
    json := json + Line("telemetry_topic", Quoted(c.telemetry));
    Assoc(json, THRESHOLDS_OPEN, Joined(Pieces(c.thresholds)) + THRESHOLDS_CLOSE);
    json := json + THRESHOLDS_OPEN;
    Assoc(json, Joined(Pieces(c.thresholds)), THRESHOLDS_CLOSE);
    json := AppendAll(json, Pieces(c.thresholds));
    json := json + THRESHOLDS_CLOSE;
  }

  // ---- Parsing ------------------------------------------------------------

  /** What follows the first occurrence of `pat` in `s`. */
  function After(s: string, pat: string): Option<string> {
    if pat <= s then Some(s[|pat|..]) else if s == "" then None else After(s[1..], pat)
  }

  function Trim(s: string): string {
    if s != "" && s[0] in {' ', '\t', '\r', '\n'} then Trim(s[1..]) else s
  }

  /** `s` up to the first of `stops`, all of it when there is none. */
  function Upto(s: string, stops: set<char>): string {
    if s == "" || s[0] in stops then "" else [s[0]] + Upto(s[1..], stops)
  }

  /** The value that follows a key; empty when there is none to find. */
  function ReadValue(afterKey: string): string {
    match After(afterKey, ":")
    case None => ""
    case Some(v) =>
      var w := Trim(v);
      if w == "" then ""
      else if w[0] == '"' then (if '"' in w[1..] then Upto(w[1..], {'"'}) else "")
      else Upto(w, {',', '\n', '\r', '}'})
  }

  function ExtractStr(json: string, key: string): string {
    match After(json, Quoted(key))
    case None => ""
    case Some(rest) => ReadValue(rest)
  }

  function DigitValue(c: char): Option<nat> {
    if '0' <= c <= '9' then Some((c as int) - ('0' as int)) else None
  }

  /** The leading digits of `s` as a number, after the digits read so far. */
  function Magnitude(s: string, soFar: nat): nat {
    if s == "" || DigitValue(s[0]).None? then soFar else Magnitude(s[1..], 10 * soFar + DigitValue(s[0]).value)
  }

  function Unsigned(s: string): Option<nat> {
    if s == "" || DigitValue(s[0]).None? then None else Some(Magnitude(s, 0))
  }

  function SkipSpace(s: string): string {
    if s != "" && s[0] in {' ', '\t', '\n', '\U{0B}', '\U{0C}', '\r'} then SkipSpace(s[1..]) else s
  }

  /** `std::stoi`; `None` where it throws. */
  function Stoi(s: string): Option<int32> {
    var t := SkipSpace(s);
    var negative := t != "" && t[0] == '-';
    match Unsigned(if t != "" && t[0] in {'+', '-'} then t[1..] else t)
    case None => None
    case Some(m) =>
      var size: int := m;
      var n := if negative then -size else size;
      if -0x8000_0000 <= n < 0x8000_0000 then Some(n) else None
  }

  function ExtractInt(json: string, key: string, defaultValue: int32): int32 {
    match Stoi(ExtractStr(json, key))
    case None => defaultValue
    case Some(n) => n
  }

  function OrDefault(s: string, defaultValue: string): string {
    if s != "" then s else defaultValue
  }

  function ParseJson(json: string): Config {
    Config(
      OrDefault(ExtractStr(json, "mqtt_host"), DEFAULTS.host),
      ExtractInt(json, "mqtt_port", 1883),
      ExtractInt(json, "camera_index", 0),
      ExtractInt(json, "inference_interval_ms", 666),
      ExtractInt(json, "watchdog_interval_sec", 5),
      OrDefault(ExtractStr(json, "mode"), DEFAULTS.mode),
      OrDefault(ExtractStr(json, "inference_topic"), DEFAULTS.inference),
      OrDefault(ExtractStr(json, "telemetry_topic"), DEFAULTS.telemetry),
      [],
      DEFAULTS.configTopic)
  }

  /** The configuration `apply_json` puts in place of `current`. */
  function Applied(current: Config, json: string): Config {
    var parsed := ParseJson(json);
    parsed.(host := OrDefault(parsed.host, current.host),
            port := if parsed.port == 0 then current.port else parsed.port,
            inference := OrDefault(parsed.inference, current.inference),
            telemetry := OrDefault(parsed.telemetry, current.telemetry))
  }
}
