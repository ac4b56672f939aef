/** The list of thresholds in the configuration file: every entry under its keys, and
commas between them.  The parser does not read it back yet. */
module ConfigThresholds {
  import opened ConfigText
  import opened ConfigRoundTrip
  import opened ConfigUpdate

  // ---- One threshold -------------------------------------------------------

  lemma InnerIsRead(key: string, n: int32, rest: string, d: int32)
    requires Key(key)
    ensures ExtractInt(Inner(key, Dec(n), rest), key, d) == n
  {
    SkipPlain("    ", Field(key, Dec(n), rest), key);
    NumberLine(key, n, rest, key);
    ReadNumber(n, rest);
    StoiDec(n);
  }

  lemma InnerIsPassed(key: string, n: int32, rest: string, k: string)
    requires Key(key) && Key(k) && key != k
    ensures ExtractStr(Inner(key, Dec(n), rest), k) == ExtractStr(rest, k)
  {
    SkipPlain("    ", Field(key, Dec(n), rest), k);
    NumberLine(key, n, rest, k);
  }

  lemma OpenEntry(rest: string, k: string)
    ensures ExtractStr("    {\n" + rest, k) == ExtractStr(rest, k)
  {
    SkipPlain("    {\n", rest, k);
  }

  lemma FirstIsRead(key: string, n: int32, rest: string)
    requires Key(key)
    ensures ExtractInt("    {\n" + Inner(key, Dec(n), rest), key, 0) == n
  {
    OpenEntry(Inner(key, Dec(n), rest), key);
    InnerIsRead(key, n, rest, 0);
  }

  lemma FirstIsPassed(key: string, n: int32, rest: string, k: string)
    requires Key(key) && Key(k) && key != k
    ensures ExtractStr("    {\n" + Inner(key, Dec(n), rest), k) == ExtractStr(rest, k)
  {
    OpenEntry(Inner(key, Dec(n), rest), k);
    InnerIsPassed(key, n, rest, k);
  }

  lemma PastClassId(t: Threshold, last: bool, k: string)
    requires Key(k) && k != "class_id"
    ensures ExtractStr(ThresholdText(t, last), k) == ExtractStr(FromHueLow(t, last), k)
  {
    FirstIsPassed("class_id", t.classId, FromHueLow(t, last), k);
  }

  lemma PastHueLow(t: Threshold, last: bool, k: string)
    requires Key(k)
    ensures k == "hue_low" ==> ExtractInt(FromHueLow(t, last), k, 0) == t.hueLow
    ensures k != "hue_low" ==> ExtractStr(FromHueLow(t, last), k) == ExtractStr(FromHueHigh(t, last), k)
  {
    if k == "hue_low" {
      InnerIsRead(k, t.hueLow, FromHueHigh(t, last), 0);
    } else {
      InnerIsPassed("hue_low", t.hueLow, FromHueHigh(t, last), k);
    }
  }

  lemma PastHueHigh(t: Threshold, last: bool, k: string)
    requires Key(k)
    ensures k == "hue_high" ==> ExtractInt(FromHueHigh(t, last), k, 0) == t.hueHigh
    ensures k != "hue_high" ==> ExtractStr(FromHueHigh(t, last), k) == ExtractStr(FromSatMin(t, last), k)
  {
    if k == "hue_high" {
      InnerIsRead(k, t.hueHigh, FromSatMin(t, last), 0);
    } else {
      InnerIsPassed("hue_high", t.hueHigh, FromSatMin(t, last), k);
    }
  }

  lemma PastSatMin(t: Threshold, last: bool, k: string)
    requires Key(k)
    ensures k == "sat_min" ==> ExtractInt(FromSatMin(t, last), k, 0) == t.satMin
    ensures k != "sat_min" ==> ExtractStr(FromSatMin(t, last), k) == ExtractStr(FromValMin(t, last), k)
  {
    if k == "sat_min" {
      InnerIsRead(k, t.satMin, FromValMin(t, last), 0);
    } else {
      InnerIsPassed("sat_min", t.satMin, FromValMin(t, last), k);
    }
  }

  lemma PastValMin(t: Threshold, last: bool, k: string)
    requires Key(k)
    ensures k == "val_min" ==> ExtractInt(FromValMin(t, last), k, 0) == t.valMin
    ensures k != "val_min" ==> ExtractStr(FromValMin(t, last), k) == ExtractStr(FromRatio(t, last), k)
  {
    if k == "val_min" {
      InnerIsRead(k, t.valMin, FromRatio(t, last), 0);
    } else {
      InnerIsPassed("val_min", t.valMin, FromRatio(t, last), k);
    }
  }

  /** A value that a blank or a stop cannot be mistaken for part of. */
  predicate Plain(v: string) {
    v != "" && v[0] !in {' ', '\t', '\r', '\n', '"'} && forall x :: x in v ==> x !in STOPS
  }

  lemma RatioIsRead(t: Threshold, last: bool)
    requires Plain(t.passRatio)
    ensures ExtractStr(FromRatio(t, last), "pass_ratio") == t.passRatio
  {
    var k, v, tail := "pass_ratio", t.passRatio, Closing(last);
    var behind := "" + ":" + " " + (v + ['\n'] + tail);
    assert FromRatio(t, last) == "      " + (Quoted(k) + behind);
    SkipPlain("      ", Quoted(k) + behind, k);
    FindQuoted(k, behind, k);
    assert (v + ['\n'] + tail)[0] == v[0];
    ReadBehind("", " ", v + ['\n'] + tail);
    UptoStops(v, '\n', tail, STOPS);
  }

  lemma PastHue(t: Threshold, last: bool, k: string)
    requires Key(k) && k != "class_id" && k != "hue_low"
    ensures ExtractStr(ThresholdText(t, last), k) == ExtractStr(FromHueHigh(t, last), k)
  {
    PastClassId(t, last, k);
    PastHueLow(t, last, k);
  }

  lemma PastHues(t: Threshold, last: bool, k: string)
    requires Key(k) && k != "class_id" && k != "hue_low" && k != "hue_high"
    ensures ExtractStr(ThresholdText(t, last), k) == ExtractStr(FromSatMin(t, last), k)
  {
    PastHue(t, last, k);
    PastHueHigh(t, last, k);
  }

  lemma ClassIdIsRead(t: Threshold, last: bool)
    ensures ExtractInt(ThresholdText(t, last), "class_id", 0) == t.classId
  {
    FirstIsRead("class_id", t.classId, FromHueLow(t, last));
  }

  lemma HueLowIsRead(t: Threshold, last: bool)
    ensures ExtractInt(ThresholdText(t, last), "hue_low", 0) == t.hueLow
  {
    PastClassId(t, last, "hue_low");
    PastHueLow(t, last, "hue_low");
  }

  lemma HueHighIsRead(t: Threshold, last: bool)
    ensures ExtractInt(ThresholdText(t, last), "hue_high", 0) == t.hueHigh
  {
    PastHue(t, last, "hue_high");
    PastHueHigh(t, last, "hue_high");
  }

  lemma SatMinIsRead(t: Threshold, last: bool)
    ensures ExtractInt(ThresholdText(t, last), "sat_min", 0) == t.satMin
  {
    PastHues(t, last, "sat_min");
    PastSatMin(t, last, "sat_min");
  }

  lemma ValMinIsRead(t: Threshold, last: bool)
    ensures ExtractInt(ThresholdText(t, last), "val_min", 0) == t.valMin
  {
    PastHues(t, last, "val_min");
    PastSatMin(t, last, "val_min");
    PastValMin(t, last, "val_min");
  }

  lemma PassRatioIsRead(t: Threshold, last: bool)
    requires Plain(t.passRatio)
    ensures ExtractStr(ThresholdText(t, last), "pass_ratio") == t.passRatio
  {
    PastHues(t, last, "pass_ratio");
    PastSatMin(t, last, "pass_ratio");
    PastValMin(t, last, "pass_ratio");
    RatioIsRead(t, last);
  }

  /** Every field of a threshold is printed under its own key. */
  lemma ThresholdIsRead(t: Threshold, last: bool)
    requires Plain(t.passRatio)
    ensures
      var s := ThresholdText(t, last);
      && ExtractInt(s, "class_id", 0) == t.classId
      && ExtractInt(s, "hue_low", 0) == t.hueLow && ExtractInt(s, "hue_high", 0) == t.hueHigh
      && ExtractInt(s, "sat_min", 0) == t.satMin && ExtractInt(s, "val_min", 0) == t.valMin
      && ExtractStr(s, "pass_ratio") == t.passRatio
  {
    ClassIdIsRead(t, last);
    HueLowIsRead(t, last);
    HueHighIsRead(t, last);
    SatMinIsRead(t, last);
    ValMinIsRead(t, last);
    PassRatioIsRead(t, last);
  }

  // ---- The list of thresholds ---------------------------------------------

  /** Entries with a comma behind each but the last. */
  function Listed(ts: seq<Threshold>): string {
    if ts == [] then ""
    else if |ts| == 1 then ThresholdText(ts[0], true)
    else ThresholdText(ts[0], false) + Listed(ts[1..])
  }

  lemma {:induction false} JoinedFirst(first: string, rest: seq<string>)
    ensures Joined([first] + rest) == first + Joined(rest)
    decreases |rest|
  {
    if rest == [] {
      assert [first] + rest == [first];
      assert Joined([first]) == Joined([first][..0]) + first;
    } else {
      var n := |rest| - 1;
      assert ([first] + rest)[..n + 1] == [first] + rest[..n];
      JoinedFirst(first, rest[..n]);
      Assoc(first, Joined(rest[..n]), rest[n]);
    }
  }

  lemma PieceAt(ts: seq<Threshold>, i: nat)
    requires i < |ts|
    ensures |Pieces(ts)| == |ts| && Pieces(ts)[i] == ThresholdText(ts[i], i + 1 == |ts|)
  {
  }

  lemma PiecesFirst(ts: seq<Threshold>)
    requires ts != []
    ensures Pieces(ts) == [ThresholdText(ts[0], |ts| == 1)] + Pieces(ts[1..])
  {
    PieceAt(ts, 0);
    forall i | 1 <= i < |ts| ensures Pieces(ts)[i] == Pieces(ts[1..])[i - 1] {
      PieceAt(ts, i);
      PieceAt(ts[1..], i - 1);
      assert i + 1 == |ts| <==> i == |ts[1..]|;
    }
  }

  lemma {:induction false} PiecesAreListed(ts: seq<Threshold>)
    ensures Joined(Pieces(ts)) == Listed(ts)
    decreases |ts|
  {
    if ts != [] {
      PiecesFirst(ts);
      JoinedFirst(ThresholdText(ts[0], |ts| == 1), Pieces(ts[1..]));
      PiecesAreListed(ts[1..]);
    }
  }

  predicate Ends(s: string, end: string) {
    |s| >= |end| && s[|s| - |end|..] == end
  }

  lemma EndsWith(front: string, end: string)
    ensures Ends(front + end, end)
  {
  }

  lemma EndsBehind(front: string, s: string, end: string)
    requires Ends(s, end)
    ensures Ends(front + s, end)
  {
    var all := front + s;
    assert all[|all| - |end|..] == s[|s| - |end|..];
  }

  lemma InnerEnds(key: string, value: string, rest: string, end: string)
    requires Ends(rest, end)
    ensures Ends(Inner(key, value, rest), end)
  {
    EndsBehind(Line(key, value), rest, end);
    EndsBehind("    ", Field(key, value, rest), end);
  }

  lemma EntryEndsLike(t: Threshold, last: bool, end: string)
    requires Ends(Closing(last), end)
    ensures Ends(ThresholdText(t, last), end)
  {
    EndsBehind("      " + Quoted("pass_ratio") + ": " + t.passRatio + "\n", Closing(last), end);
    InnerEnds("val_min", Dec(t.valMin), FromRatio(t, last), end);
    InnerEnds("sat_min", Dec(t.satMin), FromValMin(t, last), end);
    InnerEnds("hue_high", Dec(t.hueHigh), FromSatMin(t, last), end);
    InnerEnds("hue_low", Dec(t.hueLow), FromHueHigh(t, last), end);
    InnerEnds("class_id", Dec(t.classId), FromHueLow(t, last), end);
    EndsBehind("    {\n", Inner("class_id", Dec(t.classId), FromHueLow(t, last)), end);
  }

  lemma ClosingEnds(last: bool)
    ensures Ends(Closing(last), if last then "}\n" else "},\n")
  {
    assert "    }" + "" + "\n" == "    " + "}\n" && "    }" + "," + "\n" == "    " + "},\n";
    EndsWith("    ", if last then "}\n" else "},\n");
  }

  /** An entry ends with a brace, and a comma behind it unless it is the last. */
  lemma EntryEnds(t: Threshold, last: bool)
    ensures Ends(ThresholdText(t, last), if last then "}\n" else "},\n")
  {
    ClosingEnds(last);
    EntryEndsLike(t, last, if last then "}\n" else "},\n");
  }
}
