/** The generator of training labels: its templates, its clean-up loop, and which
of its labels fit the model's eighteen time steps. */
module LabelGenerator {
  import opened Wrappers
  import opened ConfigText
  import opened ConfigRoundTrip
  import opened CtcAlignment
  import opened OcrLabels

  datatype FirstLine = VenceSlashes | VSlashes | VenceColons

  datatype SecondLine = LoteNumber | LotePadded | LoteDate | LoteSlashes

  // ---- The visual text ----------------------------------------------------

  /** `{:02d}` of a number below a hundred. */
  function Two(n: nat): string
    requires n < 100
  {
    [Digit(n / 10), Digit(n % 10)]
  }

  function Date(d: nat, m: nat, y: nat, between: char): string
    requires d < 100 && m < 100 && y < 100
  {
    Two(d) + [between] + Two(m) + [between] + Two(y)
  }

  /** The words of the two lines, two each. */
  function FirstWords(line: FirstLine, d: nat, m: nat, y: nat): (string, string)
    requires d < 100 && m < 100 && y < 100
  {
    match line
    case VenceSlashes => ("VENCE", Date(d, m, y, '/'))
    case VSlashes => ("V", Date(d, m, y, '/'))
    case VenceColons => ("VENCE", Date(d, m, y, ':'))
  }

  function SecondWord(line: SecondLine, d: nat, m: nat, y: nat, n: nat): string
    requires d < 100 && m < 100 && y < 100 && n < 10000
  {
    match line
    case LoteNumber => Digits(n)
    case LotePadded => Two(n / 100) + Two(n % 100)
    case LoteDate => Two(d) + Two(m) + Two(y)
    case LoteSlashes => Date(d, m, y, '/')
  }

  /** The text that is drawn. */
  function Visual(first: FirstLine, second: SecondLine, d: nat, m: nat, y: nat, n: nat): string
    requires d < 100 && m < 100 && y < 100 && n < 10000
  {
    var w := FirstWords(first, d, m, y);
    w.0 + " " + w.1 + "\n" + ("LOTE" + " " + SecondWord(second, d, m, y, n))
  }

  // ---- Cleaning it up -----------------------------------------------------

  /** New lines and blanks become colons. */
  function Colons(s: string): string {
    if s == "" then "" else [if s[0] in {'\n', ' '} then ':' else s[0]] + Colons(s[1..])
  }

  predicate HasDouble(s: string) {
    exists i :: 0 <= i < |s| - 1 && s[i] == ':' && s[i + 1] == ':'
  }

  /** `replace("::", ":")`: one pass, left to right. */
  function ReplacePairs(s: string): string {
    if |s| < 2 then s
    else if s[0] == ':' && s[1] == ':' then ":" + ReplacePairs(s[2..])
    else [s[0]] + ReplacePairs(s[1..])
  }

  /** Every run of colons becomes one. */
  function Squeeze(s: string): string {
    if |s| < 2 then s
    else if s[0] == ':' && s[1] == ':' then Squeeze(s[1..])
    else [s[0]] + Squeeze(s[1..])
  }

  /** `strip(":")`. */
  function Strip(s: string): string {
    if s != "" && s[0] == ':' then Strip(s[1..])
    else if s != "" && s[|s| - 1] == ':' then Strip(s[..|s| - 1])
    else s
  }

  lemma {:induction false} PairsKeepSqueezed(s: string)
    ensures Squeeze(ReplacePairs(s)) == Squeeze(s)
    ensures s != "" ==> ReplacePairs(s) != "" && ReplacePairs(s)[0] == s[0]
    ensures s == "" ==> ReplacePairs(s) == ""
    decreases |s|
  {
    if |s| >= 2 {
      var rest := if s[0] == ':' && s[1] == ':' then s[2..] else s[1..];
      PairsKeepSqueezed(rest);
      var t := [s[0]] + ReplacePairs(rest);
      assert t[1..] == ReplacePairs(rest) && ReplacePairs(s) == t;
    }
  }

  lemma {:induction false} PairsShrink(s: string)
    ensures |ReplacePairs(s)| <= |s|
    ensures HasDouble(s) ==> |ReplacePairs(s)| < |s|
    decreases |s|
  {
    if |s| >= 2 {
      if s[0] == ':' && s[1] == ':' {
        PairsShrink(s[2..]);
      } else {
        PairsShrink(s[1..]);
        if HasDouble(s) {
          var i :| 0 <= i < |s| - 1 && s[i] == ':' && s[i + 1] == ':';
          assert s[1..][i - 1] == ':' && s[1..][i] == ':';
        }
      }
    }
  }

  lemma {:induction false} NothingToSqueeze(s: string)
    requires !HasDouble(s)
    ensures Squeeze(s) == s
    decreases |s|
  {
    if |s| >= 2 {
      forall i | 0 <= i < |s[1..]| - 1 ensures !(s[1..][i] == ':' && s[1..][i + 1] == ':') {
        assert s[1..][i] == s[i + 1] && s[1..][i + 1] == s[i + 2];
      }
      assert !HasDouble(s[1..]);
      NothingToSqueeze(s[1..]);
    }
  }

  /** `generate_text_pair` from the drawn text on. */
  method CleanUp(visual: string) returns (text: string)
    ensures text == Strip(Squeeze(Colons(visual)))
  {
    text := Colons(visual);
    while HasDouble(text)
      invariant Squeeze(text) == Squeeze(Colons(visual))
      decreases |text|
    {
      PairsKeepSqueezed(text);
      PairsShrink(text);
      text := ReplacePairs(text);
    }
    NothingToSqueeze(text);
    text := Strip(text);
  }

  // ---- What a clean label is ----------------------------------------------

  /** The characters that are no separators, in order. */
  function Letters(s: string): string {
    if s == "" then "" else (if s[0] == ':' then "" else [s[0]]) + Letters(s[1..])
  }

  lemma {:induction false} LettersAppend(s: string, c: char)
    ensures Letters(s + [c]) == Letters(s) + if c == ':' then "" else [c]
    decreases |s|
  {
    if s == "" {
      assert (s + [c])[1..] == "";
    } else {
      var head, tail := if s[0] == ':' then "" else [s[0]], if c == ':' then "" else [c];
      assert (s + [c])[0] == s[0] && (s + [c])[1..] == s[1..] + [c];
      LettersAppend(s[1..], c);
      Assoc(head, Letters(s[1..]), tail);
    }
  }

  lemma {:induction false} SqueezeCleans(s: string)
    ensures Letters(Squeeze(s)) == Letters(s) && !HasDouble(Squeeze(s))
    ensures s != "" ==> Squeeze(s) != "" && Squeeze(s)[0] == s[0]
    decreases |s|
  {
    if |s| >= 2 {
      SqueezeCleans(s[1..]);
      if s[0] != ':' || s[1] != ':' {
        var t := [s[0]] + Squeeze(s[1..]);
        assert t[1..] == Squeeze(s[1..]) && Squeeze(s) == t;
        forall i | 0 <= i < |t| - 1 ensures t[i] != ':' || t[i + 1] != ':' {
          if i > 0 {
            assert t[i] == t[1..][i - 1] && t[i + 1] == t[1..][i];
          }
        }
      }
    }
  }

  lemma {:induction false} StripCleans(s: string)
    requires !HasDouble(s)
    ensures Letters(Strip(s)) == Letters(s) && !HasDouble(Strip(s))
    ensures Strip(s) != "" ==> Strip(s)[0] != ':' && Strip(s)[|Strip(s)| - 1] != ':'
    decreases |s|
  {
    if s != "" && s[0] == ':' {
      NoDoubleWithin(s, 1, |s|);
      StripCleans(s[1..]);
    } else if s != "" && s[|s| - 1] == ':' {
      NoDoubleWithin(s, 0, |s| - 1);
      assert s[0..|s| - 1] == s[..|s| - 1];
      StripCleans(s[..|s| - 1]);
      LettersAppend(s[..|s| - 1], ':');
      assert s == s[..|s| - 1] + [':'];
    }
  }

  lemma NoDoubleWithin(s: string, i: nat, j: nat)
    requires i <= j <= |s| && !HasDouble(s)
    ensures !HasDouble(s[i..j])
  {
  }

  /** A cleaned text keeps its letters; single colons stand between them only. */
  lemma CleanUpMeans(visual: string)
    ensures
      var text := Strip(Squeeze(Colons(visual)));
      && Letters(text) == Letters(Colons(visual)) && !HasDouble(text)
      && (text != "" ==> text[0] != ':' && text[|text| - 1] != ':')
  {
    SqueezeCleans(Colons(visual));
    StripCleans(Squeeze(Colons(visual)));
  }

  // ---- Words joined by separators -----------------------------------------

  /** A piece of visual text that cleaning up leaves as it is. */
  predicate Piece(s: string) {
    && s != "" && s[0] != ':' && s[|s| - 1] != ':' && !HasDouble(s)
    && forall i :: 0 <= i < |s| ==> s[i] !in {' ', '\n'}
  }

  lemma {:induction false} ColonsAppend(a: string, b: string)
    ensures Colons(a + b) == Colons(a) + Colons(b)
    decreases |a|
  {
    if a == "" {
      assert a + b == b;
    } else {
      assert (a + b)[1..] == a[1..] + b;
      ColonsAppend(a[1..], b);
    }
  }

  lemma {:induction false} ColonsOfPiece(s: string)
    requires forall i :: 0 <= i < |s| ==> s[i] !in {' ', '\n'}
    ensures Colons(s) == s
    decreases |s|
  {
    if s != "" {
      ColonsOfPiece(s[1..]);
    }
  }

  lemma PiecesJoin(a: string, b: string)
    requires Piece(a) && Piece(b)
    ensures Piece(a + ":" + b)
  {
  }

  lemma PieceIsClean(s: string)
    requires Piece(s)
    ensures Strip(Squeeze(s)) == s
  {
    NothingToSqueeze(s);
  }

  /** How a line of two pieces is cleaned up. */
  lemma LineColons(a: string, c: char, b: string)
    requires c in {' ', '\n'}
    ensures Colons(a + [c] + b) == Colons(a) + ":" + Colons(b)
  {
    ColonsAppend(a + [c], b);
    ColonsAppend(a, [c]);
    assert [c][1..] == "";
    assert Colons([c]) == ":";
  }

  // ---- How many steps a label needs ---------------------------------------

  lemma {:induction false} NeededConcat<T>(a: seq<T>, b: seq<T>)
    requires a != []
    ensures Needed(a + b) == Needed(a) + Needed(b) + if b != [] && a[|a| - 1] == b[0] then 1 else 0
    decreases |b|
  {
    if b == [] {
      assert a + b == a;
    } else {
      var n := |b| - 1;
      NeededConcat(a, b[..n]);
      assert a + b == (a + b[..n]) + [b[n]];
      assert b == b[..n] + [b[n]];
      NeededAppend(a + b[..n], b[n]);
      NeededAppend(b[..n], b[n]);
    }
  }

  lemma NeededJoin(a: string, c: char, b: string)
    requires a != "" && b != "" && a[|a| - 1] != c && b[0] != c
    ensures Needed(a + [c] + b) == Needed(a) + 1 + Needed(b)
  {
    NeededConcat(a, [c]);
    NeededConcat(a + [c], b);
  }

  predicate DigitText(s: string) {
    s != "" && forall i :: 0 <= i < |s| ==> '0' <= s[i] <= '9'
  }

  lemma {:induction false} DigitsAreDigits(n: nat)
    ensures DigitText(Digits(n))
  {
    if n >= 10 {
      DigitsAreDigits(n / 10);
    }
  }

  lemma DigitTextIsPiece(s: string)
    requires DigitText(s)
    ensures Piece(s)
  {
  }

  /** A two-digit number is a double when its digits agree. */
  predicate Repeats(n: nat) {
    n / 10 == n % 10
  }

  lemma NeededTwo(n: nat)
    requires n < 100
    ensures DigitText(Two(n)) && Needed(Two(n)) == 2 + if Repeats(n) then 1 else 0
  {
    var s := Two(n);
    assert s[..1] == [Digit(n / 10)];
    assert Doubles(s) == Doubles(s[..1]) + if s[0] == s[1] then 1 else 0;
  }

  lemma DateParts(d: nat, m: nat, y: nat, between: char)
    requires d < 100 && m < 100 && y < 100 && between in {'/', ':'}
    ensures Piece(Date(d, m, y, between))
    ensures Needed(Date(d, m, y, between)) == Needed(Two(d)) + Needed(Two(m)) + Needed(Two(y)) + 2
  {
    NeededTwo(d);
    NeededTwo(m);
    NeededTwo(y);
    NeededJoin(Two(d), between, Two(m));
    var front := Two(d) + [between] + Two(m);
    assert front[|front| - 1] == Two(m)[1];
    NeededJoin(front, between, Two(y));
  }

  /** Two pieces and the separator between them. */
  lemma LineOfPieces(a: string, c: char, b: string)
    requires Piece(a) && Piece(b) && c in {' ', '\n'}
    ensures Colons(a + [c] + b) == a + ":" + b && Piece(a + ":" + b)
    ensures Needed(a + ":" + b) == Needed(a) + 1 + Needed(b)
  {
    LineColons(a, c, b);
    ColonsOfPiece(a);
    ColonsOfPiece(b);
    PiecesJoin(a, b);
    NeededJoin(a, ':', b);
  }

  /** The label of two lines of pieces. */
  lemma {:induction false} LabelOfPieces(a: string, b: string, c: string, e: string)
    requires Piece(a) && Piece(b) && Piece(c) && Piece(e)
    ensures
      var text := Strip(Squeeze(Colons(a + " " + b + "\n" + (c + " " + e))));
      && text == a + ":" + b + ":" + (c + ":" + e)
      && Needed(text) == Needed(a) + Needed(b) + Needed(c) + Needed(e) + 3
  {
    LineOfPieces(a, ' ', b);
    LineOfPieces(c, ' ', e);
    var first, second := a + ":" + b, c + ":" + e;
    LineColons(a + " " + b, '\n', c + " " + e);
    PiecesJoin(first, second);
    NeededJoin(first, ':', second);
    PieceIsClean(first + ":" + second);
  }

  // ---- Which labels fit ---------------------------------------------------

  /** The label `generate_text_pair` returns. */
  function TrainingLabel(first: FirstLine, second: SecondLine, d: nat, m: nat, y: nat, n: nat): string
    requires d < 100 && m < 100 && y < 100 && n < 10000
  {
    Strip(Squeeze(Colons(Visual(first, second, d, m, y, n))))
  }

  lemma SecondWordSteps(line: SecondLine, d: nat, m: nat, y: nat, n: nat)
    requires d < 100 && m < 100 && y < 100 && n < 10000
    ensures
      var w := SecondWord(line, d, m, y, n);
      && Piece(w)
      && (if !line.LoteNumber? then Needed(w) >= 4
          else if n < 10 then Needed(w) == 1
          else if n < 100 then Needed(w) == 2 + (if Repeats(n) then 1 else 0)
          else Needed(w) >= 3)
  {
    DateParts(d, m, y, '/');
    NeededTwo(d);
    NeededTwo(m);
    NeededTwo(y);
    NeededTwo(n / 100);
    NeededTwo(n % 100);
    DigitTextIsPiece(Two(n / 100) + Two(n % 100));
    DigitTextIsPiece(Two(d) + Two(m) + Two(y));
    DigitsAreDigits(n);
    DigitTextIsPiece(Digits(n));
    DigitsLength(n);
    if 10 <= n < 100 {
      NeededTwo(n);
      assert Digits(n) == Two(n);
    }
  }

  lemma DigitsLength(n: nat)
    ensures n < 10 ==> |Digits(n)| == 1
    ensures n >= 100 ==> |Digits(n)| >= 3
  {
    if n >= 100 {
      assert Digits(n) == Digits(n / 10) + [Digit(n % 10)];
      assert Digits(n / 10) == Digits(n / 10 / 10) + [Digit(n / 10 % 10)];
      DigitsAreDigits(n / 10 / 10);
    }
  }

  lemma LabelSteps(first: FirstLine, second: SecondLine, d: nat, m: nat, y: nat, n: nat)
    requires d < 100 && m < 100 && y < 100 && n < 10000
    ensures
      var w := FirstWords(first, d, m, y);
      var e := SecondWord(second, d, m, y, n);
      && TrainingLabel(first, second, d, m, y, n) == w.0 + ":" + w.1 + ":" + ("LOTE" + ":" + e)
      && Needed(TrainingLabel(first, second, d, m, y, n)) ==
           (if first.VSlashes? then 1 else 5) + Needed(Two(d)) + Needed(Two(m)) + Needed(Two(y)) + Needed(e) + 9
  {
    var w := FirstWords(first, d, m, y);
    DateParts(d, m, y, '/');
    DateParts(d, m, y, ':');
    SecondWordSteps(second, d, m, y, n);
    LabelOfPieces(w.0, w.1, "LOTE", SecondWord(second, d, m, y, n));
    WordSteps();
  }

  lemma TwoBehind(front: string, n: nat)
    requires AllDigits(front) && n < 100
    ensures AllDigits(front + Two(n)) && Magnitude(front + Two(n), 0) == 100 * Magnitude(front, 0) + n
  {
    MagnitudeSnoc(front, n / 10, 0);
    MagnitudeSnoc(front + [Digit(n / 10)], n % 10, 0);
    assert front + Two(n) == front + [Digit(n / 10)] + [Digit(n % 10)];
  }

  lemma UnsignedOf(s: string, n: nat)
    requires s != "" && AllDigits(s) && Magnitude(s, 0) == n
    ensures Unsigned(s) == Some(n)
  {
  }

  lemma TwoIsRead(n: nat)
    requires n < 100
    ensures AllDigits(Two(n)) && Magnitude(Two(n), 0) == n && Unsigned(Two(n)) == Some(n)
  {
    TwoBehind("", n);
    assert "" + Two(n) == Two(n);
    UnsignedOf(Two(n), n);
  }

  /** A date is the day, the month and the year, in that order. */
  lemma DateIsRead(d: nat, m: nat, y: nat, between: char)
    requires d < 100 && m < 100 && y < 100
    ensures
      var s := Date(d, m, y, between);
      && |s| == 8 && s[2] == s[5] == between
      && Unsigned(s[..2]) == Some(d) && Unsigned(s[3..5]) == Some(m) && Unsigned(s[6..]) == Some(y)
  {
    var s := Date(d, m, y, between);
    assert s[..2] == Two(d) && s[3..5] == Two(m) && s[6..] == Two(y);
    TwoIsRead(d);
    TwoIsRead(m);
    TwoIsRead(y);
  }

  lemma Regroup(a: string, b: string, e: string)
    ensures a + ":" + b + ":" + e == (a + ":") + b + (":" + e)
  {
  }

  lemma LabelShape(first: FirstLine, second: SecondLine, d: nat, m: nat, y: nat, n: nat)
    requires d < 100 && m < 100 && y < 100 && n < 10000
    ensures
      var w := FirstWords(first, d, m, y);
      TrainingLabel(first, second, d, m, y, n)
      == (w.0 + ":") + w.1 + (":" + ("LOTE" + ":" + SecondWord(second, d, m, y, n)))
  {
    LabelSteps(first, second, d, m, y, n);
    var w := FirstWords(first, d, m, y);
    Regroup(w.0, w.1, "LOTE" + ":" + SecondWord(second, d, m, y, n));
  }

  /** So it stands in the label, behind its first word. */
  lemma LabelDate(first: FirstLine, second: SecondLine, d: nat, m: nat, y: nat, n: nat)
    requires d < 100 && m < 100 && y < 100 && n < 10000
    ensures
      var text, at := TrainingLabel(first, second, d, m, y, n), |FirstWords(first, d, m, y).0| + 1;
      |text| > at + 8 && text[at..at + 8] == Date(d, m, y, if first.VenceColons? then ':' else '/')
  {
    LabelShape(first, second, d, m, y, n);
    var w := FirstWords(first, d, m, y);
    SliceOf(w.0 + ":", w.1, ":" + ("LOTE" + ":" + SecondWord(second, d, m, y, n)));
  }

  lemma SliceOf(front: string, middle: string, tail: string)
    ensures (front + middle + tail)[|front|..|front| + |middle|] == middle
  {
  }

  /** A lot that is a number reads as that number, padded or not; one that is a date, as
      day, month and year. */
  lemma LotIsRead(line: SecondLine, d: nat, m: nat, y: nat, n: nat)
    requires d < 100 && m < 100 && y < 100 && n < 10000
    ensures
      var w := SecondWord(line, d, m, y, n);
      match line
      case LoteNumber => Unsigned(w) == Some(n) && (w[0] == '0' ==> n == 0)
      case LotePadded => |w| == 4 && Unsigned(w) == Some(n)
      case LoteDate =>
        |w| == 6 && Unsigned(w[..2]) == Some(d) && Unsigned(w[2..4]) == Some(m) && Unsigned(w[4..]) == Some(y)
      case LoteSlashes => w == Date(d, m, y, '/')
  {
    match line
    case LoteNumber => NumberIsRead(n);
    case LotePadded => PaddedIsRead(n / 100, n % 100);
    case LoteDate =>
      var w := Two(d) + Two(m) + Two(y);
      assert w[..2] == Two(d) && w[2..4] == Two(m) && w[4..] == Two(y);
      TwoIsRead(d);
      TwoIsRead(m);
      TwoIsRead(y);
    case LoteSlashes =>
  }

  lemma {:induction false} NumberIsRead(n: nat)
    ensures Unsigned(Digits(n)) == Some(n) && (Digits(n)[0] == '0' ==> n == 0)
  {
    DigitsAreDigits(n);
    MagnitudeDigits(n);
    if n >= 10 {
      NumberIsRead(n / 10);
    }
  }

  lemma PaddedIsRead(high: nat, low: nat)
    requires high < 100 && low < 100
    ensures |Two(high) + Two(low)| == 4 && Unsigned(Two(high) + Two(low)) == Some(100 * high + low)
  {
    TwoIsRead(high);
    TwoBehind(Two(high), low);
    UnsignedOf(Two(high) + Two(low), 100 * high + low);
  }

  lemma WordSteps()
    ensures Needed("V") == 1 && Needed("VENCE") == 5 && Needed("LOTE") == 4
  {
    NoDoubles("V");
    NoDoubles("VENCE");
    NoDoubles("LOTE");
  }

  lemma {:induction false} NoDoubles(s: string)
    requires forall i :: 0 < i < |s| ==> s[i - 1] != s[i]
    ensures Doubles(s) == 0
    decreases |s|
  {
    if |s| > 1 {
      NoDoubles(s[..|s| - 1]);
    }
  }

  lemma DigitsKnown(s: string)
    requires DigitText(s)
    ensures Known(s)
  {
  }

  lemma KnownWords()
    ensures Known("V") && Known("LOTE") && Known(":") && Known("/")
  {
  }

  lemma KnownJoin(a: string, c: string, b: string)
    requires Known(a) && Known(b) && Known(c)
    ensures Known(a + c + b)
  {
  }

  lemma VLabelKnown(d: nat, m: nat, y: nat, n: nat)
    requires d < 100 && m < 100 && y < 100 && n < 10000
    ensures Known("V" + ":" + Date(d, m, y, '/') + ":" + ("LOTE" + ":" + Digits(n)))
  {
    KnownWords();
    NeededTwo(d);
    NeededTwo(m);
    NeededTwo(y);
    DigitsAreDigits(n);
    DigitsKnown(Two(d));
    DigitsKnown(Two(m));
    DigitsKnown(Two(y));
    DigitsKnown(Digits(n));
    KnownJoin(Two(d), "/", Two(m));
    KnownJoin(Two(d) + "/" + Two(m), "/", Two(y));
    KnownJoin("V", ":", Date(d, m, y, '/'));
    KnownJoin("LOTE", ":", Digits(n));
    KnownJoin("V" + ":" + Date(d, m, y, '/'), ":", "LOTE" + ":" + Digits(n));
  }

  /** Few enough repeated digits, and a lot number short enough. */
  predicate FewEnough(d: nat, m: nat, n: nat) {
    if n < 10 then !Repeats(d) || !Repeats(m)
    else n < 100 && !Repeats(n) && !Repeats(d) && !Repeats(m)
  }

  /** Exactly which generated labels eighteen time steps can spell: none with
      "VENCE", none with a padded lot or a date for a lot. */
  lemma FitsIff(first: FirstLine, second: SecondLine, d: nat, m: nat, y: nat, n: nat)
    requires 1 <= d <= 28 && 1 <= m <= 12 && 24 <= y <= 29 && n <= 9999
    ensures Readable(TrainingLabel(first, second, d, m, y, n), TIMESTEPS) <==>
      first.VSlashes? && second.LoteNumber? && FewEnough(d, m, n)
  {
    var text := TrainingLabel(first, second, d, m, y, n);
    ReadableIff(text, TIMESTEPS);
    LabelSteps(first, second, d, m, y, n);
    SecondWordSteps(second, d, m, y, n);
    NeededTwo(d);
    NeededTwo(m);
    NeededTwo(y);
    if first.VSlashes? && second.LoteNumber? {
      VLabelKnown(d, m, y, n);
    }
  }

  /** A label with "VENCE" has at least 21 characters, so it never fits. */
  lemma VenceNeverFits(first: FirstLine, second: SecondLine, d: nat, m: nat, y: nat, n: nat)
    requires 1 <= d <= 28 && 1 <= m <= 12 && 24 <= y <= 29 && n <= 9999 && !first.VSlashes?
    ensures |TrainingLabel(first, second, d, m, y, n)| >= 21
    ensures !Readable(TrainingLabel(first, second, d, m, y, n), TIMESTEPS)
  {
    LabelSteps(first, second, d, m, y, n);
    SecondWordSteps(second, d, m, y, n);
    FitsIff(first, second, d, m, y, n);
  }
}
