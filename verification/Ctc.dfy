/** Greedy CTC decoding, as the vision daemon and its training script do it. */
module Ctc {
  import opened Wrappers

  /** A `float`; only whether it is finite matters besides its value. */
  datatype Float = Finite(value: real) | NaN | Infinite(negative: bool)

  const CHARS := "0123456789/:LOTEVNC"
  const BLANK: nat := 19
  const CLASSES: nat := 20

  // ---- What a path of classes means ---------------------------------------

  /** `path` with every run of one class reduced to one. */
  function CollapseRuns(path: seq<nat>): seq<nat> {
    if path == [] then []
    else
      var n := |path| - 1;
      if n > 0 && path[n - 1] == path[n] then CollapseRuns(path[..n]) else CollapseRuns(path[..n]) + [path[n]]
  }

  function RemoveBlanks(path: seq<nat>): seq<nat> {
    if path == [] then []
    else
      var n := |path| - 1;
      if path[n] == BLANK then RemoveBlanks(path[..n]) else RemoveBlanks(path[..n]) + [path[n]]
  }

  /** The CTC reading of a path: a class counts when it is no blank and differs
      from the one before it. */
  function Reading(path: seq<nat>): seq<nat> {
    if path == [] then []
    else
      var n := |path| - 1;
      if path[n] == BLANK || (n > 0 && path[n - 1] == path[n]) then Reading(path[..n])
      else Reading(path[..n]) + [path[n]]
  }

  lemma RemoveBlanksAppend(path: seq<nat>, c: nat)
    ensures RemoveBlanks(path + [c]) == if c == BLANK then RemoveBlanks(path) else RemoveBlanks(path) + [c]
  {
  }

  /** The reading is the textbook one: collapse runs, then remove blanks. */
  lemma {:induction false} ReadingIsCtc(path: seq<nat>)
    ensures Reading(path) == RemoveBlanks(CollapseRuns(path))
    decreases |path|
  {
    if path != [] {
      var n := |path| - 1;
      ReadingIsCtc(path[..n]);
      if n == 0 || path[n - 1] != path[n] {
        RemoveBlanksAppend(CollapseRuns(path[..n]), path[n]);
      }
    }
  }

  function Spell(classes: seq<nat>): string {
    if classes == [] then ""
    else
      var n := |classes| - 1;
      Spell(classes[..n]) + if classes[n] < |CHARS| then [CHARS[classes[n]]] else []
  }

  predicate FiniteRow(row: seq<Float>) {
    forall c :: 0 <= c < |row| ==> row[c].Finite?
  }

  /** `k` is the first class with the largest value. */
  predicate FirstMax(row: seq<Float>, k: nat)
    requires FiniteRow(row)
  {
    && k < |row|
    && (forall c :: 0 <= c < |row| ==> row[c].value <= row[k].value)
    && (forall c :: 0 <= c < k ==> row[c].value < row[k].value)
  }

  /** `path` is what the logits say: per step the first best class, and a blank
      where the step is corrupt. */
  predicate PathOf(rows: seq<seq<Float>>, path: seq<nat>) {
    |path| == |rows| && PathUpTo(rows, path)
  }

  predicate PathUpTo(rows: seq<seq<Float>>, path: seq<nat>) {
    && |path| <= |rows|
    && forall t :: 0 <= t < |path| ==>
         if FiniteRow(rows[t]) then FirstMax(rows[t], path[t]) else path[t] == BLANK
  }

  lemma PathIsUnique(rows: seq<seq<Float>>, p: seq<nat>, q: seq<nat>)
    requires PathOf(rows, p) && PathOf(rows, q)
    ensures p == q
  {
    forall t | 0 <= t < |rows| ensures p[t] == q[t] {
      if FiniteRow(rows[t]) {
        var row := rows[t];
        assert FirstMax(row, p[t]) && FirstMax(row, q[t]);
        assert row[p[t]].value <= row[q[t]].value <= row[p[t]].value;
      }
    }
  }

  lemma SpellAppend(classes: seq<nat>, c: nat)
    ensures Spell(classes + [c]) == Spell(classes) + if c < |CHARS| then [CHARS[c]] else []
  {
  }

  /** What one more step adds to the reading. */
  lemma ReadingAppend(path: seq<nat>, c: nat)
    ensures Reading(path + [c]) ==
      if c == BLANK || (path != [] && path[|path| - 1] == c) then Reading(path) else Reading(path) + [c]
  {
  }

  // ---- The two decoders ---------------------------------------------------

  /** The class of one time step, `-1` when a value is not finite. */
  method BestClass(row: seq<Float>) returns (k: int)
    requires row != []
    ensures if FiniteRow(row) then k >= 0 && FirstMax(row, k) else k == -1
  {
    var c := 0;
    while c < |row|
      invariant c <= |row|
      invariant FiniteRow(row[..c])
    {
      if !row[c].Finite? {
        assert !FiniteRow(row);
        return -1;
      }
      c := c + 1;
    }
    assert row[..c] == row;
    k := 0;
    var best := row[0].value;
    c := 1;
    while c < |row|
      invariant 1 <= c <= |row| && 0 <= k < c && best == row[k].value
      invariant forall i :: 0 <= i < c ==> row[i].value <= best
      invariant forall i :: 0 <= i < k ==> row[i].value < best
    {
      if row[c].value > best {
        best, k := row[c].value, c;
      }
      c := c + 1;
    }
  }

  /** Row `t` of a flat, row-major array of logits. */
  function RowOf(logits: seq<Float>, classes: nat, t: nat): (row: seq<Float>)
    requires (t + 1) * classes <= |logits|
    ensures |row| == classes
  {
    assert (t + 1) * classes == t * classes + classes;
    logits[t * classes..t * classes + classes]
  }

  lemma RowFits(t: nat, steps: nat, classes: nat)
    requires t < steps
    ensures (t + 1) * classes <= steps * classes
  {
    var after := steps - (t + 1);
    assert steps * classes == (t + 1) * classes + after * classes;
  }

  function Rows(logits: seq<Float>, classes: nat, steps: nat): (rows: seq<seq<Float>>)
    requires steps * classes <= |logits|
    ensures |rows| == steps
  {
    seq(steps, t requires 0 <= t < steps =>
      RowFits(t, steps, classes);
      RowOf(logits, classes, t))
  }

  lemma RowAt(logits: seq<Float>, classes: nat, steps: nat, t: nat)
    requires steps * classes <= |logits| && t < steps
    ensures (t + 1) * classes <= |logits| && Rows(logits, classes, steps)[t] == RowOf(logits, classes, t)
  {
    RowFits(t, steps, classes);
  }

  method BestClassAt(logits: seq<Float>, classes: nat, steps: nat, t: nat) returns (k: int)
    requires 0 < classes && t < steps && |logits| == steps * classes && InTable(Rows(logits, classes, steps))
    ensures
      var row := Rows(logits, classes, steps)[t];
      if FiniteRow(row) then 0 <= k < CLASSES && FirstMax(row, k) else k == -1
  {
    RowAt(logits, classes, steps, t);
    k := BestClass(RowOf(logits, classes, t));
  }

  /** The class a decoder's best class stands for in the path. */
  function PathClass(best: int): nat
    requires best >= -1
  {
    if best == -1 then BLANK else best
  }

  /** One turn of the decoding loop, when `prev` remembers the end of `path`. */
  lemma TurnSpells(path: seq<nat>, prev: int, best: int)
    requires prev >= -1 && -1 <= best < CLASSES
    requires if path == [] then prev == -1 else PathClass(prev) == path[|path| - 1]
    ensures Spell(Reading(path + [PathClass(best)])) ==
      Spell(Reading(path)) + if best != -1 && best != BLANK && best != prev then [CHARS[best]] else []
  {
    ReadingAppend(path, PathClass(best));
    SpellAppend(Reading(path), PathClass(best));
  }

  /** No finite step has its first best class beyond the table of characters. */
  ghost predicate InTable(rows: seq<seq<Float>>) {
    forall t: nat, k: nat :: t < |rows| && FiniteRow(rows[t]) && FirstMax(rows[t], k) ==> k < CLASSES
  }

  /** `greedy_ctc_decode` of the daemon.  `None` is a null pointer. */
  method GreedyDecode(logits: Option<seq<Float>>, timesteps: int, numClasses: int)
    returns (text: string, ghost path: seq<nat>)
    requires logits.Some? && timesteps > 0 && numClasses > 0 ==>
      |logits.value| == timesteps * numClasses && InTable(Rows(logits.value, numClasses, timesteps))
    ensures logits.None? || timesteps <= 0 || numClasses <= 0 ==> text == ""
    ensures logits.Some? && timesteps > 0 && numClasses > 0 ==>
      PathOf(Rows(logits.value, numClasses, timesteps), path) && text == Spell(Reading(path))
  {
    text, path := "", [];
    if logits.None? || timesteps <= 0 || numClasses <= 0 {
      return;
    }
    ghost var rows := Rows(logits.value, numClasses, timesteps);
    var prev := -1;
    var t := 0;
    while t < timesteps
      invariant 0 <= t <= timesteps == |rows|
      invariant |path| == t && PathUpTo(rows, path)
      invariant text == Spell(Reading(path))
      invariant prev >= -1 && if path == [] then prev == -1 else PathClass(prev) == path[|path| - 1]
    {
      var best := BestClassAt(logits.value, numClasses, timesteps, t);
      TurnSpells(path, prev, best);
      PathAppend(rows, path, PathClass(best));
      if best != -1 && best != BLANK && best != prev {
        text := text + [CHARS[best]];
      }
      prev := best;
      path := path + [PathClass(best)];
      t := t + 1;
    }
  }

  lemma PathAppend(rows: seq<seq<Float>>, path: seq<nat>, k: nat)
    requires PathUpTo(rows, path) && |path| < |rows|
    requires var row := rows[|path|]; if FiniteRow(row) then FirstMax(row, k) else k == BLANK
    ensures PathUpTo(rows, path + [k])
  {
  }

  /** `decode_ctc` of the training script, for one item of the batch. */
  method DecodeCtc(preds: seq<nat>) returns (text: string)
    ensures text == Spell(Reading(preds))
  {
    text := "";
    var prev := -1;
    var t := 0;
    while t < |preds|
      invariant t <= |preds|
      invariant text == Spell(Reading(preds[..t]))
      invariant prev == if t == 0 then -1 else preds[t - 1]
    {
      var c := preds[t];
      assert preds[..t + 1] == preds[..t] + [c];
      assert t > 0 ==> preds[..t][t - 1] == preds[t - 1];
      ReadingAppend(preds[..t], c);
      SpellAppend(Reading(preds[..t]), c);
      if c != BLANK && c != prev {
        if c < |CHARS| {
          text := text + [CHARS[c]];
        }
      }
      prev := c;
      t := t + 1;
    }
    assert preds[..t] == preds;
  }

  /** `k` is a class with the largest value. */
  predicate Best(row: seq<Float>, k: nat)
    requires FiniteRow(row)
  {
    k < |row| && forall c :: 0 <= c < |row| ==> row[c].value <= row[k].value
  }

  lemma OnlyBestIsFirst(row: seq<Float>, k: nat)
    requires FiniteRow(row) && Best(row, k)
    requires forall c :: 0 <= c < |row| && c != k ==> !Best(row, c)
    ensures FirstMax(row, k)
  {
    forall c | 0 <= c < k ensures row[c].value < row[k].value {
      assert !Best(row, c);
    }
  }

  /** On finite logits both decoders give the same text, if the script's argmax
      takes the first best class wherever there are several. */
  lemma DecodersAgree(rows: seq<seq<Float>>, path: seq<nat>, preds: seq<nat>)
    requires PathOf(rows, path) && |preds| == |rows|
    requires forall t :: 0 <= t < |rows| ==>
      && FiniteRow(rows[t]) && Best(rows[t], preds[t])
      && (FirstMax(rows[t], preds[t]) || forall c :: 0 <= c < |rows[t]| && c != preds[t] ==> !Best(rows[t], c))
    ensures Spell(Reading(path)) == Spell(Reading(preds))
  {
    forall t | 0 <= t < |rows| ensures FirstMax(rows[t], preds[t]) {
      if !FirstMax(rows[t], preds[t]) {
        OnlyBestIsFirst(rows[t], preds[t]);
      }
    }
    PathIsUnique(rows, path, preds);
  }
}
