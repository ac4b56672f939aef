/** The labels the OCR training set is made of, and which of them the model can
learn to read at all. */
module OcrLabels {
  import opened Wrappers
  import opened Ctc
  import opened CtcAlignment

  const TIMESTEPS: nat := 18

  // ---- Encoding a label ---------------------------------------------------

  predicate Known(text: string) {
    forall i :: 0 <= i < |text| ==> text[i] in CHARS
  }

  /** `CHARS.find`. */
  method FindChar(c: char) returns (index: int)
    ensures if c in CHARS then 0 <= index < |CHARS| && CHARS[index] == c else index == -1
  {
    index := 0;
    while index < |CHARS|
      invariant 0 <= index <= |CHARS| && c !in CHARS[..index]
    {
      if CHARS[index] == c {
        return;
      }
      assert CHARS[..index + 1] == CHARS[..index] + [CHARS[index]];
      index := index + 1;
    }
    assert CHARS[..index] == CHARS;
    index := -1;
  }

  /** Proper classes, blanks excluded, that spell the text. */
  predicate Encodes(classes: seq<nat>, text: string) {
    Classes(classes) && NoBlanks(classes) && Spell(classes) == text
  }

  lemma {:induction false} EncodedAppend(classes: seq<nat>, index: nat)
    requires Classes(classes) && NoBlanks(classes) && index < |CHARS|
    ensures Encodes(classes + [index], Spell(classes) + [CHARS[index]])
  {
    SpellAppend(classes, index);
  }

  /** `encode_label`; `None` is its `ValueError`. */
  method EncodeLabel(text: string) returns (indices: Option<seq<nat>>)
    ensures indices.Some? <==> Known(text)
    ensures indices.Some? ==> Encodes(indices.value, text)
  {
    var list: seq<nat> := [];
    var i := 0;
    while i < |text|
      invariant i <= |text| && forall j :: 0 <= j < i ==> text[j] in CHARS
      invariant Encodes(list, text[..i])
    {
      var index := FindChar(text[i]);
      if index == -1 {
        return None;
      }
      EncodedAppend(list, index);
      assert text[..i + 1] == text[..i] + [text[i]];
      list := list + [index];
      i := i + 1;
    }
    assert text[..i] == text;
    return Some(list);
  }

  function IndexFrom(c: char, k: nat): nat
    requires k <= |CHARS|
    decreases |CHARS| - k
  {
    if k == |CHARS| || CHARS[k] == c then k else IndexFrom(c, k + 1)
  }

  lemma {:induction false} IndexFromFinds(c: char, k: nat)
    requires k <= |CHARS| && c in CHARS[k..]
    ensures IndexFrom(c, k) < |CHARS| && CHARS[IndexFrom(c, k)] == c
    decreases |CHARS| - k
  {
    if CHARS[k] != c {
      assert CHARS[k..] == [CHARS[k]] + CHARS[k + 1..];
      IndexFromFinds(c, k + 1);
    }
  }

  /** The classes that spell a known text. */
  function ClassesOf(text: string): seq<nat> {
    if text == "" then [] else ClassesOf(text[..|text| - 1]) + [IndexFrom(text[|text| - 1], 0)]
  }

  lemma {:induction false} IndexFound(c: char)
    requires c in CHARS
    ensures IndexFrom(c, 0) < |CHARS| && CHARS[IndexFrom(c, 0)] == c
  {
    assert CHARS[0..] == CHARS;
    IndexFromFinds(c, 0);
  }

  lemma {:induction false} ClassesOfSpell(text: string)
    requires Known(text)
    ensures Classes(ClassesOf(text)) && NoBlanks(ClassesOf(text))
    ensures Spell(ClassesOf(text)) == text
    decreases |text|
  {
    if text != "" {
      var n := |text| - 1;
      ClassesOfSpell(text[..n]);
      IndexFound(text[n]);
      SpellAppend(ClassesOf(text[..n]), IndexFrom(text[n], 0));
      assert text == text[..n] + [text[n]];
    }
  }

  lemma {:induction false} SpellPointwise(classes: seq<nat>)
    requires NoBlanks(classes) && Classes(classes)
    ensures |Spell(classes)| == |classes|
    ensures forall i :: 0 <= i < |classes| ==> Spell(classes)[i] == CHARS[classes[i]]
    decreases |classes|
  {
    if classes != [] {
      var n := |classes| - 1;
      SpellPointwise(classes[..n]);
      assert classes == classes[..n] + [classes[n]];
      SpellAppend(classes[..n], classes[n]);
    }
  }

  lemma SpellKnown(classes: seq<nat>)
    requires NoBlanks(classes) && Classes(classes)
    ensures Known(Spell(classes))
  {
    SpellPointwise(classes);
  }

  lemma CharsDiffer(i: nat, j: nat)
    requires i < |CHARS| && j < |CHARS| && CHARS[i] == CHARS[j]
    ensures i == j
  {
  }

  lemma {:induction false} SpelledDoubles(classes: seq<nat>)
    requires NoBlanks(classes) && Classes(classes)
    ensures Doubles(Spell(classes)) == Doubles(classes)
    decreases |classes|
  {
    SpellPointwise(classes);
    if |classes| > 1 {
      var n := |classes| - 1;
      SpelledDoubles(classes[..n]);
      SpellPointwise(classes[..n]);
      assert Spell(classes)[..n] == Spell(classes[..n]);
      if CHARS[classes[n - 1]] == CHARS[classes[n]] {
        CharsDiffer(classes[n - 1], classes[n]);
      }
    }
  }

  /** Some output of the model with `steps` time steps is read as `text`. */
  ghost predicate Readable(text: string, steps: nat) {
    exists path :: |path| == steps && Classes(path) && Spell(Reading(path)) == text
  }

  lemma {:induction false} NeededSpelled(classes: seq<nat>)
    requires NoBlanks(classes) && Classes(classes)
    ensures Needed(Spell(classes)) == Needed(classes)
  {
    SpellPointwise(classes);
    SpelledDoubles(classes);
  }

  lemma {:induction false} ReadableMeans(path: seq<nat>)
    requires Classes(path)
    ensures Known(Spell(Reading(path))) && |path| >= Needed(Spell(Reading(path)))
  {
    ReadingEnds(path);
    ReadingClasses(path);
    SpellKnown(Reading(path));
    NeededSpelled(Reading(path));
    LongEnough(path);
  }

  lemma {:induction false} LongEnoughToRead(text: string, steps: nat)
    requires Known(text) && steps >= Needed(text)
    ensures Readable(text, steps)
  {
    var word := ClassesOf(text);
    ClassesOfSpell(text);
    NeededSpelled(word);
    AlignmentBound(word, steps);
    var path :| |path| == steps && Classes(path) && Reading(path) == word;
    assert Spell(Reading(path)) == text;
  }

  /** A text can be read exactly when its characters are known and there are
      enough time steps for it. */
  lemma {:induction false} ReadableIff(text: string, steps: nat)
    ensures Readable(text, steps) <==> Known(text) && steps >= Needed(text)
  {
    if Readable(text, steps) {
      var path :| |path| == steps && Classes(path) && Spell(Reading(path)) == text;
      ReadableMeans(path);
    }
    if Known(text) && steps >= Needed(text) {
      LongEnoughToRead(text, steps);
    }
  }
}
