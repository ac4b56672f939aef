/** How many time steps a word needs before a path can decode to it. */
module CtcAlignment {
  import opened Ctc

  /** Neighbouring positions of `s` that hold the same element. */
  function Doubles<T(==)>(s: seq<T>): nat {
    if |s| <= 1 then 0
    else
      var n := |s| - 1;
      Doubles(s[..n]) + if s[n - 1] == s[n] then 1 else 0
  }

  /** The steps a word needs: one per element, and a blank inside each double. */
  function Needed<T(==)>(s: seq<T>): nat {
    |s| + Doubles(s)
  }

  lemma NeededAppend<T>(s: seq<T>, x: T)
    ensures Needed(s + [x]) == Needed(s) + 1 + if s != [] && s[|s| - 1] == x then 1 else 0
  {
  }

  predicate NoBlanks(word: seq<nat>) {
    forall i :: 0 <= i < |word| ==> word[i] != BLANK
  }

  predicate Classes(path: seq<nat>) {
    forall i :: 0 <= i < |path| ==> path[i] < CLASSES
  }

  /** The end of a path tells how its reading ends. */
  lemma {:induction false} ReadingEnds(path: seq<nat>)
    ensures NoBlanks(Reading(path))
    ensures path != [] && path[|path| - 1] != BLANK ==>
      Reading(path) != [] && Reading(path)[|Reading(path)| - 1] == path[|path| - 1]
    decreases |path|
  {
    if path != [] {
      var n := |path| - 1;
      ReadingEnds(path[..n]);
      assert path == path[..n] + [path[n]];
      ReadingAppend(path[..n], path[n]);
    }
  }

  lemma {:induction false} ReadingClasses(path: seq<nat>)
    requires Classes(path)
    ensures Classes(Reading(path))
    decreases |path|
  {
    if path != [] {
      var n := |path| - 1;
      ReadingClasses(path[..n]);
      assert path == path[..n] + [path[n]];
      ReadingAppend(path[..n], path[n]);
    }
  }

  /** A path is at least as long as its reading needs, and one longer when it
      ends in a blank. */
  lemma {:induction false} LongEnough(path: seq<nat>)
    ensures |path| >= Needed(Reading(path))
    ensures path != [] && path[|path| - 1] == BLANK ==> |path| >= Needed(Reading(path)) + 1
    decreases |path|
  {
    if path != [] {
      var n := |path| - 1;
      LongEnough(path[..n]);
      assert path == path[..n] + [path[n]];
      ReadingAppend(path[..n], path[n]);
      ReadingEnds(path[..n]);
      if Reading(path) != Reading(path[..n]) {
        NeededAppend(Reading(path[..n]), path[n]);
      }
    }
  }

  /** The shortest path that reads as `word`. */
  function Shortest(word: seq<nat>): seq<nat> {
    if word == [] then []
    else
      var n := |word| - 1;
      Shortest(word[..n]) + (if n > 0 && word[n - 1] == word[n] then [BLANK] else []) + [word[n]]
  }

  lemma {:induction false} ShortestReads(word: seq<nat>)
    requires NoBlanks(word)
    ensures Reading(Shortest(word)) == word
    ensures |Shortest(word)| == Needed(word)
    ensures word != [] ==> Shortest(word) != [] && Shortest(word)[|Shortest(word)| - 1] == word[|word| - 1]
    decreases |word|
  {
    if word != [] {
      var n := |word| - 1;
      var shorter := Shortest(word[..n]);
      ShortestReads(word[..n]);
      assert word == word[..n] + [word[n]];
      NeededAppend(word[..n], word[n]);
      if n > 0 && word[n - 1] == word[n] {
        ReadingAppend(shorter, BLANK);
        ReadingAppend(shorter + [BLANK], word[n]);
      } else {
        assert shorter + [] == shorter;
        ReadingAppend(shorter, word[n]);
      }
    }
  }

  lemma {:induction false} ShortestClasses(word: seq<nat>)
    requires Classes(word)
    ensures Classes(Shortest(word))
    decreases |word|
  {
    if word != [] {
      ShortestClasses(word[..|word| - 1]);
    }
  }

  function Padded(path: seq<nat>, steps: nat): seq<nat>
    decreases steps - |path|
  {
    if |path| >= steps then path else Padded(path + [BLANK], steps)
  }

  lemma {:induction false} PaddingIsSilent(path: seq<nat>, steps: nat)
    requires |path| <= steps
    ensures |Padded(path, steps)| == steps && Reading(Padded(path, steps)) == Reading(path)
    ensures Classes(path) ==> Classes(Padded(path, steps))
    decreases steps - |path|
  {
    if |path| < steps {
      ReadingAppend(path, BLANK);
      PaddingIsSilent(path + [BLANK], steps);
    }
  }

  /** Some path of `steps` classes decodes to `word`. */
  ghost predicate Decodable(word: seq<nat>, steps: nat) {
    exists path :: |path| == steps && Classes(path) && Reading(path) == word
  }

  /** A word of proper classes can be decoded exactly when there are enough
      steps. */
  lemma AlignmentBound(word: seq<nat>, steps: nat)
    requires NoBlanks(word) && Classes(word)
    ensures Decodable(word, steps) <==> steps >= Needed(word)
  {
    if steps >= Needed(word) {
      ShortestReads(word);
      ShortestClasses(word);
      PaddingIsSilent(Shortest(word), steps);
    } else if Decodable(word, steps) {
      var path :| |path| == steps && Classes(path) && Reading(path) == word;
      LongEnough(path);
    }
  }
}
