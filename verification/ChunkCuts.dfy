/** Where the chunker cuts: inside a line, a sentence or a word only when it is too long for a window. */
module ChunkCuts {
  import opened PyText
  import opened ChunkSpec
  import opened ChunkDescent

  const DEFAULT_SEPARATORS: seq<string> := ["\n\n", "\n", ". ", " ", ""]

  lemma {:induction false} OneChar(text: string, b: char, i: nat)
    requires i < |text|
    ensures At(text, [b], i) <==> text[i] == b
  {
    assert text[i..i + 1] == [text[i]];
  }

  lemma {:induction false} LastChar(text: string, s: string, x: nat)
    requires s != "" && At(text, s, x - |s|)
    ensures 0 < x <= |text| && text[x - 1] == s[|s| - 1]
  {
    assert text[x - |s|..x][|s| - 1] == text[x - 1];
  }

  /** A stretch that reaches behind a separator does not begin before it. */
  lemma {:induction false} StretchBegins(text: string, seps: seq<string>, c: nat, d: nat, a: nat, open: string)
    requires Stretch(text, seps, c, d) && open in seps && At(text, open, a - |open|) && a < d
    ensures a - |open| < c
  {
  }

  /** A stretch that begins before a separator ends with it, or earlier. */
  lemma {:induction false} StretchEnds(text: string, seps: seq<string>, c: nat, d: nat, b: nat, close: string)
    requires Stretch(text, seps, c, d) && close in seps && At(text, close, b) && c <= b
    ensures d <= b + |close|
  {
  }

  // ---------- Lines ----------

  /** A maximal run without a line break. */
  predicate Line(text: string, a: nat, b: nat) {
    && a < b <= |text| && (forall x :: a <= x < b ==> text[x] != '\n')
    && (a == 0 || text[a - 1] == '\n') && (b == |text| || text[b] == '\n')
  }

  /** The line break is among the separators, and all of them end in one. */
  predicate LineSeparators(seps: seq<string>) {
    "\n" in seps && forall s :: s in seps ==> s != "" && s[|s| - 1] == '\n'
  }

  lemma {:induction false} StretchOfLine(text: string, seps: seq<string>, c: nat, d: nat, e: nat, a: nat, b: nat)
    requires LineSeparators(seps) && Line(text, a, b) && a < e < b && Stretch(text, seps, c, d) && c < e < d
    ensures a <= c && d <= if b == |text| then b else b + 1
  {
    if a > 0 {
      OneChar(text, '\n', a - 1);
      StretchBegins(text, seps, c, d, a, "\n");
    }
    if b < |text| {
      OneChar(text, '\n', b);
      StretchEnds(text, seps, c, d, b, "\n");
    }
  }

  lemma {:induction false} LineCloses(text: string, seps: seq<string>, x: nat)
    requires LineSeparators(seps) && Closes(text, seps, x)
    ensures 0 < x <= |text| && text[x - 1] == '\n'
  {
    var s :| s in seps && At(text, s, x - |s|);
    LastChar(text, s, x);
  }

  lemma {:induction false} LongLine(size: Size, text: string, seps: seq<string>, last: bool, e: nat, a: nat, b: nat)
    requires LineSeparators(seps) && Line(text, a, b) && a < e < b && DescentCut(size, text, seps, last, e)
    ensures (if b == |text| then b else b + 1) - a > size
  {
    if Closes(text, seps, e) {
      LineCloses(text, seps, e);
    }
    var c: nat, d: nat :| CutsLong(size, text, seps, last, e, c, d);
    StretchOfLine(text, seps, c, d, e, a, b);
  }

  /** When the first `n` separators are those of lines, a chunk ends inside a line only if the line, its line break
      included, is longer than a window. */
  lemma {:induction false} LineCuts(
    size: Size, overlap: nat, seps: seq<string>, n: nat, text: string, i: nat, a: nat, b: nat)
    requires n <= |seps| && LineSeparators(seps[..n]) && i < |Chunks(size, overlap, seps, text)|
    requires Line(text, a, b) && a < Chunks(size, overlap, seps, text)[i].charEnd < b
    ensures (if b == |text| then b else b + 1) - a > size
  {
    assert forall j :: 0 <= j < n ==> seps[j] in seps[..n];
    DescentLaw(size, overlap, seps, n, text, i);
    LongLine(size, text, seps[..n], LastOnes(seps, n), Chunks(size, overlap, seps, text)[i].charEnd, a, b);
  }

  lemma {:induction false} DefaultLineCuts(size: Size, overlap: nat, text: string, i: nat, a: nat, b: nat)
    requires i < |Chunks(size, overlap, DEFAULT_SEPARATORS, text)| && Line(text, a, b)
    requires a < Chunks(size, overlap, DEFAULT_SEPARATORS, text)[i].charEnd < b
    ensures (if b == |text| then b else b + 1) - a > size
  {
    assert DEFAULT_SEPARATORS[..2] == ["\n\n", "\n"] && DEFAULT_SEPARATORS[..2][1] == "\n";
    LineCuts(size, overlap, DEFAULT_SEPARATORS, 2, text, i, a, b);
  }

  // ---------- Sentences ----------

  predicate FullStop(text: string, x: int) {
    0 <= x && x + 2 <= |text| && text[x] == '.' && text[x + 1] == ' '
  }

  lemma {:induction false} FullStopAt(text: string, x: int)
    ensures At(text, ". ", x) <==> FullStop(text, x)
  {
    if 0 <= x && x + 2 <= |text| {
      assert text[x..x + 2] == [text[x], text[x + 1]];
    }
  }

  /** A maximal run without a line break and without a full stop and space. */
  predicate Sentence(text: string, a: nat, b: nat) {
    && a < b <= |text| && (forall x :: a <= x < b ==> text[x] != '\n')
    && (forall x :: a <= x < b - 1 ==> !FullStop(text, x))
    && (a == 0 || text[a - 1] == '\n' || FullStop(text, a - 2))
    && (b == |text| || text[b] == '\n' || FullStop(text, b))
  }

  /** The line break and the full stop are among the separators, and all others end in a line break. */
  predicate SentenceSeparators(seps: seq<string>) {
    "\n" in seps && ". " in seps && forall s :: s in seps && s != ". " ==> s != "" && s[|s| - 1] == '\n'
  }

  /** Where the sentence ends with the separator that closes it. */
  function Behind(text: string, b: nat): nat
    requires b <= |text|
  {
    if b == |text| then b else if text[b] == '\n' then b + 1 else b + 2
  }

  lemma {:induction false} SentenceCloses(text: string, seps: seq<string>, x: nat)
    requires SentenceSeparators(seps) && Closes(text, seps, x)
    ensures 0 < x <= |text| && (text[x - 1] == '\n' || FullStop(text, x - 2))
  {
    var s :| s in seps && At(text, s, x - |s|);
    if s == ". " {
      FullStopAt(text, x - 2);
    } else {
      LastChar(text, s, x);
    }
  }

  lemma {:induction false} NoStopInside(text: string, seps: seq<string>, a: nat, b: nat, e: nat)
    requires SentenceSeparators(seps) && Sentence(text, a, b) && a < e < b
    ensures !Closes(text, seps, e)
  {
    if Closes(text, seps, e) {
      SentenceCloses(text, seps, e);
    }
  }

  lemma {:induction false} SentenceBegins(text: string, seps: seq<string>, c: nat, d: nat, e: nat, a: nat, b: nat)
    requires SentenceSeparators(seps) && Sentence(text, a, b) && a < e < b && Stretch(text, seps, c, d) && c < e < d
    ensures a <= c
  {
    if a > 0 && text[a - 1] == '\n' {
      OneChar(text, '\n', a - 1);
      StretchBegins(text, seps, c, d, a, "\n");
    } else if a > 0 {
      FullStopAt(text, a - 2);
      StretchBegins(text, seps, c, d, a, ". ");
      if c == a - 1 {
        SentenceCloses(text, seps, c);
      }
    }
  }

  lemma {:induction false} StretchOfSentence(text: string, seps: seq<string>, c: nat, d: nat, e: nat, a: nat, b: nat)
    requires SentenceSeparators(seps) && Sentence(text, a, b) && a < e < b && Stretch(text, seps, c, d) && c < e < d
    ensures a <= c && d <= Behind(text, b)
  {
    SentenceBegins(text, seps, c, d, e, a, b);
    if b < |text| && text[b] == '\n' {
      OneChar(text, '\n', b);
      StretchEnds(text, seps, c, d, b, "\n");
    } else if b < |text| {
      FullStopAt(text, b);
      StretchEnds(text, seps, c, d, b, ". ");
    }
  }

  lemma {:induction false} LongSentence(
    size: Size, text: string, seps: seq<string>, last: bool, e: nat, a: nat, b: nat)
    requires SentenceSeparators(seps) && Sentence(text, a, b) && a < e < b && DescentCut(size, text, seps, last, e)
    ensures Behind(text, b) - a > size
  {
    NoStopInside(text, seps, a, b, e);
    var c: nat, d: nat :| CutsLong(size, text, seps, last, e, c, d);
    StretchOfSentence(text, seps, c, d, e, a, b);
  }

  /** When the first `n` separators are those of lines and sentences, a chunk ends inside a sentence only if the
      sentence, with what closes it, is longer than a window. */
  lemma {:induction false} SentenceCuts(
    size: Size, overlap: nat, seps: seq<string>, n: nat, text: string, i: nat, a: nat, b: nat)
    requires n <= |seps| && SentenceSeparators(seps[..n]) && i < |Chunks(size, overlap, seps, text)|
    requires Sentence(text, a, b) && a < Chunks(size, overlap, seps, text)[i].charEnd < b
    ensures Behind(text, b) - a > size
  {
    assert forall j :: 0 <= j < n ==> seps[j] in seps[..n];
    DescentLaw(size, overlap, seps, n, text, i);
    LongSentence(size, text, seps[..n], LastOnes(seps, n), Chunks(size, overlap, seps, text)[i].charEnd, a, b);
  }

  lemma {:induction false} DefaultSentenceCuts(size: Size, overlap: nat, text: string, i: nat, a: nat, b: nat)
    requires i < |Chunks(size, overlap, DEFAULT_SEPARATORS, text)| && Sentence(text, a, b)
    requires a < Chunks(size, overlap, DEFAULT_SEPARATORS, text)[i].charEnd < b
    ensures Behind(text, b) - a > size
  {
    var three := DEFAULT_SEPARATORS[..3];
    assert three == ["\n\n", "\n", ". "] && three[1] == "\n" && three[2] == ". ";
    SentenceCuts(size, overlap, DEFAULT_SEPARATORS, 3, text, i, a, b);
  }

  // ---------- Words ----------

  predicate IsBreak(c: char) { c == ' ' || c == '\n' }

  /** A maximal run without a space and without a line break. */
  predicate Word(text: string, a: nat, b: nat) {
    && a < b <= |text| && (forall i :: a <= i < b ==> !IsBreak(text[i]))
    && (a == 0 || IsBreak(text[a - 1])) && (b == |text| || IsBreak(text[b]))
  }

  /** `s` is tried before the empty separator. */
  predicate Tried(seps: seq<string>, s: string) {
    seps != [] && seps[0] != "" && (seps[0] == s || Tried(seps[1..], s))
  }

  /** Every separator but the empty one ends in a space or a line break. */
  predicate EndInBreaks(seps: seq<string>) {
    forall s :: s in seps && s != "" ==> IsBreak(s[|s| - 1])
  }

  /** The separators before the empty one. */
  function Proper(seps: seq<string>): (n: nat)
    ensures n <= |seps| && NoneEmpty(seps, n) && LastOnes(seps, n)
  {
    if seps == [] || seps[0] == "" then 0
    else
      var n := Proper(seps[1..]);
      assert forall j :: 0 < j < n + 1 ==> seps[j] == seps[1..][j - 1];
      n + 1
  }

  lemma {:induction false} TriedIsProper(seps: seq<string>, s: string)
    requires Tried(seps, s)
    ensures s in seps[..Proper(seps)]
    decreases |seps|
  {
    if seps[0] == s {
      assert seps[..Proper(seps)][0] == s;
    } else {
      TriedIsProper(seps[1..], s);
      assert seps[..Proper(seps)] == [seps[0]] + seps[1..][..Proper(seps[1..])];
    }
  }

  /** The space and the line break are among the separators, and all of them end in one of the two. */
  predicate WordSeparators(seps: seq<string>) {
    " " in seps && "\n" in seps && forall s :: s in seps ==> s != "" && IsBreak(s[|s| - 1])
  }

  lemma {:induction false} WordCloses(text: string, seps: seq<string>, x: nat)
    requires WordSeparators(seps) && Closes(text, seps, x)
    ensures 0 < x <= |text| && IsBreak(text[x - 1])
  {
    var s :| s in seps && At(text, s, x - |s|);
    LastChar(text, s, x);
  }

  lemma {:induction false} StretchOfWord(
    text: string, seps: seq<string>, c: nat, d: nat, e: nat, a: nat, b: nat)
    requires WordSeparators(seps) && Word(text, a, b) && a < e < b && Stretch(text, seps, c, d) && c < e < d
    ensures c == a
  {
    if c > 0 {
      WordCloses(text, seps, c);
    }
    if a > 0 {
      OneChar(text, text[a - 1], a - 1);
      StretchBegins(text, seps, c, d, a, [text[a - 1]]);
    }
  }

  lemma {:induction false} LongWord(size: Size, text: string, seps: seq<string>, e: nat, a: nat, b: nat)
    requires WordSeparators(seps) && Word(text, a, b) && a < e < b && DescentCut(size, text, seps, true, e)
    ensures b - a > size && FullWindows(size, e - a)
  {
    if Closes(text, seps, e) {
      WordCloses(text, seps, e);
    }
    var c: nat, d: nat :| CutsLong(size, text, seps, true, e, c, d);
    StretchOfWord(text, seps, c, d, e, a, b);
  }

  /** When the first `n` separators are those of words, and only characters are left after them, a chunk ends
      inside a word only if the word is longer than a window, and then a number of full windows from its
      beginning. */
  lemma {:induction false} WordCuts(
    size: Size, overlap: nat, seps: seq<string>, n: nat, text: string, i: nat, a: nat, b: nat)
    requires n <= |seps| && WordSeparators(seps[..n]) && LastOnes(seps, n) && i < |Chunks(size, overlap, seps, text)|
    requires Word(text, a, b) && a < Chunks(size, overlap, seps, text)[i].charEnd < b
    ensures b - a > size && FullWindows(size, Chunks(size, overlap, seps, text)[i].charEnd - a)
  {
    assert forall j :: 0 <= j < n ==> seps[j] in seps[..n];
    DescentLaw(size, overlap, seps, n, text, i);
    LongWord(size, text, seps[..n], Chunks(size, overlap, seps, text)[i].charEnd, a, b);
  }

  lemma {:induction false} ProperWords(seps: seq<string>)
    requires EndInBreaks(seps) && Tried(seps, " ") && Tried(seps, "\n")
    ensures WordSeparators(seps[..Proper(seps)])
  {
    TriedIsProper(seps, " ");
    TriedIsProper(seps, "\n");
    forall s | s in seps[..Proper(seps)] ensures s != "" && IsBreak(s[|s| - 1]) {
      assert s in seps;
    }
  }

  /** It holds for any separators that end in breaks and try the space and the line break before giving up. */
  lemma {:induction false} NaturalCuts(
    size: Size, overlap: nat, seps: seq<string>, text: string, i: nat, a: nat, b: nat)
    requires EndInBreaks(seps) && Tried(seps, " ") && Tried(seps, "\n")
    requires i < |Chunks(size, overlap, seps, text)| && Word(text, a, b)
    requires a < Chunks(size, overlap, seps, text)[i].charEnd < b
    ensures b - a > size && FullWindows(size, Chunks(size, overlap, seps, text)[i].charEnd - a)
  {
    ProperWords(seps);
    WordCuts(size, overlap, seps, Proper(seps), text, i, a, b);
  }

  lemma {:induction false} DefaultWords()
    ensures WordSeparators(DEFAULT_SEPARATORS[..4]) && LastOnes(DEFAULT_SEPARATORS, 4)
  {
    var four := DEFAULT_SEPARATORS[..4];
    assert four == ["\n\n", "\n", ". ", " "] && four[1] == "\n" && four[3] == " ";
  }

  /** The default separators qualify. */
  lemma {:induction false} DefaultNaturalCuts(size: Size, overlap: nat, text: string, i: nat, a: nat, b: nat)
    requires i < |Chunks(size, overlap, DEFAULT_SEPARATORS, text)| && Word(text, a, b)
    requires a < Chunks(size, overlap, DEFAULT_SEPARATORS, text)[i].charEnd < b
    ensures b - a > size && FullWindows(size, Chunks(size, overlap, DEFAULT_SEPARATORS, text)[i].charEnd - a)
  {
    DefaultWords();
    WordCuts(size, overlap, DEFAULT_SEPARATORS, 4, text, i, a, b);
  }
}
