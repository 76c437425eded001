/** The preview of an answer: its words on one line, cut to a fixed length. */
module SignalPreview {
  import opened Basics
  import opened Text

  const PREVIEW_LIMIT: nat := 360

  /** `split_whitespace`: the maximal runs of characters that are not white space. `word` holds the
      characters read since the last white space. */
  function WordsFrom(s: string, word: string): seq<string> {
    if s == "" then (if word == "" then [] else [word])
    else if IsSpace(s[0]) then (if word == "" then [] else [word]) + WordsFrom(s[1..], "")
    else WordsFrom(s[1..], word + [s[0]])
  }

  function Words(s: string): seq<string> {
    WordsFrom(s, "")
  }

  function Join(words: seq<string>): string {
    if words == [] then ""
    else if |words| == 1 then words[0]
    else words[0] + " " + Join(words[1..])
  }

  function Truncate(s: string, limit: nat): string {
    if |s| > limit then s[..limit] + "..." else s
  }

  function Compact(s: string): string {
    Join(Words(s))
  }

  function Preview(s: string): string {
    Truncate(Compact(s), PREVIEW_LIMIT)
  }

  datatype AnswerDetail = PreviewOnly | Full

  /** The answer that goes into a signal: trimmed, or its preview; nothing when it is blank. */
  function AnswerForConfig(answer: Option<string>, detail: AnswerDetail): Option<string> {
    if answer.None? || Trim(answer.value) == "" then None
    else
      var content := if detail.PreviewOnly? then Preview(Trim(answer.value)) else Trim(answer.value);
      if content == "" then None else Some(content)
  }

  // ---- compact texts ----

  predicate IsWord(s: string) {
    s != "" && SpaceFree(s)
  }

  lemma {:induction false} WordsAreWords(s: string, word: string)
    requires SpaceFree(word)
    ensures forall w :: w in WordsFrom(s, word) ==> IsWord(w)
  {
    if s == "" {
    } else {
      if IsSpace(s[0]) {
        WordsAreWords(s[1..], "");
      } else {
        WordsAreWords(s[1..], word + [s[0]]);
      }
    }
  }

  /** Reading a whole word only extends what was read so far. */
  lemma {:induction false} ReadWord(w: string, rest: string, word: string)
    requires SpaceFree(w)
    ensures WordsFrom(w + rest, word) == WordsFrom(rest, word + w)
  {
    if w == "" {
      assert w + rest == rest && word + w == word;
    } else {
      ReadWord(w[1..], rest, word + [w[0]]);
      assert (w + rest)[1..] == w[1..] + rest;
      assert word + [w[0]] + w[1..] == word + w;
    }
  }

  lemma {:induction false} WordsOfJoin(words: seq<string>)
    requires forall w :: w in words ==> IsWord(w)
    ensures Words(Join(words)) == words
  {
    if words == [] {
    } else {
      var w := words[0];
      assert IsWord(w);
      if |words| == 1 {
        ReadWord(w, "", "");
        assert w + "" == w && "" + w == w;
      } else {
        var rest := Join(words[1..]);
        WordsOfJoin(words[1..]);
        assert Join(words) == w + (" " + rest);
        ReadWord(w, " " + rest, "");
        assert "" + w == w;
        assert (" " + rest)[1..] == rest;
      }
    }
  }

  /** A text is compact when its only white space is a single blank between two words. */
  predicate IsCompact(s: string) {
    && (forall i :: 0 <= i < |s| && IsSpace(s[i]) ==> s[i] == ' ' && 0 < i < |s| - 1)
    && (forall i :: 0 < i < |s| && IsSpace(s[i]) ==> !IsSpace(s[i - 1]))
  }

  lemma {:induction false} JoinIsCompact(words: seq<string>)
    requires forall w :: w in words ==> IsWord(w)
    ensures IsCompact(Join(words))
    ensures words != [] ==> Join(words) != "" && !IsSpace(Join(words)[0])
  {
    if words == [] {
    } else {
      var w := words[0];
      assert IsWord(w);
      if |words| > 1 {
        JoinIsCompact(words[1..]);
        var s, rest := Join(words), Join(words[1..]);
        assert s == w + " " + rest;
        forall i | 0 <= i < |s| && IsSpace(s[i])
          ensures s[i] == ' ' && 0 < i < |s| - 1 && !IsSpace(s[i - 1])
        {
          if i > |w| {
            assert s[i] == rest[i - |w| - 1];
            if i > |w| + 1 {
              assert s[i - 1] == rest[i - |w| - 2];
            }
          }
        }
      }
    }
  }

  lemma JoinCons(w: string, words: seq<string>)
    requires words != []
    ensures Join([w] + words) == w + " " + Join(words)
  {
    assert ([w] + words)[1..] == words;
  }

  /** The same, read from left to right; `inWord` says whether a word precedes the text. */
  predicate CompactFrom(s: string, inWord: bool) {
    if s == "" then true
    else if IsSpace(s[0]) then inWord && s[0] == ' ' && |s| > 1 && CompactFrom(s[1..], false)
    else CompactFrom(s[1..], true)
  }

  lemma {:induction false} CompactFromLeft(s: string, inWord: bool)
    requires forall i :: 0 <= i < |s| && IsSpace(s[i]) ==> s[i] == ' ' && i < |s| - 1
    requires forall i :: 0 < i < |s| && IsSpace(s[i]) ==> !IsSpace(s[i - 1])
    requires s != "" && IsSpace(s[0]) ==> inWord
    ensures CompactFrom(s, inWord)
  {
    if s == "" {
    } else {
      CompactFromLeft(s[1..], !IsSpace(s[0]));
    }
  }

  /** Compacting changes nothing in a compact text. `word` is the text read since the last blank. */
  lemma {:induction false} CompactIsKept(s: string, word: string)
    requires SpaceFree(word) && CompactFrom(s, word != "")
    ensures Join(WordsFrom(s, word)) == word + s
    ensures word != "" || s != "" ==> WordsFrom(s, word) != []
  {
    if s == "" {
      assert word + s == word;
    } else if IsSpace(s[0]) {
      CompactIsKept(s[1..], "");
      JoinCons(word, WordsFrom(s[1..], ""));
      assert word + " " + ("" + s[1..]) == word + s;
    } else {
      CompactIsKept(s[1..], word + [s[0]]);
      assert word + [s[0]] + s[1..] == word + s;
    }
  }

  lemma CompactTextsAreFixed(s: string)
    requires IsCompact(s)
    ensures Compact(s) == s
  {
    CompactFromLeft(s, false);
    CompactIsKept(s, "");
    assert "" + s == s;
  }

  lemma CompactIsCompact(s: string)
    ensures IsCompact(Compact(s)) && Words(Compact(s)) == Words(s)
  {
    WordsAreWords(s, "");
    JoinIsCompact(Words(s));
    WordsOfJoin(Words(s));
  }

  /** Cutting anywhere, even right behind a blank, leaves a compact text once dots follow. */
  lemma CutIsCompact(s: string, limit: nat)
    requires IsCompact(s) && |s| > limit > 0
    ensures IsCompact(s[..limit] + "...")
  {
    var t := s[..limit] + "...";
    assert forall i :: 0 <= i < limit ==> t[i] == s[i];
    assert forall i :: limit <= i < |t| ==> t[i] == '.';
  }

  // ---- the preview ----

  /** A preview is the compact text itself, or its first 360 characters and three dots. */
  lemma PreviewShape(s: string)
    ensures var c := Compact(s);
      && Preview(s) == (if |c| <= 360 then c else c[..360] + "...")
      && |Preview(s)| <= 363
      && IsCompact(Preview(s))
  {
    CompactIsCompact(s);
    if |Compact(s)| > PREVIEW_LIMIT {
      CutIsCompact(Compact(s), PREVIEW_LIMIT);
    }
  }

  /** Previewing a preview changes nothing, also when it was cut. */
  lemma PreviewIsIdempotent(s: string)
    ensures Preview(Preview(s)) == Preview(s)
  {
    PreviewShape(s);
    CompactTextsAreFixed(Preview(s));
  }

  lemma {:induction false} SplitAtSpace(a: string, c: char, b: string, word: string)
    requires IsSpace(c)
    ensures WordsFrom(a + [c] + b, word) == WordsFrom(a, word) + Words(b)
  {
    if a == "" {
      assert a + [c] + b == [c] + b && ([c] + b)[1..] == b;
    } else {
      assert (a + [c] + b)[1..] == a[1..] + [c] + b;
      SplitAtSpace(a[1..], c, b, if IsSpace(a[0]) then "" else word + [a[0]]);
    }
  }

  lemma {:induction false} SplitAtGap(a: string, gap: string, b: string)
    requires gap != "" && forall i :: 0 <= i < |gap| ==> IsSpace(gap[i])
    ensures Words(a + gap + b) == Words(a) + Words(b)
    decreases |gap|
  {
    assert a + gap + b == a + [gap[0]] + (gap[1..] + b);
    SplitAtSpace(a, gap[0], gap[1..] + b, "");
    if gap[1..] == "" {
      assert gap[1..] + b == b;
    } else {
      SplitAtGap("", gap[1..], b);
      assert "" + gap[1..] + b == gap[1..] + b;
    }
  }

  /** A preview depends on the words only: any white space between two texts may be exchanged for
      any other. */
  lemma GapsDoNotMatter(a: string, gap: string, other: string, b: string)
    requires gap != "" && forall i :: 0 <= i < |gap| ==> IsSpace(gap[i])
    requires other != "" && forall i :: 0 <= i < |other| ==> IsSpace(other[i])
    ensures Preview(a + gap + b) == Preview(a + other + b)
  {
    SplitAtGap(a, gap, b);
    SplitAtGap(a, other, b);
  }

  lemma {:induction false} NoWordsIffBlank(s: string, word: string)
    ensures WordsFrom(s, word) == [] <==> word == "" && forall i :: 0 <= i < |s| ==> IsSpace(s[i])
  {
    if s == "" {
    } else {
      if IsSpace(s[0]) {
        NoWordsIffBlank(s[1..], "");
        assert forall i :: 0 < i < |s| ==> s[i] == s[1..][i - 1];
      } else {
        NoWordsIffBlank(s[1..], word + [s[0]]);
      }
    }
  }

  /** A preview is empty only for a blank text. */
  lemma PreviewIsEmptyIffBlank(s: string)
    ensures Preview(s) == "" <==> !Present(s)
  {
    WordsAreWords(s, "");
    JoinIsCompact(Words(s));
    NoWordsIffBlank(s, "");
    if Words(s) == [] {
      assert Preview(s) == "";
    }
  }

  /** An answer is dropped exactly when it is missing or blank, whatever the detail. */
  lemma AnswerIsDroppedIffBlank(answer: Option<string>, detail: AnswerDetail)
    ensures AnswerForConfig(answer, detail).None? <==> answer.None? || !Present(answer.value)
  {
    if answer.Some? {
      PresentIffTrimNonEmpty(answer.value);
      var t := Trim(answer.value);
      PreviewIsEmptyIffBlank(t);
      if t != "" {
        var start := TrimStart(answer.value);
        assert !IsSpace(t[|t| - 1]);
        assert t[|t| - 1] in t;
      }
    }
  }

  predicate AllSpace(s: string) {
    forall i :: 0 <= i < |s| ==> IsSpace(s[i])
  }

  /** A full answer is the given one without the white space around it. */
  lemma FullAnswerIsTrimmed(answer: string) returns (before: string, behind: string)
    requires Present(answer)
    ensures var r := AnswerForConfig(Some(answer), Full);
      r.Some? && Trimmed(r.value) && answer == before + (r.value + behind) && AllSpace(before) && AllSpace(behind)
  {
    PresentIffTrimNonEmpty(answer);
    before, behind := TrimIsInside(answer);
  }

  lemma TrimIsInside(s: string) returns (before: string, behind: string)
    ensures Trimmed(Trim(s))
    ensures s == before + (Trim(s) + behind) && AllSpace(before) && AllSpace(behind)
  {
    var i := SkipSpaces(s, 0);
    var t := TrimStart(s);
    var k := DropSpaces(t, |t|);
    before, behind := s[..i], t[k..];
    assert t == t[..k] + behind && s == before + t;
    if t[..k] != "" {
      assert t[..k][0] == t[0] == s[i];
    }
  }

  lemma {:induction false} SpaceHasNoWords(gap: string, s: string)
    requires AllSpace(gap)
    ensures Words(gap + s) == Words(s) == Words(s + gap)
  {
    if gap == "" {
      assert gap + s == s == s + gap;
    } else {
      SplitAtGap("", gap, s);
      SplitAtGap(s, gap, "");
      assert "" + gap + s == gap + s && s + gap + "" == s + gap;
      assert Words("") == [];
    }
  }

  lemma SpaceAroundHasNoWords(before: string, s: string, behind: string)
    requires AllSpace(before) && AllSpace(behind)
    ensures Words(before + (s + behind)) == Words(s)
  {
    SpaceHasNoWords(behind, s);
    SpaceHasNoWords(before, s + behind);
  }

  /** Trimming takes away no word. */
  lemma TrimKeepsWords(s: string)
    ensures Words(Trim(s)) == Words(s)
  {
    var before, behind := TrimIsInside(s);
    SpaceAroundHasNoWords(before, Trim(s), behind);
  }

  /** A short answer is the preview of the given one. */
  lemma ShortAnswerIsPreview(answer: string)
    requires Present(answer)
    ensures AnswerForConfig(Some(answer), PreviewOnly) == Some(Preview(answer))
  {
    PresentIffTrimNonEmpty(answer);
    TrimKeepsWords(answer);
    PreviewIsEmptyIffBlank(answer);
  }
}
