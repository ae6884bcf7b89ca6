/** The `censor` template filter: every whole-word, case-insensitive occurrence
    of a listed word keeps its first character and has the rest replaced by
    asterisks. The regular expression `\b(w1|w2|...)\b` with IGNORECASE is
    modelled by its matching rule: at each position the listed words are tried
    in list order, each must sit between two word boundaries, and scanning
    resumes after a match. */
module NewsFilters {
  import opened Common

  /** `BAD_WORDS`, in the order the alternation tries them. */
  const BadWords: seq<string> := [
    "анус", "аборт", "бздун", "беспезды", "бздюх", "бля",
    "блудилище", "блядво", "блядеха", "блядина", "блядистка"]

  /** A word character for `\w`: Latin letters, digits, underscore and the
      Cyrillic alphabet. */
  predicate IsWordChar(c: char)
  {
    || ('a' <= c <= 'z') || ('A' <= c <= 'Z') || ('0' <= c <= '9') || c == '_'
    || ('А' <= c <= 'я') || c == 'Ё' || c == 'ё'
  }

  /** Case folding used by IGNORECASE: upper-case Latin and Cyrillic letters
      map to lower case, everything else to itself. */
  function FoldCase(c: char): char
  {
    if 'A' <= c <= 'Z' || 'А' <= c <= 'Я' then (c as int + 32) as char
    else if c == 'Ё' then 'ё'
    else c
  }

  lemma FoldKeepsWordness(c: char)
    ensures IsWordChar(FoldCase(c)) == IsWordChar(c)
  {
  }

  predicate EqualFold(a: string, b: string)
  {
    |a| == |b| && forall k :: 0 <= k < |a| ==> FoldCase(a[k]) == FoldCase(b[k])
  }

  /** Position `j` holds a word character (false outside the string). */
  predicate WordAt(s: string, j: int)
  {
    0 <= j < |s| && IsWordChar(s[j])
  }

  /** `\b` at position `i`: one neighbour is a word character and the other is not. */
  predicate Boundary(s: string, i: int)
  {
    WordAt(s, i - 1) != WordAt(s, i)
  }

  /** `\bw\b` matches at position `i`, ignoring case. */
  predicate MatchesAt(s: string, i: nat, w: string)
  {
    i + |w| <= |s| && Boundary(s, i) && EqualFold(s[i..i + |w|], w) && Boundary(s, i + |w|)
  }

  /** The length of the first alternative that matches at `i`, if any. */
  function FirstMatch(s: string, i: nat, words: seq<string>): (r: Option<nat>)
    ensures r.Some? ==> i + r.value <= |s|
    decreases |words|
  {
    if words == [] then None
    else if MatchesAt(s, i, words[0]) then Some(|words[0]|)
    else FirstMatch(s, i, words[1..])
  }

  /** The alternation matches at `i` iff some word does, and the length it
      reports is that of the first word (in list order) that matches. */
  lemma {:induction false} FirstMatchMeaning(s: string, i: nat, words: seq<string>)
    ensures FirstMatch(s, i, words).None? <==> forall w :: w in words ==> !MatchesAt(s, i, w)
    ensures FirstMatch(s, i, words).Some? ==>
              exists j :: 0 <= j < |words| && |words[j]| == FirstMatch(s, i, words).value
                          && MatchesAt(s, i, words[j])
                          && forall l :: 0 <= l < j ==> !MatchesAt(s, i, words[l])
    decreases |words|
  {
    if words != [] && !MatchesAt(s, i, words[0]) {
      FirstMatchMeaning(s, i, words[1..]);
      assert forall w :: w in words <==> w == words[0] || w in words[1..];
      if FirstMatch(s, i, words).Some? {
        var j :| 0 <= j < |words[1..]| && |words[1..][j]| == FirstMatch(s, i, words).value
                 && MatchesAt(s, i, words[1..][j])
                 && forall l :: 0 <= l < j ==> !MatchesAt(s, i, words[1..][l]);
        assert forall l :: 0 < l < j + 1 ==> words[l] == words[1..][l - 1];
      }
    } else if words != [] {
      assert words[0] in words;
    }
  }

  /** A non-empty run of word characters. */
  predicate IsWord(w: string)
  {
    |w| > 0 && forall k :: 0 <= k < |w| ==> IsWordChar(w[k])
  }

  predicate AllWords(words: seq<string>)
  {
    forall i :: 0 <= i < |words| ==> IsWord(words[i])
  }

  /** Every listed word is a non-empty run of word characters. */
  lemma BadWordsAreWords()
    ensures AllWords(BadWords)
  {
    assert IsWord(BadWords[0]);
    assert IsWord(BadWords[1]);
    assert IsWord(BadWords[2]);
    assert IsWord(BadWords[3]);
    assert IsWord(BadWords[4]);
    assert IsWord(BadWords[5]);
    assert IsWord(BadWords[6]);
    assert IsWord(BadWords[7]);
    assert IsWord(BadWords[8]);
    assert IsWord(BadWords[9]);
    assert IsWord(BadWords[10]);
  }

  /** A match covers a non-empty run of word characters inside the string. */
  lemma MatchIsWordRun(s: string, i: nat, words: seq<string>)
    requires AllWords(words) && FirstMatch(s, i, words).Some?
    ensures var n := FirstMatch(s, i, words).value;
            && 1 <= n && i + n <= |s|
            && forall j :: i <= j < i + n ==> IsWordChar(s[j])
  {
    var n := FirstMatch(s, i, words).value;
    FirstMatchMeaning(s, i, words);
    var x :| 0 <= x < |words| && |words[x]| == n && MatchesAt(s, i, words[x]);
    var w := words[x];
    assert IsWord(w);
    forall j | i <= j < i + n
      ensures IsWordChar(s[j])
    {
      assert FoldCase(s[i..i + n][j - i]) == FoldCase(w[j - i]);
      FoldKeepsWordness(s[j]);
      FoldKeepsWordness(w[j - i]);
    }
  }

  /** No match starts strictly inside another: its first letter would follow a
      word character, so there is no boundary in front of it. */
  lemma NoMatchInside(s: string, i: nat, words: seq<string>)
    requires AllWords(words) && FirstMatch(s, i, words).Some?
    ensures forall j :: i < j < i + FirstMatch(s, i, words).value ==> FirstMatch(s, j, words).None?
  {
    MatchIsWordRun(s, i, words);
    var n := FirstMatch(s, i, words).value;
    forall j | i < j < i + n
      ensures FirstMatch(s, j, words).None?
    {
      FirstMatchMeaning(s, j, words);
      assert WordAt(s, j - 1) && WordAt(s, j);
      assert !Boundary(s, j);
    }
  }

  function Stars(n: nat): (r: string)
    ensures |r| == n && forall k :: 0 <= k < n ==> r[k] == '*'
  {
    seq(n, _ => '*')
  }

  /** `regex.sub(replace_match, value)` from position `i` on, for the
      alternation of `words`. */
  function CensorFrom(s: string, i: nat, words: seq<string>): (r: string)
    requires i <= |s| && AllWords(words)
    ensures |r| == |s| - i
    decreases |s| - i
  {
    if i == |s| then []
    else
      match FirstMatch(s, i, words)
      case Some(n) =>
        MatchIsWordRun(s, i, words);
        [s[i]] + Stars(n - 1) + CensorFrom(s, i + n, words)
      case None =>
        [s[i]] + CensorFrom(s, i + 1, words)
  }

  /** The filter applied to a string, with the listed words. */
  function CensorText(s: string): (r: string)
    ensures |r| == |s|
  {
    BadWordsAreWords();
    CensorFrom(s, 0, BadWords)
  }

  /** A template value: a string, or anything else. */
  datatype FilterInput = Text(s: string) | NonText

  datatype FilterError = TypeError

  /** `censor(value)`: a `TypeError` for anything but a string. */
  function Censor(value: FilterInput): (r: Result<string, FilterError>)
    ensures value.NonText? <==> r == Err(TypeError)
    ensures value.Text? ==> r.Ok? && |r.value| == |value.s|
  {
    match value
    case NonText => Err(TypeError)
    case Text(s) => Ok(CensorText(s))
  }

  // ---------------------------------------------------------------------------
  // What the filter does, position by position

  /** Position `k` lies inside a match that starts at or after `from`, after
      its first character. */
  ghost predicate MaskedFrom(s: string, from: nat, k: nat, words: seq<string>)
  {
    exists i: nat :: from <= i < k && FirstMatch(s, i, words).Some? && k < i + FirstMatch(s, i, words).value
  }

  /** Skipping a position where nothing matches does not change what is masked beyond it. */
  lemma MaskedFromSkip(s: string, from: nat, k: nat, words: seq<string>)
    requires from < k && FirstMatch(s, from, words).None?
    ensures MaskedFrom(s, from, k, words) == MaskedFrom(s, from + 1, k, words)
  {
    if MaskedFrom(s, from, k, words) {
      var i: nat :| from <= i < k && FirstMatch(s, i, words).Some? && k < i + FirstMatch(s, i, words).value;
      assert i != from;
    }
  }

  /** Skipping a whole match does not change what is masked beyond it. */
  lemma MaskedFromJump(s: string, from: nat, k: nat, words: seq<string>)
    requires AllWords(words) && FirstMatch(s, from, words).Some?
    requires from + FirstMatch(s, from, words).value <= k
    ensures MaskedFrom(s, from, k, words) == MaskedFrom(s, from + FirstMatch(s, from, words).value, k, words)
  {
    var n := FirstMatch(s, from, words).value;
    if MaskedFrom(s, from, k, words) {
      var i: nat :| from <= i < k && FirstMatch(s, i, words).Some? && k < i + FirstMatch(s, i, words).value;
      NoMatchInside(s, from, words);
      assert i != from;
      assert !(from < i < from + n);
    }
  }

  lemma {:induction false} CensorFromAt(s: string, from: nat, k: nat, words: seq<string>)
    requires from <= k < |s| && AllWords(words)
    ensures CensorFrom(s, from, words)[k - from] == if MaskedFrom(s, from, k, words) then '*' else s[k]
    decreases |s| - from
  {
    var r := CensorFrom(s, from, words);
    match FirstMatch(s, from, words)
    case None =>
      if k > from {
        var rest := CensorFrom(s, from + 1, words);
        assert r == [s[from]] + rest;
        assert r[k - from] == rest[k - (from + 1)];
        CensorFromAt(s, from + 1, k, words);
        MaskedFromSkip(s, from, k, words);
      }
    case Some(n) =>
      MatchIsWordRun(s, from, words);
      var rest := CensorFrom(s, from + n, words);
      assert r == [s[from]] + Stars(n - 1) + rest;
      if k == from {
      } else if k < from + n {
        assert r[k - from] == Stars(n - 1)[k - from - 1];
        assert MaskedFrom(s, from, k, words);
      } else {
        assert r[k - from] == rest[k - (from + n)];
        CensorFromAt(s, from + n, k, words);
        MaskedFromJump(s, from, k, words);
      }
  }

  /** Position `k` lies inside a match of a listed word, after its first character. */
  ghost predicate Masked(s: string, k: nat)
  {
    MaskedFrom(s, 0, k, BadWords)
  }

  function MatchAt(s: string, i: nat): Option<nat>
  {
    FirstMatch(s, i, BadWords)
  }

  /** The output is the input with exactly the non-initial characters of the
      matches replaced by '*'; every other character is left as it was. */
  lemma CensorMasksMatches(s: string)
    ensures forall k :: 0 <= k < |s| ==> CensorText(s)[k] == if Masked(s, k) then '*' else s[k]
  {
    BadWordsAreWords();
    forall k | 0 <= k < |s|
      ensures CensorText(s)[k] == if Masked(s, k) then '*' else s[k]
    {
      CensorFromAt(s, 0, k, BadWords);
    }
  }

  /** Text containing no listed word as a whole word is returned unchanged. */
  lemma CensorWithoutMatches(s: string)
    requires forall i :: 0 <= i < |s| ==> MatchAt(s, i).None?
    ensures CensorText(s) == s
  {
    CensorMasksMatches(s);
    forall k | 0 <= k < |s|
      ensures !Masked(s, k)
    {
      forall i: nat | i < k
        ensures FirstMatch(s, i, BadWords).None?
      {
        assert MatchAt(s, i).None?;
      }
    }
  }

  /** Inside a match, after its first character, every position is masked. */
  lemma MatchMasksItsTail(s: string, i: nat, k: nat)
    requires MatchAt(s, i).Some? && i < k < i + MatchAt(s, i).value
    ensures Masked(s, k)
  {
    assert 0 <= i < k && FirstMatch(s, i, BadWords).Some? && k < i + FirstMatch(s, i, BadWords).value;
  }

  /** The first character of a match is never masked. */
  lemma MatchStartNotMasked(s: string, i: nat)
    requires MatchAt(s, i).Some?
    ensures !Masked(s, i)
  {
    BadWordsAreWords();
    forall j: nat | j < i && FirstMatch(s, j, BadWords).Some?
      ensures j + FirstMatch(s, j, BadWords).value <= i
    {
      NoMatchInside(s, j, BadWords);
    }
  }

  /** A matched word keeps its first character, in its original case, and the
      rest of it becomes asterisks. */
  lemma CensorKeepsFirstCharacter(s: string, i: nat)
    requires MatchAt(s, i).Some?
    ensures var n := MatchAt(s, i).value;
            && i + n <= |s|
            && CensorText(s)[i] == s[i]
            && forall k :: i < k < i + n ==> CensorText(s)[k] == '*'
  {
    BadWordsAreWords();
    MatchIsWordRun(s, i, BadWords);
    CensorMasksMatches(s);
    MatchStartNotMasked(s, i);
    forall k | i < k < i + MatchAt(s, i).value
      ensures Masked(s, k)
    {
      MatchMasksItsTail(s, i, k);
    }
  }

  /** A match at `i` is exactly an occurrence of one of `words`, ignoring
      case, whose neighbours on both sides are not word characters. */
  lemma MatchIsWholeWord(s: string, i: nat, words: seq<string>)
    requires AllWords(words)
    ensures FirstMatch(s, i, words).Some? <==>
              exists w :: w in words && i + |w| <= |s| && EqualFold(s[i..i + |w|], w)
                          && (i == 0 || !IsWordChar(s[i - 1]))
                          && (i + |w| == |s| || !IsWordChar(s[i + |w|]))
  {
    FirstMatchMeaning(s, i, words);
    forall w | w in words && i + |w| <= |s| && EqualFold(s[i..i + |w|], w)
      ensures WordAt(s, i) && WordAt(s, i + |w| - 1)
    {
      var x :| 0 <= x < |words| && words[x] == w;
      assert IsWord(w);
      FoldKeepsWordness(s[i]);
      FoldKeepsWordness(w[0]);
      assert FoldCase(s[i..i + |w|][0]) == FoldCase(w[0]);
      FoldKeepsWordness(s[i + |w| - 1]);
      FoldKeepsWordness(w[|w| - 1]);
      assert FoldCase(s[i..i + |w|][|w| - 1]) == FoldCase(w[|w| - 1]);
    }
  }

  /** A listed word glued to a preceding word character is not matched there. */
  lemma EmbeddedWordNotMatched(s: string, i: nat)
    requires 0 < i <= |s| && IsWordChar(s[i - 1])
    ensures MatchAt(s, i).None?
  {
    BadWordsAreWords();
    MatchIsWholeWord(s, i, BadWords);
  }

  /** Matching ignores case: texts that agree up to case have the same matches. */
  lemma {:induction false} MatchIgnoresCase(s: string, t: string, i: nat, words: seq<string>)
    requires EqualFold(s, t)
    ensures FirstMatch(s, i, words) == FirstMatch(t, i, words)
    decreases |words|
  {
    if words != [] {
      var w := words[0];
      forall j | 0 <= j < |s|
        ensures WordAt(s, j) == WordAt(t, j)
      {
        FoldKeepsWordness(s[j]);
        FoldKeepsWordness(t[j]);
      }
      if i + |w| <= |s| {
        var ss, tt := s[i..i + |w|], t[i..i + |w|];
        forall k | 0 <= k < |w|
          ensures FoldCase(ss[k]) == FoldCase(tt[k])
        {
          assert ss[k] == s[i + k] && tt[k] == t[i + k];
        }
        assert EqualFold(s[i..i + |w|], w) == EqualFold(t[i..i + |w|], w);
      }
      assert MatchesAt(s, i, w) == MatchesAt(t, i, w);
      MatchIgnoresCase(s, t, i, words[1..]);
    }
  }

  /** Texts that agree up to case are censored at the same positions, so the
      outputs agree up to case too. */
  lemma CensorIgnoresCase(s: string, t: string)
    requires EqualFold(s, t)
    ensures EqualFold(CensorText(s), CensorText(t))
    ensures forall k :: 0 <= k < |s| ==> (Masked(s, k) <==> Masked(t, k))
  {
    CensorMasksMatches(s);
    CensorMasksMatches(t);
    forall i: nat
      ensures FirstMatch(s, i, BadWords) == FirstMatch(t, i, BadWords)
    {
      MatchIgnoresCase(s, t, i, BadWords);
    }
    forall k | 0 <= k < |s|
      ensures Masked(s, k) == Masked(t, k)
    {
    }
  }
}
