/** Word and phrase replacements (src/replacements.rs): the match relation of
    the generated pattern, and the single pass over a text. */
module Replacements {
  import opened Basics

  /** The character classes of the pattern: `\w`, and equality up to simple
      case folding, of a key's character and a text's. */
  datatype Classes = Classes(word: char -> bool, same: (char, char) -> bool)

  /** `[\s-]`, which also splits a key into words. */
  predicate Separator(c: char) {
    IsWhitespace(c) || c == '-'
  }

  /** `[ \t]`. */
  predicate IsBlank(c: char) {
    c == ' ' || c == '\t'
  }

  /** Case folding keeps letters letters and separators separators. */
  ghost predicate Lawful(cl: Classes) {
    forall k, c :: cl.same(k, c) ==> cl.word(k) == cl.word(c) && Separator(k) == Separator(c)
  }

  // ----- Keys -----

  /** How long the word at the start of `s` is. */
  function WordLength(s: string): (n: nat)
    ensures n <= |s|
    ensures forall i :: 0 <= i < n ==> !Separator(s[i])
    ensures n < |s| ==> Separator(s[n])
  {
    if s == "" || Separator(s[0]) then 0 else 1 + WordLength(s[1..])
  }

  /** The words of a key. */
  function KeyWords(key: string): seq<string>
    decreases |key|
  {
    if key == "" then []
    else if Separator(key[0]) then KeyWords(key[1..])
    else
      var n := WordLength(key);
      [key[..n]] + KeyWords(key[n..])
  }

  predicate AreWords(words: seq<string>) {
    forall w :: 0 <= w < |words| ==> words[w] != "" && forall i :: 0 <= i < |words[w]| ==> !Separator(words[w][i])
  }

  lemma {:induction false} KeyWordsAreWords(key: string)
    ensures AreWords(KeyWords(key))
    decreases |key|
  {
    if key != "" {
      if Separator(key[0]) {
        KeyWordsAreWords(key[1..]);
      } else {
        KeyWordsAreWords(key[WordLength(key)..]);
      }
    }
  }

  /** Hyphens and whitespace separate the words of a key and are no part of
      them. */
  lemma {:induction false} KeySplits(a: string, separator: char, b: string)
    requires separator == '-' || IsWhitespace(separator)
    ensures KeyWords(a + [separator] + b) == KeyWords(a) + KeyWords(b)
    decreases |a|
  {
    var key := a + [separator] + b;
    if a == "" {
      assert key[1..] == b;
    } else if Separator(a[0]) {
      assert key[1..] == a[1..] + [separator] + b;
      KeySplits(a[1..], separator, b);
    } else {
      var n := WordLength(a);
      WordLengthIs(key, n);
      assert key[..n] == a[..n] && key[n..] == a[n..] + [separator] + b;
      KeySplits(a[n..], separator, b);
    }
  }

  lemma {:induction false} WordLengthIs(s: string, n: nat)
    requires n <= |s| && (forall i :: 0 <= i < n ==> !Separator(s[i])) && (n < |s| ==> Separator(s[n]))
    ensures WordLength(s) == n
  {
    if n > 0 {
      WordLengthIs(s[1..], n - 1);
    }
  }

  lemma OneWord(key: string)
    requires key != "" && forall k :: 0 <= k < |key| ==> key[k] != '-' && !IsWhitespace(key[k])
    ensures KeyWords(key) == [key] && KeyWords("") == []
  {
    WordLengthIs(key, |key|);
    assert key[..|key|] == key && key[|key|..] == "";
  }

  // ----- The match relation -----

  ghost predicate WordMatches(cl: Classes, w: string, text: string, i: nat) {
    i + |w| <= |text| && forall k :: 0 <= k < |w| ==> cl.same(w[k], text[i + k])
  }

  ghost predicate Separators(text: string, i: nat, j: nat) {
    i < j <= |text| && forall k :: i <= k < j ==> Separator(text[k])
  }

  /** `text[i..j]` is the words, any run of separators between them. */
  ghost predicate BodyMatches(cl: Classes, words: seq<string>, text: string, i: nat, j: nat)
    requires words != []
  {
    && WordMatches(cl, words[0], text, i)
    && var e := i + |words[0]|;
       if |words| == 1 then j == e
       else exists m: nat :: Separators(text, e, m) && BodyMatches(cl, words[1..], text, m, j)
  }

  predicate WordAt(cl: Classes, text: string, p: int) {
    0 <= p < |text| && cl.word(text[p])
  }

  /** `\b`: one side is a word character and the other is not. */
  predicate AtBoundary(cl: Classes, text: string, p: int) {
    WordAt(cl, text, p - 1) != WordAt(cl, text, p)
  }

  /** The assertion for a key's edge character: `\b` or `\B`. */
  predicate EdgeHolds(cl: Classes, edge: char, text: string, p: int) {
    if cl.word(edge) then AtBoundary(cl, text, p) else !AtBoundary(cl, text, p)
  }

  /** What the pattern of one key matches. */
  ghost predicate KeyMatches(cl: Classes, words: seq<string>, text: string, i: nat, j: nat)
    requires words != [] && AreWords(words)
  {
    var last := words[|words| - 1];
    && BodyMatches(cl, words, text, i, j)
    && EdgeHolds(cl, words[0][0], text, i)
    && EdgeHolds(cl, last[|last| - 1], text, j)
  }

  /** What the user was promised: the words as whole words. */
  ghost predicate WholeWords(cl: Classes, words: seq<string>, text: string, i: nat, j: nat)
    requires words != []
  {
    BodyMatches(cl, words, text, i, j) && !WordAt(cl, text, i - 1) && !WordAt(cl, text, j)
  }

  lemma {:induction false} BodyEnds(cl: Classes, words: seq<string>, text: string, i: nat, j: nat)
    requires words != [] && AreWords(words) && BodyMatches(cl, words, text, i, j)
    ensures i < j <= |text| && cl.same(words[0][0], text[i])
    ensures var last := words[|words| - 1]; cl.same(last[|last| - 1], text[j - 1])
  {
    if |words| == 1 {
      assert words[0][|words[0]| - 1] == words[0][j - 1 - i];
    } else {
      var e := i + |words[0]|;
      var m: nat :| Separators(text, e, m) && BodyMatches(cl, words[1..], text, m, j);
      BodyEnds(cl, words[1..], text, m, j);
    }
  }

  /** The `\b`/`\B` choice says exactly that there is no word character on the
      far side of either edge, whatever the key's own edge characters are. */
  lemma EdgesMeanWholeWords(cl: Classes, words: seq<string>, text: string, i: nat, j: nat)
    requires Lawful(cl) && words != [] && AreWords(words)
    ensures KeyMatches(cl, words, text, i, j) <==> WholeWords(cl, words, text, i, j)
  {
    if BodyMatches(cl, words, text, i, j) {
      BodyEnds(cl, words, text, i, j);
    }
  }

  // ----- Matching -----

  predicate WordMatchesAt(cl: Classes, w: string, text: string, i: nat)
    ensures WordMatchesAt(cl, w, text, i) <==> WordMatches(cl, w, text, i)
  {
    i + |w| <= |text| && forall k :: 0 <= k < |w| ==> cl.same(w[k], text[i + k])
  }

  /** The end of the run of separators at `i`. */
  function SkipSeparators(text: string, i: nat): (j: nat)
    requires i <= |text|
    ensures i <= j <= |text|
    ensures forall k :: i <= k < j ==> Separator(text[k])
    ensures j < |text| ==> !Separator(text[j])
    decreases |text| - i
  {
    if i < |text| && Separator(text[i]) then SkipSeparators(text, i + 1) else i
  }

  /** Where the words matched at `i` end. */
  function BodyEnd(cl: Classes, words: seq<string>, text: string, i: nat): (end: Option<nat>)
    requires words != []
    ensures end.Some? ==> i + |words[0]| <= end.value <= |text|
    decreases |words|
  {
    if !WordMatchesAt(cl, words[0], text, i) then None
    else
      var e := i + |words[0]|;
      if |words| == 1 then Some(e)
      else
        var m := SkipSeparators(text, e);
        if m == e then None else BodyEnd(cl, words[1..], text, m)
  }

  lemma WordStarts(cl: Classes, k: char, c: char)
    requires Lawful(cl) && cl.same(k, c) && !Separator(k)
    ensures !Separator(c)
  {
  }

  /** A word starts right after all the separators, so the pattern matches in
      at most one way at each position: greedy matching finds it. */
  lemma {:induction false} BodyEndIsTheMatch(cl: Classes, words: seq<string>, text: string, i: nat, j: nat)
    requires Lawful(cl) && words != [] && AreWords(words)
    ensures BodyEnd(cl, words, text, i) == Some(j) <==> BodyMatches(cl, words, text, i, j)
    decreases |words|
  {
    hide SkipSeparators, Separator, Lawful;
    if WordMatches(cl, words[0], text, i) && |words| > 1 {
      var e := i + |words[0]|;
      var skip := SkipSeparators(text, e);
      BodyEndIsTheMatch(cl, words[1..], text, skip, j);
      if m: nat :| Separators(text, e, m) && BodyMatches(cl, words[1..], text, m, j) {
        BodyEnds(cl, words[1..], text, m, j);
        WordStarts(cl, words[1][0], text[m]);
        assert m == skip;
      }
      if skip > e {
        assert Separators(text, e, skip);
      }
    }
  }

  // ----- The table -----

  /** A usable key: its normalized form, the key and its replacement. */
  datatype Entry = Entry(norm: string, key: string, value: string)

  /** A key's words in lower case, joined by one space. */
  function Normalize(lower: string -> string, key: string): string {
    JoinWords(lower, KeyWords(key))
  }

  function JoinWords(lower: string -> string, words: seq<string>): string {
    if words == [] then ""
    else if |words| == 1 then lower(words[0])
    else lower(words[0]) + " " + JoinWords(lower, words[1..])
  }

  // ----- Keys that are normalized alike -----

  /** Case folding is an equivalence of characters. */
  ghost predicate IsFolding(cl: Classes) {
    && (forall c :: cl.same(c, c))
    && (forall a, b :: cl.same(a, b) ==> cl.same(b, a))
    && (forall a, b, c :: cl.same(a, b) && cl.same(b, c) ==> cl.same(a, c))
  }

  /** The two keys match the same text, wherever it is. */
  ghost predicate SameTexts(cl: Classes, a: seq<string>, b: seq<string>)
    requires a != [] && b != []
  {
    forall text, i: nat, j: nat :: BodyMatches(cl, a, text, i, j) <==> BodyMatches(cl, b, text, i, j)
  }

  ghost predicate WordsAlike(cl: Classes, a: seq<string>, b: seq<string>) {
    |a| == |b| && forall k :: 0 <= k < |a| ==> WordAlike(cl, a[k], b[k])
  }

  ghost predicate WordAlike(cl: Classes, v: string, w: string) {
    |v| == |w| && forall k :: 0 <= k < |v| ==> cl.same(v[k], w[k])
  }

  lemma AlikeMatchAlike(cl: Classes, v: string, w: string, text: string, i: nat)
    requires IsFolding(cl) && WordAlike(cl, v, w)
    ensures WordMatches(cl, v, text, i) <==> WordMatches(cl, w, text, i)
  {
  }

  lemma {:induction false} WordsAlikeMatchAlike(cl: Classes, a: seq<string>, b: seq<string>, text: string, i: nat, j: nat)
    requires IsFolding(cl) && a != [] && b != [] && WordsAlike(cl, a, b)
    ensures BodyMatches(cl, a, text, i, j) <==> BodyMatches(cl, b, text, i, j)
    decreases |a|
  {
    hide WordMatches, WordAlike, IsFolding;
    AlikeMatchAlike(cl, a[0], b[0], text, i);
    assert |a[0]| == |b[0]| by {
      assert WordAlike(cl, a[0], b[0]);
      SameLength(cl, a[0], b[0]);
    }
    if |a| > 1 {
      forall m: nat
        ensures BodyMatches(cl, a[1..], text, m, j) <==> BodyMatches(cl, b[1..], text, m, j)
      {
        WordsAlikeMatchAlike(cl, a[1..], b[1..], text, m, j);
      }
    }
  }

  lemma SameLength(cl: Classes, v: string, w: string)
    requires WordAlike(cl, v, w)
    ensures |v| == |w|
  {
  }

  /** Where one key matches, a separator or the end of the match follows its
      first word, so another key that matches there has a first word no longer. */
  lemma FirstWordEnds(cl: Classes, a: seq<string>, b: seq<string>, text: string, i: nat, j: nat)
    requires Lawful(cl) && a != [] && b != [] && AreWords(a) && AreWords(b)
    requires BodyMatches(cl, a, text, i, j) && BodyMatches(cl, b, text, i, j)
    ensures |b[0]| <= |a[0]|
  {
    var n := |a[0]|;
    if |b[0]| > n {
      assert cl.same(b[0][n], text[i + n]);
      if |a| == 1 {
        BodyReaches(cl, b, text, i, j);
      }
    }
  }

  lemma BodyReaches(cl: Classes, words: seq<string>, text: string, i: nat, j: nat)
    requires words != [] && AreWords(words) && BodyMatches(cl, words, text, i, j)
    ensures i + |words[0]| <= j && (|words| > 1 ==> i + |words[0]| < j)
  {
    if |words| > 1 {
      var m: nat :| Separators(text, i + |words[0]|, m) && BodyMatches(cl, words[1..], text, m, j);
      BodyEnds(cl, words[1..], text, m, j);
    }
  }

  /** Two keys that match one text in common are alike, word by word. */
  lemma {:induction false} BothMatch(cl: Classes, a: seq<string>, b: seq<string>, text: string, i: nat, j: nat)
    requires Lawful(cl) && IsFolding(cl) && a != [] && b != [] && AreWords(a) && AreWords(b)
    requires BodyMatches(cl, a, text, i, j) && BodyMatches(cl, b, text, i, j)
    ensures WordsAlike(cl, a, b)
    decreases |a|
  {
    FirstWordEnds(cl, a, b, text, i, j);
    FirstWordEnds(cl, b, a, text, i, j);
    AlikeByText(cl, a[0], b[0], text, i);
    BodyReaches(cl, a, text, i, j);
    BodyReaches(cl, b, text, i, j);
    hide WordMatches, WordAlike, IsFolding;
    if |a| > 1 {
      var e := i + |a[0]|;
      var m: nat :| Separators(text, e, m) && BodyMatches(cl, a[1..], text, m, j);
      var n: nat :| Separators(text, e, n) && BodyMatches(cl, b[1..], text, n, j);
      BodyEnds(cl, a[1..], text, m, j);
      BodyEnds(cl, b[1..], text, n, j);
      WordStarts(cl, a[1][0], text[m]);
      WordStarts(cl, b[1][0], text[n]);
      assert m == n;
      BothMatch(cl, a[1..], b[1..], text, m, j);
      assert forall k :: 0 < k < |a| ==> a[k] == a[1..][k - 1] && b[k] == b[1..][k - 1];
    }
  }

  lemma AlikeByText(cl: Classes, v: string, w: string, text: string, i: nat)
    requires IsFolding(cl) && |v| == |w| && WordMatches(cl, v, text, i) && WordMatches(cl, w, text, i)
    ensures WordAlike(cl, v, w)
  {
    forall k | 0 <= k < |v|
      ensures cl.same(v[k], w[k])
    {
      assert cl.same(v[k], text[i + k]) && cl.same(w[k], text[i + k]);
    }
  }

  /** The words with one space between them. */
  function Joined(words: seq<string>): string {
    if words == [] then "" else if |words| == 1 then words[0] else words[0] + " " + Joined(words[1..])
  }

  /** A key matches words like its own, joined by spaces. */
  lemma {:induction false} JoinedMatches(cl: Classes, words: seq<string>, others: seq<string>, before: string)
    requires words != [] && AreWords(words) && WordsAlike(cl, words, others)
    ensures BodyMatches(cl, words, before + Joined(others), |before|, |before + Joined(others)|)
    decreases |words|
  {
    hide WordMatches, WordAlike;
    var text := before + Joined(others);
    assert WordAlike(cl, words[0], others[0]);
    SameLength(cl, words[0], others[0]);
    var rest := if |words| == 1 then "" else " " + Joined(others[1..]);
    assert text == before + (others[0] + rest);
    MatchesThere(cl, words[0], others[0], before, rest);
    if |words| > 1 {
      var next := before + others[0] + " ";
      JoinedMatches(cl, words[1..], others[1..], next);
      assert text == next + Joined(others[1..]);
      assert Separators(text, |before| + |words[0]|, |next|);
    }
  }

  lemma MatchesThere(cl: Classes, v: string, w: string, before: string, after: string)
    requires WordAlike(cl, v, w)
    ensures WordMatches(cl, v, before + (w + after), |before|)
  {
  }

  /** Two keys match the same text exactly when their words are alike up to
      case folding; otherwise they have no text in common at all. */
  lemma SameTextsExactlyWhen(cl: Classes, a: seq<string>, b: seq<string>)
    requires Lawful(cl) && IsFolding(cl) && a != [] && b != [] && AreWords(a) && AreWords(b)
    ensures SameTexts(cl, a, b) <==> WordsAlike(cl, a, b)
    ensures SameTexts(cl, a, b) ||
            forall text, i: nat, j: nat :: !(BodyMatches(cl, a, text, i, j) && BodyMatches(cl, b, text, i, j))
  {
    hide BodyMatches;
    if WordsAlike(cl, a, b) {
      forall text, i: nat, j: nat
        ensures BodyMatches(cl, a, text, i, j) <==> BodyMatches(cl, b, text, i, j)
      {
        WordsAlikeMatchAlike(cl, a, b, text, i, j);
      }
    }
    forall text, i: nat, j: nat | BodyMatches(cl, a, text, i, j) && BodyMatches(cl, b, text, i, j)
      ensures WordsAlike(cl, a, b)
    {
      BothMatch(cl, a, b, text, i, j);
    }
    JoinedMatches(cl, a, a, "");
    assert BodyMatches(cl, a, "" + Joined(a), 0, |"" + Joined(a)|);
  }

  /** A key matches its own normalized form, as one does whose lower case is
      its case folding. */
  ghost predicate MatchesItsForm(cl: Classes, lower: string -> string, key: string)
    requires KeyWords(key) != []
  {
    var form := Normalize(lower, key);
    BodyMatches(cl, KeyWords(key), form, 0, |form|)
  }

  /** Of two keys with one normalized form only one is kept. Where that one
      matches its form, the other matched the same text exactly when it
      matches its form too. */
  lemma DroppedKeyExactlyWhen(cl: Classes, lower: string -> string, kept: string, dropped: string)
    requires Lawful(cl) && IsFolding(cl) && KeyWords(kept) != [] && KeyWords(dropped) != []
    requires Normalize(lower, kept) == Normalize(lower, dropped) && MatchesItsForm(cl, lower, kept)
    ensures SameTexts(cl, KeyWords(kept), KeyWords(dropped)) <==> MatchesItsForm(cl, lower, dropped)
  {
    KeyWordsAreWords(kept);
    KeyWordsAreWords(dropped);
    SameTextsExactlyWhen(cl, KeyWords(kept), KeyWords(dropped));
    hide BodyMatches, KeyWords, Lawful, IsFolding, WordsAlike, Normalize;
    var form := Normalize(lower, kept);
    assert BodyMatches(cl, KeyWords(kept), form, 0, |form|);
  }

  /** It does when each of its words is lowered character by character, each
      within its case folding. */
  lemma LoweredByCharacter(cl: Classes, lower: string -> string, key: string)
    requires KeyWords(key) != [] && forall w :: w in KeyWords(key) ==> WordAlike(cl, w, lower(w))
    ensures MatchesItsForm(cl, lower, key)
  {
    var words := KeyWords(key);
    var lowered := seq(|words|, k requires 0 <= k < |words| => lower(words[k]));
    KeyWordsAreWords(key);
    JoinsLowered(lower, words, lowered);
    JoinedMatches(cl, words, lowered, "");
    assert "" + Joined(lowered) == Joined(lowered);
  }

  lemma {:induction false} JoinsLowered(lower: string -> string, words: seq<string>, lowered: seq<string>)
    requires |lowered| == |words| && forall k :: 0 <= k < |words| ==> lowered[k] == lower(words[k])
    ensures JoinWords(lower, words) == Joined(lowered)
    decreases |words|
  {
    if |words| > 1 {
      JoinsLowered(lower, words[1..], lowered[1..]);
    }
  }

  const CAPITAL_DOTTED_I := "\U{0130}"
  const DOTTED_I := "i\U{0307}"

  /** Full lower case, on these two keys. */
  function FullLower(s: string): string {
    if s == CAPITAL_DOTTED_I then DOTTED_I else s
  }

  /** Simple case folding, on their characters: U+0130 folds to itself only. */
  const SIMPLE: Classes := Classes(c => !Separator(c), (k, c) => k == c || (k in "iI" && c in "iI"))

  /** Two keys with the same normalized form need not match the same text:
      U+0130, and "i" with U+0307. */
  lemma NormalizedAlikeMatchesNothingAlike()
    ensures Lawful(SIMPLE) && IsFolding(SIMPLE)
    ensures Normalize(FullLower, CAPITAL_DOTTED_I) == Normalize(FullLower, DOTTED_I) != ""
    ensures KeyWords(CAPITAL_DOTTED_I) == [CAPITAL_DOTTED_I] && KeyWords(DOTTED_I) == [DOTTED_I]
    ensures BodyMatches(SIMPLE, [CAPITAL_DOTTED_I], CAPITAL_DOTTED_I, 0, 1)
    ensures !SameTexts(SIMPLE, [CAPITAL_DOTTED_I], [DOTTED_I])
  {
    OneWord(CAPITAL_DOTTED_I);
    OneWord(DOTTED_I);
    assert BodyMatches(SIMPLE, [CAPITAL_DOTTED_I], CAPITAL_DOTTED_I, 0, 1);
    assert !BodyMatches(SIMPLE, [DOTTED_I], CAPITAL_DOTTED_I, 0, 1);
  }

  lemma {:induction false} LessIsTotal(a: string, b: string)
    ensures Less(a, b) || Less(b, a) || a == b
    ensures !(Less(a, b) && Less(b, a)) && !Less(a, a)
  {
    if a != "" && b != "" {
      LessIsTotal(a[1..], b[1..]);
      assert a == [a[0]] + a[1..] && b == [b[0]] + b[1..];
    }
    if a != "" {
      LessIsTotal(a[1..], a[1..]);
    }
  }

  lemma {:induction false} LessIsTransitive(a: string, b: string, c: string)
    requires Less(a, b) && Less(b, c)
    ensures Less(a, c)
  {
    if a != "" && a[0] == b[0] == c[0] {
      LessIsTransitive(a[1..], b[1..], c[1..]);
    }
  }

  /** Longest first, by the bytes of the normalized form. */
  predicate Before(a: Entry, b: Entry) {
    || |Bytes(a.norm)| > |Bytes(b.norm)|
    || (|Bytes(a.norm)| == |Bytes(b.norm)| && Less(a.norm, b.norm))
  }

  ghost predicate InOrder(entries: seq<Entry>) {
    forall i, j :: 0 <= i < j < |entries| ==> Before(entries[i], entries[j])
  }

  /** Longer forms come first, and of equally long ones the smaller where they
      first differ. */
  lemma OrderMeans(entries: seq<Entry>, i: int, j: int)
    requires InOrder(entries) && 0 <= i < j < |entries|
    ensures var a, b := entries[i].norm, entries[j].norm;
            || |Bytes(a)| > |Bytes(b)|
            || (|Bytes(a)| == |Bytes(b)| && exists k :: DiffersAt(a, b, k) && if k < |a| then a[k] < b[k] else true)
  {
    hide Bytes;
    assert Before(entries[i], entries[j]);
    LessMeans(entries[i].norm, entries[j].norm);
  }

  lemma BeforeIsTransitive(a: Entry, b: Entry, c: Entry)
    requires Before(a, b) && Before(b, c)
    ensures Before(a, c)
  {
    hide Bytes, Less;
    if |Bytes(a.norm)| == |Bytes(b.norm)| == |Bytes(c.norm)| {
      LessIsTransitive(a.norm, b.norm, c.norm);
    }
  }

  /** An entry put in its place. */
  function Insert(entries: seq<Entry>, e: Entry): seq<Entry> {
    if entries == [] || Before(e, entries[0]) then [e] + entries
    else [entries[0]] + Insert(entries[1..], e)
  }

  lemma {:induction false} InsertKeepsOrder(entries: seq<Entry>, e: Entry)
    requires InOrder(entries)
    requires forall k :: 0 <= k < |entries| ==> entries[k].norm != e.norm
    ensures InOrder(Insert(entries, e))
    ensures forall x :: x in Insert(entries, e) <==> x in entries || x == e
  {
    hide Before;
    if entries != [] && !Before(e, entries[0]) {
      InsertKeepsOrder(entries[1..], e);
      var rest := Insert(entries[1..], e);
      EitherBefore(e, entries[0]);
      forall x | x in rest
        ensures Before(entries[0], x)
      {
        if x != e {
          var k :| 0 <= k < |entries| - 1 && x == entries[1..][k];
          assert Before(entries[0], entries[k + 1]);
        }
      }
      assert entries == [entries[0]] + entries[1..];
    } else if entries != [] {
      forall x | x in entries
        ensures Before(e, x)
      {
        if x != entries[0] {
          BeforeIsTransitive(e, entries[0], x);
        }
      }
    }
  }

  lemma EitherBefore(a: Entry, b: Entry)
    requires a.norm != b.norm
    ensures Before(a, b) || Before(b, a)
  {
    hide Bytes;
    LessIsTotal(a.norm, b.norm);
  }

  /** A line of the configured table. */
  datatype Pair = Pair(key: string, value: string)

  /** The pair at `i` is the last of those with its normalized form. */
  ghost predicate Kept(lower: string -> string, table: seq<Pair>, i: int, n: int) {
    && 0 <= i < n <= |table| && Normalize(lower, table[i].key) != ""
    && forall j :: i < j < n ==> Normalize(lower, table[j].key) != Normalize(lower, table[i].key)
  }

  /** The entries made from the table: one for each normalized form, that of
      the key that sorts last, longest first. */
  ghost predicate AreEntries(lower: string -> string, table: seq<Pair>, entries: seq<Entry>) {
    && InOrder(entries)
    && (forall e :: e in entries <==>
         exists i :: Kept(lower, table, i, |table|)
                     && e == Entry(Normalize(lower, table[i].key), table[i].key, table[i].value))
  }

  /** The table's entries, in the order their patterns are tried. The table
      is read in key order; `unique` is keyed by normalized form. */
  method MakeEntries(lower: string -> string, table: seq<Pair>) returns (entries: seq<Entry>)
    ensures AreEntries(lower, table, entries)
  {
    hide Normalize, Before;
    var unique: map<string, Pair> := map[];
    for i := 0 to |table|
      invariant forall norm :: norm in unique <==>
                  exists k :: Kept(lower, table, k, i) && Normalize(lower, table[k].key) == norm
      invariant forall k :: Kept(lower, table, k, i) ==>
                  Normalize(lower, table[k].key) in unique && unique[Normalize(lower, table[k].key)] == table[k]
    {
      var norm := Normalize(lower, table[i].key);
      KeptStep(lower, table, i);
      if norm != "" {
        unique := unique[norm := table[i]];
      }
    }
    entries := [];
    var left := unique.Keys;
    while left != {}
      invariant left <= unique.Keys
      invariant InOrder(entries)
      invariant forall e :: e in entries <==>
                  e.norm in unique && e.norm !in left && e == Entry(e.norm, unique[e.norm].key, unique[e.norm].value)
      decreases left
    {
      var norm :| norm in left;
      left := left - {norm};
      var e := Entry(norm, unique[norm].key, unique[norm].value);
      InsertKeepsOrder(entries, e);
      entries := Insert(entries, e);
    }
  }

  /** Which pairs are kept when one more is read. */
  lemma KeptStep(lower: string -> string, table: seq<Pair>, i: nat)
    requires i < |table|
    ensures forall k :: Kept(lower, table, k, i + 1)
              <==> if k == i then Normalize(lower, table[i].key) != ""
                   else Kept(lower, table, k, i) && Normalize(lower, table[k].key) != Normalize(lower, table[i].key)
  {
    hide Normalize;
  }

  /** The table alone decides the entries and their order. */
  lemma EntriesAreUnique(lower: string -> string, table: seq<Pair>, a: seq<Entry>, b: seq<Entry>)
    requires AreEntries(lower, table, a) && AreEntries(lower, table, b)
    ensures a == b
  {
    SameInOrder(a, b);
  }

  lemma {:induction false} SameInOrder(a: seq<Entry>, b: seq<Entry>)
    requires InOrder(a) && InOrder(b)
    requires forall x :: x in a <==> x in b
    ensures a == b
  {
    hide Bytes, Less;
    assert a != [] ==> a[0] in a;
    assert b != [] ==> b[0] in b;
    if a != [] {
      NotBothBefore(a[0], b[0]);
      FirstOnce(a);
      FirstOnce(b);
      SameInOrder(a[1..], b[1..]);
      assert a == [a[0]] + a[1..] && b == [b[0]] + b[1..];
    }
  }

  lemma NotBothBefore(a: Entry, b: Entry)
    ensures !(Before(a, b) && Before(b, a)) && !Before(a, a)
  {
    hide Bytes;
    LessIsTotal(a.norm, b.norm);
    LessIsTotal(a.norm, a.norm);
  }

  lemma FirstOnce(a: seq<Entry>)
    requires InOrder(a) && a != []
    ensures forall x :: x in a[1..] <==> x in a && x != a[0]
  {
    hide Before;
    NotBothBefore(a[0], a[0]);
    assert a == [a[0]] + a[1..];
  }

  ghost predicate Usable(entries: seq<Entry>) {
    forall k :: 0 <= k < |entries| ==> KeyWords(entries[k].key) != []
  }

  /** Where the pattern of one entry, tried at `i`, ends. */
  function KeyEnd(cl: Classes, entry: Entry, text: string, i: nat): (end: Option<nat>)
    requires KeyWords(entry.key) != []
    ensures end.Some? ==> i < end.value <= |text|
  {
    KeyWordsAreWords(entry.key);
    var words := KeyWords(entry.key);
    var last := words[|words| - 1];
    assert words[0] != "";
    var body := BodyEnd(cl, words, text, i);
    if body.Some? && EdgeHolds(cl, words[0][0], text, i) && EdgeHolds(cl, last[|last| - 1], text, body.value) then body
    else None
  }

  /** A match: which entry, and where it ends. */
  datatype Hit = Hit(index: nat, end: nat)

  /** The first alternative that matches at `i`, from entry `k` on. */
  function FirstKey(cl: Classes, entries: seq<Entry>, text: string, i: nat, k: nat): (hit: Option<Hit>)
    requires Usable(entries) && k <= |entries|
    ensures hit.Some? ==> k <= hit.value.index < |entries| && i < hit.value.end <= |text|
    decreases |entries| - k
  {
    if k == |entries| then None
    else
      match KeyEnd(cl, entries[k], text, i)
      case Some(j) => Some(Hit(k, j))
      case None => FirstKey(cl, entries, text, i, k + 1)
  }

  /** Entry `k` stands as whole words at `text[i..j]`. */
  ghost predicate StandsAt(cl: Classes, entries: seq<Entry>, text: string, i: nat, k: nat, j: nat) {
    k < |entries| && KeyWords(entries[k].key) != [] && WholeWords(cl, KeyWords(entries[k].key), text, i, j)
  }

  lemma KeyEndIsWholeWords(cl: Classes, entries: seq<Entry>, text: string, i: nat, k: nat, j: nat)
    requires Lawful(cl) && Usable(entries) && k < |entries|
    ensures KeyEnd(cl, entries[k], text, i) == Some(j) <==> StandsAt(cl, entries, text, i, k, j)
  {
    var words := KeyWords(entries[k].key);
    KeyWordsAreWords(entries[k].key);
    BodyEndIsTheMatch(cl, words, text, i, j);
    EdgesMeanWholeWords(cl, words, text, i, j);
  }

  /** The alternative taken at `i` is the first in order of those that stand
      there as whole words; none is taken only if none stands there. */
  lemma {:induction false} FirstKeyIsFirst(cl: Classes, entries: seq<Entry>, text: string, i: nat, k: nat)
    requires Lawful(cl) && Usable(entries) && k <= |entries|
    ensures var hit := FirstKey(cl, entries, text, i, k);
            if hit.Some? then
              && StandsAt(cl, entries, text, i, hit.value.index, hit.value.end)
              && forall n, j :: k <= n < hit.value.index ==> !StandsAt(cl, entries, text, i, n, j)
            else forall n, j :: k <= n ==> !StandsAt(cl, entries, text, i, n, j)
    decreases |entries| - k
  {
    hide StandsAt, KeyEnd, KeyWords;
    if k < |entries| {
      forall j: nat
        ensures KeyEnd(cl, entries[k], text, i) == Some(j) <==> StandsAt(cl, entries, text, i, k, j)
      {
        KeyEndIsWholeWords(cl, entries, text, i, k, j);
      }
      FirstKeyIsFirst(cl, entries, text, i, k + 1);
    } else {
      NoSuchEntry(cl, entries, text, i);
    }
  }

  lemma NoSuchEntry(cl: Classes, entries: seq<Entry>, text: string, i: nat)
    ensures forall n, j :: |entries| <= n ==> !StandsAt(cl, entries, text, i, n, j)
  {
  }

  /** Of the keys that stand at one position, the longest is taken. */
  lemma LongestWins(cl: Classes, lower: string -> string, table: seq<Pair>, entries: seq<Entry>,
                    text: string, i: nat, k: nat, j: nat)
    requires Lawful(cl) && Usable(entries) && AreEntries(lower, table, entries)
    requires StandsAt(cl, entries, text, i, k, j)
    ensures var hit := FirstKey(cl, entries, text, i, 0);
            hit.Some? && |Bytes(entries[hit.value.index].norm)| >= |Bytes(entries[k].norm)|
  {
    hide StandsAt, FirstKey;
    FirstKeyIsFirst(cl, entries, text, i, 0);
    StandsAtIndex(cl, entries, text, i, k, j);
  }

  lemma StandsAtIndex(cl: Classes, entries: seq<Entry>, text: string, i: nat, k: nat, j: nat)
    requires StandsAt(cl, entries, text, i, k, j)
    ensures k < |entries|
  {
  }

  // ----- The pass -----

  function SkipBlanks(text: string, i: nat): (j: nat)
    requires i <= |text|
    ensures i <= j <= |text|
    ensures forall k :: i <= k < j ==> text[k] in " \t"
    ensures j < |text| ==> text[j] !in " \t"
    decreases |text| - i
  {
    if i < |text| && IsBlank(text[i]) then SkipBlanks(text, i + 1) else i
  }

  /** The rewrite of `text[i..]`, left to right in one pass: at each position
      the first key that stands there, else the character itself. An empty
      value takes the blanks after it along. */
  function Rewrite(cl: Classes, entries: seq<Entry>, text: string, i: nat): string
    requires Usable(entries) && i <= |text|
    decreases |text| - i
  {
    if i == |text| then ""
    else
      match FirstKey(cl, entries, text, i, 0)
      case None => [text[i]] + Rewrite(cl, entries, text, i + 1)
      case Some(hit) =>
        var value := entries[hit.index].value;
        value + Rewrite(cl, entries, text, if value == "" then SkipBlanks(text, hit.end) else hit.end)
  }

  /** Where no key stands, the text is copied. */
  lemma {:induction false} RewriteGap(cl: Classes, entries: seq<Entry>, text: string, i: nat, j: nat)
    requires Usable(entries) && i <= j <= |text|
    requires forall p :: i <= p < j ==> FirstKey(cl, entries, text, p, 0) == None
    ensures Rewrite(cl, entries, text, i) == text[i..j] + Rewrite(cl, entries, text, j)
    decreases j - i
  {
    hide FirstKey, Usable, SkipBlanks;
    if i < j {
      assert FirstKey(cl, entries, text, i, 0) == None;
      RewriteGap(cl, entries, text, i + 1, j);
      assert text[i..j] == [text[i]] + text[i + 1..j];
    } else {
      assert text[i..j] == "";
    }
  }

  lemma RewriteEnd(cl: Classes, entries: seq<Entry>, text: string)
    requires Usable(entries)
    ensures Rewrite(cl, entries, text, |text|) == ""
  {
  }

  lemma RewriteHit(cl: Classes, entries: seq<Entry>, text: string, i: nat, hit: Hit)
    requires Usable(entries) && i < |text| && FirstKey(cl, entries, text, i, 0) == Some(hit)
    ensures var value := entries[hit.index].value;
            Rewrite(cl, entries, text, i)
            == value + Rewrite(cl, entries, text, if value == "" then SkipBlanks(text, hit.end) else hit.end)
  {
    hide FirstKey;
  }

  /** A key with an empty value is dropped with the blanks after it. */
  lemma EmptyValueTakesTheBlanks(cl: Classes, entries: seq<Entry>, text: string, i: nat, hit: Hit, k: nat)
    requires Usable(entries) && i < |text| && FirstKey(cl, entries, text, i, 0) == Some(hit) && entries[hit.index].value == ""
    requires hit.end <= k <= |text| && (forall p :: hit.end <= p < k ==> text[p] in " \t")
    requires k < |text| ==> text[k] !in " \t"
    ensures Rewrite(cl, entries, text, i) == Rewrite(cl, entries, text, k)
  {
    hide FirstKey;
    BlanksEndOnce(text, hit.end, k);
  }

  lemma {:induction false} BlanksEndOnce(text: string, i: nat, k: nat)
    requires i <= k <= |text| && (forall p :: i <= p < k ==> text[p] in " \t") && (k < |text| ==> text[k] !in " \t")
    ensures SkipBlanks(text, i) == k
    decreases k - i
  {
    if i < k {
      BlanksEndOnce(text, i + 1, k);
    }
  }

  /** Any other value takes the key's place, and the blanks stay. */
  lemma ValueTakesThePlace(cl: Classes, entries: seq<Entry>, text: string, i: nat, hit: Hit)
    requires Usable(entries) && i < |text| && FirstKey(cl, entries, text, i, 0) == Some(hit) && entries[hit.index].value != ""
    ensures Rewrite(cl, entries, text, i) == entries[hit.index].value + Rewrite(cl, entries, text, hit.end)
  {
    hide FirstKey;
  }

  /** No key stands at a blank: taking the blanks after a match along, as the
      pattern does, never hides a later match. */
  lemma BlanksHideNothing(cl: Classes, entries: seq<Entry>, text: string, p: nat)
    requires Lawful(cl) && Usable(entries) && p < |text| && text[p] in " \t"
    ensures FirstKey(cl, entries, text, p, 0) == None
  {
    FirstKeyIsFirst(cl, entries, text, p, 0);
    var hit := FirstKey(cl, entries, text, p, 0);
    if hit.Some? {
      var words := KeyWords(entries[hit.value.index].key);
      KeyWordsAreWords(entries[hit.value.index].key);
      BodyEnds(cl, words, text, p, hit.value.end);
      assert false;
    }
  }

  lemma EntriesAreUsable(lower: string -> string, table: seq<Pair>, entries: seq<Entry>)
    requires AreEntries(lower, table, entries)
    ensures Usable(entries)
  {
    forall k | 0 <= k < |entries|
      ensures KeyWords(entries[k].key) != []
    {
      assert entries[k] in entries;
    }
  }

  /** A table with a usable key keeps one. */
  lemma NoEntries(lower: string -> string, table: seq<Pair>)
    requires AreEntries(lower, table, [])
    ensures forall i :: 0 <= i < |table| ==> Normalize(lower, table[i].key) == ""
  {
    hide Normalize;
    forall i | 0 <= i < |table|
      ensures Normalize(lower, table[i].key) == ""
    {
      if Normalize(lower, table[i].key) != "" {
        var last := LastAlike(lower, table, i);
        KeptIsAnEntry(lower, table, [], last);
      }
    }
  }

  lemma KeptIsAnEntry(lower: string -> string, table: seq<Pair>, entries: seq<Entry>, i: int)
    requires AreEntries(lower, table, entries) && Kept(lower, table, i, |table|)
    ensures Entry(Normalize(lower, table[i].key), table[i].key, table[i].value) in entries
  {
  }

  lemma {:induction false} LastAlike(lower: string -> string, table: seq<Pair>, i: nat) returns (last: nat)
    requires i < |table| && Normalize(lower, table[i].key) != ""
    ensures Kept(lower, table, last, |table|)
    decreases |table| - i
  {
    hide Normalize;
    if j :| i < j < |table| && Normalize(lower, table[j].key) == Normalize(lower, table[i].key) {
      last := LastAlike(lower, table, j);
    } else {
      last := i;
    }
  }

  class Replacer {
    const classes: Classes
    const entries: seq<Entry>

    ghost predicate Valid() {
      Lawful(classes) && Usable(entries)
    }

    /** Compile a table; nothing when it holds no usable key. */
    static method New(classes: Classes, lower: string -> string, table: seq<Pair>) returns (r: Option<Replacer>)
      requires Lawful(classes)
      ensures r == None <==> forall i :: 0 <= i < |table| ==> Normalize(lower, table[i].key) == ""
      ensures r.Some? ==> r.value.Valid() && r.value.classes == classes && AreEntries(lower, table, r.value.entries)
    {
      hide Normalize;
      var entries := MakeEntries(lower, table);
      if entries == [] {
        NoEntries(lower, table);
        return None;
      }
      EntriesAreUsable(lower, table, entries);
      var replacer := new Replacer(classes, entries);
      assert entries[0] in entries;
      ghost var i :| Kept(lower, table, i, |table|)
               && entries[0] == Entry(Normalize(lower, table[i].key), table[i].key, table[i].value);
      return Some(replacer);
    }

    constructor (classes: Classes, entries: seq<Entry>)
      requires Lawful(classes) && Usable(entries)
      ensures Valid() && this.classes == classes && this.entries == entries
    {
      this.classes, this.entries := classes, entries;
    }

    /** The next match at or after `from`: the leftmost, then the first
        alternative. */
    method FindNext(text: string, from: nat) returns (start: nat, hit: Option<Hit>)
      requires Valid() && from <= |text|
      ensures from <= start <= |text|
      ensures forall p :: from <= p < start ==> FirstKey(classes, entries, text, p, 0) == None
      ensures hit.Some? ==> start < |text| && hit == FirstKey(classes, entries, text, start, 0)
      ensures hit == None ==> start == |text|
    {
      start := from;
      while start < |text|
        invariant from <= start <= |text|
        invariant forall p :: from <= p < start ==> FirstKey(classes, entries, text, p, 0) == None
      {
        hit := FirstKey(classes, entries, text, start, 0);
        if hit.Some? {
          return;
        }
        start := start + 1;
      }
      hit := None;
    }

    /** Every replacement in one pass. The pattern takes the blanks after each
        match along, but only an empty value drops them. */
    method Apply(text: string) returns (out: string)
      requires Valid()
      ensures out == Rewrite(classes, entries, text, 0)
    {
      hide FirstKey, Rewrite, SkipBlanks, Lawful, Usable;
      out := "";
      var copied: nat, from: nat := 0, 0;
      while true
        invariant copied <= from <= |text|
        invariant Rewrite(classes, entries, text, 0) == out + Rewrite(classes, entries, text, copied)
        invariant forall p :: copied <= p < from ==> FirstKey(classes, entries, text, p, 0) == None
        decreases |text| - from
      {
        var start, hit := FindNext(text, from);
        RewriteGap(classes, entries, text, copied, start);
        if hit == None {
          RewriteEnd(classes, entries, text);
          out := out + text[copied..];
          return;
        }
        RewriteHit(classes, entries, text, start, hit.value);
        var end, value := hit.value.end, entries[hit.value.index].value;
        out := out + text[copied..start] + value;
        from := SkipBlanks(text, end);
        copied := if value == "" then from else end;
        forall p | end <= p < from
          ensures FirstKey(classes, entries, text, p, 0) == None
        {
          BlanksHideNothing(classes, entries, text, p);
        }
      }
    }
  }
}
