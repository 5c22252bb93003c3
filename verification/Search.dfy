/** Case-folded search (src/mcp.rs). A character and its fold may differ in
    length, so hits are found through a map from the fold's bytes to the text.
    `lower` is `char::to_lowercase`, whatever it maps to. */
module Search {
  import opened Basics

  type Lower = char -> string

  // ----- Folding -----

  const FINAL_SIGMA := '\U{03C2}'
  const SIGMA := '\U{03C3}'
  const DOTTED_I := '\U{0130}'

  function AsciiLower(c: char): char {
    if 'A' <= c <= 'Z' then c - 'A' + 'a' else c
  }

  function MapSigma(s: string): string {
    if s == "" then "" else [if s[0] == FINAL_SIGMA then SIGMA else s[0]] + MapSigma(s[1..])
  }

  function FoldChar(lower: Lower, c: char): string {
    if c < '\U{0080}' then [AsciiLower(c)]
    else if c == DOTTED_I then "i"
    else MapSigma(lower(c))
  }

  /** The bytes of `text` folded. */
  function Fold(lower: Lower, text: string): seq<byte> {
    if text == "" then [] else Fold(lower, text[..|text| - 1]) + Bytes(FoldChar(lower, text[|text| - 1]))
  }

  lemma {:induction false} FoldAppend(lower: Lower, a: string, b: string)
    ensures Fold(lower, a + b) == Fold(lower, a) + Fold(lower, b)
  {
    hide FoldChar, Bytes;
    if b == "" {
      assert a + b == a;
    } else {
      var front, last := b[..|b| - 1], b[|b| - 1];
      assert (a + b)[..|a + b| - 1] == a + front;
      FoldAppend(lower, a, front);
      assert Fold(lower, a + b) == (Fold(lower, a) + Fold(lower, front)) + Bytes(FoldChar(lower, last));
    }
  }

  // ----- What folding identifies -----

  /** The same character, or the two cases of an ASCII letter. */
  predicate CasePair(c: char, d: char) {
    || c == d
    || ('A' <= c <= 'Z' && d as int == c as int + 0x20)
    || ('A' <= d <= 'Z' && c as int == d as int + 0x20)
  }

  predicate IsAscii(s: string) {
    forall i :: 0 <= i < |s| ==> s[i] < '\U{0080}'
  }

  /** Of ASCII characters folding identifies exactly the two cases of a letter. */
  lemma AsciiFoldsByCase(lower: Lower, c: char, d: char)
    requires c < '\U{0080}' && d < '\U{0080}'
    ensures FoldChar(lower, c) == FoldChar(lower, d) <==> CasePair(c, d)
  {
  }

  /** Of the others, but for the dotted capital I, those whose lower case is the
      same up to the form of a sigma. */
  lemma OthersFoldByLowerCase(lower: Lower, c: char, d: char)
    requires c >= '\U{0080}' && d >= '\U{0080}' && c != '\U{0130}' && d != '\U{0130}'
    ensures FoldChar(lower, c) == FoldChar(lower, d) <==>
              && |lower(c)| == |lower(d)|
              && forall i :: 0 <= i < |lower(c)| ==>
                   lower(c)[i] == lower(d)[i] || {lower(c)[i], lower(d)[i]} == {'\U{03C2}', '\U{03C3}'}
  {
    MapSigmaMeans(lower(c));
    MapSigmaMeans(lower(d));
    if forall i :: 0 <= i < |lower(c)| == |lower(d)| ==>
         lower(c)[i] == lower(d)[i] || {lower(c)[i], lower(d)[i]} == {'\U{03C2}', '\U{03C3}'} {
      forall i | 0 <= i < |lower(c)| == |lower(d)|
        ensures MapSigma(lower(c))[i] == MapSigma(lower(d))[i]
      {
        assert lower(c)[i] in {lower(c)[i], lower(d)[i]} && lower(d)[i] in {lower(c)[i], lower(d)[i]};
      }
    }
    if FoldChar(lower, c) == FoldChar(lower, d) {
      forall i | 0 <= i < |lower(c)|
        ensures lower(c)[i] == lower(d)[i] || {lower(c)[i], lower(d)[i]} == {'\U{03C2}', '\U{03C3}'}
      {
        assert MapSigma(lower(c))[i] == MapSigma(lower(d))[i];
      }
    }
  }

  lemma {:induction false} MapSigmaMeans(s: string)
    ensures |MapSigma(s)| == |s|
    ensures forall i :: 0 <= i < |s| ==> MapSigma(s)[i] == if s[i] == '\U{03C2}' then '\U{03C3}' else s[i]
  {
    if s != "" {
      MapSigmaMeans(s[1..]);
    }
  }

  /** The dotted capital I folds like both plain ones. */
  lemma DottedIFoldsLikeI(lower: Lower)
    ensures FoldChar(lower, '\U{0130}') == FoldChar(lower, 'i') == FoldChar(lower, 'I')
  {
  }

  /** Texts whose characters fold alike fold alike. */
  lemma {:induction false} TextsFoldAlike(lower: Lower, a: string, b: string)
    requires |a| == |b| && forall i :: 0 <= i < |a| ==> FoldChar(lower, a[i]) == FoldChar(lower, b[i])
    ensures Fold(lower, a) == Fold(lower, b)
  {
    hide FoldChar, Bytes;
    if a != "" {
      TextsFoldAlike(lower, a[..|a| - 1], b[..|b| - 1]);
    }
  }

  /** ASCII text folds byte by byte, and only texts that differ in case alone
      fold alike. */
  lemma {:induction false} AsciiFold(lower: Lower, a: string)
    requires IsAscii(a)
    ensures |Fold(lower, a)| == |a|
    ensures forall i :: 0 <= i < |a| ==> |FoldChar(lower, a[i])| == 1 && Fold(lower, a)[i] as int == FoldChar(lower, a[i])[0] as int
  {
    if a != "" {
      var front, last := a[..|a| - 1], a[|a| - 1];
      AsciiFold(lower, front);
      var folded := FoldChar(lower, last);
      assert folded == [AsciiLower(last)] && folded[..0] == "" && Bytes(folded[..0]) == [];
      assert Bytes(folded) == Utf8(folded[0]);
    }
  }

  /** `q` stands in `hay` at `k`, ASCII case aside. */
  predicate StandsAt(hay: string, q: string, k: nat) {
    k + |q| <= |hay| && forall i :: 0 <= i < |q| ==> CasePair(hay[k + i], q[i])
  }

  /** Whatever the case of its ASCII letters, a text that holds the query is
      found by its fold. */
  lemma FoundWhateverTheCase(lower: Lower, hay: string, q: string, k: nat)
    requires StandsAt(hay, q, k)
    ensures Occurs(Fold(lower, hay), Fold(lower, q))
  {
    hide Fold, Bytes, Utf8;
    var a, m, b := hay[..k], hay[k..k + |q|], hay[k + |q|..];
    forall i | 0 <= i < |m|
      ensures FoldChar(lower, m[i]) == FoldChar(lower, q[i])
    {
      if m[i] != q[i] {
        AsciiFoldsByCase(lower, m[i], q[i]);
      }
    }
    TextsFoldAlike(lower, m, q);
    assert hay == (a + m) + b;
    FoldAppend(lower, a + m, b);
    FoldAppend(lower, a, m);
    var at := |Fold(lower, a)|;
    assert OccursAt(Fold(lower, hay), Fold(lower, q), at);
  }

  lemma QueriesOccur(lower: Lower, hay: string, needle: seq<byte>)
    ensures forall q, k: nat :: needle == Fold(lower, q) && StandsAt(hay, q, k) ==> Occurs(Fold(lower, hay), needle)
  {
    hide *;
    forall q, k: nat | needle == Fold(lower, q) && StandsAt(hay, q, k)
      ensures Occurs(Fold(lower, hay), needle)
    {
      FoundWhateverTheCase(lower, hay, q, k);
    }
  }

  /** In ASCII text nothing else is found. */
  lemma AsciiFoundExactlyWhen(lower: Lower, hay: string, q: string)
    requires IsAscii(hay) && IsAscii(q)
    ensures Occurs(Fold(lower, hay), Fold(lower, q)) <==> exists k: nat :: StandsAt(hay, q, k)
  {
    AsciiFold(lower, hay);
    AsciiFold(lower, q);
    hide Fold;
    if at :| OccursAt(Fold(lower, hay), Fold(lower, q), at) {
      forall i | 0 <= i < |q|
        ensures CasePair(hay[at + i], q[i])
      {
        assert Fold(lower, hay)[at..at + |q|][i] == Fold(lower, q)[i];
        AsciiFoldsByCase(lower, hay[at + i], q[i]);
      }
      assert StandsAt(hay, q, at);
    }
    if k: nat :| StandsAt(hay, q, k) {
      FoundWhateverTheCase(lower, hay, q, k);
    }
  }

  // ----- Substrings -----

  ghost predicate OccursAt(s: seq<byte>, needle: seq<byte>, at: int) {
    0 <= at && at + |needle| <= |s| && s[at..at + |needle|] == needle
  }

  ghost predicate Occurs(s: seq<byte>, needle: seq<byte>) {
    exists at :: OccursAt(s, needle, at)
  }

  /** `str::find`: the first occurrence. */
  method Find(s: seq<byte>, needle: seq<byte>) returns (found: Option<nat>)
    ensures found == None <==> !Occurs(s, needle)
    ensures found.Some? ==> OccursAt(s, needle, found.value) && forall k :: 0 <= k < found.value ==> !OccursAt(s, needle, k)
  {
    var at := 0;
    while at + |needle| <= |s|
      invariant forall k :: 0 <= k < at ==> !OccursAt(s, needle, k)
      decreases |s| - at
    {
      if s[at..at + |needle|] == needle {
        assert OccursAt(s, needle, at);
        return Some(at);
      }
      at := at + 1;
    }
    return None;
  }

  // ----- Positions -----

  /** A byte range of a text. */
  datatype Range = Range(start: nat, end: nat)

  /** Character `k` of the text starts at this byte. */
  function Offset(text: string, k: nat): nat
    requires k <= |text|
  {
    |Bytes(text[..k])|
  }

  /** The fold of character `k` starts at this byte of the fold. */
  function FoldOffset(lower: Lower, text: string, k: nat): nat
    requires k <= |text|
  {
    |Fold(lower, text[..k])|
  }

  /** Byte `p` of the fold comes from character `k`. */
  predicate ComesFrom(lower: Lower, text: string, p: nat, k: nat) {
    k < |text| && FoldOffset(lower, text, k) <= p < FoldOffset(lower, text, k + 1)
  }

  /** The range is the characters from `a` to `b`: the first match of the
      needle in the fold starts in the fold of `a` and ends in that of `b`. */
  ghost predicate Covers(lower: Lower, hay: string, needle: seq<byte>, range: Range, a: nat, b: nat, at: nat) {
    && a <= b < |hay| && range == Range(Offset(hay, a), Offset(hay, b + 1))
    && OccursAt(Fold(lower, hay), needle, at)
    && (forall k :: 0 <= k < at ==> !OccursAt(Fold(lower, hay), needle, k))
    && ComesFrom(lower, hay, at, a)
    && needle != [] && ComesFrom(lower, hay, at + |needle| - 1, b)
  }

  /** Byte `at` is where a character starts, or the end. */
  predicate Boundary(text: string, at: nat) {
    at == 0 || (text != "" && at >= |Utf8(text[0])| && Boundary(text[1..], at - |Utf8(text[0])|))
  }

  /** `text[at..]` by bytes. */
  function From(text: string, at: nat): string
    requires Boundary(text, at)
  {
    if at == 0 then text else From(text[1..], at - |Utf8(text[0])|)
  }

  /** `text[..at]` by bytes. */
  function UpTo(text: string, at: nat): string
    requires Boundary(text, at)
  {
    if at == 0 then "" else [text[0]] + UpTo(text[1..], at - |Utf8(text[0])|)
  }

  lemma {:induction false} OffsetIsBoundary(text: string, k: nat)
    requires k <= |text|
    ensures Boundary(text, Offset(text, k))
    ensures From(text, Offset(text, k)) == text[k..]
    ensures UpTo(text, Offset(text, k)) == text[..k]
  {
    hide Utf8, Bytes;
    NoBytes();
    if k == 0 {
      assert text[..0] == "";
    } else {
      OffsetIsBoundary(text[1..], k - 1);
      OffsetRest(text, k);
      assert text[1..][k - 1..] == text[k..];
      assert text[..k] == [text[0]] + text[1..][..k - 1];
    }
  }

  lemma NoBytes()
    ensures Bytes("") == []
  {
  }

  lemma OffsetRest(text: string, k: nat)
    requires 0 < k <= |text|
    ensures Offset(text, k) == |Utf8(text[0])| + Offset(text[1..], k - 1)
  {
    hide Utf8;
    assert text[..k] == [text[0]] + text[1..][..k - 1];
    BytesAppend([text[0]], text[1..][..k - 1]);
    assert [text[0]][..0] == "";
    assert Bytes([text[0]]) == Utf8(text[0]);
  }

  // ----- The search -----

  /** The map built so far is right at byte `p`. */
  ghost predicate OriginAt(lower: Lower, hay: string, origin: seq<nat>, p: nat) {
    p < |origin| && exists k: nat :: ComesFrom(lower, hay, p, k) && origin[p] == Offset(hay, k)
  }

  /** Where a folded needle is in `hay`, case aside. */
  method FindCi(lower: Lower, hay: string, needle: seq<byte>) returns (found: Option<Range>)
    requires needle != []
    ensures found.Some? <==> Occurs(Fold(lower, hay), needle)
    ensures found.Some? ==> exists a, b, at :: Covers(lower, hay, needle, found.value, a, b, at)
    ensures forall q, k: nat :: needle == Fold(lower, q) && StandsAt(hay, q, k) ==> found.Some?
  {
    hide StandsAt, Utf8, Fold, Bytes, FoldChar, Occurs;
    QueriesOccur(lower, hay, needle);
    var contained := Find(Fold(lower, hay), needle);
    if contained == None {
      return None;
    }
    var folded, origin := BuildOrigin(lower, hay);
    var at := Find(folded, needle);
    assert OccursAt(folded, needle, at.value);
    var end := at.value + |needle| - 1;
    assert OriginAt(lower, hay, origin, at.value) && OriginAt(lower, hay, origin, end);
    var start, last := origin[at.value], origin[end];
    ghost var a: nat :| ComesFrom(lower, hay, at.value, a) && start == Offset(hay, a);
    ghost var b: nat :| ComesFrom(lower, hay, end, b) && last == Offset(hay, b);
    InOrder(lower, hay, at.value, end, a, b);
    OffsetIsBoundary(hay, b);
    var rest := From(hay, last);
    OffsetNext(hay, b);
    var range := Range(start, last + if rest == "" then 0 else |Utf8(rest[0])|);
    assert Covers(lower, hay, needle, range, a, b, at.value);
    return Some(range);
  }

  /** The fold, with where each of its bytes comes from. */
  method BuildOrigin(lower: Lower, hay: string) returns (folded: seq<byte>, origin: seq<nat>)
    ensures folded == Fold(lower, hay) && |origin| == |folded|
    ensures forall p :: 0 <= p < |origin| ==> OriginAt(lower, hay, origin, p)
  {
    hide Utf8, Fold, Bytes, FoldChar;
    NoBytes();
    NoFold(lower);
    folded, origin := [], [];
    var i, pos := 0, 0;
    assert hay[..0] == "";
    while i < |hay|
      invariant i <= |hay| && folded == Fold(lower, hay[..i]) && pos == Offset(hay, i)
      invariant |origin| == |folded|
      invariant forall p :: 0 <= p < |origin| ==> OriginAt(lower, hay, origin, p)
    {
      FoldNext(lower, hay, i);
      OffsetNext(hay, i);
      folded := folded + Bytes(FoldChar(lower, hay[i]));
      ghost var before := origin;
      origin := origin + seq(|folded| - |origin|, _ => pos);
      forall p | 0 <= p < |origin|
        ensures OriginAt(lower, hay, origin, p)
      {
        if p < |before| {
          assert OriginAt(lower, hay, before, p);
        } else {
          assert ComesFrom(lower, hay, p, i);
        }
      }
      pos := pos + |Utf8(hay[i])|;
      i := i + 1;
    }
    assert hay[..|hay|] == hay;
  }

  lemma NoFold(lower: Lower)
    ensures Fold(lower, "") == []
  {
  }

  lemma FoldNext(lower: Lower, hay: string, i: nat)
    requires i < |hay|
    ensures Fold(lower, hay[..i + 1]) == Fold(lower, hay[..i]) + Bytes(FoldChar(lower, hay[i]))
  {
    assert hay[..i + 1][..i] == hay[..i];
  }

  lemma OffsetNext(hay: string, i: nat)
    requires i < |hay|
    ensures Offset(hay, i + 1) == Offset(hay, i) + |Utf8(hay[i])|
  {
    assert hay[..i + 1][..i] == hay[..i];
  }

  lemma {:induction false} FoldOffsetGrows(lower: Lower, hay: string, i: nat, j: nat)
    requires i <= j <= |hay|
    ensures FoldOffset(lower, hay, i) <= FoldOffset(lower, hay, j)
  {
    assert hay[..j] == hay[..i] + hay[i..j];
    FoldAppend(lower, hay[..i], hay[i..j]);
  }

  lemma InOrder(lower: Lower, hay: string, p: nat, q: nat, a: nat, b: nat)
    requires p <= q && ComesFrom(lower, hay, p, a) && ComesFrom(lower, hay, q, b)
    ensures a <= b
  {
    if b < a {
      FoldOffsetGrows(lower, hay, b + 1, a);
    }
  }

  // ----- The snippet -----

  const SNIPPET_CONTEXT := 60
  const ELLIPSIS := "\U{2026}"

  /** The match at `range` with up to 60 characters around it. */
  function Snippet(text: string, range: Range): string
    requires range.start <= range.end && Boundary(text, range.start) && Boundary(text, range.end)
  {
    Cut(UpTo(text, range.start), Slice(text, range), From(text, range.end))
  }

  /** The match with the characters before and after it, cut to 60 each. */
  function Cut(before: string, middle: string, after: string): string {
    var head := before[if |before| > SNIPPET_CONTEXT then |before| - SNIPPET_CONTEXT else 0..];
    var tail := after[..Min(|after|, SNIPPET_CONTEXT)];
    (if |before| > SNIPPET_CONTEXT then ELLIPSIS else "") + head + middle + tail
    + (if |after| > SNIPPET_CONTEXT then ELLIPSIS else "")
  }

  /** `text[range]` by bytes. */
  function Slice(text: string, range: Range): string
    requires range.start <= range.end && Boundary(text, range.start) && Boundary(text, range.end)
  {
    var prefix := UpTo(text, range.end);
    prefix[Min(|UpTo(text, range.start)|, |prefix|)..]
  }

  /** Where the context around characters `a` to `b` starts and ends. */
  function ContextFrom(a: nat): nat {
    if a > 60 then a - 60 else 0
  }

  function ContextTo(hay: string, b: nat): nat {
    Min(|hay|, b + 1 + 60)
  }

  /** The snippet is always defined on a range of characters: the text from 60
      characters before it to 60 after, marked where it was cut. */
  lemma SnippetIsContext(hay: string, range: Range, a: nat, b: nat)
    requires a <= b < |hay| && range == Range(Offset(hay, a), Offset(hay, b + 1))
    ensures range.start <= range.end && Boundary(hay, range.start) && Boundary(hay, range.end)
    ensures ContextFrom(a) <= a && b + 1 <= ContextTo(hay, b) <= |hay|
    ensures Snippet(hay, range)
         == (if ContextFrom(a) > 0 then ELLIPSIS else "") + hay[ContextFrom(a)..ContextTo(hay, b)]
            + (if ContextTo(hay, b) < |hay| then ELLIPSIS else "")
  {
    hide Boundary, From, UpTo, Cut, ContextFrom, ContextTo, Offset, Slice;
    ContextAround(hay, a, b);
    OffsetIsBoundary(hay, a);
    OffsetIsBoundary(hay, b + 1);
    OffsetGrows(hay, a, b + 1);
    SliceIs(hay, range, a, b);
    CutIsContext(hay, a, b);
  }

  lemma SliceIs(hay: string, range: Range, a: nat, b: nat)
    requires a <= b < |hay| && range == Range(Offset(hay, a), Offset(hay, b + 1))
    requires range.start <= range.end && Boundary(hay, range.start) && Boundary(hay, range.end)
    ensures Slice(hay, range) == hay[a..b + 1]
  {
    hide Boundary, From, UpTo, Offset;
    OffsetIsBoundary(hay, a);
    OffsetIsBoundary(hay, b + 1);
    var end := hay[..b + 1];
    assert end[a..] == hay[a..b + 1];
  }

  lemma ContextAround(hay: string, a: nat, b: nat)
    requires a <= b < |hay|
    ensures ContextFrom(a) <= a && b + 1 <= ContextTo(hay, b) <= |hay|
  {
  }

  lemma CutIsContext(hay: string, a: nat, b: nat)
    requires a <= b < |hay|
    ensures Cut(hay[..a], hay[a..b + 1], hay[b + 1..])
         == (if ContextFrom(a) > 0 then ELLIPSIS else "") + hay[ContextFrom(a)..ContextTo(hay, b)]
            + (if ContextTo(hay, b) < |hay| then ELLIPSIS else "")
  {
    var from, to := ContextFrom(a), ContextTo(hay, b);
    var start, end := if from > 0 then ELLIPSIS else "", if to < |hay| then ELLIPSIS else "";
    Around(hay, a, b, from, to);
    Regroup(start, hay[..a][from..], hay[a..b + 1], hay[b + 1..][..to - b - 1], end);
  }

  lemma Around(hay: string, a: nat, b: nat, from: nat, to: nat)
    requires from <= a <= b < to <= |hay|
    ensures hay[from..to] == hay[..a][from..] + hay[a..b + 1] + hay[b + 1..][..to - b - 1]
  {
  }

  lemma Regroup(start: string, head: string, middle: string, tail: string, end: string)
    ensures start + head + middle + tail + end == start + (head + middle + tail) + end
  {
  }

  /** The snippet of a hit shows the hit: its own fold contains the needle. */
  lemma SnippetShowsTheHit(lower: Lower, hay: string, needle: seq<byte>, range: Range, a: nat, b: nat, at: nat)
    requires Covers(lower, hay, needle, range, a, b, at)
    ensures range.start <= range.end && Boundary(hay, range.start) && Boundary(hay, range.end)
    ensures Occurs(Fold(lower, hay[a..b + 1]), needle)
    ensures Occurs(Fold(lower, Snippet(hay, range)), needle)
  {
    hide Utf8, Fold, Bytes, FoldChar, Occurs, Boundary, From, UpTo, Snippet;
    SnippetIsContext(hay, range, a, b);
    HitInTheMiddle(lower, hay, needle, a, b, at);
    var from, to := ContextFrom(a), ContextTo(hay, b);
    var head := (if from > 0 then ELLIPSIS else "") + hay[from..a];
    var tail := hay[b + 1..to] + (if to < |hay| then ELLIPSIS else "");
    var middle := hay[a..b + 1];
    assert hay[from..to] == hay[from..a] + middle + hay[b + 1..to];
    assert Snippet(hay, range) == head + middle + tail;
    FoldAppend(lower, head + middle, tail);
    FoldAppend(lower, head, middle);
    OccursInside(Fold(lower, head), Fold(lower, middle), Fold(lower, tail), needle);
  }

  lemma OffsetGrows(hay: string, i: nat, j: nat)
    requires i <= j <= |hay|
    ensures Offset(hay, i) <= Offset(hay, j)
  {
    assert hay[..j] == hay[..i] + hay[i..j];
    BytesAppend(hay[..i], hay[i..j]);
  }

  lemma OccursInside(a: seq<byte>, m: seq<byte>, b: seq<byte>, needle: seq<byte>)
    requires Occurs(m, needle)
    ensures Occurs(a + m + b, needle)
  {
    var at :| OccursAt(m, needle, at);
    assert (a + m + b)[|a| + at..|a| + at + |needle|] == m[at..at + |needle|];
    assert OccursAt(a + m + b, needle, |a| + at);
  }

  lemma HitInTheMiddle(lower: Lower, hay: string, needle: seq<byte>, a: nat, b: nat, at: nat)
    requires a <= b < |hay| && needle != [] && OccursAt(Fold(lower, hay), needle, at)
    requires ComesFrom(lower, hay, at, a) && ComesFrom(lower, hay, at + |needle| - 1, b)
    ensures Occurs(Fold(lower, hay[a..b + 1]), needle)
  {
    hide Fold, Occurs, OccursAt;
    var f, m, l := Fold(lower, hay[..a]), Fold(lower, hay[a..b + 1]), Fold(lower, hay[b + 1..]);
    assert hay[..b + 1] == hay[..a] + hay[a..b + 1] && hay == hay[..b + 1] + hay[b + 1..];
    FoldAppend(lower, hay[..a], hay[a..b + 1]);
    FoldAppend(lower, hay[..b + 1], hay[b + 1..]);
    assert Fold(lower, hay) == f + m + l;
    OccursWithin(f, m, l, needle, at);
  }

  lemma OccursWithin(a: seq<byte>, m: seq<byte>, b: seq<byte>, needle: seq<byte>, at: nat)
    requires OccursAt(a + m + b, needle, at) && |a| <= at && at + |needle| <= |a + m|
    ensures Occurs(m, needle)
  {
    assert (a + m + b)[at..at + |needle|] == m[at - |a|..at - |a| + |needle|];
    assert OccursAt(m, needle, at - |a|);
  }
}
