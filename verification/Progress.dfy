/** Activities and interims (src/agent/progress.rs): which texts may be
    spoken while a turn runs, and which tool labels are shown.

    `Reports` reads a whole transcript from its front, one tool call at a
    time. The incremental readers (`StreamState`, `Tail`) hold only the last
    label and one text, and are proved to send exactly `Reports`. */
module Progress {
  import opened Basics
  import opened Turn

  /** The two pure functions the readers call into: whether a text has a
      complete `<spoken>` pair, and a tool's label. */
  datatype Words = Words(spoken: string -> bool, labelOf: string -> string)

  /** What a transcript says, in order: a text, a tool call, or (Tail only)
      that the file was rewritten and what is held belongs to old contents. */
  datatype Beat = Say(text: string) | Call(tool: string) | Rewritten

  // ----- The specification -----

  function FirstCall(b: seq<Beat>): (i: nat)
    ensures i <= |b|
    ensures i < |b| ==> b[i].Call?
    ensures forall k :: 0 <= k < i ==> !b[k].Call?
  {
    if b == [] then 0 else if b[0].Call? then 0 else
      var rest := FirstCall(b[1..]);
      assert forall k :: 1 <= k < 1 + rest ==> b[k] == b[1..][k - 1];
      1 + rest
  }

  /** Between two tool calls, the last text with a complete pair. */
  function Chosen(w: Words, segment: seq<Beat>): Option<string> {
    if segment == [] then None
    else
      match segment[|segment| - 1]
      case Say(text) => if w.spoken(text) then Some(text) else Chosen(w, segment[..|segment| - 1])
      case Call(_) => None
      case Rewritten => None
  }

  /** Everything sent for a transcript: per tool call, its label when it
      differs from the previous call's, then the text chosen since that call. */
  function Reports(w: Words, b: seq<Beat>, previous: Option<string>): seq<TurnUpdate>
    decreases |b|
  {
    var k := FirstCall(b);
    if k == |b| then []
    else
      var tag := w.labelOf(b[k].tool);
      CallReport(previous, tag, Chosen(w, b[..k])) + Reports(w, b[k + 1..], Some(tag))
  }

  /** What one tool call is worth: its label if it is new, then the held text. */
  function CallReport(previous: Option<string>, tag: string, held: Option<string>): seq<TurnUpdate> {
    (if previous == Some(tag) then [] else [Activity(tag)]) + InterimOf(held)
  }

  function InterimOf(held: Option<string>): seq<TurnUpdate> {
    match held
    case None => []
    case Some(text) => [Interim(text)]
  }

  /** The label of the last tool call. */
  function LastLabel(w: Words, b: seq<Beat>, previous: Option<string>): Option<string>
    decreases |b|
  {
    var k := FirstCall(b);
    if k == |b| then previous else LastLabel(w, b[k + 1..], Some(w.labelOf(b[k].tool)))
  }

  /** What follows the last tool call. */
  function AfterLastCall(b: seq<Beat>): seq<Beat>
    decreases |b|
  {
    var k := FirstCall(b);
    if k == |b| then b else AfterLastCall(b[k + 1..])
  }

  /** The text that a tool call would now release. */
  function Held(w: Words, b: seq<Beat>): Option<string> {
    Chosen(w, AfterLastCall(b))
  }

  // ----- The specification extends one beat at a time -----

  lemma FirstCallUnique(b: seq<Beat>, k: nat)
    requires k <= |b|
    requires k < |b| ==> b[k].Call?
    requires forall j :: 0 <= j < k ==> !b[j].Call?
    ensures FirstCall(b) == k
  {
  }

  /** What one more beat is worth, given what came before. */
  function Worth(w: Words, b: seq<Beat>, previous: Option<string>, x: Beat): seq<TurnUpdate> {
    if !x.Call? then [] else CallReport(LastLabel(w, b, previous), w.labelOf(x.tool), Held(w, b))
  }

  /** Where the first call of `b + [x]` is: where that of `b` is, if any. */
  lemma FirstCallInside(b: seq<Beat>, x: Beat, k: nat)
    requires k == FirstCall(b) < |b|
    ensures FirstCall(b + [x]) == k && (b + [x])[k] == b[k]
    ensures (b + [x])[..k] == b[..k]
    ensures (b + [x])[k + 1..] == b[k + 1..] + [x]
  {
    hide FirstCall;
    FirstCallUnique(b + [x], k);
  }

  lemma FirstCallAtEnd(b: seq<Beat>, x: Beat)
    requires FirstCall(b) == |b|
    ensures FirstCall(b + [x]) == if x.Call? then |b| else |b| + 1
    ensures (b + [x])[..|b|] == b
    ensures (b + [x])[|b| + 1..] == []
  {
    FirstCallUnique(b + [x], if x.Call? then |b| else |b| + 1);
  }

  lemma {:induction false} ExtendTail(w: Words, b: seq<Beat>, previous: Option<string>, x: Beat)
    ensures LastLabel(w, b + [x], previous)
         == if x.Call? then Some(w.labelOf(x.tool)) else LastLabel(w, b, previous)
    ensures AfterLastCall(b + [x]) == if x.Call? then [] else AfterLastCall(b) + [x]
    ensures LastLabel(w, [], previous) == previous && AfterLastCall([]) == []
    decreases |b|
  {
    var k := FirstCall(b);
    if k < |b| {
      FirstCallInside(b, x, k);
      ExtendTail(w, b[k + 1..], Some(w.labelOf(b[k].tool)), x);
    } else {
      FirstCallAtEnd(b, x);
    }
  }

  /** Beats up to the first call do not change what a later one is worth. */
  lemma WorthSkips(w: Words, b: seq<Beat>, previous: Option<string>, x: Beat, k: nat)
    requires k == FirstCall(b) < |b|
    ensures Worth(w, b, previous, x) == Worth(w, b[k + 1..], Some(w.labelOf(b[k].tool)), x)
  {
    hide FirstCall, Chosen, CallReport;
  }

  lemma {:induction false} ExtendOne(w: Words, b: seq<Beat>, previous: Option<string>, x: Beat)
    ensures Reports(w, b + [x], previous) == Reports(w, b, previous) + Worth(w, b, previous, x)
    decreases |b|
  {
    hide FirstCall, Chosen, CallReport, Worth;
    var k := FirstCall(b);
    if k < |b| {
      FirstCallInside(b, x, k);
      WorthSkips(w, b, previous, x, k);
      ExtendOne(w, b[k + 1..], Some(w.labelOf(b[k].tool)), x);
    } else {
      ExtendLast(w, b, previous, x);
    }
  }

  lemma ExtendLast(w: Words, b: seq<Beat>, previous: Option<string>, x: Beat)
    requires FirstCall(b) == |b|
    ensures Reports(w, b, previous) == []
    ensures Reports(w, b + [x], previous) == Worth(w, b, previous, x)
  {
    hide Chosen, CallReport;
    FirstCallAtEnd(b, x);
    if x.Call? {
      var tag := w.labelOf(x.tool);
      assert Reports(w, [], Some(tag)) == [];
    }
  }

  lemma {:induction false} ReportsGrow(w: Words, a: seq<Beat>, b: seq<Beat>, previous: Option<string>)
    ensures Reports(w, a, previous) <= Reports(w, a + b, previous)
  {
    if b == [] {
      assert a + b == a;
    } else {
      var p := a + b[..|b| - 1];
      assert a + b == p + [b[|b| - 1]];
      ReportsGrow(w, a, b[..|b| - 1], previous);
      ExtendOne(w, p, previous, b[|b| - 1]);
    }
  }

  // ----- What the specification means -----

  /** The chosen text is the last with a pair: one is chosen exactly when the
      segment, after any rewrite, has one, and none with a pair follows it. */
  ghost predicate IsLastSpoken(w: Words, segment: seq<Beat>, j: int, text: string) {
    && 0 <= j < |segment| && segment[j] == Say(text) && w.spoken(text)
    && forall k :: j < k < |segment| ==> segment[k].Say? && !w.spoken(segment[k].text)
  }

  lemma {:induction false} ChosenIsLastSpoken(w: Words, segment: seq<Beat>, text: string)
    ensures Chosen(w, segment) == Some(text) <==> exists j :: IsLastSpoken(w, segment, j, text)
  {
    if segment != [] {
      var n := |segment| - 1;
      var front := segment[..n];
      ChosenIsLastSpoken(w, front, text);
      if segment[n].Say? && w.spoken(segment[n].text) {
        if Chosen(w, segment) == Some(text) {
          assert IsLastSpoken(w, segment, n, text);
        }
      } else if segment[n].Say? {
        if Chosen(w, segment) == Some(text) {
          var j :| IsLastSpoken(w, front, j, text);
          assert IsLastSpoken(w, segment, j, text);
        }
        if j :| IsLastSpoken(w, segment, j, text) {
          assert IsLastSpoken(w, front, j, text);
        }
      }
    }
  }

  function Interims(updates: seq<TurnUpdate>): seq<string> {
    if updates == [] then []
    else (if updates[0].Interim? then [updates[0].raw] else []) + Interims(updates[1..])
  }

  function Activities(updates: seq<TurnUpdate>): seq<string> {
    if updates == [] then []
    else (if updates[0].Activity? then [updates[0].line] else []) + Activities(updates[1..])
  }

  lemma {:induction false} ProjectAppend(a: seq<TurnUpdate>, b: seq<TurnUpdate>)
    ensures Interims(a + b) == Interims(a) + Interims(b)
    ensures Activities(a + b) == Activities(a) + Activities(b)
  {
    if a == [] {
      assert a + b == b;
    } else {
      assert (a + b)[1..] == a[1..] + b;
      ProjectAppend(a[1..], b);
    }
  }

  /** The labels of the tool calls, in order. */
  function Labels(w: Words, b: seq<Beat>): seq<string> {
    if b == [] then []
    else (if b[0].Call? then [w.labelOf(b[0].tool)] else []) + Labels(w, b[1..])
  }

  /** `labels` with every run of equal neighbours sent once. */
  function Collapse(labels: seq<string>, previous: Option<string>): seq<string> {
    if labels == [] then []
    else (if previous == Some(labels[0]) then [] else [labels[0]]) + Collapse(labels[1..], Some(labels[0]))
  }

  lemma {:induction false} LabelsSkip(w: Words, b: seq<Beat>, k: nat)
    requires k <= |b| && forall j :: 0 <= j < k ==> !b[j].Call?
    ensures Labels(w, b) == Labels(w, b[k..])
  {
    if k == 0 {
      assert b[k..] == b;
    } else {
      assert forall j :: 0 <= j < k - 1 ==> b[1..][j] == b[j + 1];
      assert b[1..][k - 1..] == b[k..];
      LabelsSkip(w, b[1..], k - 1);
    }
  }

  lemma CallReportProjects(previous: Option<string>, tag: string, held: Option<string>)
    ensures Interims(CallReport(previous, tag, held)) == Singleton(held)
    ensures Activities(CallReport(previous, tag, held)) == if previous == Some(tag) then [] else [tag]
    ensures held.Some? ==> CallReport(previous, tag, held) != []
                           && CallReport(previous, tag, held)[|CallReport(previous, tag, held)| - 1] == Interim(held.value)
  {
    ProjectAppend(if previous == Some(tag) then [] else [Activity(tag)], InterimOf(held));
    assert [Activity(tag)][1..] == [];
    assert held.Some? ==> InterimOf(held)[1..] == [];
  }

  /** The activities sent are the tool labels, consecutive repeats collapsed. */
  lemma {:induction false} ActivitiesAreCollapsedLabels(w: Words, b: seq<Beat>, previous: Option<string>)
    ensures Activities(Reports(w, b, previous)) == Collapse(Labels(w, b), previous)
    decreases |b|
  {
    var k := FirstCall(b);
    LabelsSkip(w, b, k);
    if k < |b| {
      var tag := w.labelOf(b[k].tool);
      var tail := b[k + 1..];
      assert b[k..][1..] == tail;
      assert Labels(w, b) == [tag] + Labels(w, tail);
      assert Labels(w, b)[1..] == Labels(w, tail);
      ActivitiesAreCollapsedLabels(w, tail, Some(tag));
      CallReportProjects(previous, tag, Chosen(w, b[..k]));
      ProjectAppend(CallReport(previous, tag, Chosen(w, b[..k])), Reports(w, tail, Some(tag)));
    }
  }

  /** How often a text is sent is never more than how often it was said, each
      saying is released at most once, and only a text with a pair is. */
  function Sayings(w: Words, b: seq<Beat>): multiset<string> {
    if b == [] then multiset{}
    else (if b[0].Say? && w.spoken(b[0].text) then multiset{b[0].text} else multiset{}) + Sayings(w, b[1..])
  }

  lemma {:induction false} SayingsAppend(w: Words, a: seq<Beat>, b: seq<Beat>)
    ensures Sayings(w, a + b) == Sayings(w, a) + Sayings(w, b)
  {
    if a == [] {
      assert a + b == b;
    } else {
      assert (a + b)[1..] == a[1..] + b;
      SayingsAppend(w, a[1..], b);
    }
  }

  lemma {:induction false} ChosenWasSaid(w: Words, segment: seq<Beat>)
    ensures multiset(Singleton(Chosen(w, segment))) <= Sayings(w, segment)
  {
    if segment != [] {
      var n := |segment| - 1;
      assert segment == segment[..n] + [segment[n]];
      SayingsAppend(w, segment[..n], [segment[n]]);
      ChosenWasSaid(w, segment[..n]);
      assert [segment[n]][1..] == [];
    }
  }

  /** Every saying is released at most once, and nothing after the last tool
      call is released at all: an interim is never the final message. */
  lemma {:induction false} ReleasedOnceBeforeTheLastCall(w: Words, b: seq<Beat>, previous: Option<string>)
    ensures multiset(Interims(Reports(w, b, previous))) + Sayings(w, AfterLastCall(b)) <= Sayings(w, b)
    decreases |b|
  {
    hide FirstCall, Sayings, Interims, Chosen, CallReport;
    var k := FirstCall(b);
    if k < |b| {
      var tag, tail, held := w.labelOf(b[k].tool), b[k + 1..], Chosen(w, b[..k]);
      ReleasedOnceBeforeTheLastCall(w, tail, Some(tag));
      ChosenWasSaid(w, b[..k]);
      CallReportProjects(previous, tag, held);
      ProjectAppend(CallReport(previous, tag, held), Reports(w, tail, Some(tag)));
      SayingsSplit(w, b, k);
      assert Interims(Reports(w, b, previous)) == Singleton(held) + Interims(Reports(w, tail, Some(tag)));
    } else {
      assert Reports(w, b, previous) == [];
      NoInterims();
    }
  }

  lemma NoInterims()
    ensures Interims([]) == []
  {
  }

  lemma SayingsSplit(w: Words, b: seq<Beat>, k: nat)
    requires k < |b| && b[k].Call?
    ensures Sayings(w, b) == Sayings(w, b[..k]) + Sayings(w, b[k + 1..])
  {
    assert b == b[..k] + b[k..] && b[k..][1..] == b[k + 1..];
    SayingsAppend(w, b[..k], b[k..]);
  }

  // ----- The tracker -----

  /** Holds back one text: it may still turn out to be the reply. `beats` is
      what it was fed. */
  class InterimTracker {
    const words: Words
    var pending: Option<string>
    ghost var beats: seq<Beat>

    ghost predicate Valid()
      reads this
    {
      pending == Held(words, beats)
    }

    constructor (words: Words)
      ensures Valid() && this.words == words && beats == []
    {
      this.words := words;
      pending, beats := None, [];
    }

    method OnText(text: string)
      requires Valid()
      modifies this
      ensures Valid() && beats == old(beats) + [Say(text)]
    {
      ExtendTail(words, beats, None, Say(text));
      assert (AfterLastCall(beats) + [Say(text)])[..|AfterLastCall(beats)|] == AfterLastCall(beats);
      if words.spoken(text) {
        pending := Some(text);
      }
      beats := beats + [Say(text)];
    }

    method OnTool(ghost tool: string) returns (released: Option<string>)
      requires Valid()
      modifies this
      ensures Valid() && beats == old(beats) + [Call(tool)]
      ensures released == Held(words, old(beats))
    {
      ExtendTail(words, beats, None, Call(tool));
      released := pending;
      pending := None;
      beats := beats + [Call(tool)];
    }

    method End()
      requires Valid()
      modifies this
      ensures Valid() && beats == old(beats) + [Rewritten]
      ensures pending == None
    {
      ExtendTail(words, beats, None, Rewritten);
      pending := None;
      beats := beats + [Rewritten];
    }
  }

  // ----- The gate -----

  datatype Feedback = Summary | Brief | Conversational
  datatype InterimKind = Ack | ProgressUpdate

  const PROGRESS_MIN_GAP := 20_000

  /** `str::split_whitespace`. */
  function SplitWhitespace(s: string): seq<string>
    decreases |s|
  {
    if s == [] then []
    else if IsWhitespace(s[0]) then SplitWhitespace(s[1..])
    else
      var n := WordLength(s);
      [s[..n]] + SplitWhitespace(s[n..])
  }

  function WordLength(s: string): (n: nat)
    ensures n <= |s|
    ensures s != [] && !IsWhitespace(s[0]) ==> n > 0
    ensures (forall i :: 0 <= i < n ==> !IsWhitespace(s[i])) && (n < |s| ==> IsWhitespace(s[n]))
  {
    if s == [] || IsWhitespace(s[0]) then 0 else 1 + WordLength(s[1..])
  }

  /** Whitespace separates words and is no part of them. */
  lemma {:induction false} SplitsAtWhitespace(a: string, space: char, b: string)
    requires IsWhitespace(space)
    ensures SplitWhitespace(a + [space] + b) == SplitWhitespace(a) + SplitWhitespace(b)
    decreases |a|
  {
    var s := a + [space] + b;
    if a == "" {
      assert s[1..] == b;
    } else if IsWhitespace(a[0]) {
      assert s[1..] == a[1..] + [space] + b;
      SplitsAtWhitespace(a[1..], space, b);
    } else {
      var n := WordLength(a);
      WordLengthIs(s, n);
      assert s[..n] == a[..n] && s[n..] == a[n..] + [space] + b;
      SplitsAtWhitespace(a[n..], space, b);
    }
  }

  lemma {:induction false} WordLengthIs(s: string, n: nat)
    requires n <= |s| && (forall i :: 0 <= i < n ==> !IsWhitespace(s[i])) && (n < |s| ==> IsWhitespace(s[n]))
    ensures WordLength(s) == n
  {
    if n > 0 {
      WordLengthIs(s[1..], n - 1);
    }
  }

  lemma OneWord(s: string)
    requires s != "" && forall i :: 0 <= i < |s| ==> !IsWhitespace(s[i])
    ensures SplitWhitespace(s) == [s] && SplitWhitespace("") == []
  {
    WordLengthIs(s, |s|);
    assert s[..|s|] == s && s[|s|..] == "";
  }

  /** How much whitespace there is between two words, and which, makes no
      difference to a reply, nor does any around it; the words do. */
  lemma SameReplyMeans(a: string, b: string, space: char, other: string, word: string, last: string)
    requires IsWhitespace(space) && other != "" && Blank(other)
    requires word != "" && last != "" && forall c :: c in word || c in last ==> !IsWhitespace(c)
    ensures SameReply(a + [space] + b, a + other + b) && SameReply([space] + a, a) && SameReply(a + [space], a)
    ensures SameReply(a + [space] + word, a + [space] + last) <==> word == last
  {
    hide SplitWhitespace;
    OneWord(word);
    OneWord(last);
    SplitsAtWhitespace(a, space, b);
    SplitsAtBlank(a, other, b);
    SplitsAtWhitespace("", space, a);
    SplitsAtWhitespace(a, space, "");
    SplitsAtWhitespace(a, space, word);
    SplitsAtWhitespace(a, space, last);
    assert "" + [space] + a == [space] + a && a + [space] + "" == a + [space];
    var words := SplitWhitespace(a);
    assert (words + [word])[|words|] == word && (words + [last])[|words|] == last;
  }

  lemma {:induction false} SplitsAtBlank(a: string, blank: string, b: string)
    requires blank != "" && Blank(blank)
    ensures SplitWhitespace(a + blank + b) == SplitWhitespace(a) + SplitWhitespace(b)
    decreases |blank|
  {
    hide SplitWhitespace;
    var rest := blank[1..];
    SplitsAtWhitespace(a, blank[0], rest + b);
    assert a + blank + b == a + [blank[0]] + (rest + b);
    if rest == "" {
      assert rest + b == b;
    } else {
      SplitsAtBlank("", rest, b);
      assert "" + rest + b == rest + b;
      NoWords();
    }
  }

  lemma NoWords()
    ensures SplitWhitespace("") == []
  {
  }

  /** Equal up to whitespace. */
  predicate SameReply(a: string, b: string) {
    SplitWhitespace(a) == SplitWhitespace(b)
  }

  /** An admitted line, with when it was. */
  datatype Admitted = Admitted(line: string, at: nat)

  /** What a level allows to be spoken over a whole turn. */
  ghost predicate Allowed(feedback: Feedback, lines: seq<Admitted>) {
    && (feedback.Summary? ==> lines == [])
    && (feedback.Brief? ==> |lines| <= 1)
    && (forall i :: 0 <= i < |lines| ==> !Blank(lines[i].line))
    && (forall i :: 0 < i < |lines| ==> lines[i].at >= lines[i - 1].at + PROGRESS_MIN_GAP)
    && (forall i, j :: 0 <= i < j < |lines| ==> !SameReply(lines[i].line, lines[j].line))
  }

  /** Admits the interim lines a turn may speak. `now` is in milliseconds. */
  class ProgressGate {
    const feedback: Feedback
    var admitted: seq<string>
    var last: Option<nat>
    ghost var lines: seq<Admitted>

    ghost predicate Valid()
      reads this
    {
      && Allowed(feedback, lines)
      && |admitted| == |lines| && (forall i :: 0 <= i < |lines| ==> admitted[i] == lines[i].line)
      && last == if lines == [] then None else Some(lines[|lines| - 1].at)
    }

    constructor (feedback: Feedback)
      ensures Valid() && this.feedback == feedback && lines == []
    {
      this.feedback := feedback;
      admitted, last, lines := [], None, [];
    }

    /** A line is admitted exactly when the level still allows it: the turn's
        first one as the acknowledgement, a later one as an update. */
    method Admit(line: string, now: nat) returns (kind: Option<InterimKind>)
      requires Valid()
      modifies this
      ensures Valid()
      ensures kind.Some? <==> Allowed(feedback, old(lines) + [Admitted(line, now)])
      ensures lines == if kind.Some? then old(lines) + [Admitted(line, now)] else old(lines)
      ensures kind == Some(Ack) ==> old(lines) == []
      ensures kind == Some(ProgressUpdate) ==> old(lines) != []
    {
      hide SameReply, Trim, Blank;
      TrimBlank(line);
      ghost var next := lines + [Admitted(line, now)];
      assert next[|lines|] == Admitted(line, now);
      if Trim(line) == [] {
        return None;
      }
      match (feedback, last) {
        case (Summary, _) => return None;
        case (_, None) => kind := Some(Ack);
        case (Brief, Some(_)) => return None;
        case (Conversational, Some(at)) =>
          if now < at + PROGRESS_MIN_GAP {
            assert next[|lines|].at < next[|lines| - 1].at + PROGRESS_MIN_GAP;
            return None;
          }
          if exists i :: 0 <= i < |admitted| && SameReply(admitted[i], line) {
            ghost var i :| 0 <= i < |admitted| && SameReply(admitted[i], line);
            assert SameReply(next[i].line, next[|lines|].line);
            return None;
          }
          kind := Some(ProgressUpdate);
      }
      admitted := admitted + [line];
      last := Some(now);
      lines := next;
    }
  }
}
