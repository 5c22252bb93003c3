/** Following a session's transcript while it grows (src/agent/claude_tail.rs).
    A tail reads what was appended at arbitrary moments, leaving a partial last
    line for the next read. */
module Tail {
  import opened Basics
  import opened Turn
  import opened Progress

  /** A parsed transcript line: its timestamp, and its texts and tool calls. */
  datatype TailEvent = Text(text: string) | ToolUse(name: string)
  datatype Entry = Entry(at: Option<int>, events: seq<TailEvent>)

  /** A tail's settings; `parse` is the line parser. */
  datatype TailMode = Live | Rewatch
  datatype Settings = Settings(since: int, mode: TailMode, words: Words, parse: seq<byte> -> Option<Entry>)

  // ----- The specification -----

  /** How much of `s` is complete lines: up to and with its last newline. */
  function CompleteLength(s: seq<byte>): (n: nat)
    ensures n <= |s| && (n == 0 || s[n - 1] == NEWLINE)
    ensures NEWLINE !in s[n..]
  {
    if s == [] then 0
    else if s[|s| - 1] == NEWLINE then |s|
    else
      var n := CompleteLength(s[..|s| - 1]);
      assert s[n..] == s[..|s| - 1][n..] + [s[|s| - 1]];
      n
  }

  /** The complete lines of `s`, without their newlines. */
  function CompleteLines(s: seq<byte>): seq<seq<byte>>
    decreases |s|
  {
    var i := IndexOf(s, NEWLINE);
    if i == |s| then [] else [s[..i]] + CompleteLines(s[i + 1..])
  }

  /** What a tail hears of an event: a watched-again turn hears no texts. */
  function BeatOf(mode: TailMode, event: TailEvent): seq<Beat> {
    match event
    case Text(text) => if mode.Live? then [Say(text)] else []
    case ToolUse(name) => [Call(name)]
  }

  function EventBeats(mode: TailMode, events: seq<TailEvent>): seq<Beat> {
    if events == [] then []
    else EventBeats(mode, events[..|events| - 1]) + BeatOf(mode, events[|events| - 1])
  }

  /** What one line says: nothing when it is older than the turn. */
  function LineBeats(t: Settings, line: seq<byte>): seq<Beat> {
    match t.parse(line)
    case None => []
    case Some(entry) =>
      if entry.at.None? || entry.at.value < t.since then [] else EventBeats(t.mode, entry.events)
  }

  /** Every event is heard in order; a text only in a live turn. */
  lemma {:induction false} EventBeatsAre(mode: TailMode, a: seq<TailEvent>, b: seq<TailEvent>, text: string)
    ensures EventBeats(mode, a + b) == EventBeats(mode, a) + EventBeats(mode, b) && EventBeats(mode, []) == []
    ensures EventBeats(mode, [ToolUse(text)]) == [Call(text)]
    ensures EventBeats(mode, [Text(text)]) == if mode == Live then [Say(text)] else []
  {
    assert [ToolUse(text)][..0] == [] && [Text(text)][..0] == [];
    if b == [] {
      assert a + b == a;
    } else {
      assert (a + b)[..|a + b| - 1] == a + b[..|b| - 1];
      EventBeatsAre(mode, a, b[..|b| - 1], text);
    }
  }

  /** A line without a time, or from before the turn, says nothing; any other,
      one from its very start included, says all its events. */
  lemma LineBeatsMean(t: Settings, line: seq<byte>, entry: Entry, at: int)
    ensures t.parse(line) == None ==> LineBeats(t, line) == []
    ensures t.parse(line) == Some(entry) && entry.at == None ==> LineBeats(t, line) == []
    ensures t.parse(line) == Some(entry) && entry.at == Some(at) ==>
              LineBeats(t, line) == if at < t.since then [] else EventBeats(t.mode, entry.events)
  {
  }

  function FileBeats(t: Settings, lines: seq<seq<byte>>): seq<Beat> {
    if lines == [] then [] else LineBeats(t, lines[0]) + FileBeats(t, lines[1..])
  }

  lemma {:induction false} FileBeatsAppend(t: Settings, a: seq<seq<byte>>, b: seq<seq<byte>>)
    ensures FileBeats(t, a + b) == FileBeats(t, a) + FileBeats(t, b)
  {
    if a == [] {
      assert a + b == b;
    } else {
      assert (a + b)[1..] == a[1..] + b;
      FileBeatsAppend(t, a[1..], b);
    }
  }

  lemma FileBeatsNext(t: Settings, lines: seq<seq<byte>>, i: nat)
    requires i < |lines|
    ensures FileBeats(t, lines[..i + 1]) == FileBeats(t, lines[..i]) + LineBeats(t, lines[i])
  {
    hide LineBeats;
    assert lines[..i + 1] == lines[..i] + [lines[i]] && [lines[i]][1..] == [];
    FileBeatsAppend(t, lines[..i], [lines[i]]);
  }

  lemma IndexOfPrefix(a: seq<byte>, b: seq<byte>)
    requires NEWLINE in a
    ensures IndexOf(a + b, NEWLINE) == IndexOf(a, NEWLINE) < |a|
  {
    hide IndexOf;
    var i := IndexOf(a, NEWLINE);
    assert a[..|a|] == a;
    assert (a + b)[..i] == a[..i];
    IndexOfIs(a + b, NEWLINE, i);
  }

  /** Whole lines can be read in two goes. */
  lemma {:induction false} CompleteLinesAppend(a: seq<byte>, b: seq<byte>)
    requires a == [] || a[|a| - 1] == NEWLINE
    ensures CompleteLines(a + b) == CompleteLines(a) + CompleteLines(b)
    decreases |a|
  {
    hide IndexOf, CompleteLines;
    if a == [] {
      assert a + b == b;
      NoLine();
    } else {
      IndexOfPrefix(a, b);
      var i := IndexOf(a, NEWLINE);
      var rest := a[i + 1..];
      assert (a + b)[..i] == a[..i] && (a + b)[i + 1..] == rest + b;
      CompleteLinesAppend(rest, b);
      FirstLine(a);
      FirstLine(a + b);
    }
  }

  lemma FirstLine(s: seq<byte>)
    requires IndexOf(s, NEWLINE) < |s|
    ensures var i := IndexOf(s, NEWLINE); CompleteLines(s) == [s[..i]] + CompleteLines(s[i + 1..])
  {
    hide IndexOf;
  }

  lemma NoLine()
    ensures CompleteLines([]) == []
  {
  }

  /** What follows the last newline is no line yet. */
  lemma CompleteLinesOfPrefix(s: seq<byte>)
    ensures CompleteLines(s) == CompleteLines(s[..CompleteLength(s)])
  {
    hide IndexOf, CompleteLength;
    var n := CompleteLength(s);
    assert s == s[..n] + s[n..];
    CompleteLinesAppend(s[..n], s[n..]);
    assert IndexOf(s[n..], NEWLINE) == |s[n..]|;
  }

  /** The lines, each ended by a newline. */
  function Ended(lines: seq<seq<byte>>): seq<byte> {
    if lines == [] then [] else lines[0] + [NEWLINE] + Ended(lines[1..])
  }

  /** The complete lines are all up to the last newline, cut at every newline. */
  lemma {:induction false} CompleteLinesCut(s: seq<byte>)
    ensures Ended(CompleteLines(s)) == s[..CompleteLength(s)]
    ensures forall line :: line in CompleteLines(s) ==> NEWLINE !in line
    decreases |s|
  {
    hide IndexOf, CompleteLength;
    var i := IndexOf(s, NEWLINE);
    if i == |s| {
      assert s[..i] == s;
      CompleteLengthIs(s, 0);
    } else {
      var rest := s[i + 1..];
      CompleteLinesCut(rest);
      CompleteLengthSplits(s, i + 1);
      assert CompleteLines(s) == [s[..i]] + CompleteLines(rest) && CompleteLines(s)[1..] == CompleteLines(rest);
      assert s[..CompleteLength(s)] == s[..i] + [NEWLINE] + rest[..CompleteLength(rest)];
    }
  }

  /** `split` at newlines. */
  function Split(s: seq<byte>): seq<seq<byte>>
    decreases |s|
  {
    var i := IndexOf(s, NEWLINE);
    if i == |s| then [s] else [s[..i]] + Split(s[i + 1..])
  }

  lemma {:induction false} SplitIsCompleteLines(s: seq<byte>)
    ensures Split(s) == CompleteLines(s + [NEWLINE])
    decreases |s|
  {
    hide IndexOf;
    var i, t := IndexOf(s, NEWLINE), s + [NEWLINE];
    if i == |s| {
      assert t[..i] == s[..i] == s && t[i + 1..] == [];
      IndexOfIs(t, NEWLINE, i);
      assert CompleteLines([]) == [];
    } else {
      IndexOfPrefix(s, [NEWLINE]);
      assert t[..i] == s[..i] && t[i + 1..] == s[i + 1..] + [NEWLINE];
      SplitIsCompleteLines(s[i + 1..]);
    }
  }

  // ----- The tail -----

  /** The bytes read: from the offset asked for, or from 0 when the file
      shrank. */
  datatype Read = Read(start: nat, bytes: seq<byte>)

  function ReadFrom(file: seq<byte>, offset: nat): (read: Read)
    ensures offset <= |file| ==> read.start == offset && file[..offset] + read.bytes == file
    ensures offset > |file| ==> read == Read(0, file)
  {
    var start := if |file| < offset then 0 else offset;
    Read(start, file[start..])
  }

  class Tail {
    const settings: Settings
    var offset: nat
    const tracker: InterimTracker
    var activity: Option<string>

    ghost predicate Valid()
      reads this, tracker
    {
      && tracker.Valid() && tracker.words == settings.words
      && activity == LastLabel(settings.words, tracker.beats, None)
    }

    /** Everything the tail is worth so far. */
    ghost function Reported(): seq<TurnUpdate>
      reads this, tracker
    {
      Reports(settings.words, tracker.beats, None)
    }

    constructor (settings: Settings)
      ensures Valid() && fresh(tracker)
      ensures this.settings == settings && offset == 0 && tracker.beats == []
    {
      this.settings := settings;
      offset, activity := 0, None;
      tracker := new InterimTracker(settings.words);
    }

    /** What a read adds: its complete lines. The last line may have no end
        yet and is left for a later read; `updates` may get other updates
        between two reads. */
    method Feed(read: Read, updates: TurnUpdates)
      requires Valid() && updates.Valid()
      modifies this, tracker, updates`sent, updates`latest
      ensures Valid() && updates.Valid()
      ensures offset == read.start + CompleteLength(read.bytes)
      ensures tracker.beats == old(tracker.beats) + (if read.start < old(offset) then [Rewritten] else [])
                               + FileBeats(settings, CompleteLines(read.bytes))
      ensures old(updates.sent) <= updates.sent
      ensures Reported() == old(Reported()) + updates.sent[|old(updates.sent)|..]
    {
      hide CompleteLines, Split, LineBeats, Reports, LastLabel, AfterLastCall;
      if read.start < offset {
        ExtendOne(settings.words, tracker.beats, None, Rewritten);
        ExtendTail(settings.words, tracker.beats, None, Rewritten);
        tracker.End();
      }
      var end := CompleteLength(read.bytes);
      offset := read.start + end;
      CompleteLinesOfPrefix(read.bytes);
      if end == 0 {
        NoLines(settings);
        assert read.bytes[..0] == [];
        return;
      }
      var lines := Split(read.bytes[..end - 1]);
      SplitIsCompleteLines(read.bytes[..end - 1]);
      assert read.bytes[..end - 1] + [NEWLINE] == read.bytes[..end];
      HandleLines(lines, updates);
    }

    method HandleLines(lines: seq<seq<byte>>, updates: TurnUpdates)
      requires Valid() && updates.Valid()
      modifies this`activity, tracker, updates`sent, updates`latest
      ensures Valid() && updates.Valid()
      ensures tracker.beats == old(tracker.beats) + FileBeats(settings, lines)
      ensures old(updates.sent) <= updates.sent
      ensures Reported() == old(Reported()) + updates.sent[|old(updates.sent)|..]
    {
      hide FileBeats, LineBeats, Reports, LastLabel, AfterLastCall;
      NoLines(settings);
      for i := 0 to |lines|
        invariant Valid() && updates.Valid()
        invariant tracker.beats == old(tracker.beats) + FileBeats(settings, lines[..i])
        invariant old(updates.sent) <= updates.sent
        invariant Reported() == old(Reported()) + updates.sent[|old(updates.sent)|..]
      {
        FileBeatsNext(settings, lines, i);
        HandleLine(lines[i], updates);
      }
      assert lines[..|lines|] == lines;
    }

    method HandleLine(line: seq<byte>, updates: TurnUpdates)
      requires Valid() && updates.Valid()
      modifies this`activity, tracker, updates`sent, updates`latest
      ensures Valid() && updates.Valid()
      ensures tracker.beats == old(tracker.beats) + LineBeats(settings, line)
      ensures old(updates.sent) <= updates.sent
      ensures Reported() == old(Reported()) + updates.sent[|old(updates.sent)|..]
    {
      hide Reports, LastLabel, AfterLastCall;
      var entry := settings.parse(line);
      if entry.None? || entry.value.at.None? || entry.value.at.value < settings.since {
        return;
      }
      var events := entry.value.events;
      for i := 0 to |events|
        invariant Valid() && updates.Valid()
        invariant tracker.beats == old(tracker.beats) + EventBeats(settings.mode, events[..i])
        invariant old(updates.sent) <= updates.sent
        invariant Reported() == old(Reported()) + updates.sent[|old(updates.sent)|..]
      {
        assert events[..i + 1][..i] == events[..i];
        HandleEvent(events[i], updates);
      }
      assert events[..|events|] == events;
    }

    method HandleEvent(event: TailEvent, updates: TurnUpdates)
      requires Valid() && updates.Valid()
      modifies this`activity, tracker, updates`sent, updates`latest
      ensures Valid() && updates.Valid()
      ensures tracker.beats == old(tracker.beats) + BeatOf(settings.mode, event)
      ensures old(updates.sent) <= updates.sent
      ensures Reported() == old(Reported()) + updates.sent[|old(updates.sent)|..]
    {
      hide Reports, LastLabel, AfterLastCall;
      match event {
        case Text(text) =>
          if settings.mode == Live {
            ExtendOne(settings.words, tracker.beats, None, Say(text));
            ExtendTail(settings.words, tracker.beats, None, Say(text));
            tracker.OnText(text);
          }
        case ToolUse(name) =>
          ExtendOne(settings.words, tracker.beats, None, Call(name));
          ExtendTail(settings.words, tracker.beats, None, Call(name));
          var tag := settings.words.labelOf(name);
          if activity != Some(tag) {
            activity := Some(tag);
            updates.Send(Activity(tag));
          }
          var raw := tracker.OnTool(name);
          if raw.Some? {
            updates.Send(Interim(raw.value));
          }
      }
    }
  }

  lemma NoLines(t: Settings)
    ensures FileBeats(t, CompleteLines([])) == []
  {
  }

  /** One tick: no file yet or a failed read, or the file as long as it is. */
  datatype Tick = Missed | Sees(length: nat)

  function LengthAfter(ticks: seq<Tick>): nat {
    if ticks == [] then 0
    else if ticks[|ticks| - 1].Sees? then ticks[|ticks| - 1].length else LengthAfter(ticks[..|ticks| - 1])
  }

  /** The file only grows from tick to tick. */
  ghost predicate OnlyGrows(file: seq<byte>, ticks: seq<Tick>) {
    forall i :: 0 <= i < |ticks| && ticks[i].Sees? ==> LengthAfter(ticks[..i]) <= ticks[i].length <= |file|
  }

  /** Follow a file that only grows, whenever the ticks come: each complete
      line is handled exactly once, and what is sent is what one read of all
      complete lines would send. */
  method Follow(settings: Settings, file: seq<byte>, ticks: seq<Tick>, updates: TurnUpdates) returns (tail: Tail)
    requires OnlyGrows(file, ticks) && updates.Valid()
    modifies updates`sent, updates`latest
    ensures LengthAfter(ticks) <= |file|
    ensures tail.Valid()
    ensures tail.settings == settings
    ensures var visible := file[..LengthAfter(ticks)];
            && UpTo(tail, visible)
            && updates.sent == old(updates.sent)
               + Reports(settings.words, FileBeats(settings, CompleteLines(visible)), None)
  {
    hide CompleteLines, FileBeats, CompleteLength, Reports, Tail.Valid, ReadFrom;
    NoLines(settings);
    NothingSent(settings);
    tail := new Tail(settings);
    assert file[..0] == [];
    for i := 0 to |ticks|
      invariant tail.Valid() && updates.Valid() && tail.settings == settings
      invariant LengthAfter(ticks[..i]) <= |file|
      invariant UpTo(tail, file[..LengthAfter(ticks[..i])])
      invariant updates.sent == old(updates.sent) + tail.Reported()
    {
      assert ticks[..i + 1][..i] == ticks[..i];
      if ticks[i].Sees? {
        assert file[..ticks[i].length][..LengthAfter(ticks[..i])] == file[..LengthAfter(ticks[..i])];
        PollOnce(tail, file[..ticks[i].length], LengthAfter(ticks[..i]), updates);
      }
    }
    assert ticks[..|ticks|] == ticks;
  }

  /** The tail has handled the complete lines of `file`, each once. */
  ghost predicate UpTo(tail: Tail, file: seq<byte>)
    reads tail, tail.tracker
  {
    && tail.offset == CompleteLength(file)
    && tail.tracker.beats == FileBeats(tail.settings, CompleteLines(file))
  }

  method PollOnce(tail: Tail, content: seq<byte>, ghost length: nat, updates: TurnUpdates)
    requires tail.Valid() && updates.Valid()
    requires length <= |content| && UpTo(tail, content[..length])
    modifies tail, tail.tracker, updates`sent, updates`latest
    ensures tail.Valid() && updates.Valid() && UpTo(tail, content)
    ensures old(updates.sent) <= updates.sent
    ensures tail.Reported() == old(tail.Reported()) + updates.sent[|old(updates.sent)|..]
  {
    hide CompleteLines, FileBeats, CompleteLength, Reports, Tail.Valid;
    ReadsOn(tail.settings, content, length);
    tail.Feed(ReadFrom(content, tail.offset), updates);
  }

  lemma NothingSent(t: Settings)
    ensures Reports(t.words, [], None) == [] && CompleteLength([]) == 0
  {
  }

  /** Reading on from the last complete line of a shorter file. */
  lemma ReadsOn(t: Settings, file: seq<byte>, length: nat)
    requires length <= |file|
    ensures var n := CompleteLength(file[..length]);
            && n <= |file|
            && CompleteLength(file) == n + CompleteLength(file[n..])
            && FileBeats(t, CompleteLines(file))
               == FileBeats(t, CompleteLines(file[..length])) + FileBeats(t, CompleteLines(file[n..]))
  {
    hide CompleteLength, CompleteLines, FileBeats;
    var n := CompleteLength(file[..length]);
    CompleteLinesOfPrefix(file[..length]);
    assert file[..length][..n] == file[..n];
    assert file == file[..n] + file[n..];
    CompleteLinesAppend(file[..n], file[n..]);
    FileBeatsAppend(t, CompleteLines(file[..n]), CompleteLines(file[n..]));
    CompleteLengthSplits(file, n);
  }

  lemma CompleteLengthSplits(s: seq<byte>, n: nat)
    requires n <= |s| && (n == 0 || s[n - 1] == NEWLINE)
    ensures CompleteLength(s) == n + CompleteLength(s[n..])
  {
    hide CompleteLength;
    var k, m := CompleteLength(s), CompleteLength(s[n..]);
    assert m > 0 ==> s[n..][m - 1] == s[n + m - 1];
    assert s[n..][m..] == s[n + m..];
    CompleteLengthIs(s, n + m);
  }

  lemma CompleteLengthIs(s: seq<byte>, n: nat)
    requires n <= |s| && (n == 0 || s[n - 1] == NEWLINE) && NEWLINE !in s[n..]
    ensures CompleteLength(s) == n
  {
    hide CompleteLength;
    var k := CompleteLength(s);
  }
}
