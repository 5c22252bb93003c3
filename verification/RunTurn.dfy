/** A whole turn of a process-per-turn driver (src/agent/process.rs): start
    the harness, falling back when its scope cannot be made, and read it. */
module RunTurn {
  import opened Basics
  import opened Turn
  import opened Progress
  import opened StreamState

  /** How a turn's process is started. */
  datatype Wrap = Scope(noExpand: bool) | Direct

  /** A line of stdout: too long to read, or what the harness's parser says. */
  datatype Line = TooLong | Parsed(events: seq<Event>)

  /** All that a process printed, and how it ended. `refusedOption` and
      `noScope` are what the first line of stderr says of `systemd-run`. */
  datatype Output = Output(lines: seq<Line>, refusedOption: bool, noScope: bool, exit: Exit)

  datatype Start = NotFound | CannotStart | Runs(output: Output)

  datatype TurnEnd = NotStarted | Ended(outcome: Outcome)

  function Items(lines: seq<Line>): seq<Item> {
    if lines == [] then []
    else
      var last := lines[|lines| - 1];
      Items(lines[..|lines| - 1]) + if last.TooLong? then [Skipped] else last.events
  }

  /** A line too long to read is skipped, any other is what it says, in order. */
  lemma {:induction false} ItemsAre(a: seq<Line>, b: seq<Line>, events: seq<Event>)
    ensures Items(a + b) == Items(a) + Items(b) && Items([]) == []
    ensures Items([TooLong]) == [Skipped] && Items([Parsed(events)]) == events
  {
    assert [TooLong][..0] == [] && [Parsed(events)][..0] == [];
    if b == [] {
      assert a + b == a;
    } else {
      assert (a + b)[..|a + b| - 1] == a + b[..|b| - 1];
      ItemsAre(a, b[..|b| - 1], events);
    }
  }

  /** A scope whose process printed nothing and failed. */
  predicate CouldNotRun(wrap: Wrap, output: Output) {
    wrap.Scope? && output.lines == [] && !output.exit.success
  }

  /** The next way to try after one start, if any. */
  function Retry(wrap: Wrap, start: Start): Option<Wrap> {
    match start
    case NotFound => if wrap.Direct? then None else Some(Direct)
    case CannotStart => None
    case Runs(output) => After(wrap, output)
  }

  /** What to try when a turn started as `wrap` never ran. */
  function After(wrap: Wrap, output: Output): (next: Option<Wrap>)
    ensures next.Some? ==> wrap.Scope? && output.lines == [] && !output.exit.success
    ensures next.Some? ==> WaysLeft(next.value) < WaysLeft(wrap)
    ensures next == Some(Scope(false)) <==> CouldNotRun(wrap, output) && wrap.noExpand && output.refusedOption
    ensures next == Some(Direct)
       <==> CouldNotRun(wrap, output) && output.noScope && !(wrap.noExpand && output.refusedOption)
  {
    if wrap.Direct? || output.lines != [] then None
    else if wrap.noExpand && !output.exit.success && output.refusedOption then Some(Scope(false))
    else if !output.exit.success && output.noScope then Some(Direct)
    else None
  }

  /** A turn is started again directly when `systemd-run` is not there, or made
      no scope for a process that said nothing and failed; and without the
      option when that is what it refused. */
  lemma RetryExactlyWhen(wrap: Wrap, start: Start)
    ensures Retry(wrap, start) == Some(Direct)
       <==> && wrap != Direct
            && (start == NotFound
                || (start.Runs? && start.output.lines == [] && !start.output.exit.success && start.output.noScope
                    && !(wrap == Scope(true) && start.output.refusedOption)))
    ensures Retry(wrap, start) == Some(Scope(false))
       <==> && wrap == Scope(true) && start.Runs?
            && start.output.lines == [] && !start.output.exit.success && start.output.refusedOption
    ensures Retry(wrap, start) != Some(Scope(true))
  {
  }

  /** How many other ways are left to try. */
  function WaysLeft(wrap: Wrap): nat {
    match wrap
    case Scope(true) => 2
    case Scope(false) => 1
    case Direct => 0
  }

  /** A session that is new with this launch, as pending. */
  function Fresh(session: SessionRef, named: Option<string>): Option<SessionRef> {
    if named.Some? && session.sessionId != named then Some(SessionRef(named, None, None, true)) else None
  }

  /** The session the turn runs in. */
  function Running(session: SessionRef, named: Option<string>): SessionRef {
    match Fresh(session, named)
    case Some(minted) => minted
    case None => session
  }

  function FreshReport(session: SessionRef, named: Option<string>): seq<TurnUpdate> {
    match Fresh(session, named)
    case Some(minted) => [Session(minted)]
    case None => []
  }

  /** A session is new with the launch exactly when the launch names another. */
  lemma FreshExactlyWhen(session: SessionRef, named: Option<string>)
    ensures if named == None || named == session.sessionId
            then Running(session, named) == session && FreshReport(session, named) == []
            else
              && Running(session, named) == SessionRef(named, None, None, true)
              && FreshReport(session, named) == [Session(SessionRef(named, None, None, true))]
  {
  }

  lemma SentNothing(words: Words, start: SessionRef)
    ensures Sent(words, start, []) == []
  {
  }

  lemma NothingRead(words: Words, start: SessionRef, lines: seq<Line>)
    requires lines == []
    ensures Sent(words, start, Items(lines)) == []
  {
  }

  /** Read everything the process printed. */
  method ReadTurn(lines: seq<Line>, state: StreamState, updates: TurnUpdates)
    requires state.Valid() && updates.Valid() && state.history == []
    modifies state, state.tracker, updates`sent, updates`latest
    ensures state.ReadsOutput() && updates.Valid()
    ensures state.history == Items(lines)
    ensures updates.sent == old(updates.sent) + Sent(state.words, state.start, Items(lines))
    ensures state.tracker.pending == None
  {
    hide Sent, SentFor;
    SentNothing(state.words, state.start);
    for i := 0 to |lines|
      invariant state.Valid() && updates.Valid()
      invariant state.history == Items(lines[..i])
      invariant updates.sent == old(updates.sent) + Sent(state.words, state.start, state.history)
    {
      assert lines[..i + 1][..i] == lines[..i];
      match lines[i] {
        case TooLong =>
          SentAppend(state.words, state.start, state.history, Skipped);
          state.SkippedLine();
        case Parsed(events) => ReadEvents(events, state, updates, old(updates.sent));
      }
    }
    assert lines[..|lines|] == lines;
    state.End();
  }

  /** The events of one line; `base` is what was sent before the turn. */
  method ReadEvents(events: seq<Event>, state: StreamState, updates: TurnUpdates, ghost base: seq<TurnUpdate>)
    requires state.Valid() && updates.Valid()
    requires updates.sent == base + Sent(state.words, state.start, state.history)
    modifies state, state.tracker, updates`sent, updates`latest
    ensures state.Valid() && updates.Valid()
    ensures state.history == old(state.history) + events
    ensures updates.sent == base + Sent(state.words, state.start, state.history)
  {
    hide *;
    for i := 0 to |events|
      invariant state.Valid() && updates.Valid()
      invariant state.history == old(state.history) + events[..i]
      invariant updates.sent == base + Sent(state.words, state.start, state.history)
    {
      SentAppend(state.words, state.start, state.history, events[i]);
      assert events[..i + 1] == events[..i] + [events[i]];
      state.Take(events[i], updates);
    }
  }

  /** One process: its session is reported as it starts, then it is read. */
  method RunOnce(words: Words, running: SessionRef, report: Option<SessionRef>, output: Output, updates: TurnUpdates)
    returns (outcome: Outcome)
    requires updates.Valid()
    modifies updates`sent, updates`latest
    ensures updates.Valid()
    ensures updates.sent == old(updates.sent) + (if report.Some? then [Session(report.value)] else [])
                            + Sent(words, running, Items(output.lines))
    ensures outcome == Verdict(Items(output.lines), output.exit)
  {
    hide Sent, SentFor, Verdict, Items, NewestIds;
    if report.Some? {
      var _ := updates.ReportSession(report.value);
    }
    var state := new StreamState.ForSession(words, running);
    ReadTurn(output.lines, state, updates);
    outcome := state.TurnOutcome(output.exit);
  }

  /** Run a turn: `starts` says what starting a process gives, try by try.
      At most three processes are started, each in a way not tried before.
      A turn whose harness never ran leaves the runtime at the session it
      started with; any other at the session its output ended in. */
  method RunTurn(words: Words, session: SessionRef, named: Option<string>, first: Wrap, starts: nat -> Start,
                 updates: TurnUpdates)
    returns (end: TurnEnd, tried: seq<Wrap>)
    requires updates.Valid()
    modifies updates`sent, updates`latest
    ensures updates.Valid() && old(updates.sent) <= updates.sent
    ensures 1 <= |tried| <= 1 + WaysLeft(first) <= 3 && tried[0] == first
    ensures forall i :: 0 < i < |tried| ==> Retry(tried[i - 1], starts(i - 1)) == Some(tried[i])
    ensures Retry(tried[|tried| - 1], starts(|tried| - 1)) == None
    ensures end == NotStarted <==> !starts(|tried| - 1).Runs?
    ensures end == NotStarted ==> Reconstructed(session, updates.sent[|old(updates.sent)|..]) == session
    ensures end.Ended? ==>
              var output := starts(|tried| - 1).output;
              && end.outcome == Verdict(Items(output.lines), output.exit)
              && updates.sent == old(updates.sent) + FreshReport(session, named)
                                 + Sent(words, Running(session, named), Items(output.lines))
  {
    hide Sent, SentFor, Verdict, Items, NewestIds, After, Tries;
    NoTries(first, starts);
    var minted := Fresh(session, named);
    var running := Running(session, named);
    var report := minted;
    var wrap := first;
    tried := [];
    while true
      invariant updates.Valid()
      invariant Tries(first, starts, tried, wrap)
      invariant report == minted || report == None
      invariant updates.sent == old(updates.sent) + if report == minted then [] else FreshReport(session, named)
      decreases WaysLeft(wrap)
    {
      var start := starts(|tried|);
      ghost var before := tried;
      tried := tried + [wrap];
      if start.NotFound? && wrap != Direct {
        TriesMore(first, starts, before, wrap, Direct);
        wrap := Direct;
        continue;
      }
      if !start.Runs? {
        if report == None && running != session {
          updates.Send(Session(session));
          TakenBack(session, minted.value, updates.sent, old(updates.sent));
        }
        TriesEnd(first, starts, before, wrap);
        return NotStarted, tried;
      }
      var outcome := RunOnce(words, running, report, start.output, updates);
      report := None;
      var next := After(wrap, start.output);
      if next.Some? {
        NothingRead(words, running, start.output.lines);
        TriesMore(first, starts, before, wrap, next.value);
        wrap := next.value;
        continue;
      }
      TriesEnd(first, starts, before, wrap);
      return Ended(outcome), tried;
    }
  }

  /** The ways tried so far, each the retry of the one before, and the one to
      try now. */
  ghost predicate Tries(first: Wrap, starts: nat -> Start, tried: seq<Wrap>, wrap: Wrap) {
    && |tried| + WaysLeft(wrap) <= WaysLeft(first)
    && (if tried == [] then wrap == first
        else tried[0] == first && Retry(tried[|tried| - 1], starts(|tried| - 1)) == Some(wrap))
    && forall i :: 0 < i < |tried| ==> Retry(tried[i - 1], starts(i - 1)) == Some(tried[i])
  }

  lemma NoTries(first: Wrap, starts: nat -> Start)
    ensures Tries(first, starts, [], first)
  {
  }

  lemma TriesMore(first: Wrap, starts: nat -> Start, tried: seq<Wrap>, wrap: Wrap, next: Wrap)
    requires Tries(first, starts, tried, wrap) && Retry(wrap, starts(|tried|)) == Some(next)
    ensures Tries(first, starts, tried + [wrap], next) && WaysLeft(next) < WaysLeft(wrap)
  {
    hide After;
  }

  lemma TriesEnd(first: Wrap, starts: nat -> Start, tried: seq<Wrap>, wrap: Wrap)
    requires Tries(first, starts, tried, wrap)
    ensures var all := tried + [wrap];
            && |all| <= 1 + WaysLeft(first) <= 3 && all[0] == first
            && forall i :: 0 < i < |all| ==> Retry(all[i - 1], starts(i - 1)) == Some(all[i])
  {
    hide Retry;
  }

  lemma TakenBack(session: SessionRef, minted: SessionRef, sent: seq<TurnUpdate>, before: seq<TurnUpdate>)
    requires sent == before + [Session(minted)] + [Session(session)]
    ensures Reconstructed(session, sent[|before|..]) == session
  {
    assert sent[|before|..] == [Session(minted), Session(session)];
  }

  /** A turn that ran leaves the runtime at the session its output ended in:
      pending only while nothing showed the agent at work in it. */
  lemma RuntimeAfterTheTurn(words: Words, session: SessionRef, named: Option<string>, h: seq<Item>)
    requires session.bgId == None && session.transcriptPath == None
    requires session.pending ==> session.sessionId.Some?
    ensures Reconstructed(session, FreshReport(session, named) + Sent(words, Running(session, named), h))
         == SessionNow(Running(session, named), h)
  {
    hide Sent;
    var minted := FreshReport(session, named);
    ReconstructedAppend(session, minted, Sent(words, Running(session, named), h));
    assert minted != [] ==> minted[..0] == [];
    RuntimeKnowsTheSession(words, Running(session, named), h);
  }
}
