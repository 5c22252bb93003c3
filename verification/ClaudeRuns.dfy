/** Runs of the Claude session driver (src/agent/claude.rs) in worlds made for
    them: what its waits do not cover. */
module ClaudeRuns {
  import opened Basics
  import opened Claude
  import opened ClaudeRecord
  import opened ClaudeTurns
  import opened ClaudeWorld
  import opened Turn

  // ----- A wait that overruns -----

  /** How long a listing begun at `t` takes where a wait lasts longest: one is
      read just before `wait` is up, the next takes all the time it may. */
  function SlowListing(poll: nat, wait: nat, t: nat): nat {
    if t > wait - 1 then LIST_TIMEOUT
    else if wait - 1 - t <= LIST_TIMEOUT then wait - 1 - t
    else if wait - 1 - t >= poll then Min(LIST_TIMEOUT, wait - 1 - t - poll)
    else 0
  }

  /** Listings fail until `wait` is up, and show the session with no process
      from then on, where the wait is to succeed. */
  function SlowWorld(bg: string, poll: nat, wait: nat, success: bool): World {
    World(_ => map[],
          t => if success && t > wait - 1 then Lists(map[bg := STOPPED]) else ListFailed,
          _ => LaunchFailed, t => SlowListing(poll, wait, t), _ => false, _ => map[], _ => map[])
  }

  /** A session listed with no process. */
  const STOPPED := Listed(None, None, NoPid, false)

  lemma {:induction false} SlowPolls(w: World, poll: nat, wait: nat, a: seq<Event>, b: seq<Event>, bg: string, i: int)
    requires 0 < poll <= LIST_TIMEOUT && wait > 0 && forall t: nat :: w.took(t) == SlowListing(poll, wait, t)
    requires Polled(w, a, b, bg, 0, poll, wait) && |a| <= i < |b|
    ensures var end := ReadEnd(w, b[i]);
            if b[i].began < wait then end == wait - 1 || end + poll <= wait - 1 else end == wait - 1 + poll + LIST_TIMEOUT
    decreases i
  {
    if i > |a| {
      SlowPolls(w, poll, wait, a, b, bg, i - 1);
      assert NextPoll(w, b, i, 0, poll, wait);
    }
    assert b[i].timeout == LIST_TIMEOUT;
  }

  /** The bound of a wait is reached, with or without success: wherever the poll
      is no longer than a listing may take, there is a world in which the wait
      ends as late after `wait` as one poll and one listing allow. */
  method WaitOverruns(bg: string, poll: nat, wait: nat, exitPoll: nat, grace: nat, success: bool) returns (ended: nat)
    requires 0 < exitPoll && 0 < poll <= LIST_TIMEOUT && wait > 0
    ensures ended == wait - 1 + poll + LIST_TIMEOUT + (if success then grace else 0) && ended > wait
  {
    var w, waits := SlowWorld(bg, poll, wait, success), Waits(poll, wait, exitPoll, grace, 0);
    var driver := new Driver(w, waits);
    var stopped := driver.WaitForExit(bg);
    WaitEndsLate(bg, poll, wait, success, waits, driver.trace, driver.now, stopped);
    return driver.now;
  }

  lemma WaitEndsLate(bg: string, poll: nat, wait: nat, success: bool, waits: Waits, b: seq<Event>, now: nat, stopped: Stopped)
    requires 0 < poll <= LIST_TIMEOUT && wait > 0 && waits.stopPoll == poll && waits.stopWait == wait
    requires Waited(SlowWorld(bg, poll, wait, success), waits, [], b, bg, 0, now, stopped)
    ensures now == wait - 1 + poll + LIST_TIMEOUT + (if success then waits.settleGrace else 0)
  {
    var w, looks := SlowWorld(bg, poll, wait, success), ReadsOf(b);
    var look := looks[|looks| - 1];
    SlowPolls(w, poll, wait, [], looks, bg, |looks| - 1);
    hide IsShown;
    assert !StillUp(w, looks, bg, ReadEnd(w, look));
    assert look.bg == bg && look.timeout == LIST_TIMEOUT;
    assert w.took(look.began) <= LIST_TIMEOUT;
    assert ShowsNone(w, look) <==> success && look.began >= wait;
    assert !Unlisted(w, look);
  }

  // ----- Notes that come too late, and notes that are lost -----

  /** A process runs all the time. The session is listed as stopped, once the
      listings do not fail any more. Other tasks note the process for it: during
      the settle grace, or whenever a check of the session is followed by its
      forget. */
  function StoppedWorld(bg: string, lost: bool): World {
    World(_ => map[2 := 1],
          t => if t == 0 then ListFailed else Lists(map[bg := STOPPED]),
          _ => LaunchFailed, _ => 0, _ => false,
          t => if t == 2 && !lost then map[bg := 2] else map[],
          _ => if lost then map[bg := 2] else map[])
  }

  const RUNNER := Process(2, 1)

  lemma StoppedWorldIsPhysical(bg: string, lost: bool)
    ensures Physical(StoppedWorld(bg, lost))
  {
  }

  lemma {:induction false} NeverListed(bg: string, lost: bool, t: seq<Event>)
    ensures Ever(StoppedWorld(bg, lost), t, bg) == {}
  {
    if t != [] {
      NeverListed(bg, lost, t[..|t| - 1]);
    }
  }

  /** Where only `bg` itself is ever forgotten, nothing is shown for it, until
      the late note where there is one. */
  lemma NothingIsUp(bg: string, lost: bool, t: seq<Event>, now: nat)
    requires forall i :: 0 <= i < |t| && t[i].Forgot? ==> t[i].bg == bg
    requires lost || now < 2
    ensures !StillUp(StoppedWorld(bg, lost), t, bg, now)
  {
    hide Ever;
    NeverListed(bg, lost, t);
  }

  /** The first listing of the wait fails, the second one decides it. */
  lemma FirstWait(bg: string, lost: bool, waits: Waits, a: seq<Event>, b: seq<Event>, now: nat, stopped: Stopped)
    requires waits.stopPoll == waits.stopWait == 1 && a == [Read(bg, 0, QUICK_TIMEOUT, false), StopSent(bg)]
    requires Waited(StoppedWorld(bg, lost), waits, a, b, bg, 0, now, stopped)
    ensures stopped.Exited? && now == 1 + waits.settleGrace && |b| == 5
    ensures b[4].Forgot? && b[4].bg == bg && b[4].at == 1 && forall i :: 0 <= i < 4 ==> b[i].Read? || b[i].StopSent?
  {
    var w, looks := StoppedWorld(bg, lost), ReadsOf(b);
    assert looks[2].began == 0 && looks[2].timeout == LIST_TIMEOUT && looks[2].bg == bg;
    assert !ShowsNone(w, looks[2]) && !Unlisted(w, looks[2]) && ReadEnd(w, looks[2]) == 0;
    hide StillUp, AllGone;
    assert |looks| > 3;
    assert NextPoll(w, looks, 3, 0, 1, 1);
    assert looks[3].began == 1 && looks[3].timeout == LIST_TIMEOUT && looks[3].bg == bg;
    assert ShowsNone(w, looks[3]) && ReadEnd(w, looks[3]) == 1;
    DecidesLast(w, waits, a, b, bg, 0, now, stopped, 3);
    assert a <= looks && looks == b[..4];
    assert forall i :: 2 <= i < 4 ==> looks[i].Read?;
    NothingIsUp(bg, lost, looks, 1);
  }

  lemma FirstPrepared(bg: string, lost: bool, waits: Waits, session: SessionRef, b: seq<Event>, now: nat,
                      prepared: Prepared, checked: nat)
    requires waits.stopPoll == waits.stopWait == 1 && session.bgId == Some(bg) && session.sessionId.Some?
    requires PreparedSo(StoppedWorld(bg, lost), waits, [], b, session, 0, now, prepared, checked)
    ensures prepared == Ready(session.sessionId) && now == 1 + waits.settleGrace && checked == 1 && |b| == 5
    ensures b[4].Forgot? && b[4].bg == bg && b[4].at == 1 && forall i :: 0 <= i < 4 ==> b[i].Read? || b[i].StopSent?
  {
    var w, read := StoppedWorld(bg, lost), Read(bg, 0, QUICK_TIMEOUT, false);
    var a := [] + [read] + [StopSent(bg)];
    assert a == [read, StopSent(bg)];
    var stopped :| Waited(w, waits, a, b, bg, 0, now, stopped) && prepared == PreparedBy(stopped, IdFor(w, session, read))
                   && (stopped.Exited? ==> checked == b[|b| - 1].at);
    FirstWait(bg, lost, waits, a, b, now, stopped);
  }

  /** A resume launched while a process remembered for the session runs: it was
      noted during the settle grace, after the last check. */
  method ResumesTooEarly(grace: nat, bg: string) returns (runs: bool, ghost t: seq<Event>, ghost j: int)
    requires grace > 0
    ensures runs && Safe(StoppedWorld(bg, false), grace, t) && 0 <= j < |t| && ResumedBg(t[j]) == Some(bg)
    ensures !AllGone(StoppedWorld(bg, false), t[..j], bg, t[j].at, t[j].at)
  {
    hide Meanwhile, TimesBy, Physical, Safe, Account, PreparedSo, AllGone, IsShown, LastShowsNone, SentAs, SoFar, EndsSoFar,
         StopAsked, StopsAgain, WorksAt, MayRunAt, LaunchedAs, Continues, StillUp;
    var w, waits := StoppedWorld(bg, false), Waits(1, 1, 1, grace, 0);
    StoppedWorldIsPhysical(bg, false);
    var driver := new Driver(w, waits);
    var session := SessionRef(Some("id"), Some(bg), None, false);
    var prepared, checked := driver.Prepare(session);
    FirstPrepared(bg, false, waits, session, driver.trace, driver.now, prepared, checked);
    LateNote(bg, driver.trace, driver.now);
    driver.RunsForMeans(bg);
    driver.ResumeIsCleanExactlyWhen(bg);
    runs := driver.RunsFor(bg);
    ghost var before := driver.trace;
    var start, of := driver.Resume(session, "id", checked);
    t, j := driver.trace, |before|;
    assert t[..j] == before;
  }

  lemma LateNote(bg: string, t: seq<Event>, now: nat)
    requires now >= 2 && forall i :: 0 <= i < |t| ==> !t[i].Abandoned?
    ensures StillUp(StoppedWorld(bg, false), t, bg, now)
  {
    var w := StoppedWorld(bg, false);
    assert NotedAt(w, t, bg, RUNNER, 2);
    assert IsShown(w, t, bg, RUNNER, now) && Runs(w, RUNNER, now);
  }

  /** A note lost between a check and its forget: a turn later the session is
      resumed while that process runs, though it was noted before that turn's
      check, and nothing is remembered. */
  method LosesANote(grace: nat, bg: string) returns (remembered: bool, ghost t: seq<Event>, ghost i: int, ghost j: int)
    requires grace > 0
    ensures !remembered && Safe(StoppedWorld(bg, true), grace, t)
    ensures 0 <= i < j < |t| && LostAt(StoppedWorld(bg, true), t, bg, RUNNER, i)
    ensures ResumedBg(t[j]) == Some(bg) && t[i].at < t[j].checked && Runs(StoppedWorld(bg, true), RUNNER, t[j].at)
  {
    hide Meanwhile, TimesBy, Physical, Safe, Account, PreparedSo, AllGone, IsShown, LastShowsNone, SentAs, SoFar, EndsSoFar,
         StopAsked, StopsAgain, WorksAt, MayRunAt, LaunchedAs, Continues, StillUp;
    var w, waits := StoppedWorld(bg, true), Waits(1, 1, 1, grace, 0);
    StoppedWorldIsPhysical(bg, true);
    var driver := new Driver(w, waits);
    var session := SessionRef(Some("id"), Some(bg), None, false);
    var prepared, checked := driver.Prepare(session);
    FirstPrepared(bg, true, waits, session, driver.trace, driver.now, prepared, checked);
    var start, of := driver.Resume(session, "id", checked);
    ghost var turn, from := driver.trace, driver.now;
    prepared, checked := driver.Prepare(session);
    NextPrepared(bg, waits, session, turn, driver.trace, from, driver.now, prepared, checked);
    NothingIsUp(bg, true, driver.trace, driver.now);
    driver.RunsForMeans(bg);
    remembered := driver.RunsFor(bg);
    ghost var before := driver.trace;
    start, of := driver.Resume(session, "id", checked);
    t, i, j := driver.trace, 4, |before|;
    assert turn[4].Forgot? && before[4] == turn[4] && t[4] == before[4];
  }

  lemma NextPrepared(bg: string, waits: Waits, session: SessionRef, a: seq<Event>, b: seq<Event>, from: nat, now: nat,
                     prepared: Prepared, checked: nat)
    requires session.bgId == Some(bg) && session.sessionId.Some? && from > 1
    requires forall i :: 0 <= i < |a| && a[i].Forgot? ==> a[i].bg == bg
    requires PreparedSo(StoppedWorld(bg, true), waits, a, b, session, from, now, prepared, checked)
    ensures prepared == Ready(session.sessionId) && checked >= from && a <= b
    ensures forall i :: 0 <= i < |b| && b[i].Forgot? ==> b[i].bg == bg
  {
    var w, read := StoppedWorld(bg, true), Read(bg, from, QUICK_TIMEOUT, false);
    hide StillUp, Waited;
    NothingIsUp(bg, true, a + [read], from);
    assert !WorksAt(w, from, bg) && !MayRunAt(w, from, bg) && Entry(w, read) == Some(STOPPED) && ReadEnd(w, read) == from;
  }
}
