/** The Claude session driver (src/agent/claude.rs): stop a session's old
    process, wait until it has exited, resume the session, and never keep a
    copy a resume starts instead. The world is adversarial: processes exit and
    pids are reused at any time, and what `claude agents` lists is arbitrary. */
module Claude {
  import opened Basics
  import opened ClaudeRecord
  import opened ClaudeTurns
  import opened ClaudeWorld
  import opened Turn

  class Driver {
    const world: World
    const waits: Waits
    var now: nat
    /** The processes listed for our sessions, until they are seen to exit. */
    var seen: map<string, seq<Process>>
    /** How often a check found none of a session running. */
    var checks: nat
    ghost var trace: seq<Event>

    ghost predicate Valid()
      reads this
    {
      && waits.stopPoll > 0 && waits.exitPoll > 0
      && Physical(world)
      && Safe(world, waits.settleGrace, trace)
      && Account(world, trace, seen, now)
      && TimesBy(trace, now)
    }

    constructor (world: World, waits: Waits)
      requires Physical(world) && waits.stopPoll > 0 && waits.exitPoll > 0
      ensures Valid() && trace == [] && seen == map[] && now == 0 && checks == 0 && this.world == world && this.waits == waits
    {
      this.world, this.waits := world, waits;
      now, seen, checks, trace := 0, map[], 0, [];
      new;
      NothingYet(world);
    }

    /** Time passes, and other tasks note what their listings show. */
    method Sleep(d: nat)
      requires Valid()
      modifies this`now, this`seen
      ensures Valid() && now == old(now) + d && seen == Meanwhile(world, old(seen), old(now), d)
    {
      hide Meanwhile, Physical, Safe, Account;
      AccountMeanwhile(world, trace, seen, now, d);
      seen := Meanwhile(world, seen, now, d);
      now := now + d;
    }

    /** Nothing new is shown. */
    ghost method Record(e: Event)
      requires Valid() && !e.Abandoned? && !e.Forgot? && (e.Read? ==> ShownBy(world, e) == None)
      requires SafeNext(world, waits.settleGrace, trace, e)
      modifies this`trace
      ensures Valid() && trace == old(trace) + [e]
      ensures forall bg, p, until: nat :: IsShown(world, trace, bg, p, until) <==> IsShown(world, old(trace), bg, p, until)
    {
      hide Meanwhile, Physical, Safe, Account, SafeNext, IsShown, ShownBy;
      SafeAppend(world, waits.settleGrace, trace, e);
      AccountNext(world, trace, seen, now, e);
      trace := trace + [e];
    }

    /** `claude agents --json --all`. */
    method List(timeout: nat) returns (listing: Listing)
      requires Valid()
      modifies this`now, this`seen
      ensures Valid() && now == old(now) + Min(world.took(old(now)), timeout)
      ensures listing == ListingAt(world, old(now), timeout)
    {
      listing := ListingAt(world, now, timeout);
      Sleep(Min(world.took(now), timeout));
    }

    /** `claude stop <bg id>`. */
    method StopBg(bg: string)
      requires Valid()
      modifies this`now, this`seen, this`trace
      ensures Valid() && trace == old(trace) + [StopSent(bg)]
      ensures now == old(now) + Min(world.took(old(now)), QUICK_TIMEOUT)
    {
      Record(StopSent(bg));
      Sleep(Min(world.took(now), QUICK_TIMEOUT));
    }

    /** Remember the process that `read` shows as `listed`, if it runs, and
        forget those of the session that exited. */
    method Note(bg: string, listed: Listed, ghost read: Event)
      requires Valid() && read.Read? && read.bg == bg && Entry(world, read) == Some(listed)
      requires now == ReadEnd(world, read) && (read.forId ==> listed.sessionId.Some?)
      modifies this`seen, this`trace
      ensures Valid() && trace == old(trace) + [read]
    {
      hide Meanwhile, Physical, Safe, Account, Ever;
      if !listed.process.Pid? {
        Record(read);
        return;
      }
      var pid := listed.process.pid;
      var kept := Noted(world, Remembered(seen, bg), pid, now);
      SafeAppend(world, waits.settleGrace, trace, read);
      AccountNoted(world, trace, seen, now, read, pid, if kept == [] then seen - {bg} else seen[bg := kept]);
      trace := trace + [read];
      seen := if kept == [] then seen - {bg} else seen[bg := kept];
    }

    predicate RunsFor(bg: string)
      reads this
    {
      exists p :: p in Remembered(seen, bg) && Runs(world, p, now)
    }

    /** What is remembered and runs was shown, and runs. */
    lemma RunsForMeans(bg: string)
      requires Valid()
      ensures RunsFor(bg) <==> StillUp(world, trace, bg, now)
    {
      hide Meanwhile, TimesBy, Physical, Safe, IsShown, Account, Runs;
      forall p | Runs(world, p, now)
        ensures p in Remembered(seen, bg) <==> IsShown(world, trace, bg, p, now)
      {
        RememberedExactlyWhen(world, trace, seen, now, bg, p);
      }
    }

    /** Everything shown by now has exited exactly when no process remembered
        runs: what the driver could read before a launch, and does not. */
    lemma ResumeIsCleanExactlyWhen(bg: string)
      requires Valid()
      ensures AllGone(world, trace, bg, now, now) <==> !RunsFor(bg)
    {
      hide Meanwhile, TimesBy, Safe, IsShown, Account, Physical;
      RunsForMeans(bg);
      if !RunsFor(bg) {
        NoneRuns(world, trace, seen, now, bg);
      }
      assert AllGone(world, trace, bg, now, now) ==> !StillUp(world, trace, bg, now);
    }

    /** Forget the processes of `bg`, none of which a check just found running.
        Other tasks may note in between; what they note for `bg` is lost. */
    method ForgetChecked(bg: string)
      requires Valid() && !RunsFor(bg)
      modifies this`seen, this`trace, this`checks
      ensures Valid() && trace == old(trace) + [Forgot(bg, now, old(checks))] && bg !in seen && checks == old(checks) + 1
      ensures AllGone(world, old(trace), bg, now, now) && AllGone(world, trace, bg, now, now)
    {
      hide Meanwhile, Physical, Safe, Account, AfterNotes, AllGone, Runs;
      ghost var e := Forgot(bg, now, checks);
      SafeAppend(world, waits.settleGrace, trace, e);
      AccountForgot(world, trace, seen, now, bg, checks);
      seen := AfterNotes(world, seen, world.gaps(checks), now);
      seen := seen - {bg};
      checks := checks + 1;
      trace := trace + [e];
    }

    method Forget(bg: string)
      requires Valid()
      modifies this`seen, this`trace
      ensures Valid() && trace == old(trace) + [Abandoned(bg, now)]
    {
      hide Meanwhile, Physical, Safe, Account;
      SafeAppend(world, waits.settleGrace, trace, Abandoned(bg, now));
      AccountAbandoned(world, trace, seen, now, bg);
      trace := trace + [Abandoned(bg, now)];
      seen := seen - {bg};
    }

    /** Wait, for at most `stopWait` from `started`, until no process remembered
        for `bg` runs, and forget those. */
    method WaitRemembered(bg: string, started: nat) returns (exited: bool)
      requires Valid() && started <= now
      modifies this`now, this`seen, this`trace, this`checks
      ensures Valid() && old(now) <= now
      ensures exited ==>
                && bg !in seen && trace == old(trace) + [Forgot(bg, now, old(checks))]
                && AllGone(world, old(trace), bg, now, now) && AllGone(world, trace, bg, now, now)
      ensures !exited ==> trace == old(trace) && StillUp(world, trace, bg, now) && now >= started + waits.stopWait
      ensures !exited ==> StillUp(world, trace, bg, old(now))
      ensures now == old(now) || now < started + waits.stopWait + waits.exitPoll
      ensures !StillUp(world, old(trace), bg, old(now)) ==> exited && now == old(now)
    {
      hide Meanwhile, TimesBy, Physical, Safe, Runs, Account, IsShown, AllGone, StillUp;
      while RunsFor(bg)
        invariant Valid() && old(now) <= now && trace == old(trace) && checks == old(checks)
        invariant now == old(now) || now < started + waits.stopWait + waits.exitPoll
        invariant now > old(now) ==> StillUp(world, trace, bg, old(now))
        decreases started + waits.stopWait + waits.exitPoll - now
      {
        RunsForMeans(bg);
        if now - started >= waits.stopWait {
          return false;
        }
        Sleep(waits.exitPoll);
      }
      ForgetChecked(bg);
      return true;
    }

    /** Poll the listings until one decides (`Ended`): no process listed and none
        up, then the settle grace; or no entry at all and none up; or the time
        is over. In the last round only one of the listing and the check of
        the processes can run past `stopWait`, so the bound has their maximum. */
    method WaitForExit(bg: string) returns (stopped: Stopped)
      requires Valid()
      modifies this`now, this`seen, this`trace, this`checks
      ensures Valid()
      ensures Waited(world, waits, old(trace), trace, bg, old(now), now, stopped)
      ensures !stopped.StillRuns? ==> trace != [] && trace[|trace| - 1].Forgot? && AllGone(world, trace, bg, trace[|trace| - 1].at, now)
      ensures stopped.Exited? ==> now == trace[|trace| - 1].at + waits.settleGrace
      ensures now < old(now) + waits.stopWait + Max(waits.stopPoll + LIST_TIMEOUT, waits.exitPoll)
                    + if stopped.Exited? then waits.settleGrace else 0
    {
      hide Meanwhile, TimesBy, Physical, Safe, Account, Runs, IsShown, AllGone, Polled, PollDue, StillUp, ShownBy, ReadsOnly,
           Gone, NextPoll, Undecided, AllUndecided, Waited, Ended, ShowsNone, Unlisted;
      var started := now;
      PollStarts(world, trace, bg, waits.stopPoll, waits.stopWait, now);
      NoneUndecided(world, trace);
      while true
        invariant Valid() && started <= now
        invariant PollDue(world, old(trace), trace, bg, started, waits.stopPoll, waits.stopWait, now)
        invariant AllUndecided(world, old(trace), trace)
        decreases started + waits.stopWait + waits.stopPoll - now
      {
        PollStep(world, old(trace), trace, bg, started, waits.stopPoll, waits.stopWait, now);
        ghost var before, read := trace, Read(bg, now, LIST_TIMEOUT, false);
        UndecidedNext(world, old(trace), before, read);
        var listing := List(LIST_TIMEOUT);
        ReadShows(world, read, listing);
        if !listing.Lists? {
          Record(read);
        } else if bg !in listing.entries {
          Record(read);
          RunsForMeans(bg);
          if !RunsFor(bg) {
            ForgetChecked(bg);
            EndsUnlisted(world, waits, before, read, trace[|trace| - 1], bg, started, now);
            WaitedBy(world, waits, old(trace), before, read, trace[|trace| - 1], bg, started, now, NoLongerListed);
            return NoLongerListed;
          }
        } else if !listing.entries[bg].Alive() {
          Record(read);
          ghost var asked := now;
          var exited := WaitRemembered(bg, started);
          if exited {
            ghost var forgot := trace[|trace| - 1];
            AllGoneLater(world, trace, bg, now, now, now + waits.settleGrace);
            Sleep(waits.settleGrace);
            EndsExited(world, waits, before, read, forgot, bg, started, asked, now);
            WaitedBy(world, waits, old(trace), before, read, forgot, bg, started, now, Exited);
            return Exited;
          }
        } else {
          Note(bg, listing.entries[bg], read);
        }
        ReadDecides(world, before, read, now);
        if now - started >= waits.stopWait {
          EndsLate(world, waits, before, read, bg, started, now);
          Record(TimedOut(bg));
          WaitedBy(world, waits, old(trace), before, read, TimedOut(bg), bg, started, now, StillRuns);
          return StillRuns;
        }
        PollNext(world, old(trace), trace, bg, started, waits.stopPoll, waits.stopWait, now);
        Sleep(waits.stopPoll);
      }
    }

    /** Before resuming a session listed with no process: wait for those
        shown for it, plus the settle grace. At once when none is remembered. */
    method Settle(bg: string) returns (settled: bool)
      requires Valid()
      modifies this`now, this`seen, this`trace, this`checks
      ensures Valid()
      ensures settled ==>
                if old(bg in seen) then
                  && now >= old(now) + waits.settleGrace
                  && trace == old(trace) + [Forgot(bg, now - waits.settleGrace, old(checks))]
                  && AllGone(world, trace, bg, now - waits.settleGrace, now - waits.settleGrace)
                  && AllGone(world, trace, bg, now - waits.settleGrace, now)
                else now == old(now) && trace == old(trace) && AllGone(world, trace, bg, now, now)
      ensures !settled ==>
                && trace == old(trace) + [TimedOut(bg)] && StillUp(world, trace, bg, now)
                && now >= old(now) + waits.stopWait
      ensures now < old(now) + waits.stopWait + waits.exitPoll + if settled then waits.settleGrace else 0
      ensures !StillUp(world, old(trace), bg, old(now)) ==>
                settled && now == old(now) + (if old(bg in seen) then waits.settleGrace else 0)
    {
      hide Meanwhile, TimesBy, Physical, Safe, Runs, Account, IsShown, AllGone, StillUp;
      if bg !in seen {
        NoneRuns(world, trace, seen, now, bg);
        return true;
      }
      var exited := WaitRemembered(bg, now);
      if !exited {
        Record(TimedOut(bg));
        StillUpNext(world, old(trace), TimedOut(bg), bg, now);
        return false;
      }
      AllGoneLater(world, trace, bg, now, now, now + waits.settleGrace);
      Sleep(waits.settleGrace);
      return true;
    }

    /** List every `stopPoll`, for at most `copyListWait`, remembering the
        process each listing shows, until `bg` is listed (with a process, when
        `running`). */
    method NoteUntil(bg: string, running: bool) returns (shown: bool)
      requires Valid()
      modifies this`now, this`seen, this`trace
      ensures Valid()
      ensures NotedUntil(world, waits, old(trace), trace, bg, old(now), running)
      ensures now == ReadEnd(world, trace[|trace| - 1]) && shown == Shows(world, trace[|trace| - 1], running)
      ensures now < old(now) + waits.copyListWait + waits.stopPoll + LIST_TIMEOUT
    {
      hide Meanwhile, TimesBy, Physical, Safe, Account, Runs, Ever, Polled, PollDue, ShownBy, ReadsOnly;
      var started := now;
      PollStarts(world, trace, bg, waits.stopPoll, waits.copyListWait, now);
      while true
        invariant Valid() && started <= now
        invariant PollDue(world, old(trace), trace, bg, started, waits.stopPoll, waits.copyListWait, now)
        invariant NoneShows(world, old(trace), trace, running)
        decreases started + waits.copyListWait + waits.stopPoll - now
      {
        PollStep(world, old(trace), trace, bg, started, waits.stopPoll, waits.copyListWait, now);
        ghost var before, read := trace, Read(bg, now, LIST_TIMEOUT, false);
        var listing := List(LIST_TIMEOUT);
        if listing.Lists? && bg in listing.entries {
          Note(bg, listing.entries[bg], read);
          if !running || listing.entries[bg].Alive() {
            return true;
          }
        } else {
          NothingShown(world, read);
          Record(read);
        }
        if now - started >= waits.copyListWait {
          return false;
        }
        PollNext(world, old(trace), trace, bg, started, waits.stopPoll, waits.copyListWait, now);
        NoneShowsNext(world, old(trace), before, read, running);
        Sleep(waits.stopPoll);
      }
    }

    /** Stop what a resume started as the session itself: listed first, so a
        wait after the stop knows its process. Never removed. */
    method StopResumed(bg: string)
      requires Valid()
      modifies this`now, this`seen, this`trace
      ensures Valid() && trace != [] && trace[|trace| - 1] == StopSent(bg)
      ensures NotedUntil(world, waits, old(trace), trace[..|trace| - 1], bg, old(now), true)
    {
      hide Meanwhile, TimesBy, Physical, Safe, Account, NotedUntil;
      var _ := NoteUntil(bg, true);
      ghost var looks := trace;
      StopBg(bg);
      assert trace[..|looks|] == looks;
    }

    /** One listing, so that a later wait knows the process, then the stop. */
    method StopNoting(bg: string)
      requires Valid()
      modifies this`now, this`seen, this`trace
      ensures Valid() && trace == old(trace) + [Read(bg, old(now), LIST_TIMEOUT, false), StopSent(bg)]
    {
      hide Meanwhile, TimesBy, Physical, Safe, Account;
      var _ := ListNoting(bg, LIST_TIMEOUT);
      StopBg(bg);
    }

    /** One listing; the process it shows for `bg` is remembered. */
    method ListNoting(bg: string, timeout: nat) returns (listing: Listing)
      requires Valid()
      modifies this`now, this`seen, this`trace
      ensures Valid() && trace == old(trace) + [Read(bg, old(now), timeout, false)]
      ensures now == old(now) + Min(world.took(old(now)), timeout)
      ensures listing == ListingAt(world, old(now), timeout)
    {
      hide Meanwhile, TimesBy, Physical, Safe, Account, ShownBy;
      ghost var read := Read(bg, now, timeout, false);
      listing := List(timeout);
      if listing.Lists? && bg in listing.entries {
        Note(bg, listing.entries[bg], read);
      } else {
        NothingShown(world, read);
        Record(read);
      }
    }

    /** Whether a session works on its own between turns. */
    method PhaseNoting(bg: string) returns (worksAlone: bool)
      requires Valid()
      modifies this`now, this`seen, this`trace
      ensures Valid() && trace == old(trace) + [Read(bg, old(now), QUICK_TIMEOUT, false)]
      ensures worksAlone <==> WorksAt(world, old(now), bg)
    {
      hide Meanwhile, TimesBy, Physical, Safe, Account;
      var listing := ListNoting(bg, QUICK_TIMEOUT);
      worksAlone := listing.Lists? && bg in listing.entries && WorksAlone(listing.entries[bg]);
    }

    /** Stop and remove a copy a resume started. Nothing of it is remembered
        afterwards, whatever happened. */
    method DiscardCopy(copy: string)
      requires Valid()
      modifies this`now, this`seen, this`trace, this`checks
      ensures Valid()
      ensures exists i, j :: Discarded(world, waits, old(trace), trace, copy, old(now), i, j)
    {
      hide Meanwhile, TimesBy, Physical, Safe, Account, NotedUntil, Waited, IsShown, AllGone, ShownBy, Discarded;
      var _ := NoteUntil(copy, false);
      ghost var t1 := trace;
      StopBg(copy);
      ghost var t2, from := trace, now;
      var stopped := WaitForExit(copy);
      ghost var t3 := trace;
      WaitedEnds(world, waits, t2, t3, copy, from, now, stopped);
      ghost var removal := RemoveSent(copy, now, if stopped.StillRuns? then now else trace[|trace| - 1].at);
      if stopped.NoLongerListed? {
        WaitedNow(world, waits, t2, t3, copy, from, now);
      }
      Record(removal);
      Sleep(Min(world.took(now), QUICK_TIMEOUT));
      Forget(copy);
      assert trace == t3 + [removal, Abandoned(copy, now)];
      DiscardedSo(world, waits, old(trace), t1, t3, copy, old(now), from, removal, Abandoned(copy, now), stopped);
    }

    /** Launch a session, or resume one, and tell the runtime; a copy that a
        resume starts instead is stopped and removed, never told. */
    method LaunchReported(base: SessionRef, of: Option<SessionRef>, ghost own: Option<string>, ghost checked: nat)
      returns (end: LaunchEnd)
      requires Valid() && (of.Some? ==> own == of.value.bgId)
      requires OwnBg(of).Some? ==> MayResume(world, trace, OwnBg(of).value, checked, now, waits.settleGrace)
      modifies this`now, this`seen, this`trace, this`checks
      ensures Valid()
      ensures SoFar(old(trace), trace, own, 1, LeftBy(end, of))
      ensures EndsAs(world, base, Launched(of, world.launch(old(now)), old(now), checked), end)
      ensures end.Running? ==> !world.turnStopped(old(now) + Min(world.took(old(now)), LAUNCH_TIMEOUT))
      ensures old(trace) + [Launched(of, world.launch(old(now)), old(now), checked)] <= trace
      ensures end.Running? ==>
                && LaunchedAs(old(trace), trace, of, end.session.bgId)
                && trace == old(trace) + [Launched(of, world.launch(old(now)), old(now), checked), ReportedIds(of, end.session)]
      ensures end.StoppedMeanwhile? ==> trace[|trace| - 1] == StopSent(world.launch(old(now)).bgId)
      ensures end.NothingLaunched? ==>
                && trace == old(trace) + [Launched(of, LaunchFailed, old(now), checked)]
                && now == old(now) + Min(world.took(old(now)), LAUNCH_TIMEOUT)
    {
      hide Meanwhile, TimesBy, Physical, Safe, Account, SoFar, MayResume, IsShown, StartedBy, Discarded, LaunchedAs, ListingAt, ShownBy;
      var printed := world.launch(now);
      ghost var t0, launched := trace, Launched(of, printed, now, checked);
      Record(launched);
      LaunchSoFar(t0, launched, own);
      Sleep(Min(world.took(now), LAUNCH_TIMEOUT));
      StartedByMeans(launched);
      if printed.LaunchFailed? {
        return NothingLaunched;
      }
      ghost var t1 := trace;
      if of.Some? {
        var copy := CopyId(of.value.bgId, printed.bgId, printed.copyNote);
        if copy.Some? {
          ghost var from := now;
          DiscardCopy(copy.value);
          ghost var i, j :| Discarded(world, waits, t1, trace, copy.value, from, i, j);
          DiscardedSoFar(world, waits, t0, launched, trace, copy.value, own, from, i, j);
          return Copied(copy.value);
        }
        if printed.copyNote.Some? {
          return UnclearCopy;
        }
      }
      var session := base.(bgId := Some(printed.bgId));
      ghost var at := now;
      Record(ReportedIds(of, session));
      if world.turnStopped(now) {
        StopNoting(printed.bgId);
        StopNotedSoFar(t0, launched, of, session, Read(printed.bgId, at, LIST_TIMEOUT, false), trace, own, printed.bgId);
        return StoppedMeanwhile;
      }
      OneSoFar(t1, ReportedIds(of, session), own);
      Compose(t0, t1, trace, own, 1, 0, {printed.bgId}, {});
      assert {printed.bgId} + {} == {printed.bgId};
      AsReported(t0, trace, of, session);
      return Running(session);
    }

    /** A just-launched session, as `claude agents` lists it once it knows the
        session id; `None` when it does not in `LIST_ATTEMPTS` tries. */
    method LearnSession(bg: string) returns (found: Option<Listed>, ghost read: Event)
      requires Valid()
      modifies this`now, this`seen, this`trace
      ensures Valid() && InVain(world, old(trace), trace, bg)
      ensures read.Read? && read.bg == bg && read.forId
      ensures found.Some? ==>
                && Entry(world, read) == found && found.value.sessionId.Some? && now == ReadEnd(world, read)
                && LookedUp(world, old(trace), trace + [read], bg, found.value.sessionId)
      ensures found == None ==> LookedUp(world, old(trace), trace, bg, None)
    {
      hide Meanwhile, TimesBy, Physical, Safe, Account, ShownBy, Entry, IdIn, ListingAt, InVain, LookedUp;
      StartsLooking(world, trace, bg);
      read := Read(bg, now, QUICK_TIMEOUT, true);
      for attempt := 0 to LIST_ATTEMPTS
        invariant Valid() && InVain(world, old(trace), trace, bg) && |trace| == |old(trace)| + attempt
        invariant read.Read? && read.bg == bg && read.forId
        invariant attempt > 0 ==> trace[|trace| - 1].Read? && now == ReadEnd(world, trace[|trace| - 1])
        invariant attempt == LIST_ATTEMPTS ==> LookedUp(world, old(trace), trace, bg, None)
      {
        if attempt > 0 {
          Sleep(1_000);
        }
        read := Read(bg, now, QUICK_TIMEOUT, true);
        LooksAgain(world, old(trace), trace, bg, read);
        var listing := List(QUICK_TIMEOUT);
        LookupShows(world, read, listing);
        if listing.Lists? && bg in listing.entries && listing.entries[bg].sessionId.Some? {
          return Some(listing.entries[bg]), read;
        }
        Record(read);
      }
      return None, read;
    }

    /** The first turn of a new session. `own` is the session it takes the
        place of, when a turn of that one was asked for. */
    method FirstTurn(ghost own: Option<string>) returns (start: TurnStart)
      requires Valid()
      modifies this`now, this`seen, this`trace, this`checks
      ensures Valid() && !start.Busy?
      ensures SoFar(old(trace), trace, own, 1, LeftByTurn(start)) && SentAs(world, old(trace), trace, own, start)
      ensures start.Started? ==> !world.turnStopped(start.at + Min(world.took(start.at), LAUNCH_TIMEOUT))
      ensures start.Started? ==>
                && start.session == NO_SESSION.(bgId := start.session.bgId, sessionId := start.session.sessionId)
                && start.session.bgId.Some? && LaunchedAs(old(trace), trace, None, start.session.bgId)
                && LookedUp(world, old(trace) + [Launched(None, world.launch(old(now)), old(now), old(now)),
                                                 ReportedIds(None, NO_SESSION.(bgId := start.session.bgId))],
                            trace, start.session.bgId.value, start.session.sessionId)
      ensures old(trace) <= trace && (FoundStopped(world, old(trace), trace) <==> start == NotSent(TurnStopped))
      ensures LastLaunch(old(trace), trace, |old(trace)|)
      ensures trace[|old(trace)|] == Launched(None, world.launch(old(now)), old(now), old(now))
      ensures start == NotSent(LaunchError) <==> world.launch(old(now)).LaunchFailed?
      ensures start == NotSent(TurnStopped) <==>
                world.launch(old(now)).Printed? && world.turnStopped(old(now) + Min(world.took(old(now)), LAUNCH_TIMEOUT))
      ensures start.NotSent? ==> start.reason in {LaunchError, TurnStopped}
    {
      hide Meanwhile, TimesBy, Physical, Safe, Account, SoFar, LaunchedAs, ShownBy, Entry, FoundStopped, IsShown, AllGone, LookedUp,
           ReadEnd;
      var at := now;
      ghost var t0 := trace;
      var launched := LaunchReported(NO_SESSION, None, own, now);
      ghost var t1, e := trace, Launched(None, world.launch(at), at, at);
      FirstLaunch(t0, trace, own, LeftBy(launched, None), e);
      FoundByOnly(world, t0, trace);
      match launched {
        case Running(session) =>
          var listed, read := LearnSession(session.bgId.value);
          var known := session;
          if listed.Some? {
            Note(session.bgId.value, listed.value, read);
            known := session.(sessionId := listed.value.sessionId);
          }
          NeutralSoFar(t1, trace, own);
          Compose(t0, t1, trace, own, 1, 0, {session.bgId.value}, {});
          assert {session.bgId.value} + {} == {session.bgId.value};
          LaunchedAsStays(t0, t1, trace, None, session.bgId);
          FirstLaunch(t0, trace, own, {session.bgId.value}, e);
          FoundByOnly(world, t0, trace);
          return Started(known, at);
        case StoppedMeanwhile =>
          return NotSent(TurnStopped);
        case _ =>
          return NotSent(LaunchError);
      }
    }

    /** Stop the session's process and wait for its exit; an unclear resume's
        process is listed before it is stopped. `a` is where the turn began,
        `n` how many launches it made. */
    method StopAndWait(bg: string, unclear: bool, ghost a: seq<Event>, ghost n: nat) returns (stopped: Stopped)
      requires Valid() && SoFar(a, trace, Some(bg), n, if unclear then {bg} else {}) && a <= trace && StopsAgain(a, trace, bg)
      modifies this`now, this`seen, this`trace, this`checks
      ensures Valid() && old(trace) < trace && StopAsked(old(trace), trace, bg) && StopsAgain(a, trace, bg)
      ensures Launches(trace) == Launches(old(trace)) && (stopped.NoLongerListed? ==> LastGone(world, trace, bg))
      ensures if stopped.StillRuns? then EndsSoFar(a, trace, bg, n)
              else SoFar(a, trace, Some(bg), n, {}) && StopsLast(a, trace, bg)
      ensures !stopped.StillRuns? ==> trace[|trace| - 1].Forgot?
      ensures stopped.Exited? ==> MayResume(world, trace, bg, trace[|trace| - 1].at, now, waits.settleGrace)
      ensures !unclear ==>
                Waited(world, waits, old(trace) + [StopSent(bg)], trace, bg,
                       old(now) + Min(world.took(old(now)), QUICK_TIMEOUT), now, stopped)
    {
      hide Meanwhile, TimesBy, Physical, Safe, Account, SoFar, EndsSoFar, AllGone, NotedUntil, Waited, LastShowsNone, StopsAgain,
           StopsLast, StopAsked, Launches;
      ghost var t0, own, asked := trace, Some(bg), now;
      if unclear {
        StopResumed(bg);
        ResumedStopped(world, waits, a, t0, trace, own, n, asked);
      } else {
        StopBg(bg);
        OneSoFar(t0, StopSent(bg), own);
        Compose(a, t0, trace, own, n, 0, {}, {});
      }
      StopsNow(a, t0, trace, bg);
      AskedNow(t0, trace, bg);
      ghost var t1, from := trace, now;
      stopped := WaitForExit(bg);
      WaitedEnds(world, waits, t1, trace, bg, from, now, stopped);
      NoLaunches(t0, trace);
      StopsStill(a, t1, trace, bg);
      AskedStays(t0, t1, trace, bg);
      if stopped.StillRuns? {
        EndsLater(a, t1, trace, bg, n, 0);
      } else {
        Compose(a, t1, trace, own, n, 0, {}, {});
      }
    }

    /** Before a resume: refuse while the session works on its own, else stop
        its process if it is alive and wait until everything shown exited. */
    method Prepare(session: SessionRef) returns (prepared: Prepared, ghost checked: nat)
      requires Valid() && session.bgId.Some?
      modifies this`now, this`seen, this`trace, this`checks
      ensures Valid()
      ensures PreparedSo(world, waits, old(trace), trace, session, old(now), now, prepared, checked)
      ensures old(trace) + [Read(session.bgId.value, old(now), QUICK_TIMEOUT, false)] <= trace
      ensures prepared.Refused? <==> WorksAt(world, old(now), session.bgId.value)
      ensures !prepared.Refused? && MayRunAt(world, old(now), session.bgId.value) ==>
                StopAsked(old(trace), trace, session.bgId.value)
      ensures prepared.Refused? ==> |trace| == |old(trace)| + 1
      ensures prepared.RanOut? ==> EndsSoFar(old(trace), trace, session.bgId.value, 0)
      ensures !prepared.RanOut? ==> SoFar(old(trace), trace, session.bgId, 0, {})
      ensures prepared.Ready? ==> MayResume(world, trace, session.bgId.value, checked, now, waits.settleGrace)
      ensures prepared.Ready? ==> prepared.sessionId == KnownId(world, session, old(now))
      ensures prepared.Removed? ==> LastGone(world, trace, session.bgId.value)
    {
      hide Meanwhile, TimesBy, Physical, Safe, Account, SoFar, WorksAlone, IsShown, AllGone, StopAsked, Waited, EndsSoFar, ShownBy,
           StillUp, Launches, StopsAllBut, TouchesOnly, OneAtATime, NeverResumesAfterTimeout, StopsAgain, StopsLast,
           LastGone, Polled;
      var bg, own, sessionId := session.bgId.value, session.bgId, session.sessionId;
      ghost var t0, read := trace, Read(bg, now, QUICK_TIMEOUT, false);
      var alive := true;
      var listing := ListNoting(bg, QUICK_TIMEOUT);
      OneSoFar(t0, read, own);
      ghost var t1 := trace;
      checked := now;
      if listing.Lists? {
        if bg !in listing.entries {
          Forget(bg);
          OneSoFar(t1, trace[|t1|], own);
          Compose(t0, t1, trace, own, 0, 0, {}, {});
          GoneNow(world, t0, read, now);
          return Removed, now;
        }
        var listed := listing.entries[bg];
        if sessionId == None {
          sessionId := listed.sessionId;
        }
        if WorksAlone(listed) {
          return Refused, now;
        }
        alive := listed.Alive();
      }
      if !alive {
        ghost var remembered := bg in seen;
        var settled := Settle(bg);
        if !settled {
          assert trace[..|t1|] == t1;
          EndsNow(t0, t1, bg, 0);
          return RanOut, now;
        }
        if remembered {
          OneSoFar(t1, trace[|t1|], own);
          Compose(t0, t1, trace, own, 0, 0, {}, {});
          checked := trace[|t1|].at;
        }
        return Ready(sessionId), checked;
      }
      Concludes(t0, t1, own, 0, {});
      OneLaunch(t0, t1, bg);
      var stopped := StopAndWait(bg, false, t0, 0);
      AskedEarlier(t0, t1, trace, bg);
      prepared := PreparedBy(stopped, sessionId);
      if !stopped.StillRuns? {
        checked := trace[|trace| - 1].at;
      }
    }

    /** Resume, discarding a copy and resuming once more. */
    method Resume(session: SessionRef, sessionId: string, ghost checked: nat)
      returns (start: TurnStart, ghost of: Option<SessionRef>)
      requires Valid() && (session.bgId.Some? ==> MayResume(world, trace, session.bgId.value, checked, now, waits.settleGrace))
      requires session.sessionId.Some? ==> session.sessionId.value == sessionId
      modifies this`now, this`seen, this`trace, this`checks
      ensures Valid() && !start.Busy?
      ensures start == NotSent(StopTimeout) ==>
                session.bgId.Some? && EndsSoFar(old(trace), trace, session.bgId.value, 1)
      ensures start != NotSent(StopTimeout) ==> SoFar(old(trace), trace, session.bgId, 2, LeftByTurn(start))
      ensures session.bgId.Some? ==> StopsAgain(old(trace), trace, session.bgId.value)
      ensures SentAs(world, old(trace), trace, session.bgId, start)
      ensures old(trace) <= trace && (FoundStopped(world, old(trace), trace) <==> start == NotSent(TurnStopped))
      ensures Fits(world, old(trace), trace, session, Some(sessionId))
      ensures old(trace) + [Launched(Some(session.(sessionId := Some(sessionId))), world.launch(old(now)), old(now), checked)] <= trace
      ensures world.launch(old(now)).LaunchFailed? ==>
                && start == NotSent(LaunchError) && |trace| == |old(trace)| + 1
                && now == old(now) + Min(world.took(old(now)), LAUNCH_TIMEOUT)
      ensures start.Started? ==>
                && start.session.bgId.Some? && LaunchedAs(old(trace), trace, of, start.session.bgId)
                && (of.Some? && session.bgId.Some? ==> start.session.bgId == session.bgId)
                && (of.Some? ==> Continues(session, of.value) && Continues(of.value, start.session))
    {
      hide Meanwhile, TimesBy, Physical, Safe, Account, SoFar, EndsSoFar, IsShown, AllGone, StartsIt, StartsCopy, StartsTurn, StartsLate, StartsNothing, MarkedBy, EndsAs, FoundStopped, LastGone, LaunchedFor, Fits, LastLaunch, Discarded, Polled, ListingAt, ShownBy, MadeCopy, SentAs, LaunchedAs, CopyId, NotedUntil, Waited, LastShowsNone,
           StopsAgain, StopsLast, Launches, StopsAllBut, TouchesOnly, OneAtATime, NeverResumesAfterTimeout;
      var base := session.(sessionId := Some(sessionId));
      ghost var own, t0 := session.bgId, trace;
      ghost var lastCheck: nat := checked;
      ghost var first := Launched(Some(base), world.launch(now), now, checked);
      of := Some(base);
      NothingSoFar(trace, own);
      NoneLaunched(trace, own);
      ToldNone(world, trace, trace, session, base.sessionId);
      var attempt := 1;
      while true
        invariant Valid() && 1 <= attempt <= RESUME_ATTEMPTS && of == Some(base)
        invariant SoFar(t0, trace, own, attempt - 1, {}) && t0 <= trace && !FoundStopped(world, t0, trace)
        invariant Fits(world, t0, trace, session, base.sessionId)
        invariant own.Some? ==> StopsAgain(t0, trace, own.value) && StopsLast(t0, trace, own.value)
        invariant if attempt == 1 then trace == t0 && lastCheck == checked && now == old(now)
                  else MadeCopy(world, trace, |t0|) && t0 + [first] <= trace
        invariant session.bgId.Some? ==> MayResume(world, trace, session.bgId.value, lastCheck, now, waits.settleGrace)
        decreases RESUME_ATTEMPTS - attempt
      {
        if attempt > 1 {
          MadePrinted(world, trace, |t0|);
        }
        var at := now;
        ghost var t1 := trace;
        ghost var e := Launched(Some(base), world.launch(now), now, lastCheck);
        var launched := LaunchReported(base, Some(base), own, lastCheck);
        FirstLaunch(t1, trace, own, LeftBy(launched, of), e);
        EndMeans(world, base, e, launched);
        ToldResume(world, t0, t1, trace, session, sessionId);
        LaunchedAgain(t0, t1, trace, own, attempt - 1, LeftBy(launched, of));
        if launched.Running? {
          LaunchedAsEarlier(t0, t1, trace, own, attempt - 1, of, launched.session.bgId);
          AtMost(t0, trace, own, attempt, 2, LeftBy(launched, of));
          LastSent(world, t0, t1, trace, own, Started(launched.session, at));
          return Started(launched.session, at), of;
        }
        if launched.NothingLaunched? || launched.StoppedMeanwhile? {
          AtMost(t0, trace, own, attempt, 2, {});
          start := NotSent(if launched.NothingLaunched? then LaunchError else TurnStopped);
          LastSent(world, t0, t1, trace, own, start);
          return start, of;
        }
        var unclear := launched.UnclearCopy?;
        ghost var t2, asked := trace, now;
        MadeOne(world, t2, |t1|);
        if attempt > 1 {
          MadeStays(world, t1, t2, |t0|);
        }
        if attempt >= RESUME_ATTEMPTS {
          if unclear {
            StopResumed(session.bgId.value);
          }
          CopiedTwice(world, waits, t0, t2, trace, own, attempt, |t0|, |t1|, asked, unclear);
          ToldLater(world, t0, t2, trace, session, base.sessionId);
          return NotSent(CannotContinue), of;
        }
        attempt := attempt + 1;
        if session.bgId.Some? {
          var bg := session.bgId.value;
          var stopped := StopAndWait(bg, unclear, t0, 1);
          ToldLater(world, t0, t2, trace, session, base.sessionId);
          if stopped.StillRuns? {
            RanOutSent(world, t0, trace, bg);
            return NotSent(StopTimeout), of;
          }
          lastCheck := trace[|trace| - 1].at;
          if stopped.NoLongerListed? {
            ghost var t4 := trace;
            Concludes(t0, t4, own, attempt - 1, {});
            of := None;
            start := FirstTurn(own);
            LaunchedAgain(t0, t4, trace, own, attempt - 1, LeftByTurn(start));
            Concludes(t4, trace, own, 1, LeftByTurn(start));
            if start.Started? {
              LaunchedAsEarlier(t0, t4, trace, own, attempt - 1, None, start.session.bgId);
            }
            SentEarlier(world, t0, t4, trace, own, start);
            ToldAnew(world, t0, t4, trace, session, base.sessionId);
            return start, None;
          }
        }
        MadeStays(world, t2, trace, |t0|);
      }
    }

    /** A turn of a session there is already: prepared, then resumed, at most
        twice; or refused; or begun anew where the session is gone. */
    method NextTurn(session: SessionRef) returns (start: TurnStart, ghost of: Option<SessionRef>)
      requires Valid()
      modifies this`now, this`seen, this`trace, this`checks
      ensures Valid()
      ensures old(trace) <= trace && Launches(trace) <= Launches(old(trace)) + 2
      ensures StopsAllBut(old(trace), trace, LeftByTurn(start)) && OneAtATime(old(trace), trace)
      ensures TouchesOnly(old(trace), trace, session.bgId)
      ensures session.bgId.Some? ==> NeverResumesAfterTimeout(old(trace), trace, session.bgId.value)
      ensures session.bgId.Some? ==> StopsAgain(old(trace), trace, session.bgId.value)
      ensures session.bgId.Some? ==> old(trace) + [Read(session.bgId.value, old(now), QUICK_TIMEOUT, false)] <= trace
      ensures start.Busy? ==> |trace| == |old(trace)| + 1
      ensures start.Busy? <==> session.bgId.Some? && WorksAt(world, old(now), session.bgId.value)
      ensures session.bgId.Some? && !start.Busy? && MayRunAt(world, old(now), session.bgId.value) ==>
                StopAsked(old(trace), trace, session.bgId.value)
      ensures SentAs(world, old(trace), trace, session.bgId, start)
      ensures FoundStopped(world, old(trace), trace) <==> start == NotSent(TurnStopped)
      ensures Fits(world, old(trace), trace, session, KnownId(world, session, old(now)))
      ensures start == NotSent(StopTimeout) <==>
                session.bgId.Some? && |trace| > |old(trace)| && trace[|trace| - 1] == TimedOut(session.bgId.value)
      ensures start.Started? ==> !world.turnStopped(start.at + Min(world.took(start.at), LAUNCH_TIMEOUT))
      ensures start.Started? ==>
                && start.session.bgId.Some? && LaunchedAs(old(trace), trace, of, start.session.bgId)
                && (of.Some? && session.bgId.Some? ==> start.session.bgId == session.bgId)
                && (of.Some? ==> Continues(session, of.value) && Continues(of.value, start.session))
    {
      hide Meanwhile, TimesBy, Physical, Safe, Account, SoFar, EndsSoFar, IsShown, LaunchedAs, Launches, StopsAllBut, TouchesOnly, OneAtATime,
           NeverResumesAfterTimeout, StopAsked, WorksAt, MayRunAt, MayResume, StopsAgain,
           SentAs, PreparedSo, FoundStopped, Fits, LaunchedFor, LastGone, LastLaunch, Polled, Waited, ListingAt, LookedUp,
           StopsLast;
      ghost var t0, own, checked := trace, session.bgId, now;
      ghost var id := KnownId(world, session, now);
      var sessionId := session.sessionId;
      var removed := false;
      NothingSoFar(trace, own);
      if session.bgId.Some? {
        var prepared;
        prepared, checked := Prepare(session);
        match prepared {
          case Refused =>
            NeutralSoFar(t0, trace, own);
            Concludes(t0, trace, own, 0, {});
            OneLaunch(t0, trace, own.value);
            NotRanOut(world, t0, trace, own, 0, {}, Busy);
            ToldNone(world, t0, trace, session, id);
            return Busy, None;
          case RanOut =>
            ConcludesTimedOut(t0, trace, own.value, 0);
            ToldNone(world, t0, trace, session, id);
            OneLaunch(t0, trace, own.value);
            RanOutSent(world, t0, trace, own.value);
            return NotSent(StopTimeout), None;
          case Removed => removed := true;
          case Ready(id) => sessionId := id;
        }
      }
      ghost var t1 := trace;
      Concludes(t0, t1, own, 0, {});
      ToldNone(world, t0, t1, session, id);
      if removed || sessionId == None {
        start := FirstTurn(own);
        of := None;
        TurnSent(world, t0, t1, trace, own, 1, start, None);
        ToldAnew(world, t0, t1, trace, session, id);
        if own.Some? {
          OneLaunch(t0, trace, own.value);
        }
        return;
      }
      start, of := Resume(session, sessionId.value, checked);
      ToldMore(world, t0, t1, trace, session, id);
      if own.Some? {
        StopsAgainEarlier(t0, t1, trace, own.value);
      }
      if start == NotSent(StopTimeout) {
        TurnRanOut(world, t0, t1, trace, own.value);
      } else {
        TurnSent(world, t0, t1, trace, own, 2, start, of);
      }
    }
  }
}
