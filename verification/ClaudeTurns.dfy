/** What a turn of the Claude session driver (src/agent/claude.rs) did from one
    point of a run to a later one: launches, stops, removals and waits. */
module ClaudeTurns {
  import opened Basics
  import opened ClaudeWorld
  import opened Turn

  /** How a launch ended. */
  datatype LaunchEnd =
    | NothingLaunched
    | StoppedMeanwhile
    | Running(session: SessionRef)
    | Copied(copy: string)
    | UnclearCopy

  datatype Reason = StopTimeout | CannotContinue | LaunchError | TurnStopped

  datatype TurnStart = Started(session: SessionRef, at: nat) | Busy | NotSent(reason: Reason)

  // ----- From one point of a run to a later one -----

  /** From `a` to `b`, everything launched was told to stop later, but `loose`. */
  ghost predicate StopsAllBut(a: seq<Event>, b: seq<Event>, loose: set<string>) {
    forall i :: |a| <= i < |b| && StartedBy(b[i]).Some? && StartedBy(b[i]).value !in loose ==>
      StopsBetween(b, i, |b|, StartedBy(b[i]).value)
  }

  /** From `a` to `b`, nothing was told to stop but `own` and what was launched
      since `a`, and nothing was removed but what was launched. */
  ghost predicate TouchesOnly(a: seq<Event>, b: seq<Event>, own: Option<string>) {
    && (forall i :: |a| <= i < |b| && b[i].StopSent? ==> Some(b[i].bg) == own || StartedSince(b, |a|, i, b[i].bg))
    && (forall i :: |a| <= i < |b| && b[i].RemoveSent? ==> Some(b[i].bg) != own && StartedSince(b, |a|, i, b[i].bg))
  }

  /** From `a` to `b`, whatever a launch started was told to stop before the
      next launch. */
  ghost predicate OneAtATime(a: seq<Event>, b: seq<Event>) {
    forall i, j :: |a| <= i < j < |b| && StartedBy(b[i]).Some? && b[j].Launched? ==>
      StopsBetween(b, i, j, StartedBy(b[i]).value)
  }

  /** From `a` to `b`, `own` was told to stop between any two launches. */
  ghost predicate StopsAgain(a: seq<Event>, b: seq<Event>, own: string) {
    forall i, j :: |a| <= i < j < |b| && b[i].Launched? && b[j].Launched? ==> StopsBetween(b, i, j, own)
  }

  /** From `a` to `b`, `own` was told to stop after the last launch. */
  ghost predicate StopsLast(a: seq<Event>, b: seq<Event>, own: string) {
    forall i :: |a| <= i < |b| && b[i].Launched? ==> StopsBetween(b, i, |b|, own)
  }

  /** From `a` to `b`, no wait for `own` ran out. */
  ghost predicate NoTimeout(a: seq<Event>, b: seq<Event>, own: Option<string>) {
    own.Some? ==> forall i :: |a| <= i < |b| ==> b[i] != TimedOut(own.value)
  }

  /** From `a` to `b`, as far as session `own` goes: at most `n` launches, none
      left running but `loose`, nothing else touched, no wait for it ran out. */
  ghost predicate SoFar(a: seq<Event>, b: seq<Event>, own: Option<string>, n: nat, loose: set<string>) {
    && a <= b && Launches(b) <= Launches(a) + n
    && StopsAllBut(a, b, loose) && TouchesOnly(a, b, own) && OneAtATime(a, b) && NoTimeout(a, b, own)
  }

  lemma {:induction false} LaunchesNext(t: seq<Event>, e: Event)
    ensures Launches(t + [e]) == Launches(t) + if e.Launched? then 1 else 0
  {
    assert (t + [e])[..|t|] == t;
  }

  /** No launch is counted where none is. */
  lemma {:induction false} NoLaunches(a: seq<Event>, b: seq<Event>)
    requires a <= b
    ensures Launches(a) <= Launches(b)
    ensures (forall i :: |a| <= i < |b| ==> !b[i].Launched?) <==> Launches(b) == Launches(a)
    decreases |b|
  {
    if |b| > |a| {
      var n := |b| - 1;
      assert a <= b[..n] && b == b[..n] + [b[n]];
      NoLaunches(a, b[..n]);
    } else {
      assert a == b;
    }
  }

  lemma Compose(a: seq<Event>, b: seq<Event>, c: seq<Event>, own: Option<string>, m: nat, n: nat,
                l1: set<string>, l2: set<string>)
    requires SoFar(a, b, own, m, l1) && SoFar(b, c, own, n, l2) && (l1 == {} || n == 0)
    ensures SoFar(a, c, own, m + n, l1 + l2)
    ensures l1 == {} ==> SoFar(a, c, own, m + n, l2)
  {
    hide Launches, StartedBy;
    ComposeStops(a, b, c, l1, l2);
    ComposeTouches(a, b, c, own);
    NoLaunches(b, c);
    ComposeOne(a, b, c, l1, Launches(c) == Launches(b));
    assert l1 == {} ==> l1 + l2 == l2;
  }

  lemma ComposeStops(a: seq<Event>, b: seq<Event>, c: seq<Event>, l1: set<string>, l2: set<string>)
    requires a <= b <= c && StopsAllBut(a, b, l1) && StopsAllBut(b, c, l2)
    ensures StopsAllBut(a, c, l1 + l2)
  {
    hide StartedBy;
    forall i | |a| <= i < |c| && StartedBy(c[i]).Some? && StartedBy(c[i]).value !in l1 + l2
      ensures StopsBetween(c, i, |c|, StartedBy(c[i]).value)
    {
      if i < |b| {
        assert b[i] == c[i];
        var k :| i < k < |b| && b[k] == StopSent(StartedBy(b[i]).value);
        assert c[k] == b[k];
      }
    }
  }

  lemma ComposeTouches(a: seq<Event>, b: seq<Event>, c: seq<Event>, own: Option<string>)
    requires a <= b <= c && TouchesOnly(a, b, own) && TouchesOnly(b, c, own)
    ensures TouchesOnly(a, c, own)
  {
    hide StartedBy;
    forall i, id | |a| <= i < |b| && StartedSince(b, |a|, i, id)
      ensures StartedSince(c, |a|, i, id)
    {
      var k :| |a| <= k < i && StartedBy(b[k]) == Some(id);
      assert c[k] == b[k];
    }
    forall i, id | |b| <= i < |c| && StartedSince(c, |b|, i, id)
      ensures StartedSince(c, |a|, i, id)
    {
    }
    assert forall i :: |a| <= i < |b| ==> c[i] == b[i];
  }

  lemma ComposeOne(a: seq<Event>, b: seq<Event>, c: seq<Event>, l1: set<string>, quiet: bool)
    requires a <= b <= c && OneAtATime(a, b) && OneAtATime(b, c) && StopsAllBut(a, b, l1)
    requires if quiet then forall i :: |b| <= i < |c| ==> !c[i].Launched? else l1 == {}
    ensures OneAtATime(a, c)
  {
    hide StartedBy;
    forall i, j | |a| <= i < j < |c| && StartedBy(c[i]).Some? && c[j].Launched?
      ensures StopsBetween(c, i, j, StartedBy(c[i]).value)
    {
      if i < |b| {
        assert b[i] == c[i];
        assert j < |b| ==> b[j] == c[j];
        var k :| i < k < (if j < |b| then j else |b|) && b[k] == StopSent(StartedBy(b[i]).value);
        assert c[k] == b[k];
      }
    }
  }

  lemma NoneLaunched(t: seq<Event>, own: Option<string>)
    ensures own.Some? ==> StopsAgain(t, t, own.value) && StopsLast(t, t, own.value)
  {
  }

  lemma NothingSoFar(t: seq<Event>, own: Option<string>)
    ensures SoFar(t, t, own, 0, {})
  {
  }

  lemma TwoLaunches(a: seq<Event>, b: seq<Event>, i: int, j: int)
    requires a <= b && |a| <= i < j < |b| && b[i].Launched? && b[j].Launched?
    ensures Launches(b) >= Launches(a) + 2
  {
    hide Launches;
    NoLaunches(a, b[..i]);
    LaunchesNext(b[..i], b[i]);
    assert b[..i] + [b[i]] == b[..i + 1] && b[..j] + [b[j]] == b[..j + 1];
    NoLaunches(b[..i + 1], b[..j]);
    LaunchesNext(b[..j], b[j]);
    NoLaunches(b[..j + 1], b);
  }

  /** With one launch there is nothing between two. */
  lemma OneLaunch(a: seq<Event>, b: seq<Event>, own: string)
    requires a <= b && Launches(b) <= Launches(a) + 1
    ensures StopsAgain(a, b, own)
  {
    hide Launches, StopsBetween;
    if i, j :| |a| <= i < j < |b| && b[i].Launched? && b[j].Launched? {
      TwoLaunches(a, b, i, j);
    }
  }

  lemma StopsAgainEarlier(a: seq<Event>, b: seq<Event>, c: seq<Event>, own: string)
    requires a <= b <= c && Launches(b) <= Launches(a) && StopsAgain(b, c, own)
    ensures StopsAgain(a, c, own)
  {
    hide Launches;
    NoLaunches(a, b);
    assert forall i :: |a| <= i < |b| ==> c[i] == b[i];
  }

  /** One launch more, where `own` was told to stop after those before. */
  lemma LaunchesAgain(a: seq<Event>, b: seq<Event>, c: seq<Event>, own: string)
    requires a <= b <= c && StopsAgain(a, b, own) && StopsLast(a, b, own) && Launches(c) <= Launches(b) + 1
    ensures StopsAgain(a, c, own)
  {
    hide Launches;
    forall i, j | |a| <= i < j < |c| && c[i].Launched? && c[j].Launched?
      ensures StopsBetween(c, i, j, own)
    {
      if i >= |b| {
        TwoLaunches(b, c, i, j);
      } else {
        assert b[i] == c[i] && (j < |b| ==> b[j] == c[j]);
        var k :| i < k < (if j < |b| then j else |b|) && b[k] == StopSent(own);
        assert c[k] == b[k];
      }
    }
  }

  /** `own` told to stop, and nothing launched: all launches have that behind them. */
  lemma StopsNow(a: seq<Event>, b: seq<Event>, c: seq<Event>, own: string)
    requires a <= b < c && StopsAgain(a, b, own)
    requires c[|c| - 1] == StopSent(own) && forall i :: |b| <= i < |c| ==> !c[i].Launched?
    ensures StopsAgain(a, c, own) && StopsLast(a, c, own)
  {
    forall i, j | |a| <= i < j < |c| && c[i].Launched? && c[j].Launched?
      ensures StopsBetween(c, i, j, own)
    {
      assert b[i] == c[i] && b[j] == c[j];
      var k :| i < k < j && b[k] == StopSent(own);
      assert c[k] == b[k];
    }
    assert c[|c| - 1] == StopSent(own);
  }

  lemma StopsStill(a: seq<Event>, b: seq<Event>, c: seq<Event>, own: string)
    requires a <= b <= c && StopsAgain(a, b, own) && forall i :: |b| <= i < |c| ==> !c[i].Launched?
    ensures StopsAgain(a, c, own) && (StopsLast(a, b, own) ==> StopsLast(a, c, own))
  {
    forall i, j | |a| <= i < j < |c| && c[i].Launched? && c[j].Launched?
      ensures StopsBetween(c, i, j, own)
    {
      assert b[i] == c[i] && b[j] == c[j];
      var k :| i < k < j && b[k] == StopSent(own);
      assert c[k] == b[k];
    }
    if StopsLast(a, b, own) {
      forall i | |a| <= i < |c| && c[i].Launched?
        ensures StopsBetween(c, i, |c|, own)
      {
        assert b[i] == c[i];
        var k :| i < k < |b| && b[k] == StopSent(own);
        assert c[k] == b[k];
      }
    }
  }

  /** What changes nothing that is counted here. */
  predicate Neutral(e: Event, own: Option<string>) {
    e.Read? || e.Forgot? || e.Abandoned? || e.ReportedIds? || (e.TimedOut? && Some(e.bg) != own)
  }

  lemma NeutralSoFar(a: seq<Event>, b: seq<Event>, own: Option<string>)
    requires a <= b && forall i :: |a| <= i < |b| ==> Neutral(b[i], own)
    ensures SoFar(a, b, own, 0, {})
  {
    hide Launches;
    NoLaunches(a, b);
  }

  lemma OneSoFar(t: seq<Event>, e: Event, own: Option<string>)
    requires Neutral(e, own) || (e.StopSent? && Some(e.bg) == own)
    ensures SoFar(t, t + [e], own, 0, {})
  {
    hide Launches;
    LaunchesNext(t, e);
  }

  lemma LaunchSoFar(t: seq<Event>, e: Event, own: Option<string>)
    requires e.Launched?
    ensures SoFar(t, t + [e], own, 1, if StartedBy(e).Some? then {StartedBy(e).value} else {})
  {
    hide Launches, StartedBy;
    LaunchesNext(t, e);
  }

  /** What may follow a launch of `id` until it is stopped. */
  predicate Tends(e: Event, id: string, own: Option<string>) {
    Neutral(e, own) || e == StopSent(id) || (e.RemoveSent? && e.bg == id && Some(id) != own)
  }

  /** What was launched was stopped, and nothing else was touched. */
  lemma StoppedSoFar(a: seq<Event>, e: Event, b: seq<Event>, own: Option<string>, id: string)
    requires StartedBy(e) == Some(id) && a + [e] <= b && StopsBetween(b, |a|, |b|, id)
    requires forall i :: |a| < i < |b| ==> Tends(b[i], id, own)
    ensures SoFar(a, b, own, 1, {})
  {
    hide Launches;
    LaunchesNext(a, e);
    NoLaunches(a + [e], b);
    assert b[|a|] == e;
    assert forall i :: |a| < i < |b| ==> StartedSince(b, |a|, i, id);
    assert a <= b;
  }

  /** A session reported to a stopped turn was listed and stopped. */
  lemma StopNotedSoFar(a: seq<Event>, e: Event, of: Option<SessionRef>, session: SessionRef, read: Event, b: seq<Event>,
                       own: Option<string>, id: string)
    requires StartedBy(e) == Some(id) && read.Read?
    requires b == a + [e] + [ReportedIds(of, session)] + [read, StopSent(id)]
    ensures SoFar(a, b, own, 1, {})
  {
    hide StartedBy, SoFar;
    assert b[|a| + 3] == StopSent(id);
    StoppedSoFar(a, e, b, own, id);
  }

  /** What an unclear resume started as the session itself was stopped. */
  lemma UnclearStopped(a: seq<Event>, b: seq<Event>, c: seq<Event>, own: Option<string>, n: nat)
    requires own.Some? && SoFar(a, b, own, n, {own.value})
    requires b < c && c[|c| - 1] == StopSent(own.value) && forall i :: |b| <= i < |c| - 1 ==> c[i].Read?
    ensures SoFar(a, c, own, n, {})
  {
    hide Launches, StartedBy;
    var looks := c[..|c| - 1];
    assert c == looks + [StopSent(own.value)];
    NeutralSoFar(b, looks, own);
    OneSoFar(looks, StopSent(own.value), own);
    Compose(b, looks, c, own, 0, 0, {}, {});
    Compose(a, b, c, own, n, 0, {own.value}, {});
    forall i | |a| <= i < |c| && StartedBy(c[i]).Some?
      ensures StopsBetween(c, i, |c|, StartedBy(c[i]).value)
    {
      if StartedBy(c[i]).value == own.value {
        assert i < |c| - 1 && c[|c| - 1] == StopSent(own.value);
      }
    }
  }

  lemma AtMost(a: seq<Event>, b: seq<Event>, own: Option<string>, m: nat, n: nat, loose: set<string>)
    requires SoFar(a, b, own, m, loose) && m <= n
    ensures SoFar(a, b, own, n, loose)
  {
    hide Launches, StopsAllBut, TouchesOnly, OneAtATime, NoTimeout;
  }

  /** As far as `own` goes, nothing from `a` to `b` but `n` launches that were
      stopped, then a wait for it ran out. */
  ghost predicate EndsSoFar(a: seq<Event>, b: seq<Event>, own: string, n: nat) {
    b != [] && b[|b| - 1] == TimedOut(own) && SoFar(a, b[..|b| - 1], Some(own), n, {})
  }

  lemma EndsLater(a: seq<Event>, b: seq<Event>, c: seq<Event>, own: string, m: nat, n: nat)
    requires SoFar(a, b, Some(own), m, {}) && EndsSoFar(b, c, own, n)
    ensures EndsSoFar(a, c, own, m + n)
  {
    hide SoFar;
    Compose(a, b, c[..|c| - 1], Some(own), m, n, {}, {});
  }

  /** A wait for `own` that ran out. */
  lemma WaitEnds(a: seq<Event>, b: seq<Event>, own: string)
    requires b != [] && b[|b| - 1] == TimedOut(own) && ReadsOnly(a, b[..|b| - 1], own)
    ensures EndsSoFar(a, b, own, 0)
  {
    hide SoFar;
    NeutralSoFar(a, b[..|b| - 1], Some(own));
  }

  // ----- Steps of a turn -----

  /** A launch started the session it is taken for: a new one, or the one it
      resumes, under that one's own id and with no note of a copy. */
  predicate StartsIt(w: World, e: Event) {
    && e.Launched? && e.printed == w.launch(e.at) && e.printed.Printed?
    && (e.of.Some? ==>
          e.printed.copyNote == None && (e.of.value.bgId.Some? ==> e.printed.bgId == e.of.value.bgId.value))
  }

  /** It started a copy of the session it was to resume, or may have. */
  predicate StartsCopy(w: World, e: Event) {
    && e.Launched? && e.printed == w.launch(e.at) && e.printed.Printed? && e.of.Some?
    && (e.printed.copyNote.Some? || (e.of.value.bgId.Some? && e.printed.bgId != e.of.value.bgId.value))
  }

  /** The turn was stopped by the time a launch is reported. */
  predicate MarkedBy(w: World, e: Event)
    requires e.Launched?
  {
    w.turnStopped(e.at + if w.took(e.at) <= LAUNCH_TIMEOUT then w.took(e.at) else LAUNCH_TIMEOUT)
  }

  /** The launch of a session that runs, for a turn that goes on. */
  predicate StartsTurn(w: World, e: Event, bg: Option<string>) {
    StartsIt(w, e) && !MarkedBy(w, e) && bg == Some(e.printed.bgId)
  }

  /** The launch of a session for a turn that was stopped meanwhile. */
  predicate StartsLate(w: World, e: Event) {
    StartsIt(w, e) && MarkedBy(w, e)
  }

  predicate StartsNothing(w: World, e: Event) {
    e.Launched? && e.printed == w.launch(e.at) && e.printed.LaunchFailed?
  }

  /** How the launch `e` with `base` ended. */
  ghost predicate EndsAs(w: World, base: SessionRef, e: Event, end: LaunchEnd) {
    && e.Launched?
    && (end.NothingLaunched? <==> StartsNothing(w, e))
    && (end.StoppedMeanwhile? <==> StartsLate(w, e))
    && (end.Running? <==> StartsIt(w, e) && !MarkedBy(w, e))
    && (end.Running? ==> end.session == base.(bgId := Some(e.printed.bgId)))
    && (end.Copied? || end.UnclearCopy? <==> StartsCopy(w, e))
    && (end.Copied? ==> CopyId(e.of.value.bgId, e.printed.bgId, e.printed.copyNote) == Some(end.copy))
    && (end.UnclearCopy? ==> e.of.value.bgId == Some(e.printed.bgId) == e.printed.copyNote)
  }

  lemma NothingShown(w: World, e: Event)
    requires e.Read? && (Entry(w, e) == None || !Entry(w, e).value.Alive())
    ensures ShownBy(w, e) == None
  {
  }

  lemma StartedByMeans(e: Event)
    requires e.Launched?
    ensures StartedBy(e).Some? <==> e.printed.Printed?
    ensures e.printed.Printed? ==> StartedBy(e) == Some(StartedId(e.of, e.printed.bgId, e.printed.copyNote))
  {
  }

  lemma PollNext(w: World, a: seq<Event>, b: seq<Event>, bg: string, from: nat, poll: nat, limit: nat, now: nat)
    requires Polled(w, a, b, bg, from, poll, limit) && now == ReadEnd(w, b[|b| - 1]) && now < from + limit
    ensures PollDue(w, a, b, bg, from, poll, limit, now + poll)
  {
    hide ReadEnd;
  }

  /** No listing since `a` showed what is looked for. */
  ghost predicate NoneShows(w: World, a: seq<Event>, b: seq<Event>, running: bool) {
    |a| <= |b| && forall i :: |a| <= i < |b| ==> b[i].Read? && !Shows(w, b[i], running)
  }

  lemma NoneShowsNext(w: World, a: seq<Event>, b: seq<Event>, e: Event, running: bool)
    requires NoneShows(w, a, b, running) && e.Read? && !Shows(w, e, running)
    ensures NoneShows(w, a, b + [e], running)
  {
    hide Shows;
  }

  lemma NotedReads(w: World, waits: Waits, a: seq<Event>, b: seq<Event>, bg: string, from: nat, running: bool)
    requires NotedUntil(w, waits, a, b, bg, from, running)
    ensures a < b && ReadsOnly(a, b, bg)
  {
    hide Shows, ReadEnd;
  }

  lemma PollStarts(w: World, t: seq<Event>, bg: string, poll: nat, limit: nat, now: nat)
    ensures PollDue(w, t, t, bg, now, poll, limit, now)
  {
  }

  lemma ReadsBefore(t: seq<Event>, e: Event)
    requires e.TimedOut? || e.Forgot?
    ensures ReadsOf(t + [e]) == t
  {
  }

  /** No listing but the last decided a wait. */
  ghost predicate AllUndecided(w: World, a: seq<Event>, b: seq<Event>) {
    |a| <= |b| && forall i :: |a| <= i < |b| ==> Undecided(w, b, i)
  }

  lemma UndecidedNext(w: World, a: seq<Event>, b: seq<Event>, e: Event)
    requires AllUndecided(w, a, b)
    ensures forall i :: |a| <= i < |b| ==> Undecided(w, b + [e], i)
    ensures Undecided(w, b + [e], |b|) ==> AllUndecided(w, a, b + [e])
  {
    hide ShowsNone, Unlisted, StillUp;
    forall i | |a| <= i < |b|
      ensures Undecided(w, b + [e], i)
    {
      assert (b + [e])[..i + 1] == b[..i + 1];
      assert Undecided(w, b, i);
    }
  }

  /** What a listing that was read shows. */
  lemma ReadShows(w: World, e: Event, listing: Listing)
    requires e.Read? && listing == ListingAt(w, e.began, e.timeout)
    ensures Unlisted(w, e) <==> listing.Lists? && e.bg !in listing.entries
    ensures ShowsNone(w, e) <==> listing.Lists? && e.bg in listing.entries && !listing.entries[e.bg].Alive()
    ensures !listing.Lists? || Unlisted(w, e) || ShowsNone(w, e) ==> ShownBy(w, e) == None
  {
  }

  lemma EndsUnlisted(w: World, waits: Waits, b: seq<Event>, look: Event, last: Event, bg: string, from: nat, now: nat)
    requires look.Read? && Unlisted(w, look) && last.Forgot? && last.bg == bg && now == last.at == ReadEnd(w, look)
    requires AllGone(w, b + [look], bg, now, now)
    ensures Ended(w, waits, b + [look], last, bg, from, now, NoLongerListed)
  {
    hide AllGone, Unlisted;
  }

  lemma EndsExited(w: World, waits: Waits, b: seq<Event>, look: Event, last: Event, bg: string, from: nat, read: nat, now: nat)
    requires look.Read? && ShowsNone(w, look) && last.Forgot? && last.bg == bg && now == last.at + waits.settleGrace
    requires read == ReadEnd(w, look) <= last.at && AllGone(w, b + [look], bg, last.at, last.at)
    requires !StillUp(w, b + [look], bg, read) ==> last.at == read
    ensures Ended(w, waits, b + [look], last, bg, from, now, Exited)
  {
    hide AllGone, StillUp, ShowsNone;
  }

  lemma EndsLate(w: World, waits: Waits, b: seq<Event>, look: Event, bg: string, from: nat, now: nat)
    requires look.Read? && now >= from + waits.stopWait
    requires if ShowsNone(w, look) then StillUp(w, b + [look], bg, ReadEnd(w, look)) && StillUp(w, b + [look], bg, now)
             else now == ReadEnd(w, look) && Undecided(w, b + [look], |b|)
    ensures Ended(w, waits, b + [look], TimedOut(bg), bg, from, now, StillRuns)
  {
    hide StillUp, ShowsNone, Undecided;
  }

  /** A wait whose last listing is `look` and that ends with `last`. */
  lemma WaitedBy(w: World, waits: Waits, a: seq<Event>, b: seq<Event>, look: Event, last: Event, bg: string, from: nat,
                 now: nat, stopped: Stopped)
    requires look.Read? && (last.Forgot? || last.TimedOut?) && a <= b && AllUndecided(w, a, b)
    requires Polled(w, a, b + [look], bg, from, waits.stopPoll, waits.stopWait)
    requires Ended(w, waits, b + [look], last, bg, from, now, stopped)
    ensures Waited(w, waits, a, b + [look] + [last], bg, from, now, stopped)
  {
    hide Polled, Ended, Undecided, AllUndecided;
    UndecidedNext(w, a, b, look);
    ReadsBefore(b + [look], last);
  }

  /** What a wait leaves behind. */
  lemma WaitedEnds(w: World, waits: Waits, a: seq<Event>, b: seq<Event>, bg: string, from: nat, now: nat, stopped: Stopped)
    requires Waited(w, waits, a, b, bg, from, now, stopped)
    ensures a < b
    ensures stopped.StillRuns? ==> b[|b| - 1] == TimedOut(bg) && EndsSoFar(a, b, bg, 0)
    ensures !stopped.StillRuns? ==> b[|b| - 1].Forgot? && b[|b| - 1].bg == bg && SoFar(a, b, Some(bg), 0, {})
    ensures stopped.Exited? ==> LastShowsNone(w, b, bg)
    ensures stopped.NoLongerListed? ==> LastGone(w, b, bg)
    ensures forall i :: |a| <= i < |b| ==> b[i].Read? || b[i].Forgot? || b[i] == TimedOut(bg)
  {
    hide ReadEnd, ShowsNone, Unlisted, StillUp, SoFar, AllGone, Undecided;
    assert b[..|b| - 1] == ReadsOf(b);
    if stopped.StillRuns? {
      WaitEnds(a, b, bg);
    } else {
      NeutralSoFar(a, b, Some(bg));
    }
  }

  /** From `a` to `c`, a copy was listed until it showed or the time for that
      was up, told to stop at `i`, waited for, removed at `j` and given up. */
  ghost predicate Discarded(w: World, waits: Waits, a: seq<Event>, c: seq<Event>, copy: string, from: nat, i: int, j: int) {
    && |a| < i < j && |c| == j + 2
    && NotedUntil(w, waits, a, c[..i], copy, from, false) && c[i] == StopSent(copy)
    && WaitedFor(w, waits, c[..i + 1], c[..j], copy, c[j])
    && GivesUp(c[j + 1], copy) && c[j + 1].at == c[j].at + Min(w.took(c[j].at), QUICK_TIMEOUT)
  }

  /** A wait for a copy, then its removal. */
  ghost predicate WaitedFor(w: World, waits: Waits, a: seq<Event>, b: seq<Event>, bg: string, e: Event) {
    e.RemoveSent? && e.bg == bg && exists from, stopped :: Waited(w, waits, a, b, bg, from, e.at, stopped)
  }

  lemma DiscardedSo(w: World, waits: Waits, a: seq<Event>, b: seq<Event>, c: seq<Event>, copy: string, from: nat,
                    start: nat, removal: Event, end: Event, stopped: Stopped)
    requires NotedUntil(w, waits, a, b, copy, from, false)
    requires removal.RemoveSent? && removal.bg == copy
    requires GivesUp(end, copy) && end.at == removal.at + Min(w.took(removal.at), QUICK_TIMEOUT)
    requires Waited(w, waits, b + [StopSent(copy)], c, copy, start, removal.at, stopped)
    ensures Discarded(w, waits, a, c + [removal, end], copy, from, |b|, |c|)
  {
    WaitedEnds(w, waits, b + [StopSent(copy)], c, copy, start, removal.at, stopped);
    NotedReads(w, waits, a, b, copy, from, false);
    hide Waited, NotedUntil;
    var t := c + [removal, end];
    assert t[..|b|] == b && t[..|b| + 1] == b + [StopSent(copy)] && t[..|c|] == c;
  }

  /** A copy that was discarded is not left, and nothing else was touched. */
  lemma DiscardedSoFar(w: World, waits: Waits, a: seq<Event>, e: Event, c: seq<Event>, copy: string, own: Option<string>,
                       from: nat, i: int, j: int)
    requires StartedBy(e) == Some(copy) && own != Some(copy)
    requires Discarded(w, waits, a + [e], c, copy, from, i, j)
    ensures a + [e] <= c && SoFar(a, c, own, 1, {})
  {
    hide StartedBy, SoFar, NotedUntil, Waited;
    var start, stopped :| Waited(w, waits, c[..i + 1], c[..j], copy, start, c[j].at, stopped);
    WaitedEnds(w, waits, c[..i + 1], c[..j], copy, start, c[j].at, stopped);
    NotedReads(w, waits, a + [e], c[..i], copy, from, false);
    assert a + [e] <= c[..i] <= c;
    forall k | |a| < k < |c|
      ensures Tends(c[k], copy, own)
    {
      if k < i {
        assert c[..i][k] == c[k];
      } else if i < k < j {
        assert c[..j][k] == c[k];
      }
    }
    assert StopsBetween(c, |a|, |c|, copy);
    StoppedSoFar(a, e, c, own, copy);
  }

  /** What an unclear resume started was listed, then stopped. */
  lemma ResumedStopped(w: World, waits: Waits, a: seq<Event>, b: seq<Event>, c: seq<Event>, own: Option<string>, n: nat,
                       from: nat)
    requires own.Some? && SoFar(a, b, own, n, {own.value}) && c != [] && c[|c| - 1] == StopSent(own.value)
    requires NotedUntil(w, waits, b, c[..|c| - 1], own.value, from, true)
    ensures SoFar(a, c, own, n, {}) && b < c && forall i :: |b| <= i < |c| ==> !c[i].Launched?
  {
    hide SoFar, NotedUntil;
    NotedReads(w, waits, b, c[..|c| - 1], own.value, from, true);
    assert forall i :: |b| <= i < |c| - 1 ==> c[..|c| - 1][i] == c[i];
    UnclearStopped(a, b, c, own, n);
  }

  lemma EndsNow(a: seq<Event>, b: seq<Event>, own: string, n: nat)
    requires SoFar(a, b, Some(own), n, {})
    ensures EndsSoFar(a, b + [TimedOut(own)], own, n)
  {
    hide SoFar;
    assert (b + [TimedOut(own)])[..|b|] == b;
  }

  /** A listing begun at `t` shows the session working on its own. */
  predicate WorksAt(w: World, t: nat, bg: string) {
    var l := ListingAt(w, t, QUICK_TIMEOUT);
    l.Lists? && bg in l.entries && WorksAlone(l.entries[bg])
  }

  /** A listing begun at `t` shows the session's process, or shows nothing. */
  predicate MayRunAt(w: World, t: nat, bg: string) {
    var l := ListingAt(w, t, QUICK_TIMEOUT);
    l.ListFailed? || (bg in l.entries && l.entries[bg].Alive())
  }

  /** From `a` to `b`, the session was told to stop. */
  ghost predicate StopAsked(a: seq<Event>, b: seq<Event>, bg: string) {
    exists i :: |a| <= i < |b| && b[i] == StopSent(bg)
  }

  lemma AskedNow(a: seq<Event>, b: seq<Event>, bg: string)
    requires |a| < |b| && b[|b| - 1] == StopSent(bg)
    ensures StopAsked(a, b, bg)
  {
  }

  lemma AskedStays(a: seq<Event>, b: seq<Event>, c: seq<Event>, bg: string)
    requires StopAsked(a, b, bg) && b <= c
    ensures StopAsked(a, c, bg)
  {
    var i :| |a| <= i < |b| && b[i] == StopSent(bg);
    assert c[i] == b[i];
  }

  lemma AskedEarlier(a: seq<Event>, b: seq<Event>, c: seq<Event>, bg: string)
    requires a <= b && StopAsked(b, c, bg)
    ensures StopAsked(a, c, bg)
  {
  }

  /** What preparing a resume came to. */
  datatype Prepared = Refused | RanOut | Removed | Ready(sessionId: Option<string>)

  function PreparedBy(stopped: Stopped, sessionId: Option<string>): Prepared {
    match stopped
    case Exited => Ready(sessionId)
    case NoLongerListed => Removed
    case StillRuns => RanOut
  }

  /** The session id a resume uses: the one known, else the one listed. */
  function IdFor(w: World, session: SessionRef, read: Event): Option<string>
    requires read.Read?
  {
    if session.sessionId == None && Entry(w, read).Some? then Entry(w, read).value.sessionId else session.sessionId
  }

  /** A wait goes on only after listings that leave it undecided. */
  lemma DecidesLast(w: World, waits: Waits, a: seq<Event>, b: seq<Event>, bg: string, from: nat, now: nat,
                    stopped: Stopped, i: int)
    requires Waited(w, waits, a, b, bg, from, now, stopped) && |a| <= i < |ReadsOf(b)|
    ensures i < |ReadsOf(b)| - 1 ==> !ShowsNone(w, ReadsOf(b)[i])
  {
    hide Polled, Ended, ShowsNone, StillUp;
    if i < |ReadsOf(b)| - 1 {
      assert Undecided(w, ReadsOf(b), i);
    }
  }

  /** How preparing a resume at `from` went, up to `now`: one listing decides
      whether it is refused, removed, settled at once or waited for. */
  ghost predicate PreparedSo(w: World, waits: Waits, a: seq<Event>, b: seq<Event>, session: SessionRef, from: nat, now: nat,
                             prepared: Prepared, checked: nat)
    requires session.bgId.Some?
  {
    var bg := session.bgId.value;
    var read := Read(bg, from, QUICK_TIMEOUT, false);
    var listed, read1 := a + [read], ReadEnd(w, read);
    if WorksAt(w, from, bg) then prepared.Refused? && b == listed
    else if MayRunAt(w, from, bg) then
      exists stopped ::
        && Waited(w, waits, listed + [StopSent(bg)], b, bg, read1 + Min(w.took(read1), QUICK_TIMEOUT), now, stopped)
        && prepared == PreparedBy(stopped, IdFor(w, session, read))
        && (stopped.Exited? ==> checked == b[|b| - 1].at)
    else if Entry(w, read) == None then prepared.Removed? && b == listed + [Abandoned(bg, read1)]
    else
      && (prepared.RanOut? || prepared == Ready(IdFor(w, session, read)))
      && (!StillUp(w, listed, bg, read1) ==> prepared.Ready?)
      && (prepared.RanOut? ==> b == listed + [TimedOut(bg)])
      && (prepared.Ready? ==>
            && read1 <= checked <= now
            && (b == listed || (listed < b && |b| == |listed| + 1 && b[|b| - 1].Forgot? && b[|b| - 1].bg == bg)))
  }

  /** The launch at `i` is the last one since `a`. */
  ghost predicate LastLaunch(a: seq<Event>, b: seq<Event>, i: int) {
    |a| <= i < |b| && b[i].Launched? && forall j :: i < j < |b| ==> !b[j].Launched?
  }

  ghost predicate MadeCopy(w: World, t: seq<Event>, i: int) {
    0 <= i < |t| && StartsCopy(w, t[i])
  }

  /** From `a` to `b` a turn was sent, or not for the reason given. */
  ghost predicate SentAs(w: World, a: seq<Event>, b: seq<Event>, own: Option<string>, start: TurnStart) {
    match start
    case Busy => true
    case Started(session, at) =>
      exists i :: LastLaunch(a, b, i) && b[i].at == at && StartsTurn(w, b[i], session.bgId)
    case NotSent(LaunchError) => exists i :: LastLaunch(a, b, i) && StartsNothing(w, b[i])
    case NotSent(TurnStopped) => exists i :: LastLaunch(a, b, i) && StartsLate(w, b[i])
    // After two resumes that both made a copy, or may have.
    case NotSent(CannotContinue) => exists i, j :: |a| <= i < j && MadeCopy(w, b, i) && MadeCopy(w, b, j)
    case NotSent(StopTimeout) => own.Some? && |a| < |b| && b[|b| - 1] == TimedOut(own.value)
  }

  /** The launch of a turn that was sent was reported before any stop of it. */
  lemma SentUnmarked(w: World, a: seq<Event>, b: seq<Event>, own: Option<string>, start: TurnStart)
    requires SentAs(w, a, b, own, start) && start.Started?
    ensures !w.turnStopped(start.at + Min(w.took(start.at), LAUNCH_TIMEOUT))
  {
  }

  lemma SentEarlier(w: World, a: seq<Event>, b: seq<Event>, c: seq<Event>, own: Option<string>, start: TurnStart)
    requires a <= b <= c && SentAs(w, b, c, own, start)
    ensures SentAs(w, a, c, own, start)
  {
    hide StartsTurn, StartsLate, StartsNothing;
    match start {
      case Busy =>
      case Started(session, at) =>
        var i :| LastLaunch(b, c, i) && c[i].at == at && StartsTurn(w, c[i], session.bgId);
        assert LastLaunch(a, c, i);
      case NotSent(LaunchError) =>
        var i :| LastLaunch(b, c, i) && StartsNothing(w, c[i]);
        assert LastLaunch(a, c, i);
      case NotSent(TurnStopped) =>
        var i :| LastLaunch(b, c, i) && StartsLate(w, c[i]);
        assert LastLaunch(a, c, i);
      case NotSent(CannotContinue) =>
        var i, j :| |b| <= i < j && MadeCopy(w, c, i) && MadeCopy(w, c, j);
        assert |a| <= i;
      case NotSent(StopTimeout) =>
    }
  }

  /** With one launch in all, the first event is the last launch. */
  lemma OnlyLaunch(a: seq<Event>, b: seq<Event>, e: Event)
    requires e.Launched? && a + [e] <= b && Launches(b) <= Launches(a) + 1
    ensures LastLaunch(a, b, |a|) && b[|a|] == e
  {
    hide Launches;
    forall j | |a| < j < |b| && b[j].Launched?
      ensures false
    {
      TwoLaunches(a, b, |a|, j);
    }
  }

  lemma FirstLaunch(a: seq<Event>, b: seq<Event>, own: Option<string>, loose: set<string>, e: Event)
    requires SoFar(a, b, own, 1, loose) && e.Launched? && a + [e] <= b
    ensures LastLaunch(a, b, |a|) && b[|a|] == e
  {
    hide StopsAllBut, TouchesOnly, OneAtATime, Launches;
    OnlyLaunch(a, b, e);
  }

  /** What the launch `e` is, by how it ended. */
  lemma EndMeans(w: World, base: SessionRef, e: Event, end: LaunchEnd)
    requires EndsAs(w, base, e, end)
    ensures end.Running? ==> StartsTurn(w, e, end.session.bgId) && end.session == base.(bgId := end.session.bgId)
    ensures end.Running? ==> end.session.bgId.Some? && (OwnBg(e.of).Some? ==> end.session.bgId == OwnBg(e.of))
    ensures end.NothingLaunched? <==> StartsNothing(w, e)
    ensures e.printed == w.launch(e.at) ==> (end.NothingLaunched? <==> e.printed.LaunchFailed?)
    ensures end.StoppedMeanwhile? <==> StartsLate(w, e)
    ensures end.Copied? || end.UnclearCopy? ==> StartsCopy(w, e)
    ensures end.UnclearCopy? ==> OwnBg(e.of).Some?
  {
  }

  lemma MadeOne(w: World, t: seq<Event>, i: int)
    requires 0 <= i < |t| && StartsCopy(w, t[i])
    ensures MadeCopy(w, t, i)
  {
  }

  lemma LastSent(w: World, a: seq<Event>, b: seq<Event>, c: seq<Event>, own: Option<string>, start: TurnStart)
    requires a <= b <= c && LastLaunch(b, c, |b|)
    requires match start
             case Started(session, at) =>
               c[|b|].at == at && StartsTurn(w, c[|b|], session.bgId)
             case NotSent(LaunchError) => StartsNothing(w, c[|b|])
             case NotSent(TurnStopped) => StartsLate(w, c[|b|])
             case _ => false
    ensures SentAs(w, a, c, own, start)
  {
    hide StartsTurn, StartsLate, StartsNothing;
    assert LastLaunch(a, c, |b|);
  }

  // ----- What a turn launches -----

  /** The listing read last does not show the session, and it was forgotten. */
  ghost predicate LastGone(w: World, t: seq<Event>, bg: string) {
    && |t| >= 2 && ((t[|t| - 1].Forgot? && t[|t| - 1].bg == bg) || GivesUp(t[|t| - 1], bg))
    && t[|t| - 2].Read? && t[|t| - 2].bg == bg && Unlisted(w, t[|t| - 2])
  }

  lemma GoneNow(w: World, t: seq<Event>, e: Event, at: nat)
    requires e.Read? && Unlisted(w, e)
    ensures LastGone(w, t + [e] + [Abandoned(e.bg, at)], e.bg)
  {
  }

  /** The id of the session that a turn begun at `from` knows: its own, else the
      one its first listing shows. */
  function KnownId(w: World, session: SessionRef, from: nat): Option<string> {
    if session.sessionId.Some? || session.bgId == None then session.sessionId
    else if w.took(from) <= QUICK_TIMEOUT && w.listing(from).Lists? && session.bgId.value in w.listing(from).entries then
      w.listing(from).entries[session.bgId.value].sessionId
    else None
  }

  /** What a launch after `t` is to resume: the session under its id, and
      nothing when that is not known or the session is gone. */
  ghost function LaunchedFor(w: World, t: seq<Event>, session: SessionRef, id: Option<string>): Option<SessionRef> {
    if id == None || (session.bgId.Some? && LastGone(w, t, session.bgId.value)) then None
    else Some(session.(sessionId := id))
  }

  /** From `a` to `b`, every launch resumed the session, or began anew where
      that is not known or gone. */
  ghost predicate Fits(w: World, a: seq<Event>, b: seq<Event>, session: SessionRef, id: Option<string>) {
    forall i :: |a| <= i < |b| && b[i].Launched? ==> b[i].of == LaunchedFor(w, b[..i], session, id)
  }

  lemma FitsNone(w: World, a: seq<Event>, b: seq<Event>, session: SessionRef, id: Option<string>)
    requires a <= b && Launches(b) <= Launches(a)
    ensures Fits(w, a, b, session, id)
  {
    hide Launches;
    NoLaunches(a, b);
  }

  lemma FitsMore(w: World, a: seq<Event>, b: seq<Event>, c: seq<Event>, session: SessionRef, id: Option<string>)
    requires a <= b <= c && Fits(w, a, b, session, id) && Fits(w, b, c, session, id)
    ensures Fits(w, a, c, session, id)
  {
    hide LaunchedFor;
    forall i | |a| <= i < |b| && c[i].Launched?
      ensures c[i].of == LaunchedFor(w, c[..i], session, id)
    {
      assert b[..i] == c[..i] && b[i] == c[i];
    }
  }

  /** One launch more, the first event. */
  lemma FitsNow(w: World, a: seq<Event>, b: seq<Event>, c: seq<Event>, session: SessionRef, id: Option<string>)
    requires a <= b <= c && Fits(w, a, b, session, id) && LastLaunch(b, c, |b|)
    requires c[|b|].of == LaunchedFor(w, b, session, id)
    ensures Fits(w, a, c, session, id)
  {
    hide LaunchedFor;
    assert c[..|b|] == b;
    assert Fits(w, b, c, session, id);
    FitsMore(w, a, b, c, session, id);
  }

  /** A session that may be resumed is not gone. */
  lemma ResumesIt(w: World, t: seq<Event>, session: SessionRef, id: string)
    requires session.bgId.Some? ==> LastShowsNone(w, t, session.bgId.value)
    ensures LaunchedFor(w, t, session, Some(id)) == Some(session.(sessionId := Some(id)))
  {
  }

  lemma BeginsAnew(w: World, t: seq<Event>, session: SessionRef, id: Option<string>)
    requires id == None || (session.bgId.Some? && LastGone(w, t, session.bgId.value))
    ensures LaunchedFor(w, t, session, id) == None
  {
  }

  // ----- Turns stopped meanwhile -----

  /** From `a` to `b`, a session was launched and found the turn stopped. */
  ghost predicate FoundStopped(w: World, a: seq<Event>, b: seq<Event>) {
    exists i :: |a| <= i < |b| && StartsLate(w, b[i])
  }

  lemma FoundEither(w: World, a: seq<Event>, b: seq<Event>, c: seq<Event>)
    requires a <= b <= c
    ensures FoundStopped(w, a, c) <==> FoundStopped(w, a, b) || FoundStopped(w, b, c)
  {
    hide StartsLate;
    if i :| |a| <= i < |b| && StartsLate(w, b[i]) {
      assert StartsLate(w, c[i]);
    }
    if i :| |a| <= i < |c| && StartsLate(w, c[i]) {
      assert i < |b| ==> StartsLate(w, b[i]);
    }
  }

  lemma NoneFound(w: World, a: seq<Event>, b: seq<Event>)
    requires a <= b && Launches(b) <= Launches(a)
    ensures !FoundStopped(w, a, b)
  {
    hide Launches;
    NoLaunches(a, b);
  }

  lemma FoundNow(w: World, a: seq<Event>, b: seq<Event>, c: seq<Event>)
    requires a <= b <= c && !FoundStopped(w, a, b) && LastLaunch(b, c, |b|)
    ensures FoundStopped(w, a, c) <==> StartsLate(w, c[|b|])
  {
    FoundByOnly(w, b, c);
    FoundEither(w, a, b, c);
  }

  /** With one launch, the first event, that one decides. */
  lemma FoundByOnly(w: World, a: seq<Event>, b: seq<Event>)
    requires LastLaunch(a, b, |a|)
    ensures FoundStopped(w, a, b) <==> StartsLate(w, b[|a|])
  {
  }

  // Both of these, as a turn goes on.

  lemma ToldNone(w: World, a: seq<Event>, b: seq<Event>, session: SessionRef, id: Option<string>)
    requires a <= b && Launches(b) <= Launches(a)
    ensures !FoundStopped(w, a, b) && Fits(w, a, b, session, id)
  {
    NoneFound(w, a, b);
    FitsNone(w, a, b, session, id);
  }

  lemma ToldMore(w: World, a: seq<Event>, b: seq<Event>, c: seq<Event>, session: SessionRef, id: Option<string>)
    requires a <= b <= c && !FoundStopped(w, a, b) && Fits(w, a, b, session, id) && Fits(w, b, c, session, id)
    ensures (FoundStopped(w, a, c) <==> FoundStopped(w, b, c)) && Fits(w, a, c, session, id)
  {
    hide FoundStopped, Fits;
    FoundEither(w, a, b, c);
    FitsMore(w, a, b, c, session, id);
  }

  lemma ToldLater(w: World, a: seq<Event>, b: seq<Event>, c: seq<Event>, session: SessionRef, id: Option<string>)
    requires a <= b <= c && Launches(c) <= Launches(b) && !FoundStopped(w, a, b) && Fits(w, a, b, session, id)
    ensures !FoundStopped(w, a, c) && Fits(w, a, c, session, id)
  {
    hide FoundStopped, Fits, Launches;
    ToldNone(w, b, c, session, id);
    ToldMore(w, a, b, c, session, id);
  }

  /** A resume. */
  lemma ToldResume(w: World, a: seq<Event>, b: seq<Event>, c: seq<Event>, session: SessionRef, id: string)
    requires a <= b <= c && !FoundStopped(w, a, b) && Fits(w, a, b, session, Some(id)) && LastLaunch(b, c, |b|)
    requires session.bgId.Some? ==> LastShowsNone(w, b, session.bgId.value)
    requires c[|b|].of == Some(session.(sessionId := Some(id)))
    ensures (FoundStopped(w, a, c) <==> StartsLate(w, c[|b|])) && Fits(w, a, c, session, Some(id))
  {
    hide FoundStopped, Fits, LastShowsNone, StartsLate;
    ResumesIt(w, b, session, id);
    FoundNow(w, a, b, c);
    FitsNow(w, a, b, c, session, Some(id));
  }

  /** A new session. */
  lemma ToldAnew(w: World, a: seq<Event>, b: seq<Event>, c: seq<Event>, session: SessionRef, id: Option<string>)
    requires a <= b <= c && !FoundStopped(w, a, b) && Fits(w, a, b, session, id) && LastLaunch(b, c, |b|)
    requires id == None || (session.bgId.Some? && LastGone(w, b, session.bgId.value))
    requires c[|b|].of == None
    ensures (FoundStopped(w, a, c) <==> FoundStopped(w, b, c)) && Fits(w, a, c, session, id)
  {
    hide FoundStopped, Fits, LastGone;
    BeginsAnew(w, b, session, id);
    FoundEither(w, a, b, c);
    FitsNow(w, a, b, c, session, id);
  }

  lemma MadePrinted(w: World, t: seq<Event>, i: int)
    requires MadeCopy(w, t, i)
    ensures w.launch(t[i].at).Printed?
  {
  }

  lemma MadeStays(w: World, a: seq<Event>, b: seq<Event>, i: int)
    requires MadeCopy(w, a, i) && a <= b
    ensures MadeCopy(w, b, i)
  {
    assert b[i] == a[i];
  }

  lemma BothMade(w: World, a: seq<Event>, b: seq<Event>, i: int, j: int, own: Option<string>)
    requires |a| <= i < j && MadeCopy(w, b, i) && MadeCopy(w, b, j)
    ensures SentAs(w, a, b, own, NotSent(CannotContinue))
  {
  }

  /** After the second copy, or perhaps copy, the turn is not sent. */
  lemma CopiedTwice(w: World, waits: Waits, a: seq<Event>, b: seq<Event>, c: seq<Event>, own: Option<string>, n: nat,
                    i: int, j: int, from: nat, unclear: bool)
    requires a <= b && |a| <= i < j && MadeCopy(w, b, i) && MadeCopy(w, b, j)
    requires unclear ==>
               && own.Some? && SoFar(a, b, own, n, {own.value}) && StopsAgain(a, b, own.value)
               && c != [] && c[|c| - 1] == StopSent(own.value)
               && NotedUntil(w, waits, b, c[..|c| - 1], own.value, from, true)
    requires !unclear ==> b == c && SoFar(a, b, own, n, {})
    ensures b <= c && Launches(c) == Launches(b) && SoFar(a, c, own, n, {})
    ensures own.Some? && (unclear || StopsAgain(a, b, own.value)) ==> StopsAgain(a, c, own.value)
    ensures SentAs(w, a, c, own, NotSent(CannotContinue))
  {
    hide SoFar, FoundStopped, MadeCopy, NotedUntil, StopsAgain, StopsLast, Launches, SentAs;
    if unclear {
      ResumedStopped(w, waits, a, b, c, own, n, from);
      StopsNow(a, b, c, own.value);
      NoLaunches(b, c);
    }
    MadeStays(w, b, c, i);
    MadeStays(w, b, c, j);
    BothMade(w, a, c, i, j, own);
  }

  lemma RanOutSent(w: World, a: seq<Event>, b: seq<Event>, own: string)
    requires exists n :: EndsSoFar(a, b, own, n)
    ensures SentAs(w, a, b, Some(own), NotSent(StopTimeout))
  {
  }

  /** A turn that did not end with a wait that ran out. */
  lemma NotRanOut(w: World, a: seq<Event>, b: seq<Event>, own: Option<string>, n: nat, loose: set<string>, start: TurnStart)
    requires SoFar(a, b, own, n, loose) && start != NotSent(StopTimeout)
    ensures own.Some? && |b| > |a| ==> b[|b| - 1] != TimedOut(own.value)
    ensures SentAs(w, a, b, own, Busy)
  {
  }

  /** A wait that ended with the session not listed ended at its last check. */
  lemma WaitedNow(w: World, waits: Waits, a: seq<Event>, b: seq<Event>, bg: string, from: nat, now: nat)
    requires Waited(w, waits, a, b, bg, from, now, NoLongerListed)
    ensures b != [] && b[|b| - 1].Forgot? && b[|b| - 1].at == now
  {
  }

  lemma NoneUndecided(w: World, t: seq<Event>)
    ensures AllUndecided(w, t, t)
  {
  }

  /** What a listing that failed, shows a process or leaves one up decides: nothing. */
  lemma ReadDecides(w: World, t: seq<Event>, e: Event, now: nat)
    requires e.Read?
    ensures !ShowsNone(w, e) && now == ReadEnd(w, e) && (Unlisted(w, e) ==> StillUp(w, t + [e], e.bg, now)) ==>
              Undecided(w, t + [e], |t|)
  {
    hide StillUp;
    assert (t + [e])[..|t| + 1] == t + [e];
  }

  function IdIn(w: World, e: Event): Option<string>
    requires e.Read?
  {
    if Entry(w, e).Some? then Entry(w, e).value.sessionId else None
  }

  /** From `a` to `b`, a just-launched session was looked up, each time a second
      after the last listing was read, and no listing knew its id. */
  ghost predicate InVain(w: World, a: seq<Event>, b: seq<Event>, bg: string) {
    && ReadsOnly(a, b, bg) && (forall i :: |a| <= i < |b| ==> b[i].forId && IdIn(w, b[i]) == None)
    && (forall i :: |a| < i < |b| ==> b[i].began == ReadEnd(w, b[i - 1]) + 1_000)
  }

  /** It was looked up until a listing knew its id, or `LIST_ATTEMPTS` times. */
  ghost predicate LookedUp(w: World, a: seq<Event>, b: seq<Event>, bg: string, id: Option<string>) {
    && a < b && InVain(w, a, b[..|b| - 1], bg)
    && var e := b[|b| - 1];
       && e.Read? && e.bg == bg && e.forId && IdIn(w, e) == id
       && (|b| > |a| + 1 ==> b[|b| - 2].Read? && e.began == ReadEnd(w, b[|b| - 2]) + 1_000)
       && (id == None ==> |b| == |a| + LIST_ATTEMPTS)
  }

  /** The next lookup. */
  ghost predicate LooksNext(w: World, a: seq<Event>, b: seq<Event>, bg: string, e: Event) {
    && InVain(w, a, b, bg) && e.Read? && e.bg == bg && e.forId
    && (|b| > |a| ==> e.began == ReadEnd(w, b[|b| - 1]) + 1_000)
  }

  lemma LooksAgain(w: World, a: seq<Event>, b: seq<Event>, bg: string, e: Event)
    requires LooksNext(w, a, b, bg, e)
    ensures IdIn(w, e) == None ==> InVain(w, a, b + [e], bg)
    ensures IdIn(w, e) != None || |b| + 1 == |a| + LIST_ATTEMPTS ==> LookedUp(w, a, b + [e], bg, IdIn(w, e))
  {
    hide ReadEnd, IdIn;
    assert (b + [e])[..|b|] == b;
  }

  lemma StartsLooking(w: World, t: seq<Event>, bg: string)
    ensures InVain(w, t, t, bg)
  {
  }

  /** What one lookup shows. */
  lemma LookupShows(w: World, e: Event, listing: Listing)
    requires e.Read? && e.forId && listing == ListingAt(w, e.began, e.timeout)
    ensures if listing.Lists? && e.bg in listing.entries && listing.entries[e.bg].sessionId.Some?
            then Entry(w, e) == Some(listing.entries[e.bg]) && IdIn(w, e) == listing.entries[e.bg].sessionId
            else ShownBy(w, e) == None && IdIn(w, e) == None
  {
  }

  /** From `a` to `b`, nothing was launched after a wait for `bg` ran out. */
  ghost predicate NeverResumesAfterTimeout(a: seq<Event>, b: seq<Event>, bg: string) {
    forall i, j :: |a| <= i < j < |b| && b[i] == TimedOut(bg) ==> !b[j].Launched?
  }

  lemma Concludes(a: seq<Event>, b: seq<Event>, own: Option<string>, n: nat, loose: set<string>)
    requires SoFar(a, b, own, n, loose)
    ensures a <= b && Launches(b) <= Launches(a) + n
    ensures StopsAllBut(a, b, loose) && TouchesOnly(a, b, own) && OneAtATime(a, b)
    ensures own.Some? ==> NeverResumesAfterTimeout(a, b, own.value)
  {
    hide Launches, StopsAllBut, TouchesOnly, OneAtATime;
  }

  lemma LaunchedAgain(a: seq<Event>, b: seq<Event>, c: seq<Event>, own: Option<string>, n: nat, loose: set<string>)
    requires a <= b && SoFar(a, b, own, n, {}) && SoFar(b, c, own, 1, loose)
    requires own.Some? ==> StopsAgain(a, b, own.value) && StopsLast(a, b, own.value)
    ensures a <= c && SoFar(a, c, own, n + 1, loose)
    ensures own.Some? ==> StopsAgain(a, c, own.value)
  {
    hide SoFar, StopsAgain, StopsLast;
    Compose(a, b, c, own, n, 1, {}, loose);
    Concludes(b, c, own, 1, loose);
    if own.Some? {
      LaunchesAgain(a, b, c, own.value);
    }
  }

  lemma ConcludesTimedOut(a: seq<Event>, b: seq<Event>, own: string, n: nat)
    requires EndsSoFar(a, b, own, n)
    ensures a <= b && Launches(b) <= Launches(a) + n
    ensures StopsAllBut(a, b, {}) && TouchesOnly(a, b, Some(own)) && OneAtATime(a, b)
    ensures NeverResumesAfterTimeout(a, b, own)
  {
    hide Launches;
    var front := b[..|b| - 1];
    assert b == front + [TimedOut(own)];
    LaunchesNext(front, TimedOut(own));
    ComposeStops(a, front, b, {}, {});
    ComposeTouches(a, front, b, Some(own));
    ComposeOne(a, front, b, {}, true);
    var none: set<string> := {};
    assert none + none == none;
  }

  /** The bg id of the session a resume continues. */
  function OwnBg(of: Option<SessionRef>): Option<string> {
    if of.Some? then of.value.bgId else None
  }

  /** What a launch leaves running. */
  function LeftBy(end: LaunchEnd, of: Option<SessionRef>): set<string> {
    match end
    case Running(session) => if session.bgId.Some? then {session.bgId.value} else {}
    case UnclearCopy => if OwnBg(of).Some? then {OwnBg(of).value} else {}
    case _ => {}
  }

  /** What a turn leaves running. */
  function LeftByTurn(start: TurnStart): set<string> {
    if start.Started? && start.session.bgId.Some? then {start.session.bgId.value} else {}
  }

  /** From `a` to `b`, a launch as `of` was told to the runtime with this id. */
  ghost predicate LaunchedAs(a: seq<Event>, b: seq<Event>, of: Option<SessionRef>, bg: Option<string>) {
    exists i :: |a| <= i < |b| && b[i].ReportedIds? && b[i].of == of && b[i].session.bgId == bg
  }

  lemma AsReported(a: seq<Event>, b: seq<Event>, of: Option<SessionRef>, session: SessionRef)
    requires |a| < |b| && b[|b| - 1] == ReportedIds(of, session)
    ensures LaunchedAs(a, b, of, session.bgId)
  {
    assert b[|b| - 1].ReportedIds? && b[|b| - 1].of == of && b[|b| - 1].session.bgId == session.bgId;
  }

  lemma LaunchedAsStays(a: seq<Event>, b: seq<Event>, c: seq<Event>, of: Option<SessionRef>, bg: Option<string>)
    requires LaunchedAs(a, b, of, bg) && b <= c
    ensures LaunchedAs(a, c, of, bg)
  {
    var i :| |a| <= i < |b| && b[i].ReportedIds? && b[i].of == of && b[i].session.bgId == bg;
    assert c[i] == b[i];
  }

  lemma LaunchedAsEarlier(a: seq<Event>, b: seq<Event>, c: seq<Event>, own: Option<string>, n: nat,
                          of: Option<SessionRef>, bg: Option<string>)
    requires SoFar(a, b, own, n, {}) && LaunchedAs(b, c, of, bg)
    ensures LaunchedAs(a, c, of, bg)
  {
    hide Launches, StopsAllBut, TouchesOnly, OneAtATime;
    var i :| |b| <= i < |c| && c[i].ReportedIds? && c[i].of == of && c[i].session.bgId == bg;
    assert |a| <= i;
  }

  /** A turn that did not run out of time, prepared from `a` to `b` and sent, or
      not, from there to `c`. */
  lemma TurnSent(w: World, a: seq<Event>, b: seq<Event>, c: seq<Event>, own: Option<string>, n: nat, start: TurnStart,
                 of: Option<SessionRef>)
    requires SoFar(a, b, own, 0, {}) && SoFar(b, c, own, n, LeftByTurn(start)) && SentAs(w, b, c, own, start)
    requires start != NotSent(StopTimeout) && (start.Started? ==> LaunchedAs(b, c, of, start.session.bgId))
    ensures a <= b <= c && Launches(c) <= Launches(a) + n
    ensures StopsAllBut(a, c, LeftByTurn(start)) && TouchesOnly(a, c, own) && OneAtATime(a, c)
    ensures own.Some? ==> NeverResumesAfterTimeout(a, c, own.value) && (StopAsked(a, b, own.value) ==> StopAsked(a, c, own.value))
    ensures own.Some? && |c| > |a| ==> c[|c| - 1] != TimedOut(own.value)
    ensures SentAs(w, a, c, own, start)
    ensures start.Started? ==>
              && !w.turnStopped(start.at + Min(w.took(start.at), LAUNCH_TIMEOUT))
              && LaunchedAs(a, c, of, start.session.bgId)
  {
    hide SoFar, Launches, StopsAllBut, TouchesOnly, OneAtATime, NeverResumesAfterTimeout, StopAsked, SentAs, LaunchedAs;
    Concludes(a, b, own, 0, {});
    Concludes(b, c, own, n, LeftByTurn(start));
    Compose(a, b, c, own, 0, n, {}, LeftByTurn(start));
    Concludes(a, c, own, n, LeftByTurn(start));
    SentEarlier(w, a, b, c, own, start);
    NotRanOut(w, a, c, own, n, LeftByTurn(start), start);
    if own.Some? && StopAsked(a, b, own.value) {
      AskedStays(a, b, c, own.value);
    }
    if start.Started? {
      SentUnmarked(w, a, c, own, start);
      LaunchedAsEarlier(a, b, c, own, 0, of, start.session.bgId);
    }
  }

  /** One whose resume ran out of time. */
  lemma TurnRanOut(w: World, a: seq<Event>, b: seq<Event>, c: seq<Event>, own: string)
    requires SoFar(a, b, Some(own), 0, {}) && EndsSoFar(b, c, own, 1)
    ensures a <= b <= c && Launches(c) <= Launches(a) + 1
    ensures StopsAllBut(a, c, {}) && TouchesOnly(a, c, Some(own)) && OneAtATime(a, c)
    ensures NeverResumesAfterTimeout(a, c, own) && (StopAsked(a, b, own) ==> StopAsked(a, c, own))
    ensures SentAs(w, a, c, Some(own), NotSent(StopTimeout)) && |c| > |a| && c[|c| - 1] == TimedOut(own)
  {
    hide SoFar, Launches, StopsAllBut, TouchesOnly, OneAtATime, NeverResumesAfterTimeout, StopAsked;
    Concludes(a, b, Some(own), 0, {});
    ConcludesTimedOut(b, c, own, 1);
    EndsLater(a, b, c, own, 0, 1);
    ConcludesTimedOut(a, c, own, 1);
    RanOutSent(w, a, c, own);
    if StopAsked(a, b, own) {
      AskedStays(a, b, c, own);
    }
  }

  /** The same session: with a session id once it is known, and where it had
      no bg id, the one its resume was given. */
  predicate Continues(before: SessionRef, after: SessionRef) {
    && after.sessionId.Some? && (before.sessionId.Some? ==> after.sessionId == before.sessionId)
    && (before.bgId.Some? ==> after.bgId == before.bgId)
    && after.transcriptPath == before.transcriptPath && after.pending == before.pending
  }
}
