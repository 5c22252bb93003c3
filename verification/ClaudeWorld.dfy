/** What happens around the Claude session driver (src/agent/claude.rs) and what
    it did and saw: the processes, the listings it read, and what is safe. */
module ClaudeWorld {
  import opened Basics
  import opened Turn

  const LIST_TIMEOUT := 5_000
  const QUICK_TIMEOUT := 20_000
  const LAUNCH_TIMEOUT := 90_000
  const LIST_ATTEMPTS := 10
  const RESUME_ATTEMPTS := 2

  /** How often and how long a driver waits, in milliseconds: between two
      listings of a stopped session and for its exit in all, between two checks
      of its processes, after they exited, and for a copy to be listed. */
  datatype Waits = Waits(stopPoll: nat, stopWait: nat, exitPoll: nat, settleGrace: nat, copyListWait: nat)

  // ----- The world -----

  /** A pid and its start time name one process. */
  datatype Process = Process(pid: nat, started: nat)

  /** The pid of a listed session: none once it was told to stop, and perhaps
      not a number. */
  datatype ListedPid = NoPid | Unreadable | Pid(pid: nat)

  /** A session as `claude agents` lists it. */
  datatype Listed = Listed(sessionId: Option<string>, state: Option<string>, process: ListedPid, busy: bool)
  {
    predicate Alive() {
      !process.NoPid?
    }
  }

  datatype Listing = ListFailed | Lists(entries: map<string, Listed>)

  /** What a `claude --bg` launch printed: its bg id, and the id its copy note
      names. */
  datatype Printed = LaunchFailed | Printed(bgId: string, copyNote: Option<string>)

  /** All that can happen, by the time in milliseconds at which the driver
      looks or starts a command. */
  datatype World = World(
    /** The processes that run (no zombies), with their start times. */
    table: nat -> map<nat, nat>,
    listing: nat -> Listing,
    launch: nat -> Printed,
    /** How long a command takes. */
    took: nat -> nat,
    /** Whether the runtime has stopped the turn. */
    turnStopped: nat -> bool,
    /** What other tasks note at that time: the sessions a listing of theirs
        shows, with their pids. */
    others: nat -> map<string, nat>,
    /** What they note between the `n`-th check that finds no process of a
        session running and the forget after it: two steps, with no lock held
        from one to the other. */
    gaps: nat -> map<string, nat>)

  predicate Runs(w: World, p: Process, t: nat) {
    p.pid in w.table(t) && w.table(t)[p.pid] == p.started
  }

  /** Once a process has exited it never runs again, though its pid may. */
  ghost predicate Physical(w: World) {
    forall p, i: nat, j: nat, k: nat :: i <= j <= k && Runs(w, p, i) && !Runs(w, p, j) ==> !Runs(w, p, k)
  }

  /** It has exited by `t`, for good. */
  ghost predicate Gone(w: World, p: Process, t: nat) {
    forall k: nat :: t <= k ==> !Runs(w, p, k)
  }

  ghost predicate RanBy(w: World, p: Process, t: nat) {
    exists r: nat :: r <= t && Runs(w, p, r)
  }

  lemma StoppedIsGone(w: World, p: Process, t: nat)
    requires Physical(w) && RanBy(w, p, t) && !Runs(w, p, t)
    ensures Gone(w, p, t)
  {
    var r: nat :| r <= t && Runs(w, p, r);
    forall k: nat | t <= k
      ensures !Runs(w, p, k)
    {
      assert r <= t <= k;
    }
  }

  // ----- Sessions and copies -----

  datatype PollState = NotListed | HasExited | AtWork | Blocked | IsDone | Other

  function StateOf(listed: Listed): PollState {
    if !listed.Alive() then HasExited
    else if listed.state == Some("working") then AtWork
    else if listed.state == Some("blocked") then Blocked
    else if listed.state == Some("done") then IsDone
    else if listed.state == Some("failed") || listed.state == Some("stopped") then HasExited
    else Other
  }

  /** The session works on its own, so a new turn is refused. */
  predicate WorksAlone(listed: Listed) {
    listed.Alive() && match StateOf(listed)
                      case AtWork => true
                      case IsDone => listed.busy
                      case Other => listed.busy
                      case _ => false
  }

  /** Between turns a session works on its own exactly when it is listed with a
      process and either works, or is busy and neither waits nor has ended. */
  lemma WorksAloneExactlyWhen(listed: Listed)
    ensures WorksAlone(listed) <==>
              && listed.process != NoPid
              && (listed.state == Some("working")
                  || (listed.busy && listed.state !in {Some("blocked"), Some("failed"), Some("stopped")}))
  {
  }

  /** The copy a launch made of a session it was to continue, if it did: named
      by its note, else by what it printed, and never the session itself. */
  function CopyId(sessionBg: Option<string>, printed: string, note: Option<string>): (copy: Option<string>)
    ensures copy.Some? ==> copy != sessionBg
    ensures copy == None && sessionBg.Some? ==> printed == sessionBg.value && (note.Some? ==> note == sessionBg)
    ensures copy.Some? ==> copy == note || (sessionBg.Some? && copy == Some(printed))
    ensures copy.Some? && note.Some? && note != sessionBg ==> copy == note
  {
    if note.Some? && note != sessionBg then note
    else if sessionBg.Some? && sessionBg != Some(printed) then Some(printed)
    else None
  }

  /** The session a launch really started. */
  function StartedId(of: Option<SessionRef>, bgId: string, note: Option<string>): string {
    if of.Some? && CopyId(of.value.bgId, bgId, note).Some? then CopyId(of.value.bgId, bgId, note).value else bgId
  }

  // ----- What the driver did and saw -----

  /** One thing the driver did, in order. */
  datatype Event =
    /** Looked a session up in a listing begun at `began` (`forId`: only for
        an entry that knows the session's id). */
    | Read(bg: string, began: nat, timeout: nat, forId: bool)
    /** Checked that no process of a session runs, then forgot them, as the
        `nth` to do so. */
    | Forgot(bg: string, at: nat, nth: nat)
    /** Gave a session up: its processes are no longer waited for. */
    | Abandoned(bg: string, at: nat)
    | StopSent(bg: string)
    /** Removed, its processes last checked at `checked`. */
    | RemoveSent(bg: string, at: nat, checked: nat)
    /** Launched, as a resume of a session, whose processes were last checked
        at `checked`, or a new one. */
    | Launched(of: Option<SessionRef>, printed: Printed, at: nat, checked: nat)
    /** Told the runtime the session that runs. */
    | ReportedIds(of: Option<SessionRef>, session: SessionRef)
    /** A wait for the session's exit ran out. */
    | TimedOut(bg: string)

  /** What a listing begun at `t` gives: nothing when it takes too long. */
  function ListingAt(w: World, t: nat, timeout: nat): Listing {
    if w.took(t) > timeout then ListFailed else w.listing(t)
  }

  function ReadEnd(w: World, e: Event): nat
    requires e.Read?
  {
    e.began + Min(w.took(e.began), e.timeout)
  }

  function Entry(w: World, e: Event): Option<Listed>
    requires e.Read?
  {
    var l := ListingAt(w, e.began, e.timeout);
    if l.Lists? && e.bg in l.entries then Some(l.entries[e.bg]) else None
  }

  /** The process a listing showed running when it was read. */
  function ShownBy(w: World, e: Event): Option<Process>
    requires e.Read?
  {
    var entry := Entry(w, e);
    if entry.Some? && entry.value.process.Pid? && (e.forId ==> entry.value.sessionId.Some?) then
      var pid, table := entry.value.process.pid, w.table(ReadEnd(w, e));
      if pid in table then Some(Process(pid, table[pid])) else None
    else None
  }

  /** What a listing says, spelled out: a process runs when it is listed with
      that pid and runs under it when the listing was read; one that took too
      long says nothing. */
  lemma ReadMeans(w: World, e: Event, p: Process)
    requires e.Read?
    ensures ShownBy(w, e) == Some(p) <==>
              && w.took(e.began) <= e.timeout && w.listing(e.began).Lists? && e.bg in w.listing(e.began).entries
              && var entry := w.listing(e.began).entries[e.bg];
                 && entry.process == Pid(p.pid) && (e.forId ==> entry.sessionId != None)
                 && p.pid in w.table(e.began + w.took(e.began))
                 && w.table(e.began + w.took(e.began))[p.pid] == p.started
    ensures ShowsNone(w, e) <==>
              && w.took(e.began) <= e.timeout && w.listing(e.began).Lists? && e.bg in w.listing(e.began).entries
              && w.listing(e.began).entries[e.bg].process == NoPid
    ensures Unlisted(w, e) <==>
              w.took(e.began) <= e.timeout && w.listing(e.began).Lists? && e.bg !in w.listing(e.began).entries
  {
  }

  predicate GivesUp(e: Event, bg: string) {
    e.Abandoned? && e.bg == bg
  }

  /** Every process that a listing showed running for `bg` since the session
      was last given up. */
  function Ever(w: World, t: seq<Event>, bg: string): set<Process> {
    if t == [] then {}
    else
      var front, e := Ever(w, t[..|t| - 1], bg), t[|t| - 1];
      if GivesUp(e, bg) then {}
      else if e.Read? && e.bg == bg && ShownBy(w, e).Some? then front + {ShownBy(w, e).value}
      else front
  }

  /** A listing read at `i` showed `p` running for `bg`, and the driver did not
      give up since. */
  ghost predicate ShownAt(w: World, t: seq<Event>, bg: string, p: Process, i: int) {
    && 0 <= i < |t| && t[i].Read? && t[i].bg == bg && ShownBy(w, t[i]) == Some(p)
    && forall j :: i < j < |t| ==> !GivesUp(t[j], bg)
  }

  lemma {:induction false} EverMeans(w: World, t: seq<Event>, bg: string, p: Process)
    ensures p in Ever(w, t, bg) <==> exists i :: ShownAt(w, t, bg, p, i)
  {
    hide ShownBy;
    if t != [] {
      var n, front := |t| - 1, t[..|t| - 1];
      EverMeans(w, front, bg, p);
      if i :| ShownAt(w, front, bg, p, i) && !GivesUp(t[n], bg) {
        assert ShownAt(w, t, bg, p, i);
      }
      if i :| ShownAt(w, t, bg, p, i) {
        assert i < n ==> ShownAt(w, front, bg, p, i);
      }
      assert t[n].Read? && t[n].bg == bg && ShownBy(w, t[n]) == Some(p) ==> ShownAt(w, t, bg, p, n);
    }
  }

  /** These notes name `p` for `bg`, which runs then. */
  predicate Names(w: World, notes: map<string, nat>, at: nat, bg: string, p: Process) {
    bg in notes && notes[bg] == p.pid && Runs(w, p, at)
  }

  /** Another task noted `p` for `bg` while the driver waited, at `at`, and the
      driver did not give the session up since. */
  ghost predicate NotedAt(w: World, t: seq<Event>, bg: string, p: Process, at: nat) {
    Names(w, w.others(at), at, bg, p) && forall i :: 0 <= i < |t| && GivesUp(t[i], bg) ==> t[i].at < at
  }

  /** Another task noted `p` for `bg` between the check of another session and
      its forget, at `i`, and the driver did not give the session up since. */
  ghost predicate NotedBetween(w: World, t: seq<Event>, bg: string, p: Process, i: int) {
    && 0 <= i < |t| && t[i].Forgot? && t[i].bg != bg && Names(w, w.gaps(t[i].nth), t[i].at, bg, p)
    && forall j :: i < j < |t| ==> !GivesUp(t[j], bg)
  }

  /** Another task noted `p` for `bg` between the session's own check and its
      forget, at `i`: the forget drops it. */
  ghost predicate LostAt(w: World, t: seq<Event>, bg: string, p: Process, i: int) {
    0 <= i < |t| && t[i].Forgot? && t[i].bg == bg && Names(w, w.gaps(t[i].nth), t[i].at, bg, p)
  }

  /** Another task noted `p` for `bg` by `now`, other than by a lost note, and
      the driver did not give the session up since. */
  ghost predicate NotedElsewhere(w: World, t: seq<Event>, bg: string, p: Process, now: nat) {
    || (exists at: nat :: 0 < at <= now && NotedAt(w, t, bg, p, at))
    || (exists i :: NotedBetween(w, t, bg, p, i) && t[i].at <= now)
  }

  /** `p` was shown for `bg`, to this task or another. */
  ghost predicate IsShown(w: World, t: seq<Event>, bg: string, p: Process, now: nat) {
    p in Ever(w, t, bg) || NotedElsewhere(w, t, bg, p, now)
  }

  /** Everything shown for `bg` by `checked` has exited by `at`. */
  ghost predicate AllGone(w: World, t: seq<Event>, bg: string, checked: nat, at: nat) {
    forall p :: IsShown(w, t, bg, p, checked) ==> Gone(w, p, at)
  }

  /** The session a resume continues, when it has a bg id. */
  function ResumedBg(e: Event): Option<string> {
    if e.Launched? && e.of.Some? then e.of.value.bgId else None
  }

  /** A listing shows the session with no process. */
  predicate ShowsNone(w: World, e: Event) {
    e.Read? && Entry(w, e).Some? && !Entry(w, e).value.Alive()
  }

  /** A listing does not show the session. */
  predicate Unlisted(w: World, e: Event) {
    e.Read? && ListingAt(w, e.began, e.timeout).Lists? && Entry(w, e) == None
  }

  /** All but a closing check or timeout. */
  function ReadsOf(t: seq<Event>): seq<Event> {
    if t != [] && (t[|t| - 1].TimedOut? || t[|t| - 1].Forgot?) then t[..|t| - 1] else t
  }

  /** The listing read last shows the session with no process. */
  ghost predicate LastShowsNone(w: World, t: seq<Event>, bg: string) {
    var looks := ReadsOf(t);
    && looks != [] && ShowsNone(w, looks[|looks| - 1]) && looks[|looks| - 1].bg == bg
    && forall i :: |looks| <= i < |t| ==> t[i].Forgot? && t[i].bg == bg
  }

  /** A session may be resumed at `at`: the last listing shows it with no
      process, and every process shown for it by `checked`, not longer ago than
      the settle grace, has exited. */
  ghost predicate MayResume(w: World, t: seq<Event>, bg: string, checked: nat, at: nat, grace: nat) {
    LastShowsNone(w, t, bg) && AllGone(w, t, bg, checked, at) && checked <= at <= checked + grace
  }

  /** One more thing is safe: a resume only when the session may be resumed, a
      removal only once all its processes exited or the wait for them ran out,
      a report of a resume only as the session itself. */
  ghost predicate SafeNext(w: World, grace: nat, t: seq<Event>, e: Event) {
    && (ResumedBg(e).Some? ==> MayResume(w, t, ResumedBg(e).value, e.checked, e.at, grace))
    && (e.RemoveSent? ==>
          || (AllGone(w, t, e.bg, e.checked, e.at) && e.checked <= e.at <= e.checked + grace)
          || (t != [] && t[|t| - 1] == TimedOut(e.bg)))
    && (e.ReportedIds? && e.of.Some? && e.of.value.bgId.Some? ==> e.session.bgId == e.of.value.bgId)
  }

  ghost predicate Safe(w: World, grace: nat, t: seq<Event>) {
    t != [] ==> Safe(w, grace, t[..|t| - 1]) && SafeNext(w, grace, t[..|t| - 1], t[|t| - 1])
  }

  lemma {:induction false} SafeAt(w: World, grace: nat, t: seq<Event>, j: int)
    requires Safe(w, grace, t) && 0 <= j < |t|
    ensures SafeNext(w, grace, t[..j], t[j])
    decreases |t|
  {
    hide SafeNext;
    if j < |t| - 1 {
      assert t[..|t| - 1][..j] == t[..j];
      SafeAt(w, grace, t[..|t| - 1], j);
    }
  }

  /** At every resume of a session with a bg id, every process that a listing
      read for it ever showed running, and every one that other tasks noted for
      it up to the last check, has exited, unless given up on or noted between
      a check of the session and its forget; the check was at most the settle
      grace ago, and the listing read last showed none. */
  lemma SafeMeans(w: World, grace: nat, t: seq<Event>, j: int, bg: string)
    requires Safe(w, grace, t) && 0 <= j < |t| && ResumedBg(t[j]) == Some(bg)
    ensures LastShowsNone(w, t[..j], bg)
    ensures forall i, p :: ShownAt(w, t[..j], bg, p, i) ==> Gone(w, p, t[j].at)
    ensures forall p, at: nat :: 0 < at <= t[j].checked && NotedAt(w, t[..j], bg, p, at) ==> Gone(w, p, t[j].at)
    ensures forall p, i :: NotedBetween(w, t[..j], bg, p, i) && t[i].at <= t[j].checked ==> Gone(w, p, t[j].at)
    ensures t[j].checked <= t[j].at <= t[j].checked + grace
  {
    hide Ever, ShownAt, NotedAt, Names, Gone, Safe, LastShowsNone;
    SafeAt(w, grace, t, j);
    forall i, p | ShownAt(w, t[..j], bg, p, i)
      ensures Gone(w, p, t[j].at)
    {
      EverMeans(w, t[..j], bg, p);
      assert IsShown(w, t[..j], bg, p, t[j].checked);
    }
    forall p, at: nat | 0 < at <= t[j].checked && NotedAt(w, t[..j], bg, p, at)
      ensures Gone(w, p, t[j].at)
    {
      assert IsShown(w, t[..j], bg, p, t[j].checked);
    }
    forall p, i | NotedBetween(w, t[..j], bg, p, i) && t[i].at <= t[j].checked
      ensures Gone(w, p, t[j].at)
    {
      assert IsShown(w, t[..j], bg, p, t[j].checked);
    }
  }

  /** How often something was launched. */
  function Launches(t: seq<Event>): nat {
    if t == [] then 0 else Launches(t[..|t| - 1]) + if t[|t| - 1].Launched? then 1 else 0
  }

  /** The session a launch started. */
  function StartedBy(e: Event): Option<string> {
    if e.Launched? && e.printed.Printed? then Some(StartedId(e.of, e.printed.bgId, e.printed.copyNote)) else None
  }

  /** `id` was told to stop between `i` and `j`. */
  ghost predicate StopsBetween(t: seq<Event>, i: int, j: int, id: string) {
    exists k :: i < k < j && 0 <= k < |t| && t[k] == StopSent(id)
  }

  /** `id` was started by a launch between `from` and `i`. */
  ghost predicate StartedSince(t: seq<Event>, from: int, i: int, id: string) {
    exists k :: from <= k < i && 0 <= k < |t| && StartedBy(t[k]) == Some(id)
  }

  // ----- Listings read in turn -----

  /** From `a` to `b`, listings were read for `bg` and nothing else happened. */
  ghost predicate ReadsOnly(a: seq<Event>, b: seq<Event>, bg: string) {
    a <= b && forall i :: |a| <= i < |b| ==> b[i].Read? && b[i].bg == bg
  }

  /** From `a` to `b`, `bg` was listed at least once, from `from` on, each time
      `poll` after the last listing was read and as long as `limit` was not up. */
  ghost predicate Polled(w: World, a: seq<Event>, b: seq<Event>, bg: string, from: nat, poll: nat, limit: nat) {
    && a < b && ReadsOnly(a, b, bg) && b[|a|].began == from
    && (forall i :: |a| <= i < |b| ==> b[i].timeout == LIST_TIMEOUT && !b[i].forId)
    && (forall i :: |a| < i < |b| ==> NextPoll(w, b, i, from, poll, limit))
  }

  predicate NextPoll(w: World, b: seq<Event>, i: int, from: nat, poll: nat, limit: nat)
    requires 0 < i < |b| && b[i - 1].Read? && b[i].Read?
  {
    ReadEnd(w, b[i - 1]) < from + limit && b[i].began == ReadEnd(w, b[i - 1]) + poll
  }

  /** The next listing is due at `now`. */
  ghost predicate PollDue(w: World, a: seq<Event>, b: seq<Event>, bg: string, from: nat, poll: nat, limit: nat,
                          now: nat) {
    if a == b then now == from
    else
      && Polled(w, a, b, bg, from, poll, limit)
      && ReadEnd(w, b[|b| - 1]) < from + limit && now == ReadEnd(w, b[|b| - 1]) + poll
  }

  lemma PollStep(w: World, a: seq<Event>, b: seq<Event>, bg: string, from: nat, poll: nat, limit: nat, now: nat)
    requires PollDue(w, a, b, bg, from, poll, limit, now) && poll > 0
    ensures Polled(w, a, b + [Read(bg, now, LIST_TIMEOUT, false)], bg, from, poll, limit)
    ensures now < from + limit + poll
  {
    var e := Read(bg, now, LIST_TIMEOUT, false);
    forall i | |a| < i < |b| + 1
      ensures NextPoll(w, b + [e], i, from, poll, limit)
    {
      assert i < |b| ==> NextPoll(w, b, i, from, poll, limit);
    }
  }

  /** The entry a read looks for. */
  predicate Shows(w: World, e: Event, running: bool)
    requires e.Read?
  {
    Entry(w, e).Some? && (running ==> Entry(w, e).value.Alive())
  }

  /** From `a` to `b`, `bg` was listed until a listing showed it (with a
      process, when `running`), or the time for that was up. */
  ghost predicate NotedUntil(w: World, waits: Waits, a: seq<Event>, b: seq<Event>, bg: string, from: nat, running: bool) {
    && Polled(w, a, b, bg, from, waits.stopPoll, waits.copyListWait)
    && (forall i :: |a| <= i < |b| - 1 ==> !Shows(w, b[i], running))
    && (Shows(w, b[|b| - 1], running) || ReadEnd(w, b[|b| - 1]) >= from + waits.copyListWait)
  }

  /** A process shown for `bg` still runs. */
  ghost predicate StillUp(w: World, t: seq<Event>, bg: string, now: nat) {
    exists p :: IsShown(w, t, bg, p, now) && Runs(w, p, now)
  }

  datatype Stopped = Exited | NoLongerListed | StillRuns

  /** The listing read at `i` leaves a wait undecided: it failed or shows the
      session with a process, or does not show it while one still runs. */
  ghost predicate Undecided(w: World, t: seq<Event>, i: int)
    requires 0 <= i < |t|
  {
    t[i].Read? && !ShowsNone(w, t[i]) && (Unlisted(w, t[i]) ==> StillUp(w, t[..i + 1], t[i].bg, ReadEnd(w, t[i])))
  }

  /** How a wait for `bg`, begun at `from` after `a`, ended at `now`: it went on
      only while the listings left it undecided. */
  ghost predicate Waited(w: World, waits: Waits, a: seq<Event>, b: seq<Event>, bg: string, from: nat, now: nat,
                         stopped: Stopped) {
    var looks := ReadsOf(b);
    && Polled(w, a, looks, bg, from, waits.stopPoll, waits.stopWait)
    && (forall i :: |a| <= i < |looks| - 1 ==> Undecided(w, looks, i))
    && |b| == |looks| + 1
    && Ended(w, waits, looks, b[|b| - 1], bg, from, now, stopped)
  }

  /** How the last of the listings decided it. */
  ghost predicate Ended(w: World, waits: Waits, looks: seq<Event>, last: Event, bg: string, from: nat, now: nat,
                        stopped: Stopped)
    requires looks != [] && looks[|looks| - 1].Read?
  {
    var look := looks[|looks| - 1];
    var read := ReadEnd(w, look);
    match stopped
    // Listed with no process: all of them gone, at once if none still ran, then the grace.
    case Exited =>
      && ShowsNone(w, look) && last.Forgot? && last.bg == bg && now == last.at + waits.settleGrace
      && read <= last.at && AllGone(w, looks, bg, last.at, last.at)
      && (!StillUp(w, looks, bg, read) ==> last.at == read)
    // Not listed any more, and all of them gone.
    case NoLongerListed =>
      && Unlisted(w, look) && last.Forgot? && last.bg == bg && now == last.at == read
      && AllGone(w, looks, bg, now, now)
    // Time is up, and one still runs, or it is listed with a process, or cannot be told.
    case StillRuns =>
      && last == TimedOut(bg) && now >= from + waits.stopWait
      && (if ShowsNone(w, look) then StillUp(w, looks, bg, read) && StillUp(w, looks, bg, now)
          else now == read && Undecided(w, looks, |looks| - 1))
  }
}
