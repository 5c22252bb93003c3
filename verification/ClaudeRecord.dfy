/** What the Claude session driver (src/agent/claude.rs) remembers: the processes
    shown for a session, until they are seen to exit. */
module ClaudeRecord {
  import opened Basics
  import opened ClaudeWorld
  import opened Turn

  // ----- What the driver remembers -----

  lemma EverNext(w: World, t: seq<Event>, e: Event, bg: string)
    ensures Ever(w, t + [e], bg)
         == if GivesUp(e, bg) then {}
            else if e.Read? && e.bg == bg && ShownBy(w, e).Some? then Ever(w, t, bg) + {ShownBy(w, e).value}
            else Ever(w, t, bg)
  {
    hide ShownBy;
    assert (t + [e])[..|t|] == t;
  }

  lemma SafeAppend(w: World, grace: nat, t: seq<Event>, e: Event)
    requires Safe(w, grace, t) && SafeNext(w, grace, t, e)
    ensures Safe(w, grace, t + [e])
  {
    hide SafeNext;
    assert (t + [e])[..|t|] == t;
  }

  function Remembered(seen: map<string, seq<Process>>, bg: string): seq<Process> {
    if bg in seen then seen[bg] else []
  }

  /** What is remembered covers what was shown, to this task or another: a
      process shown is remembered, or has exited for good. And nothing else is
      remembered. */
  ghost predicate Covers(w: World, t: seq<Event>, bg: string, remembered: seq<Process>, now: nat) {
    && (forall p :: IsShown(w, t, bg, p, now) ==> p in remembered || Gone(w, p, now))
    && (forall p :: p in remembered ==> IsShown(w, t, bg, p, now) && RanBy(w, p, now))
  }

  ghost predicate Account(w: World, t: seq<Event>, seen: map<string, seq<Process>>, now: nat) {
    forall bg :: Covers(w, t, bg, Remembered(seen, bg), now)
  }

  /** The processes that still run. */
  function StillRunning(w: World, processes: seq<Process>, t: nat): seq<Process> {
    if processes == [] then []
    else (if Runs(w, processes[0], t) then [processes[0]] else []) + StillRunning(w, processes[1..], t)
  }

  lemma {:induction false} StillRunningMeans(w: World, processes: seq<Process>, t: nat)
    ensures forall p :: p in StillRunning(w, processes, t) <==> p in processes && Runs(w, p, t)
  {
    if processes != [] {
      StillRunningMeans(w, processes[1..], t);
      assert processes == [processes[0]] + processes[1..];
    }
  }

  /** What is remembered once `pid` was noted: what still runs, and that. */
  function Noted(w: World, remembered: seq<Process>, pid: nat, t: nat): seq<Process> {
    var kept, table := StillRunning(w, remembered, t), w.table(t);
    if (forall p :: p in kept ==> p.pid != pid) && pid in table then kept + [Process(pid, table[pid])] else kept
  }

  lemma NotedMeans(w: World, remembered: seq<Process>, pid: nat, t: nat)
    ensures forall p :: p in Noted(w, remembered, pid, t) <==> Runs(w, p, t) && (p in remembered || p.pid == pid)
  {
    StillRunningMeans(w, remembered, t);
  }

  /** What was shown up to `now` and what is shown by `e` or noted elsewhere at
      the next moment cover each other once that is noted. */
  lemma CoversNoted(w: World, t: seq<Event>, bg: string, remembered: seq<Process>, now: nat,
                    t': seq<Event>, now': nat, pid: nat)
    requires Physical(w) && Covers(w, t, bg, remembered, now) && now <= now'
    requires forall p :: IsShown(w, t', bg, p, now') <==> IsShown(w, t, bg, p, now) || (p.pid == pid && Runs(w, p, now'))
    ensures Covers(w, t', bg, Noted(w, remembered, pid, now'), now')
  {
    hide Runs, Gone, Physical, IsShown, Noted;
    NotedMeans(w, remembered, pid, now');
    forall p | IsShown(w, t', bg, p, now')
      ensures p in Noted(w, remembered, pid, now') || Gone(w, p, now')
    {
      if Gone(w, p, now) {
        GoneLater(w, p, now, now');
      } else if !Runs(w, p, now') {
        RanLater(w, p, now, now');
        StoppedIsGone(w, p, now');
      }
    }
    forall p | p in Noted(w, remembered, pid, now')
      ensures RanBy(w, p, now')
    {
      assert now' <= now' && Runs(w, p, now');
    }
  }

  /** Where nothing more is shown, what is remembered stays. */
  lemma CoversStays(w: World, t: seq<Event>, bg: string, remembered: seq<Process>, now: nat, t': seq<Event>, now': nat)
    requires Covers(w, t, bg, remembered, now) && now <= now'
    requires forall p :: IsShown(w, t', bg, p, now') <==> IsShown(w, t, bg, p, now)
    ensures Covers(w, t', bg, remembered, now')
  {
    hide Gone, RanBy, IsShown;
    forall p | p in remembered
      ensures RanBy(w, p, now')
    {
      RanLater(w, p, now, now');
    }
    forall p | IsShown(w, t', bg, p, now')
      ensures p in remembered || Gone(w, p, now')
    {
      if Gone(w, p, now) {
        GoneLater(w, p, now, now');
      }
    }
  }

  lemma GoneLater(w: World, p: Process, now: nat, later: nat)
    requires Gone(w, p, now) && now <= later
    ensures Gone(w, p, later)
  {
  }

  lemma RanLater(w: World, p: Process, now: nat, later: nat)
    requires RanBy(w, p, now) && now <= later
    ensures RanBy(w, p, later)
  {
    var r: nat :| r <= now && Runs(w, p, r);
    assert r <= later && Runs(w, p, r);
  }

  lemma AllGoneLater(w: World, t: seq<Event>, bg: string, checked: nat, at: nat, later: nat)
    requires AllGone(w, t, bg, checked, at) && at <= later
    ensures AllGone(w, t, bg, checked, later)
  {
    hide IsShown;
  }

  // ----- What other tasks note meanwhile -----

  /** What is remembered for `bg` once these notes were made at `t`. */
  function RememberedAfter(w: World, seen: map<string, seq<Process>>, notes: map<string, nat>, bg: string, t: nat): seq<Process> {
    if bg in notes then Noted(w, Remembered(seen, bg), notes[bg], t) else Remembered(seen, bg)
  }

  function AfterNotes(w: World, seen: map<string, seq<Process>>, notes: map<string, nat>, t: nat): map<string, seq<Process>> {
    map bg | bg in seen.Keys + notes.Keys && RememberedAfter(w, seen, notes, bg, t) != []
          :: RememberedAfter(w, seen, notes, bg, t)
  }

  lemma AfterNotesMeans(w: World, seen: map<string, seq<Process>>, notes: map<string, nat>, t: nat, bg: string)
    ensures Remembered(AfterNotes(w, seen, notes, t), bg) == RememberedAfter(w, seen, notes, bg, t)
  {
    hide Noted;
  }

  /** Notes keep the account of a session, where what they name is what is newly
      shown. */
  lemma CoversAfterNotes(w: World, t: seq<Event>, seen: map<string, seq<Process>>, now: nat, bg: string,
                         notes: map<string, nat>, t': seq<Event>, now': nat)
    requires Physical(w) && Account(w, t, seen, now) && now <= now'
    requires forall p :: IsShown(w, t', bg, p, now') <==> IsShown(w, t, bg, p, now) || Names(w, notes, now', bg, p)
    ensures Covers(w, t', bg, Remembered(AfterNotes(w, seen, notes, now'), bg), now')
  {
    hide Physical, Covers, IsShown, Noted, AfterNotes, Runs;
    AfterNotesMeans(w, seen, notes, now', bg);
    assert Covers(w, t, bg, Remembered(seen, bg), now);
    if bg in notes {
      CoversNoted(w, t, bg, Remembered(seen, bg), now, t', now', notes[bg]);
    } else {
      CoversStays(w, t, bg, Remembered(seen, bg), now, t', now');
    }
  }

  /** What is remembered after `d` milliseconds in which others noted. */
  function Meanwhile(w: World, seen: map<string, seq<Process>>, from: nat, d: nat): map<string, seq<Process>> {
    if d == 0 then seen else AfterNotes(w, Meanwhile(w, seen, from, d - 1), w.others(from + d), from + d)
  }

  /** No session was forgotten or given up later than `now`. */
  ghost predicate TimesBy(t: seq<Event>, now: nat) {
    forall i :: 0 <= i < |t| && (t[i].Abandoned? || t[i].Forgot?) ==> t[i].at <= now
  }

  /** At the next moment, what is shown is what others note then. */
  lemma ShownNext(w: World, t: seq<Event>, bg: string, p: Process, now: nat)
    requires TimesBy(t, now)
    ensures IsShown(w, t, bg, p, now + 1) <==> IsShown(w, t, bg, p, now) || Names(w, w.others(now + 1), now + 1, bg, p)
  {
    hide Ever, Names;
    if Names(w, w.others(now + 1), now + 1, bg, p) {
      assert NotedAt(w, t, bg, p, now + 1);
    }
    if at: nat :| 0 < at <= now + 1 && NotedAt(w, t, bg, p, at) {
      assert at <= now || at == now + 1;
    }
  }

  lemma AccountMoment(w: World, t: seq<Event>, seen: map<string, seq<Process>>, now: nat)
    requires Physical(w) && Account(w, t, seen, now) && TimesBy(t, now)
    ensures Account(w, t, AfterNotes(w, seen, w.others(now + 1), now + 1), now + 1)
  {
    hide Physical, Covers, IsShown, AfterNotes, TimesBy, Names;
    var later := now + 1;
    forall bg
      ensures Covers(w, t, bg, Remembered(AfterNotes(w, seen, w.others(later), later), bg), later)
    {
      forall p
        ensures IsShown(w, t, bg, p, later) <==> IsShown(w, t, bg, p, now) || Names(w, w.others(later), later, bg, p)
      {
        ShownNext(w, t, bg, p, now);
      }
      hide Account;
      CoversAfterNotes(w, t, seen, now, bg, w.others(later), t, later);
    }
  }

  lemma {:induction false} AccountMeanwhile(w: World, t: seq<Event>, seen: map<string, seq<Process>>, now: nat, d: nat)
    requires Physical(w) && Account(w, t, seen, now) && TimesBy(t, now)
    ensures Account(w, t, Meanwhile(w, seen, now, d), now + d)
  {
    hide Physical, Account, AfterNotes;
    if d > 0 {
      AccountMeanwhile(w, t, seen, now, d - 1);
      AccountMoment(w, t, Meanwhile(w, seen, now, d - 1), now + d - 1);
    }
  }

  // ----- What the driver notes itself -----

  /** Where an event gives `bg` up no more, what others noted stays, and a check
      of another session adds the notes made before its forget. */
  lemma NotedNext(w: World, t: seq<Event>, e: Event, bg: string, p: Process, now: nat)
    requires !GivesUp(e, bg)
    ensures NotedElsewhere(w, t + [e], bg, p, now) <==>
            || NotedElsewhere(w, t, bg, p, now)
            || (e.Forgot? && e.bg != bg && e.at <= now && Names(w, w.gaps(e.nth), e.at, bg, p))
  {
    hide Names;
    var t' := t + [e];
    assert t'[|t|] == e && forall i :: 0 <= i < |t| ==> t'[i] == t[i];
    forall at: nat
      ensures NotedAt(w, t', bg, p, at) <==> NotedAt(w, t, bg, p, at)
    {
    }
    forall i
      ensures i < |t| ==> (NotedBetween(w, t', bg, p, i) <==> NotedBetween(w, t, bg, p, i))
    {
    }
    if e.Forgot? && e.bg != bg && Names(w, w.gaps(e.nth), e.at, bg, p) {
      assert NotedBetween(w, t', bg, p, |t|);
    }
  }

  /** An event that gives nothing up and forgets nothing. */
  lemma ShownSame(w: World, t: seq<Event>, e: Event, bg: string, p: Process, now: nat)
    requires !e.Abandoned? && !e.Forgot?
    ensures IsShown(w, t + [e], bg, p, now)
       <==> IsShown(w, t, bg, p, now) || (e.Read? && e.bg == bg && ShownBy(w, e) == Some(p))
  {
    hide Ever, ShownBy, NotedElsewhere;
    EverNext(w, t, e, bg);
    NotedNext(w, t, e, bg, p, now);
  }

  lemma ForgotShows(w: World, t: seq<Event>, e: Event, bg: string, p: Process, now: nat)
    requires e.Forgot? && e.at == now
    ensures IsShown(w, t + [e], bg, p, now)
       <==> IsShown(w, t, bg, p, now) || (e.bg != bg && Names(w, w.gaps(e.nth), now, bg, p))
  {
    hide Ever, ShownBy, NotedElsewhere;
    EverNext(w, t, e, bg);
    NotedNext(w, t, e, bg, p, now);
  }

  /** A check that finds nothing of `bg` running, the notes made then, and the
      forget: those for `bg` itself are lost, the others kept. */
  lemma AccountForgot(w: World, t: seq<Event>, seen: map<string, seq<Process>>, now: nat, bg: string, nth: nat)
    requires Physical(w) && Account(w, t, seen, now)
    requires forall p :: p in Remembered(seen, bg) ==> !Runs(w, p, now)
    ensures AllGone(w, t, bg, now, now) && AllGone(w, t + [Forgot(bg, now, nth)], bg, now, now)
    ensures Account(w, t + [Forgot(bg, now, nth)], AfterNotes(w, seen, w.gaps(nth), now) - {bg}, now)
  {
    hide IsShown, Runs, Physical, Covers, AfterNotes, Names;
    var e, after := Forgot(bg, now, nth), AfterNotes(w, seen, w.gaps(nth), now);
    NoneRuns(w, t, seen, now, bg);
    forall p
      ensures IsShown(w, t + [e], bg, p, now) <==> IsShown(w, t, bg, p, now)
    {
      ForgotShows(w, t, e, bg, p, now);
    }
    assert AllGone(w, t + [e], bg, now, now);
    forall b
      ensures Covers(w, t + [e], b, Remembered(after - {bg}, b), now)
    {
      forall p
        ensures IsShown(w, t + [e], b, p, now)
           <==> IsShown(w, t, b, p, now) || (b != bg && Names(w, w.gaps(nth), now, b, p))
      {
        ForgotShows(w, t, e, b, p, now);
      }
      if b == bg {
        NoneCovers(w, t + [e], bg, now);
        assert Remembered(after - {bg}, b) == [];
      } else {
        hide Account, AllGone;
        CoversAfterNotes(w, t, seen, now, b, w.gaps(nth), t + [e], now);
        assert Remembered(after - {bg}, b) == Remembered(after, b);
      }
    }
  }

  lemma NoneCovers(w: World, t: seq<Event>, bg: string, now: nat)
    requires AllGone(w, t, bg, now, now)
    ensures Covers(w, t, bg, [], now)
  {
    hide IsShown, Gone;
  }

  lemma AccountNext(w: World, t: seq<Event>, seen: map<string, seq<Process>>, now: nat, e: Event)
    requires Account(w, t, seen, now) && !e.Abandoned? && !e.Forgot? && (e.Read? ==> ShownBy(w, e) == None)
    ensures Account(w, t + [e], seen, now)
    ensures forall bg, p, until: nat :: IsShown(w, t + [e], bg, p, until) <==> IsShown(w, t, bg, p, until)
  {
    hide IsShown, Covers, ShownBy;
    forall bg, p, until: nat
      ensures IsShown(w, t + [e], bg, p, until) <==> IsShown(w, t, bg, p, until)
    {
      ShownSame(w, t, e, bg, p, until);
    }
    forall bg
      ensures Covers(w, t + [e], bg, Remembered(seen, bg), now)
    {
      assert Covers(w, t, bg, Remembered(seen, bg), now);
      CoversStays(w, t, bg, Remembered(seen, bg), now, t + [e], now);
    }
  }

  lemma AccountAbandoned(w: World, t: seq<Event>, seen: map<string, seq<Process>>, now: nat, bg: string)
    requires Account(w, t, seen, now)
    ensures Account(w, t + [Abandoned(bg, now)], seen - {bg}, now)
  {
    hide Ever, NotedElsewhere;
    var e := Abandoned(bg, now);
    forall b
      ensures Covers(w, t + [e], b, Remembered(seen - {bg}, b), now)
    {
      EverNext(w, t, e, b);
      assert Covers(w, t, b, Remembered(seen, b), now);
      forall p
        ensures IsShown(w, t + [e], b, p, now) <==> b != bg && IsShown(w, t, b, p, now)
      {
        AbandonedShows(w, t, bg, b, p, now);
      }
      hide IsShown;
      if b != bg {
        CoversStays(w, t, b, Remembered(seen, b), now, t + [e], now);
      }
    }
  }

  lemma AbandonedShows(w: World, t: seq<Event>, bg: string, b: string, p: Process, now: nat)
    ensures IsShown(w, t + [Abandoned(bg, now)], b, p, now) <==> b != bg && IsShown(w, t, b, p, now)
  {
    hide Ever, Names;
    var e := Abandoned(bg, now);
    EverNext(w, t, e, b);
    assert (t + [e])[|t|] == e;
    if b != bg {
      NotedNext(w, t, e, b, p, now);
    }
  }

  lemma AccountNoted(w: World, t: seq<Event>, seen: map<string, seq<Process>>, now: nat, e: Event, pid: nat,
                     seen': map<string, seq<Process>>)
    requires Physical(w) && Account(w, t, seen, now) && e.Read?
    requires forall p :: ShownBy(w, e) == Some(p) <==> p.pid == pid && Runs(w, p, now)
    requires var kept := Noted(w, Remembered(seen, e.bg), pid, now);
             seen' == if kept == [] then seen - {e.bg} else seen[e.bg := kept]
    ensures Account(w, t + [e], seen', now)
  {
    hide IsShown, Runs, Physical, ShownBy, Covers, Noted;
    forall b
      ensures Covers(w, t + [e], b, Remembered(seen', b), now)
    {
      forall p
        ensures IsShown(w, t + [e], b, p, now) <==> IsShown(w, t, b, p, now) || (e.bg == b && ShownBy(w, e) == Some(p))
      {
        ShownSame(w, t, e, b, p, now);
      }
      assert Covers(w, t, b, Remembered(seen, b), now);
      if b == e.bg {
        CoversNoted(w, t, b, Remembered(seen, b), now, t + [e], now, pid);
        assert Remembered(seen', b) == Noted(w, Remembered(seen, b), pid, now);
      } else {
        CoversStays(w, t, b, Remembered(seen, b), now, t + [e], now);
        assert Remembered(seen', b) == Remembered(seen, b);
      }
    }
  }

  lemma NothingYet(w: World)
    ensures Account(w, [], map[], 0)
  {
    forall bg
      ensures Covers(w, [], bg, Remembered(map[], bg), 0)
    {
    }
  }

  /** Nothing remembered for `bg` runs: everything ever shown has exited. */
  lemma NoneRuns(w: World, t: seq<Event>, seen: map<string, seq<Process>>, now: nat, bg: string)
    requires Physical(w) && Account(w, t, seen, now)
    requires forall p :: p in Remembered(seen, bg) ==> !Runs(w, p, now)
    ensures AllGone(w, t, bg, now, now)
  {
    hide IsShown, Runs, Gone, Physical, RanBy;
    assert Covers(w, t, bg, Remembered(seen, bg), now);
    forall p | IsShown(w, t, bg, p, now)
      ensures Gone(w, p, now)
    {
      if p in Remembered(seen, bg) {
        StoppedIsGone(w, p, now);
      }
    }
  }

  /** A process that runs is remembered exactly when it was shown: of all that
      was ever listed or noted and not given up on, only the lost notes are
      missing. */
  lemma RememberedExactlyWhen(w: World, t: seq<Event>, seen: map<string, seq<Process>>, now: nat, bg: string, p: Process)
    requires Account(w, t, seen, now) && Runs(w, p, now)
    ensures p in Remembered(seen, bg) <==> IsShown(w, t, bg, p, now)
  {
    hide IsShown, RanBy;
    assert Covers(w, t, bg, Remembered(seen, bg), now);
    assert Gone(w, p, now) ==> !Runs(w, p, now);
  }

  lemma StillUpNext(w: World, t: seq<Event>, e: Event, bg: string, now: nat)
    requires e.TimedOut?
    ensures StillUp(w, t, bg, now) ==> StillUp(w, t + [e], bg, now)
  {
    hide IsShown;
    if p :| IsShown(w, t, bg, p, now) && Runs(w, p, now) {
      ShownSame(w, t, e, bg, p, now);
    }
  }
}
