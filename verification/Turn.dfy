/** What a running turn and the runtime share (src/agent/mod.rs). */
module Turn {
  import opened Basics

  /** A session as the runtime keeps it from one turn to the next. */
  datatype SessionRef = SessionRef(
    sessionId: Option<string>,
    bgId: Option<string>,
    transcriptPath: Option<string>,
    pending: bool)

  const NO_SESSION := SessionRef(None, None, None, false)

  /** Progress a driver reports while a turn runs. */
  datatype TurnUpdate =
    | Session(session: SessionRef)
    | NeedsYou(notice: string)
    | Working
    | SessionReply(raw: string)
    | Activity(line: string)
    | Interim(raw: string)

  /** The session a list of updates leaves the runtime at, from `start`. */
  function Reconstructed(start: SessionRef, sent: seq<TurnUpdate>): SessionRef {
    if sent == [] then start
    else
      var u := sent[|sent| - 1];
      if u.Session? then u.session else Reconstructed(start, sent[..|sent| - 1])
  }

  /** The newest ids among the updates. */
  function NewestIds(sent: seq<TurnUpdate>): Option<SessionRef> {
    if sent == [] then None
    else
      var u := sent[|sent| - 1];
      if u.Session? then Some(u.session) else NewestIds(sent[..|sent| - 1])
  }

  lemma {:induction false} ReconstructedAppend(start: SessionRef, a: seq<TurnUpdate>, b: seq<TurnUpdate>)
    ensures Reconstructed(start, a + b) == Reconstructed(Reconstructed(start, a), b)
  {
    if b == [] {
      assert a + b == a;
    } else {
      assert (a + b)[..|a + b| - 1] == a + b[..|b| - 1];
      ReconstructedAppend(start, a, b[..|b| - 1]);
    }
  }

  /** What `--stop` reads synchronously is what the runtime reaches by
      applying every update sent, even those it did not apply yet. */
  lemma {:induction false} NewestIdsAreReconstructed(start: SessionRef, sent: seq<TurnUpdate>)
    ensures Reconstructed(start, sent) == if NewestIds(sent).Some? then NewestIds(sent).value else start
  {
    if sent != [] {
      NewestIdsAreReconstructed(start, sent[..|sent| - 1]);
    }
  }

  /** The session reported last, and the one at the start while none is. */
  lemma {:induction false} ReconstructedReads(start: SessionRef, sent: seq<TurnUpdate>, i: int)
    requires -1 <= i < |sent| && (i >= 0 ==> sent[i].Session?) && forall j :: i < j < |sent| ==> !sent[j].Session?
    ensures Reconstructed(start, sent) == if i >= 0 then sent[i].session else start
    ensures NewestIds(sent) == if i >= 0 then Some(sent[i].session) else None
  {
    if i < |sent| - 1 {
      ReconstructedReads(start, sent[..|sent| - 1], i);
    }
  }

  /** Where a running turn reports progress; the update channel is the list
      of what was sent. */
  class TurnUpdates {
    var sent: seq<TurnUpdate>
    var latest: Option<SessionRef>
    var stopped: bool

    ghost predicate Valid()
      reads this
    {
      latest == NewestIds(sent)
    }

    constructor ()
      ensures Valid() && sent == [] && !stopped
    {
      sent, latest, stopped := [], None, false;
    }

    method Send(update: TurnUpdate)
      requires Valid()
      modifies this`sent, this`latest
      ensures Valid() && sent == old(sent) + [update]
    {
      if update.Session? {
        latest := Some(update.session);
      }
      sent := sent + [update];
    }

    /** Report new ids and tell whether the turn was stopped, in one step. */
    method ReportSession(session: SessionRef) returns (wasStopped: bool)
      requires Valid()
      modifies this`sent, this`latest
      ensures Valid() && sent == old(sent) + [Session(session)]
      ensures wasStopped == stopped
    {
      latest := Some(session);
      wasStopped := stopped;
      sent := sent + [Session(session)];
    }

    /** The runtime's stop: the mark and the newest ids, in one step. */
    method Stop() returns (ids: Option<SessionRef>)
      requires Valid()
      modifies this`stopped
      ensures Valid() && stopped
      ensures ids == NewestIds(sent)
    {
      stopped := true;
      ids := latest;
    }
  }
}
