/** A process-per-turn harness's output as it is read, and how the turn ended
    (src/agent/process.rs). The specification looks back over the whole list
    of lines read; `StreamState` keeps eight fields. */
module StreamState {
  import opened Basics
  import opened Turn
  import opened Progress

  /** What a line of output says about the turn; `Skipped` is a line too long
      to read. */
  datatype Item =
    | SessionIs(id: string)
    | Text(message: string, text: string)
    | Tool(name: string)
    | Error(error: string)
    | RecoverableError(error: string)
    | Skipped

  /** An item the harness's parser gives. */
  type Event = x: Item | !x.Skipped? witness Tool("")

  datatype TextPart = TextPart(message: string, text: string)

  // ----- The session -----

  /** The agent works in the session: a text or a tool call. */
  predicate Works(x: Item) {
    x.Text? || x.Tool?
  }

  /** The newest id named, else the one the turn started with. */
  function CurrentId(start: SessionRef, h: seq<Item>): Option<string> {
    if h == [] then start.sessionId
    else
      var x := h[|h| - 1];
      if x.SessionIs? then Some(x.id) else CurrentId(start, h[..|h| - 1])
  }

  /** The id is still pending: nothing showed the agent at work, and no
      other id was named. */
  predicate Pending(start: SessionRef, h: seq<Item>) {
    if h == [] then start.pending && start.sessionId.Some?
    else
      var x := h[|h| - 1];
      Pending(start, h[..|h| - 1]) && !Works(x) && (x.SessionIs? ==> Some(x.id) == start.sessionId)
  }

  function SessionNow(start: SessionRef, h: seq<Item>): SessionRef {
    SessionRef(CurrentId(start, h), None, None, Pending(start, h))
  }

  // ----- The updates -----

  function BeatOf(x: Item): seq<Beat> {
    match x
    case Text(_, text) => [Say(text)]
    case Tool(name) => [Call(name)]
    case _ => []
  }

  function Beats(h: seq<Item>): seq<Beat> {
    if h == [] then [] else Beats(h[..|h| - 1]) + BeatOf(h[|h| - 1])
  }

  /** A text is something said, a tool a call, and nothing else is a beat. */
  lemma {:induction false} BeatsAre(a: seq<Item>, b: seq<Item>, x: Item)
    ensures Beats(a + b) == Beats(a) + Beats(b) && Beats([]) == []
    ensures Beats([x]) == match x case Text(_, text) => [Say(text)] case Tool(name) => [Call(name)] case _ => []
  {
    assert [x][..0] == [];
    if b == [] {
      assert a + b == a;
    } else {
      assert (a + b)[..|a + b| - 1] == a + b[..|b| - 1];
      BeatsAre(a, b[..|b| - 1], x);
    }
  }

  /** The session update that `x` is worth after `h`: one exactly when the
      session changes. */
  function SessionReport(start: SessionRef, h: seq<Item>, x: Item): seq<TurnUpdate> {
    if SessionNow(start, h) == SessionNow(start, h + [x]) then [] else [Session(SessionNow(start, h + [x]))]
  }

  /** Everything sent over a turn. */
  function Sent(w: Words, start: SessionRef, h: seq<Item>): seq<TurnUpdate> {
    if h == [] then []
    else
      var before, x := h[..|h| - 1], h[|h| - 1];
      Sent(w, start, before) + SentFor(w, start, before, x)
  }

  function SentFor(w: Words, start: SessionRef, h: seq<Item>, x: Item): seq<TurnUpdate> {
    SessionReport(start, h, x) + (if x.Tool? then Worth(w, Beats(h), None, Call(x.name)) else [])
  }

  /** The updates without the session's. */
  function Shown(updates: seq<TurnUpdate>): seq<TurnUpdate> {
    if updates == [] then []
    else (if updates[0].Session? then [] else [updates[0]]) + Shown(updates[1..])
  }

  lemma {:induction false} ShownAppend(a: seq<TurnUpdate>, b: seq<TurnUpdate>)
    ensures Shown(a + b) == Shown(a) + Shown(b)
  {
    if a == [] {
      assert a + b == b;
    } else {
      assert (a + b)[1..] == a[1..] + b;
      ShownAppend(a[1..], b);
    }
  }

  lemma {:induction false} ShownIsAll(a: seq<TurnUpdate>)
    requires forall i :: 0 <= i < |a| ==> !a[i].Session?
    ensures Shown(a) == a
  {
    if a != [] {
      ShownIsAll(a[1..]);
    }
  }

  lemma ShownFor(w: Words, start: SessionRef, h: seq<Item>, x: Item)
    ensures Shown(SentFor(w, start, h, x)) == if x.Tool? then Worth(w, Beats(h), None, Call(x.name)) else []
  {
    ShownAppend(SessionReport(start, h, x), if x.Tool? then Worth(w, Beats(h), None, Call(x.name)) else []);
    ShownSession(start, h, x);
    if x.Tool? {
      ShownIsAll(Worth(w, Beats(h), None, Call(x.name)));
    }
  }

  lemma ShownSession(start: SessionRef, h: seq<Item>, x: Item)
    ensures Shown(SessionReport(start, h, x)) == []
  {
    assert [Session(SessionNow(start, h + [x]))][1..] == [];
  }

  /** What the runtime shows and speaks of a turn is exactly the reading of
      its whole transcript, whatever sessions the output named in between. */
  lemma {:induction false} ShownIsReports(w: Words, start: SessionRef, h: seq<Item>)
    ensures Shown(Sent(w, start, h)) == Reports(w, Beats(h), None)
  {
    if h != [] {
      var before, x := h[..|h| - 1], h[|h| - 1];
      ShownIsReports(w, start, before);
      ShownFor(w, start, before, x);
      ShownAppend(Sent(w, start, before), SentFor(w, start, before, x));
      if BeatOf(x) != [] {
        ExtendOne(w, Beats(before), None, BeatOf(x)[0]);
        assert BeatOf(x) == [BeatOf(x)[0]];
      } else {
        assert Beats(h) == Beats(before);
      }
    }
  }

  lemma {:induction false} ReconstructedUnchanged(s: SessionRef, updates: seq<TurnUpdate>)
    requires forall i :: 0 <= i < |updates| ==> !updates[i].Session?
    ensures Reconstructed(s, updates) == s
  {
    if updates != [] {
      ReconstructedUnchanged(s, updates[..|updates| - 1]);
    }
  }

  lemma ReconstructedFor(w: Words, start: SessionRef, h: seq<Item>, x: Item, known: SessionRef)
    ensures Reconstructed(known, SentFor(w, start, h, x))
         == if SessionReport(start, h, x) == [] then known else SessionNow(start, h + [x])
  {
    var session := SessionReport(start, h, x);
    var worth := if x.Tool? then Worth(w, Beats(h), None, Call(x.name)) else [];
    ReconstructedAppend(known, session, worth);
    ReconstructedUnchanged(Reconstructed(known, session), worth);
    assert session != [] ==> session[..0] == [];
  }

  /** A session said to be pending without an id, and no id named since. */
  predicate PendingNothing(start: SessionRef, h: seq<Item>) {
    start.pending && CurrentId(start, h) == None
  }

  /** The session the runtime reconstructs from the updates always has the
      id the turn knows. It has the turn's pending flag too, except exactly
      while a start said to be pending has no id to be pending. */
  lemma {:induction false} RuntimeKnowsTheSession(w: Words, start: SessionRef, h: seq<Item>)
    ensures Reconstructed(start, Sent(w, start, h)).sessionId == CurrentId(start, h)
    ensures Reconstructed(start, Sent(w, start, h)).pending == Pending(start, h) <==> !PendingNothing(start, h)
    ensures Reconstructed(start, Sent(w, start, h)) != start ==>
              Reconstructed(start, Sent(w, start, h)) == SessionNow(start, h)
    ensures CurrentId(start, h) == None ==> Reconstructed(start, Sent(w, start, h)) == start
  {
    hide SentFor;
    if Pending(start, h) {
      PendingKeepsId(start, h);
    }
    if h != [] {
      var before, x := h[..|h| - 1], h[|h| - 1];
      RuntimeKnowsTheSession(w, start, before);
      assert before + [x] == h;
      ReconstructedAppend(start, Sent(w, start, before), SentFor(w, start, before, x));
      ReconstructedFor(w, start, before, x, Reconstructed(start, Sent(w, start, before)));
      PendingStep(start, before, x);
    }
  }

  /** Once an id is not pending it stays so, whatever the output says. */
  lemma {:induction false} ConfirmedStaysConfirmed(start: SessionRef, h: seq<Item>, more: seq<Item>)
    ensures Pending(start, h + more) ==> Pending(start, h)
  {
    if more == [] {
      assert h + more == h;
    } else {
      assert (h + more)[..|h + more| - 1] == h + more[..|more| - 1];
      ConfirmedStaysConfirmed(start, h, more[..|more| - 1]);
    }
  }

  /** No update sent during a turn says pending. */
  lemma {:induction false} NoUpdateSaysPending(w: Words, start: SessionRef, h: seq<Item>)
    ensures forall u :: u in Sent(w, start, h) && u.Session? ==> !u.session.pending
  {
    hide SentFor;
    if h != [] {
      var before, x := h[..|h| - 1], h[|h| - 1];
      NoUpdateSaysPending(w, start, before);
      SentForSaysConfirmed(w, start, before, x);
    }
  }

  lemma SentForSaysConfirmed(w: Words, start: SessionRef, h: seq<Item>, x: Item)
    ensures forall u :: u in SentFor(w, start, h, x) && u.Session? ==> !u.session.pending
  {
    hide SessionReport, Beats, LastLabel, AfterLastCall, Chosen;
    SessionReportCases(start, h, x);
  }

  /** The id is pending exactly when the turn started so and the whole output
      has no text, no tool call and no other id. */
  lemma {:induction false} PendingReads(start: SessionRef, h: seq<Item>)
    ensures Pending(start, h)
       <==> && start.pending && start.sessionId.Some?
            && forall i :: 0 <= i < |h| ==>
                 !h[i].Text? && !h[i].Tool? && (h[i].SessionIs? ==> Some(h[i].id) == start.sessionId)
  {
    if h != [] {
      PendingReads(start, h[..|h| - 1]);
    }
  }

  /** The turn's session is the one named last, and the one it started with
      while none is named. */
  lemma {:induction false} CurrentIdReads(start: SessionRef, h: seq<Item>, i: int)
    requires -1 <= i < |h| && (i >= 0 ==> h[i].SessionIs?) && forall j :: i < j < |h| ==> !h[j].SessionIs?
    ensures CurrentId(start, h) == if i >= 0 then Some(h[i].id) else start.sessionId
  {
    if i < |h| - 1 {
      CurrentIdReads(start, h[..|h| - 1], i);
    }
  }

  lemma {:induction false} PendingKeepsId(start: SessionRef, h: seq<Item>)
    requires Pending(start, h)
    ensures CurrentId(start, h) == start.sessionId
  {
    if h != [] {
      PendingKeepsId(start, h[..|h| - 1]);
    }
  }

  lemma {:induction false} SentAppend(w: Words, start: SessionRef, h: seq<Item>, x: Item)
    ensures Sent(w, start, h + [x]) == Sent(w, start, h) + SentFor(w, start, h, x)
  {
    hide SentFor;
    assert (h + [x])[..|h|] == h;
  }

  // ----- The verdict -----

  function Texts(h: seq<Item>): seq<TextPart> {
    if h == [] then []
    else
      var x := h[|h| - 1];
      Texts(h[..|h| - 1]) + if x.Text? then [TextPart(x.message, x.text)] else []
  }

  /** The last error the harness reported. */
  function LastError(h: seq<Item>): Option<string> {
    if h == [] then None
    else
      var x := h[|h| - 1];
      if x.Error? then Some(x.error) else LastError(h[..|h| - 1])
  }

  /** The last recoverable error, while no text came after it. */
  function Unrecovered(h: seq<Item>): Option<string> {
    if h == [] then None
    else
      match h[|h| - 1]
      case RecoverableError(error) => Some(error)
      case Text(_, _) => None
      case _ => Unrecovered(h[..|h| - 1])
  }

  /** A line too long to read came after the last text. */
  predicate SkippedAfterText(h: seq<Item>) {
    h != [] && match h[|h| - 1]
               case Skipped => true
               case Text(_, _) => false
               case _ => SkippedAfterText(h[..|h| - 1])
  }

  function Join(parts: seq<string>): string {
    if parts == [] then "" else if |parts| == 1 then parts[0] else parts[0] + "\n" + Join(parts[1..])
  }

  /** The non-blank parts of message `message`, trimmed, in order. */
  function PartsOf(texts: seq<TextPart>, message: string): seq<string> {
    if texts == [] then []
    else
      (if texts[0].message == message && Trim(texts[0].text) != [] then [Trim(texts[0].text)] else [])
      + PartsOf(texts[1..], message)
  }

  /** The final message: the last message's parts on a line each. */
  function FinalMessage(texts: seq<TextPart>): Option<string> {
    if texts == [] then None
    else
      var text := Join(PartsOf(texts, texts[|texts| - 1].message));
      if text == "" then None else Some(text)
  }

  datatype Failure =
    | Harness(message: string)
    | NoReply
    | Stderr(message: string)
    | BadExit

  datatype Outcome = Reply(text: string) | Failed(failure: Failure)

  /** How the process ended: whether it succeeded, and what the harness
      recognizes in its stderr. */
  datatype Exit = Exit(success: bool, recognized: Option<string>)

  /** How a turn with output `h` ended. */
  function Verdict(h: seq<Item>, exit: Exit): Outcome {
    if LastError(h).Some? then Failed(Harness(LastError(h).value))
    else if Unrecovered(h).Some? then Failed(Harness(Unrecovered(h).value))
    else if !SkippedAfterText(h) && FinalMessage(Texts(h)).Some? then Reply(FinalMessage(Texts(h)).value)
    else if exit.success then Failed(NoReply)
    else if exit.recognized.Some? then Failed(Stderr(exit.recognized.value))
    else Failed(BadExit)
  }

  ghost predicate ErrorAt(h: seq<Item>, i: int) {
    0 <= i < |h| && h[i].Error?
  }

  ghost predicate UnrecoveredAt(h: seq<Item>, i: int) {
    0 <= i < |h| && h[i].RecoverableError? && forall j :: i < j < |h| ==> !h[j].Text?
  }

  ghost predicate SkippedAt(h: seq<Item>, i: int) {
    0 <= i < |h| && h[i].Skipped? && forall j :: i < j < |h| ==> !h[j].Text?
  }

  ghost predicate IsLastText(h: seq<Item>, z: int) {
    0 <= z < |h| && h[z].Text? && forall j :: z < j < |h| ==> !h[j].Text?
  }

  /** A part of the last message that says something. */
  ghost predicate SpeaksAt(h: seq<Item>, i: int) {
    && 0 <= i < |h| && h[i].Text? && !Blank(h[i].text)
    && exists z :: IsLastText(h, z) && h[z].message == h[i].message
  }

  lemma {:induction false} LastErrorExists(h: seq<Item>)
    ensures LastError(h).Some? <==> exists i :: ErrorAt(h, i)
  {
    if h != [] {
      var before, n := h[..|h| - 1], |h| - 1;
      LastErrorExists(before);
      if i :| ErrorAt(before, i) {
        assert ErrorAt(h, i);
      }
      if i :| ErrorAt(h, i) {
        assert i < n ==> ErrorAt(before, i);
      }
      assert h[n].Error? ==> ErrorAt(h, n);
    }
  }

  lemma {:induction false} UnrecoveredExists(h: seq<Item>)
    ensures Unrecovered(h).Some? <==> exists i :: UnrecoveredAt(h, i)
  {
    if h != [] {
      var before, n := h[..|h| - 1], |h| - 1;
      UnrecoveredExists(before);
      if i :| UnrecoveredAt(before, i) && !h[n].Text? {
        assert UnrecoveredAt(h, i);
      }
      if i :| UnrecoveredAt(h, i) {
        assert i < n ==> !h[n].Text? && UnrecoveredAt(before, i);
      }
      assert h[n].RecoverableError? ==> UnrecoveredAt(h, n);
    }
  }

  lemma {:induction false} SkippedExists(h: seq<Item>)
    ensures SkippedAfterText(h) <==> exists i :: SkippedAt(h, i)
  {
    if h != [] {
      var before, n := h[..|h| - 1], |h| - 1;
      SkippedExists(before);
      if i :| SkippedAt(before, i) && !h[n].Text? {
        assert SkippedAt(h, i);
      }
      if i :| SkippedAt(h, i) {
        assert i < n ==> !h[n].Text? && SkippedAt(before, i);
      }
      assert h[n].Skipped? ==> SkippedAt(h, n);
    }
  }

  lemma {:induction false} JoinEmpty(parts: seq<string>)
    requires forall i :: 0 <= i < |parts| ==> parts[i] != ""
    ensures Join(parts) == "" <==> parts == []
  {
    if |parts| > 1 {
      JoinEmpty(parts[1..]);
    }
  }

  lemma {:induction false} PartsOfEmpty(texts: seq<TextPart>, message: string)
    ensures forall i :: 0 <= i < |PartsOf(texts, message)| ==> PartsOf(texts, message)[i] != ""
    ensures PartsOf(texts, message) == []
       <==> forall i :: 0 <= i < |texts| && texts[i].message == message ==> Blank(texts[i].text)
  {
    if texts != [] {
      PartsOfEmpty(texts[1..], message);
      TrimBlank(texts[0].text);
      assert forall i :: 1 <= i < |texts| ==> texts[i] == texts[1..][i - 1];
    }
  }

  /** `t` is the text part at index `i` of the output. */
  ghost predicate PartAt(h: seq<Item>, i: int, t: TextPart) {
    0 <= i < |h| && h[i] == Text(t.message, t.text)
  }

  lemma {:induction false} TextsAreItems(h: seq<Item>)
    ensures forall i :: 0 <= i < |h| && h[i].Text? ==> TextPart(h[i].message, h[i].text) in Texts(h)
    ensures forall t :: t in Texts(h) ==> exists i :: PartAt(h, i, t)
  {
    if h != [] {
      var before, n := h[..|h| - 1], |h| - 1;
      TextsAreItems(before);
      forall t | t in Texts(h)
        ensures exists i :: PartAt(h, i, t)
      {
        if t in Texts(before) {
          var i :| PartAt(before, i, t);
          assert PartAt(h, i, t);
        } else {
          assert PartAt(h, n, t);
        }
      }
    }
  }

  lemma {:induction false} LastTextIsLast(h: seq<Item>, z: int)
    requires IsLastText(h, z)
    ensures Texts(h) != [] && Texts(h)[|Texts(h)| - 1].message == h[z].message
  {
    if !h[|h| - 1].Text? {
      LastTextIsLast(h[..|h| - 1], z);
    }
  }

  lemma {:induction false} LastTextExists(h: seq<Item>) returns (z: int)
    requires Texts(h) != []
    ensures IsLastText(h, z)
  {
    z := |h| - 1;
    if !h[z].Text? {
      z := LastTextExists(h[..z]);
    }
  }

  lemma FinalMessageExists(h: seq<Item>)
    ensures FinalMessage(Texts(h)).Some? <==> exists i :: SpeaksAt(h, i)
  {
    hide Texts, PartsOf, Join, Blank;
    TextsAreItems(h);
    var texts := Texts(h);
    if texts != [] {
      var z := LastTextExists(h);
      LastTextIsLast(h, z);
      var message := h[z].message;
      PartsOfEmpty(texts, message);
      JoinEmpty(PartsOf(texts, message));
      if FinalMessage(texts).Some? {
        var k :| 0 <= k < |texts| && texts[k].message == message && !Blank(texts[k].text);
        assert texts[k] in texts;
        var i :| PartAt(h, i, texts[k]);
        assert SpeaksAt(h, i);
      } else {
        NobodySpeaks(h, z);
      }
    }
  }

  lemma NobodySpeaks(h: seq<Item>, z: int)
    requires IsLastText(h, z)
    requires forall k :: 0 <= k < |Texts(h)| && Texts(h)[k].message == h[z].message ==> Blank(Texts(h)[k].text)
    ensures !exists i :: SpeaksAt(h, i)
  {
    TextsAreItems(h);
  }

  /** The verdict read off the whole output. It is the harness's failure
      exactly when an error occurred or a recoverable one was never followed
      by a text; otherwise a reply exactly when the last message says
      something and no unreadable line follows the last text. */
  lemma VerdictReads(h: seq<Item>, exit: Exit)
    ensures (Verdict(h, exit).Failed? && Verdict(h, exit).failure.Harness?)
       <==> (exists i :: ErrorAt(h, i)) || (exists i :: UnrecoveredAt(h, i))
    ensures Verdict(h, exit).Reply?
       <==> && !(exists i :: ErrorAt(h, i)) && !(exists i :: UnrecoveredAt(h, i))
            && !(exists i :: SkippedAt(h, i)) && exists i :: SpeaksAt(h, i)
    ensures Verdict(h, exit).Failed? && !Verdict(h, exit).failure.Harness? ==>
              Verdict(h, exit).failure ==
              if exit.success then NoReply
              else if exit.recognized.Some? then Stderr(exit.recognized.value)
              else BadExit
  {
    LastErrorExists(h);
    UnrecoveredExists(h);
    SkippedExists(h);
    FinalMessageExists(h);
  }

  /** Of several errors the last one is told, and a recoverable one only
      where no error is. */
  lemma {:induction false} FailureReads(h: seq<Item>, exit: Exit, i: int)
    requires if exists j :: ErrorAt(h, j) then ErrorAt(h, i) && forall j :: i < j < |h| ==> !h[j].Error?
             else UnrecoveredAt(h, i) && forall j :: i < j < |h| ==> !h[j].RecoverableError?
    ensures Verdict(h, exit) == Failed(Harness(h[i].error))
  {
    LastErrorExists(h);
    if exists j :: ErrorAt(h, j) {
      LastErrorIs(h, i);
    } else {
      UnrecoveredIs(h, i);
    }
  }

  lemma {:induction false} LastErrorIs(h: seq<Item>, i: int)
    requires ErrorAt(h, i) && forall j :: i < j < |h| ==> !h[j].Error?
    ensures LastError(h) == Some(h[i].error)
  {
    if i < |h| - 1 {
      LastErrorIs(h[..|h| - 1], i);
    }
  }

  lemma {:induction false} UnrecoveredIs(h: seq<Item>, i: int)
    requires UnrecoveredAt(h, i) && forall j :: i < j < |h| ==> !h[j].RecoverableError?
    ensures Unrecovered(h) == Some(h[i].error)
  {
    if i < |h| - 1 {
      UnrecoveredIs(h[..|h| - 1], i);
    }
  }

  /** One part is itself, and between two lists of them is one newline. */
  lemma {:induction false} JoinsByNewlines(a: seq<string>, b: seq<string>, one: string)
    ensures Join([one]) == one
    ensures a != [] && b != [] ==> Join(a + b) == Join(a) + "\n" + Join(b)
  {
    if |a| > 1 && b != [] {
      JoinsByNewlines(a[1..], b, one);
      assert (a + b)[1..] == a[1..] + b;
      assert a[0] + "\n" + (Join(a[1..]) + "\n" + Join(b)) == (a[0] + "\n" + Join(a[1..])) + "\n" + Join(b);
    } else if a != [] && b != [] {
      assert (a + b)[1..] == b;
    }
  }

  /** These are, in order, the texts of `message` that say something. */
  ghost predicate AreParts(h: seq<Item>, message: string, parts: seq<int>) {
    && (forall k, l :: 0 <= k < l < |parts| ==> parts[k] < parts[l])
    && (forall i :: i in parts <==> 0 <= i < |h| && h[i].Text? && h[i].message == message && !Blank(h[i].text))
  }

  function TrimmedAt(h: seq<Item>, parts: seq<int>): (texts: seq<string>)
    requires forall k :: 0 <= k < |parts| ==> 0 <= parts[k] < |h| && h[parts[k]].Text?
    ensures |texts| == |parts|
  {
    seq(|parts|, k requires 0 <= k < |parts| => Trim(h[parts[k]].text))
  }

  lemma PartsExist(h: seq<Item>, message: string, parts: seq<int>)
    requires AreParts(h, message, parts)
    ensures forall k :: 0 <= k < |parts| ==> 0 <= parts[k] < |h| && h[parts[k]].Text?
  {
    assert forall k :: 0 <= k < |parts| ==> parts[k] in parts;
  }

  /** The reply is each text of the last message that says something, trimmed,
      in the order written, a line each. */
  lemma ReplyReads(h: seq<Item>, exit: Exit, z: int, message: string, parts: seq<int>)
    requires IsLastText(h, z) && h[z].message == message && AreParts(h, message, parts) && parts != []
    ensures forall k :: 0 <= k < |parts| ==> 0 <= parts[k] < |h| && h[parts[k]].Text?
    ensures Verdict(h, exit).Reply? ==> Verdict(h, exit).text == Join(TrimmedAt(h, parts))
  {
    hide *;
    PartsExist(h, message, parts);
    LastTextIsLast(h, z);
    PartsAre(h, message, parts);
    FinalIs(Texts(h), message);
    ReplyIsFinal(h, exit);
  }

  lemma ReplyIsFinal(h: seq<Item>, exit: Exit)
    ensures Verdict(h, exit).Reply? ==> FinalMessage(Texts(h)) == Some(Verdict(h, exit).text)
  {
    hide FinalMessage, Texts, LastError, Unrecovered, SkippedAfterText;
  }

  lemma FinalIs(texts: seq<TextPart>, message: string)
    requires texts != [] && texts[|texts| - 1].message == message && PartsOf(texts, message) != []
    ensures FinalMessage(texts) == Some(Join(PartsOf(texts, message)))
  {
    hide PartsOf, Join;
    PartsOfEmpty(texts, message);
    JoinEmpty(PartsOf(texts, message));
  }

  lemma {:induction false} PartsAre(h: seq<Item>, message: string, parts: seq<int>)
    requires AreParts(h, message, parts)
    requires forall k :: 0 <= k < |parts| ==> 0 <= parts[k] < |h| && h[parts[k]].Text?
    ensures PartsOf(Texts(h), message) == TrimmedAt(h, parts)
  {
    hide Blank, Trim, PartsOf, Texts;
    if h == [] {
      NoParts(message, parts, |h|);
    } else {
      var n := |h| - 1;
      var before := h[..n];
      TextsNext(h);
      if h[n].Text? {
        TrimBlank(h[n].text);
        PartsOfAppend(Texts(before), TextPart(h[n].message, h[n].text), message);
      }
      if n in parts {
        var m := |parts| - 1;
        PartsBefore(h, message, parts);
        PartsAre(before, message, parts[..m]);
        assert TrimmedAt(h, parts) == TrimmedAt(before, parts[..m]) + [Trim(h[n].text)];
      } else {
        assert h[n].Text? ==> h[n].message != message || Blank(h[n].text);
        assert AreParts(before, message, parts);
        PartsExist(before, message, parts);
        PartsAre(before, message, parts);
        assert TrimmedAt(h, parts) == TrimmedAt(before, parts);
      }
    }
  }

  lemma NoParts(message: string, parts: seq<int>, n: nat)
    requires forall k :: 0 <= k < |parts| ==> 0 <= parts[k] < n
    ensures n == 0 ==> parts == []
    ensures Texts([]) == [] && PartsOf([], message) == []
  {
    if parts != [] {
      assert parts[0] < n;
    }
  }

  lemma TextsNext(h: seq<Item>)
    requires h != []
    ensures var x := h[|h| - 1];
            Texts(h) == if x.Text? then Texts(h[..|h| - 1]) + [TextPart(x.message, x.text)] else Texts(h[..|h| - 1])
  {
  }

  lemma PartsBefore(h: seq<Item>, message: string, parts: seq<int>)
    requires AreParts(h, message, parts) && h != [] && |h| - 1 in parts
    ensures parts != [] && parts[|parts| - 1] == |h| - 1
    ensures AreParts(h[..|h| - 1], message, parts[..|parts| - 1])
    ensures forall k :: 0 <= k < |parts| - 1 ==> 0 <= parts[k] < |h| - 1 && h[parts[k]].Text?
  {
    hide Blank;
    var m, n := |parts| - 1, |h| - 1;
    PartsExist(h, message, parts);
    var k :| 0 <= k < |parts| && parts[k] == n;
    assert parts[m] in parts;
    assert k == m;
    assert parts == parts[..m] + [n];
  }

  lemma {:induction false} PartsOfAppend(texts: seq<TextPart>, t: TextPart, message: string)
    ensures PartsOf(texts + [t], message)
         == PartsOf(texts, message) + if t.message == message && Trim(t.text) != [] then [Trim(t.text)] else []
  {
    hide Trim;
    if texts != [] {
      assert (texts + [t])[1..] == texts[1..] + [t];
      PartsOfAppend(texts[1..], t, message);
    } else {
      assert [t][1..] == [] && texts + [t] == [t];
    }
  }

  // ----- The reader -----

  class StreamState {
    const words: Words
    ghost const start: SessionRef
    var sessionId: Option<string>
    var pending: bool
    const tracker: InterimTracker
    var activity: Option<string>
    var texts: seq<TextPart>
    var error: Option<string>
    var recoverable: Option<string>
    var skippedAfterText: bool
    /** The output taken so far. */
    ghost var history: seq<Item>

    ghost predicate Valid()
      reads this, tracker
    {
      && tracker.Valid() && tracker.words == words && tracker.beats == Beats(history)
      && sessionId == CurrentId(start, history)
      && pending == Pending(start, history)
      && activity == LastLabel(words, Beats(history), None)
      && ReadsOutput()
    }

    /** What the verdict is made from. */
    ghost predicate ReadsOutput()
      reads this
    {
      && texts == Texts(history)
      && error == LastError(history)
      && recoverable == Unrecovered(history)
      && skippedAfterText == SkippedAfterText(history)
    }

    constructor ForSession(words: Words, session: SessionRef)
      ensures Valid() && fresh(tracker)
      ensures this.words == words && start == session && history == []
    {
      this.words, start := words, session;
      sessionId, pending := session.sessionId, session.pending && session.sessionId.Some?;
      tracker := new InterimTracker(words);
      activity, texts, error, recoverable, skippedAfterText := None, [], None, None, false;
      history := [];
    }

    /** Take one event; what it sends is what the whole output is worth so far. */
    method Take(event: Event, updates: TurnUpdates)
      requires Valid() && updates.Valid()
      modifies this, tracker, updates`sent, updates`latest
      ensures Valid() && updates.Valid()
      ensures history == old(history) + [event]
      ensures updates.sent == old(updates.sent) + SentFor(words, start, old(history), event)
    {
      hide CurrentId, Pending, Beats, Texts, LastError, Unrecovered, SkippedAfterText, AfterLastCall, LastLabel,
           NewestIds, Chosen, Worth, SessionReport, InterimTracker.Valid, TurnUpdates.Valid;
      match event {
        case SessionIs(id) => OnSession(id, updates);
        case Text(message, text) => OnText(message, text, updates);
        case Tool(name) => OnTool(name, updates);
        case Error(message) =>
          HistoryStep(start, history, event);
          SessionReportCases(start, history, event);
          error := Some(message);
          history := history + [event];
        case RecoverableError(message) =>
          HistoryStep(start, history, event);
          SessionReportCases(start, history, event);
          recoverable := Some(message);
          history := history + [event];
      }
    }

    method OnSession(id: string, updates: TurnUpdates)
      requires Valid() && updates.Valid()
      modifies this, tracker, updates`sent, updates`latest
      ensures Valid() && updates.Valid()
      ensures history == old(history) + [SessionIs(id)]
      ensures updates.sent == old(updates.sent) + SentFor(words, start, old(history), SessionIs(id))
    {
      hide CurrentId, Pending, Beats, Texts, LastError, Unrecovered, SkippedAfterText, AfterLastCall, LastLabel,
           NewestIds, Chosen, Worth, SessionReport, InterimTracker.Valid, TurnUpdates.Valid;
      HistoryStep(start, history, SessionIs(id));
      SessionReportCases(start, history, SessionIs(id));
      if sessionId != Some(id) {
        sessionId := Some(id);
        pending := false;
        Report(updates);
      }
      history := history + [SessionIs(id)];
    }

    method OnText(message: string, text: string, updates: TurnUpdates)
      requires Valid() && updates.Valid()
      modifies this, tracker, updates`sent, updates`latest
      ensures Valid() && updates.Valid()
      ensures history == old(history) + [Text(message, text)]
      ensures updates.sent == old(updates.sent) + SentFor(words, start, old(history), Text(message, text))
    {
      hide CurrentId, Pending, Beats, Texts, LastError, Unrecovered, SkippedAfterText, AfterLastCall, LastLabel,
           NewestIds, Chosen, Worth, SessionReport, InterimTracker.Valid, TurnUpdates.Valid;
      HistoryStep(start, history, Text(message, text));
      SessionReportCases(start, history, Text(message, text));
      ExtendTail(words, Beats(history), None, Say(text));
      Confirm(updates);
      tracker.OnText(text);
      texts := texts + [TextPart(message, text)];
      skippedAfterText := false;
      recoverable := None;
      history := history + [Text(message, text)];
    }

    method OnTool(name: string, updates: TurnUpdates)
      requires Valid() && updates.Valid()
      modifies this, tracker, updates`sent, updates`latest
      ensures Valid() && updates.Valid()
      ensures history == old(history) + [Tool(name)]
      ensures updates.sent == old(updates.sent) + SentFor(words, start, old(history), Tool(name))
    {
      hide CurrentId, Pending, Beats, Texts, LastError, Unrecovered, SkippedAfterText, AfterLastCall, LastLabel,
           NewestIds, Chosen, Worth, SessionReport, InterimTracker.Valid, TurnUpdates.Valid;
      HistoryStep(start, history, Tool(name));
      SessionReportCases(start, history, Tool(name));
      ExtendTail(words, Beats(history), None, Call(name));
      Confirm(updates);
      Show(name, updates);
      history := history + [Tool(name)];
    }

    /** The tool's label, when it is new, then the text it releases. */
    method Show(name: string, updates: TurnUpdates)
      requires tracker.Valid() && tracker.words == words && updates.Valid()
      requires activity == LastLabel(words, tracker.beats, None)
      modifies this`activity, tracker, updates`sent, updates`latest
      ensures tracker.Valid() && updates.Valid()
      ensures tracker.beats == old(tracker.beats) + [Call(name)]
      ensures activity == Some(words.labelOf(name))
      ensures updates.sent == old(updates.sent) + Worth(words, old(tracker.beats), None, Call(name))
    {
      var tag := words.labelOf(name);
      if activity != Some(tag) {
        activity := Some(tag);
        updates.Send(Activity(tag));
      }
      var raw := tracker.OnTool(name);
      if raw.Some? {
        updates.Send(Interim(raw.value));
      }
    }

    /** A line too long to read was skipped. */
    method SkippedLine()
      requires Valid()
      modifies this
      ensures Valid() && history == old(history) + [Skipped]
      ensures SentFor(words, start, old(history), Skipped) == []
    {
      HistoryStep(start, history, Skipped);
      skippedAfterText := true;
      history := history + [Skipped];
    }

    /** No more output: nothing held is sent as an interim. */
    method End()
      requires Valid()
      modifies tracker
      ensures ReadsOutput() && tracker.pending == None
    {
      tracker.End();
    }

    method Confirm(updates: TurnUpdates)
      requires updates.Valid()
      modifies this`pending, updates`sent, updates`latest
      ensures !pending && updates.Valid()
      ensures updates.sent == old(updates.sent)
              + if old(pending) then [Session(SessionRef(sessionId, None, None, false))] else []
    {
      if pending {
        pending := false;
        Report(updates);
      }
    }

    method Report(updates: TurnUpdates)
      requires updates.Valid()
      modifies updates`sent, updates`latest
      ensures updates.Valid()
      ensures updates.sent == old(updates.sent) + [Session(SessionRef(sessionId, None, None, pending))]
    {
      updates.Send(Session(SessionRef(sessionId, None, None, pending)));
    }

    function FinalReply(): Option<string>
      reads this
    {
      if skippedAfterText then None else FinalMessage(texts)
    }

    /** How the turn ended (`outcome`). */
    method TurnOutcome(exit: Exit) returns (outcome: Outcome)
      requires ReadsOutput()
      ensures outcome == Verdict(history, exit)
    {
      if error.Some? {
        return Failed(Harness(error.value));
      }
      if recoverable.Some? {
        return Failed(Harness(recoverable.value));
      }
      var reply := FinalReply();
      if reply.Some? {
        return Reply(reply.value);
      }
      if exit.success {
        return Failed(NoReply);
      }
      if exit.recognized.Some? {
        return Failed(Stderr(exit.recognized.value));
      }
      return Failed(BadExit);
    }
  }

  /** How each reading of the output takes one more item. */
  lemma HistoryStep(start: SessionRef, h: seq<Item>, x: Item)
    ensures Beats(h + [x]) == if BeatOf(x) == [] then Beats(h) else Beats(h) + BeatOf(x)
    ensures Texts(h + [x]) == if x.Text? then Texts(h) + [TextPart(x.message, x.text)] else Texts(h)
    ensures LastError(h + [x]) == if x.Error? then Some(x.error) else LastError(h)
    ensures Unrecovered(h + [x])
         == if x.RecoverableError? then Some(x.error) else if x.Text? then None else Unrecovered(h)
    ensures SkippedAfterText(h + [x]) <==> x.Skipped? || (!x.Text? && SkippedAfterText(h))
    ensures Pending(start, h + [x])
       <==> Pending(start, h) && !Works(x) && (x.SessionIs? ==> Some(x.id) == CurrentId(start, h))
    ensures CurrentId(start, h + [x]) == if x.SessionIs? then Some(x.id) else CurrentId(start, h)
  {
    assert (h + [x])[..|h|] == h;
    PendingStep(start, h, x);
  }

  /** The session update is sent for another id, and for the first text or
      tool call of a pending one. */
  lemma SessionReportCases(start: SessionRef, h: seq<Item>, x: Item)
    ensures SessionReport(start, h, x)
         == if x.SessionIs? && CurrentId(start, h) != Some(x.id)
            then [Session(SessionRef(Some(x.id), None, None, false))]
            else if Works(x) && Pending(start, h)
            then [Session(SessionRef(CurrentId(start, h), None, None, false))]
            else []
  {
    PendingStep(start, h, x);
  }

  lemma PendingStep(start: SessionRef, h: seq<Item>, x: Item)
    ensures Pending(start, h + [x])
       <==> Pending(start, h) && !Works(x) && (x.SessionIs? ==> Some(x.id) == CurrentId(start, h))
    ensures CurrentId(start, h + [x]) == if x.SessionIs? then Some(x.id) else CurrentId(start, h)
  {
    assert (h + [x])[..|h|] == h;
    if Pending(start, h) {
      PendingKeepsId(start, h);
    }
  }
}
