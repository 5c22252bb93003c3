/** What the agent overlay shows (src/agent/display.rs). Times are
    milliseconds; every time is passed in. */
module Board {
  import opened Basics

  const DONE_HOLD := 2500
  const DONE_FADE := 600
  const MAX_ROWS := 4
  const NEEDS_YOU_ACTIVITY := "Waiting for your approval"

  datatype Visual = Listening | Transcribing | Working | Speaking | NeedsYou | Done | Failed

  /** One row of the overlay. */
  datatype Row = Row(
    name: string,
    visual: Visual,
    activity: Option<string>,
    since: nat,
    fadingFrom: Option<nat>)

  datatype Turn = Turn(since: nat, activity: Option<string>)
  datatype Ending = Ending(ok: bool, since: nat, at: nat)

  datatype Slot = Slot(
    name: string,
    turn: Option<Turn>,
    needsYou: Option<nat>,
    ended: Option<Ending>,
    pending: bool,
    pendingCleared: Option<nat>)

  datatype Voice = Voice(name: string, visual: Visual, since: nat)

  // ----- The card's texts -----

  function Decimal(n: nat): string {
    (if n < 10 then "" else Decimal(n / 10)) + ["0123456789"[n % 10]]
  }

  function TwoDigits(n: nat): string
    requires n < 100
  {
    if n < 10 then "0" + Decimal(n) else Decimal(n)
  }

  /** `m:ss`, `h:mm:ss` from an hour. */
  function Clock(ms: nat): string {
    var secs := ms / 1000;
    var h, m, s := secs / 3600, secs / 60 % 60, secs % 60;
    if h > 0 then Decimal(h) + ":" + TwoDigits(m) + ":" + TwoDigits(s) else Decimal(m) + ":" + TwoDigits(s)
  }

  /** The number a string of digits is. */
  function NumberOf(s: string): int {
    if s == "" then 0 else NumberOf(s[..|s| - 1]) * 10 + (s[|s| - 1] as int - '0' as int)
  }

  predicate IsNumber(s: string, n: nat) {
    s != "" && NumberOf(s) == n && forall i :: 0 <= i < |s| ==> '0' <= s[i] <= '9'
  }

  /** The digits of a number, and no zero in front. */
  lemma {:induction false} DecimalReads(n: nat)
    ensures IsNumber(Decimal(n), n) && (Decimal(n)[0] == '0' ==> n == 0) && (n < 10 <==> |Decimal(n)| == 1)
    ensures n < 100 ==> |Decimal(n)| <= 2
  {
    var last := "0123456789"[n % 10];
    assert last as int == '0' as int + n % 10;
    if n >= 10 {
      DecimalReads(n / 10);
      assert Decimal(n)[..|Decimal(n)| - 1] == Decimal(n / 10);
    } else {
      assert Decimal(n) == [last] && Decimal(n)[..0] == "";
    }
  }

  lemma TwoDigitsRead(n: nat)
    requires n < 100
    ensures IsNumber(TwoDigits(n), n) && |TwoDigits(n)| == 2
  {
    DecimalReads(n);
    if n < 10 {
      assert TwoDigits(n)[..1] == "0" && "0"[..0] == "";
    }
  }

  /** A clock shows the whole seconds: the minutes and two digits of seconds,
      from an hour on the hours first and two digits of minutes. */
  lemma ClockReads(ms: nat)
    ensures ms < 3_600_000 ==> exists m, s :: ShowsMinutes(ms, m, s)
    ensures ms >= 3_600_000 ==> exists h, m, s :: ShowsHours(ms, h, m, s)
  {
    hide Decimal, TwoDigits, IsNumber;
    var secs := ms / 1000;
    var m, s := secs / 60 % 60, secs % 60;
    Seconds(ms, secs);
    TwoDigitsRead(s);
    TwoDigitsRead(m);
    if ms < 3_600_000 {
      assert Clock(ms) == Decimal(m) + ":" + TwoDigits(s);
      assert ShowsMinutes(ms, m, s);
    } else {
      assert ShowsHours(ms, secs / 3600, m, s);
    }
  }

  lemma Seconds(ms: nat, secs: nat)
    requires secs == ms / 1000
    ensures secs == secs / 3600 * 3600 + secs / 60 % 60 * 60 + secs % 60
    ensures ms < 3_600_000 <==> secs / 3600 == 0
    ensures secs / 3600 == 0 ==> secs / 60 % 60 * 60 + secs % 60 == secs
  {
  }

  /** The time is `m` minutes and `s` seconds, and shown so. */
  ghost predicate ShowsMinutes(ms: nat, m: nat, s: nat) {
    && s < 60 && m * 60 + s == ms / 1000
    && exists ss :: Clock(ms) == Decimal(m) + ":" + ss && |ss| == 2 && IsNumber(ss, s)
  }

  /** The time is `h` hours, `m` minutes and `s` seconds, and shown so. */
  ghost predicate ShowsHours(ms: nat, h: nat, m: nat, s: nat) {
    && m < 60 && s < 60 && h * 3600 + m * 60 + s == ms / 1000
    && exists mm, ss :: Clock(ms) == Decimal(h) + ":" + mm + ":" + ss && |mm| == 2 == |ss| && IsNumber(mm, m) && IsNumber(ss, s)
  }

  /** The time from `start` to `end`, zero when it is earlier. */
  function Elapsed(start: nat, end: nat): nat {
    if end <= start then 0 else end - start
  }

  // ----- Composition -----

  /** The moment an ended row begins to fade, provided its agent has nothing
      left to say. */
  function FadeStart(ended: Ending, cleared: Option<nat>): nat {
    (if cleared.Some? && cleared.value > ended.at then cleared.value else ended.at) + DONE_HOLD
  }

  /** The row of an agent at `now`, in the state that wins. */
  function Entry(voice: Option<Voice>, slot: Slot, now: nat): Option<Row> {
    if voice.Some? && voice.value.name == slot.name then
      var v := voice.value;
      var activity := if slot.turn.Some? then slot.turn.value.activity else None;
      var since := if slot.turn.Some? && v.visual == Speaking then slot.turn.value.since else v.since;
      Some(Row(slot.name, v.visual, activity, since, None))
    else if slot.needsYou.Some? then
      var since := if slot.turn.Some? then slot.turn.value.since else slot.needsYou.value;
      Some(Row(slot.name, NeedsYou, Some(NEEDS_YOU_ACTIVITY), since, None))
    else if slot.turn.Some? then
      Some(Row(slot.name, Working, slot.turn.value.activity, slot.turn.value.since, None))
    else if slot.ended.None? then None
    else
      var ended := slot.ended.value;
      var fadingFrom := if slot.pending then None else Some(FadeStart(ended, slot.pendingCleared));
      if fadingFrom.Some? && now >= fadingFrom.value + DONE_FADE then None
      else
        var took := Clock(Elapsed(ended.since, ended.at));
        var visual := if ended.ok then Done else Failed;
        var activity := (if ended.ok then "Finished in " else "Failed after ") + took;
        Some(Row(slot.name, visual, Some(activity), ended.since, fadingFrom))
  }

  /** The row of an agent whose voice is in use, who waits or who works, in
      that order, and none where nothing ended. */
  lemma EntryReads(voice: Option<Voice>, slot: Slot, now: nat)
    ensures var row, turn := Entry(voice, slot, now), slot.turn;
            if voice.Some? && voice.value.name == slot.name then
              row == Some(Row(slot.name, voice.value.visual, if turn.Some? then turn.value.activity else None,
                              if turn.Some? && voice.value.visual.Speaking? then turn.value.since else voice.value.since, None))
            else if slot.needsYou.Some? then
              row == Some(Row(slot.name, NeedsYou, Some("Waiting for your approval"),
                              if turn.Some? then turn.value.since else slot.needsYou.value, None))
            else if turn.Some? then row == Some(Row(slot.name, Working, turn.value.activity, turn.value.since, None))
            else slot.ended == None ==> row == None
  {
  }

  /** The row of an ended turn: for as long as its reply is pending, then for
      2.5 seconds from the end or from when the reply was over, whichever is
      `later`, and fading for 0.6 more. It tells how long the turn took. */
  lemma EndedRowReads(voice: Option<Voice>, slot: Slot, now: nat, later: nat)
    requires voice.Some? ==> voice.value.name != slot.name
    requires slot.needsYou == None && slot.turn == None && slot.ended.Some?
    requires later >= slot.ended.value.at && (slot.pendingCleared.Some? ==> later >= slot.pendingCleared.value)
    requires later == slot.ended.value.at || Some(later) == slot.pendingCleared
    ensures var ended, row := slot.ended.value, Entry(voice, slot, now);
            && (row.Some? <==> slot.pending || now < later + 2500 + 600)
            && (row.Some? ==>
                  && row.value.name == slot.name && row.value.since == ended.since
                  && row.value.visual == (if ended.ok then Done else Failed)
                  && row.value.fadingFrom == (if slot.pending then None else Some(later + 2500))
                  && (ended.at >= ended.since ==>
                        row.value.activity ==
                          Some((if ended.ok then "Finished in " else "Failed after ") + Clock(ended.at - ended.since))))
  {
    hide Clock;
  }

  /** The rows at `now`, in config order. */
  function ComposeSlots(voice: Option<Voice>, slots: seq<Slot>, now: nat): seq<Row> {
    if slots == [] then []
    else Singleton(Entry(voice, slots[0], now)) + ComposeSlots(voice, slots[1..], now)
  }

  /** The earliest time a row of `rows` is gone. */
  function FirstGone(rows: seq<Row>): Option<nat> {
    if rows == [] then None
    else
      var rest := FirstGone(rows[1..]);
      if rows[0].fadingFrom.None? then rest
      else
        var gone := rows[0].fadingFrom.value + DONE_FADE;
        if rest.Some? && rest.value < gone then rest else Some(gone)
  }

  // ----- Time alone -----

  /** The row is still there at `t`. */
  predicate Lasts(row: Row, t: nat) {
    row.fadingFrom.Some? ==> t < row.fadingFrom.value + DONE_FADE
  }

  function Lasting(rows: seq<Row>, t: nat): seq<Row> {
    if rows == [] then []
    else (if Lasts(rows[0], t) then [rows[0]] else []) + Lasting(rows[1..], t)
  }

  lemma LastingFirst(rows: seq<Row>, t: nat)
    ensures Lasting([], t) == []
    ensures rows != [] ==> Lasting(rows, t) == (if Lasts(rows[0], t) then [rows[0]] else []) + Lasting(rows[1..], t)
  {
  }

  lemma {:induction false} LastingAppend(a: seq<Row>, b: seq<Row>, t: nat)
    ensures Lasting(a + b, t) == Lasting(a, t) + Lasting(b, t)
  {
    hide Lasts, Lasting;
    LastingFirst(a, t);
    if a == [] {
      assert a + b == b;
    } else {
      LastingFirst(a + b, t);
      assert (a + b)[1..] == a[1..] + b;
      LastingAppend(a[1..], b, t);
    }
  }

  lemma EntryLater(voice: Option<Voice>, slot: Slot, now: nat, t: nat)
    requires now <= t
    ensures Singleton(Entry(voice, slot, t)) == Lasting(Singleton(Entry(voice, slot, now)), t)
  {
    var row := Singleton(Entry(voice, slot, now));
    assert row != [] ==> row[1..] == [];
    hide Clock;
  }

  /** With time alone, a composition only loses rows, each at its own time,
      and keeps the others as they are. */
  lemma {:induction false} ComposeLater(voice: Option<Voice>, slots: seq<Slot>, now: nat, t: nat)
    requires now <= t
    ensures ComposeSlots(voice, slots, t) == Lasting(ComposeSlots(voice, slots, now), t)
  {
    hide Entry;
    if slots != [] {
      EntryLater(voice, slots[0], now, t);
      ComposeLater(voice, slots[1..], now, t);
      LastingAppend(Singleton(Entry(voice, slots[0], now)), ComposeSlots(voice, slots[1..], now), t);
    }
  }

  lemma {:induction false} FirstGoneIsFirst(rows: seq<Row>, t: nat)
    ensures FirstGone(rows) == None || t < FirstGone(rows).value ==> Lasting(rows, t) == rows
    ensures FirstGone(rows).Some? && FirstGone(rows).value <= t ==> |Lasting(rows, t)| < |rows|
    ensures |Lasting(rows, t)| <= |rows|
  {
    if rows != [] {
      FirstGoneIsFirst(rows[1..], t);
    }
  }

  lemma {:induction false} RowsAreThere(voice: Option<Voice>, slots: seq<Slot>, now: nat)
    ensures Lasting(ComposeSlots(voice, slots, now), now) == ComposeSlots(voice, slots, now)
  {
    ComposeLater(voice, slots, now, now);
  }

  /** A composition with something fading changes exactly at the time the
      timer is set for, by losing a row, and not before; one with nothing
      fading never changes. */
  lemma NextChangeIsExact(voice: Option<Voice>, slots: seq<Slot>, now: nat, t: nat)
    requires now <= t
    ensures var next := FirstGone(ComposeSlots(voice, slots, now));
            && (next.Some? ==> now < next.value)
            && (next == None || t < next.value ==> ComposeSlots(voice, slots, t) == ComposeSlots(voice, slots, now))
            && (next.Some? && next.value <= t ==> |ComposeSlots(voice, slots, t)| < |ComposeSlots(voice, slots, now)|)
  {
    ComposeLater(voice, slots, now, t);
    RowsAreThere(voice, slots, now);
    FirstGoneIsFirst(ComposeSlots(voice, slots, now), t);
    FirstGoneIsFirst(ComposeSlots(voice, slots, now), now);
  }

  lemma NextChangeAlways(voice: Option<Voice>, slots: seq<Slot>, now: nat)
    ensures var next := FirstGone(ComposeSlots(voice, slots, now));
            && (next.Some? ==>
                  now < next.value && |ComposeSlots(voice, slots, next.value)| < |ComposeSlots(voice, slots, now)|)
            && (forall t: nat :: now <= t && (next == None || t < next.value) ==>
                  ComposeSlots(voice, slots, t) == ComposeSlots(voice, slots, now))
  {
    hide ComposeSlots, FirstGone;
    var next := FirstGone(ComposeSlots(voice, slots, now));
    forall t: nat | now <= t && (next == None || t < next.value)
      ensures ComposeSlots(voice, slots, t) == ComposeSlots(voice, slots, now)
    {
      NextChangeIsExact(voice, slots, now, t);
    }
    NextChangeIsExact(voice, slots, now, now);
    if next.Some? {
      NextChangeIsExact(voice, slots, now, next.value);
    }
  }

  // ----- Opacity -----

  /** 1 until the row fades, then down to 0 over the fade. */
  function Alpha(row: Row, now: nat): real {
    if row.fadingFrom.None? then 1.0
    else
      var faded := Elapsed(row.fadingFrom.value, now);
      if faded >= DONE_FADE then 0.0 else 1.0 - faded as real / DONE_FADE as real
  }

  /** A row is drawn exactly while it is composed: its opacity is above zero
      until it is gone, and full until it starts to fade. */
  lemma AlphaFollowsTheRow(row: Row, now: nat)
    ensures Alpha(row, now) > 0.0 <==> Lasts(row, now)
    ensures 0.0 <= Alpha(row, now) <= 1.0
    ensures Alpha(row, now) == 1.0 <==> row.fadingFrom.None? || now <= row.fadingFrom.value
    ensures row.fadingFrom.Some? && row.fadingFrom.value <= now < row.fadingFrom.value + 600 ==>
              Alpha(row, now) * 600.0 == (row.fadingFrom.value + 600 - now) as real
  {
    if row.fadingFrom.Some? {
      var faded := Elapsed(row.fadingFrom.value, now);
      if faded < DONE_FADE {
        assert (faded as real / DONE_FADE as real) * DONE_FADE as real == faded as real;
      }
    }
  }

  // ----- What fits -----

  datatype Rows = Rows(shown: seq<Row>, more: nat)

  /** The rows to draw and the agents a "+N more" row stands for: all of them
      accounted for, and never more rows than there is room for. */
  function Split(entries: seq<Row>): (r: Rows)
    ensures r.shown <= entries && |r.shown| + r.more == |entries|
    ensures |r.shown| + (if r.more > 0 then 1 else 0) <= MAX_ROWS
    ensures |entries| <= MAX_ROWS ==> r.more == 0
    ensures r.more != 1 && (r.more > 0 ==> |r.shown| == MAX_ROWS - 1)
  {
    if |entries| <= MAX_ROWS then Rows(entries, 0) else Rows(entries[..MAX_ROWS - 1], |entries| - (MAX_ROWS - 1))
  }

  // ----- The board -----

  /** The agent's slot: the first with its name, `|slots|` for a name that is
      not configured. */
  function SlotOf(slots: seq<Slot>, name: string): (i: nat)
    ensures i <= |slots|
    ensures i < |slots| ==> slots[i].name == name
    ensures forall k :: 0 <= k < i ==> slots[k].name != name
  {
    if slots == [] then 0 else if slots[0].name == name then 0 else 1 + SlotOf(slots[1..], name)
  }

  /** Nothing but slot `i` differs, and not in what a turn does not touch. */
  ghost predicate OnlySlot(before: seq<Slot>, after: seq<Slot>, i: nat) {
    && |after| == |before|
    && (forall k :: 0 <= k < |before| && k != i ==> after[k] == before[k])
    && (i < |before| ==>
          && after[i].name == before[i].name
          && after[i].pending == before[i].pending && after[i].pendingCleared == before[i].pendingCleared)
  }

  /** A slot never holds a running turn and an ended one together. */
  ghost predicate Consistent(slots: seq<Slot>) {
    forall k :: 0 <= k < |slots| ==> slots[k].turn == None || slots[k].ended == None
  }

  predicate HasVoice(voice: Option<Voice>, slot: Slot) {
    voice.Some? && voice.value.name == slot.name
  }

  /** The row a turn's end leaves: there for as long as a reply is pending,
      then until it has faded. */
  ghost predicate ShowsEnd(voice: Option<Voice>, slot: Slot, ok: bool, since: nat)
    requires slot.ended.Some?
  {
    !HasVoice(voice, slot) ==>
      forall t: nat :: var row := Entry(voice, slot, t);
                  if slot.pending || t < FadeStart(slot.ended.value, slot.pendingCleared) + DONE_FADE then
                    row.Some? && row.value.visual == (if ok then Done else Failed) && row.value.since == since
                  else row == None
  }

  class Board {
    var slots: seq<Slot>
    var voice: Option<Voice>

    ghost predicate Valid()
      reads this
    {
      Consistent(slots)
    }

    constructor (names: seq<string>)
      ensures Valid() && voice == None && |slots| == |names|
      ensures forall k :: 0 <= k < |names| ==> slots[k].name == names[k] && !slots[k].pending
      ensures forall t :: ComposeSlots(voice, slots, t) == []
    {
      slots := seq(|names|, i requires 0 <= i < |names| => Slot(names[i], None, None, None, false, None));
      voice := None;
      new;
      forall t
        ensures ComposeSlots(voice, slots, t) == []
      {
        IdleShowsNothing(slots, t);
      }
    }

    function Compose(now: nat): seq<Row>
      reads this
    {
      ComposeSlots(voice, slots, now)
    }

    /** When the composition next changes with time alone. */
    function NextChange(now: nat): (next: Option<nat>)
      reads this
      ensures next.Some? ==> now < next.value && |Compose(next.value)| < |Compose(now)|
      ensures forall t: nat :: now <= t && (next == None || t < next.value) ==> Compose(t) == Compose(now)
    {
      NextChangeAlways(voice, slots, now);
      FirstGone(Compose(now))
    }

    /** The agent the voice belongs to and what it does, or nobody; the same
        again keeps its timer. */
    method SetVoice(to: Option<(string, Visual)>, at: nat)
      requires Valid()
      modifies this`voice
      ensures Valid()
      ensures to == None <==> voice == None
      ensures to.Some? ==>
                && voice.value.name == to.value.0 && voice.value.visual == to.value.1
                && var same := old(voice).Some? && old(voice).value.name == to.value.0
                               && old(voice).value.visual == to.value.1;
                   voice.value.since == if same then old(voice).value.since else at
    {
      if to == None {
        voice := None;
      } else if voice == None || voice.value.name != to.value.0 || voice.value.visual != to.value.1 {
        voice := Some(Voice(to.value.0, to.value.1, at));
      }
    }

    method TurnStarted(name: string, since: nat)
      requires Valid()
      modifies this`slots
      ensures Valid() && OnlySlot(old(slots), slots, SlotOf(old(slots), name))
      ensures var i := SlotOf(old(slots), name);
              i < |slots| ==> forall t :: !HasVoice(voice, slots[i]) ==>
                Entry(voice, slots[i], t) == Some(Row(name, Working, None, since, None))
    {
      var i := SlotOf(slots, name);
      if i < |slots| {
        slots := slots[i := slots[i].(turn := Some(Turn(since, None)), needsYou := None, ended := None)];
      }
    }

    /** The activity to show; without a running turn it changes nothing. */
    method SetActivity(name: string, activity: string)
      requires Valid()
      modifies this`slots
      ensures Valid() && OnlySlot(old(slots), slots, SlotOf(old(slots), name))
      ensures var i := SlotOf(old(slots), name);
              i < |slots| ==>
                slots[i] == if old(slots)[i].turn.None? then old(slots)[i]
                            else old(slots)[i].(turn := Some(Turn(old(slots)[i].turn.value.since, Some(activity))))
    {
      var i := SlotOf(slots, name);
      if i < |slots| && slots[i].turn.Some? {
        slots := slots[i := slots[i].(turn := Some(Turn(slots[i].turn.value.since, Some(activity))))];
      }
    }

    /** The user is asked for something; a wait that is shown already keeps the
        start it has. */
    method SetNeedsYou(name: string, now: nat)
      requires Valid()
      modifies this`slots
      ensures Valid() && OnlySlot(old(slots), slots, SlotOf(old(slots), name))
      ensures var i := SlotOf(old(slots), name);
              i < |slots| ==>
                && slots[i] == old(slots)[i].(needsYou := slots[i].needsYou)
                && slots[i].needsYou == (if old(slots)[i].needsYou.Some? then old(slots)[i].needsYou else Some(now))
                && forall t :: !HasVoice(voice, slots[i]) ==>
                     Entry(voice, slots[i], t).Some? && Entry(voice, slots[i], t).value.visual == NeedsYou
    {
      var i := SlotOf(slots, name);
      if i < |slots| && slots[i].needsYou.None? {
        slots := slots[i := slots[i].(needsYou := Some(now))];
      }
    }

    /** The turn runs again after a wait. */
    method SetWorking(name: string)
      requires Valid()
      modifies this`slots
      ensures Valid() && OnlySlot(old(slots), slots, SlotOf(old(slots), name))
      ensures var i := SlotOf(old(slots), name);
              i < |slots| ==> slots[i] == old(slots)[i].(needsYou := None)
    {
      var i := SlotOf(slots, name);
      if i < |slots| {
        slots := slots[i := slots[i].(needsYou := None)];
      }
    }

    /** The turn ended, or with none running the wait shown for the session's
        own work; ignored with neither. The end is timed from the start. */
    method TurnEnded(name: string, ok: bool, now: nat)
      requires Valid()
      modifies this`slots
      ensures Valid() && OnlySlot(old(slots), slots, SlotOf(old(slots), name))
      ensures var i := SlotOf(old(slots), name);
              i < |slots| ==>
                var was := old(slots)[i];
                && slots[i].turn == None && slots[i].needsYou == None
                && (was.turn == None && was.needsYou == None ==> slots[i] == was)
                && (was.turn.Some? || was.needsYou.Some? ==>
                      var since := if was.turn.Some? then was.turn.value.since else was.needsYou.value;
                      slots[i].ended == Some(Ending(ok, since, now)) && ShowsEnd(voice, slots[i], ok, since))
    {
      var i := SlotOf(slots, name);
      if i < |slots| {
        var slot := slots[i];
        var since := if slot.turn.Some? then Some(slot.turn.value.since) else slot.needsYou;
        var ended := if since.Some? then Some(Ending(ok, since.value, now)) else slot.ended;
        slots := slots[i := slot.(turn := None, needsYou := None, ended := ended)];
      }
    }

    /** The agents with an utterance queued or playing. */
    method SetPending(names: seq<string>, now: nat)
      requires Valid()
      modifies this`slots
      ensures Valid() && |slots| == |old(slots)|
      ensures forall k :: 0 <= k < |slots| ==>
                var was := old(slots)[k];
                && slots[k].pending == (was.name in names)
                && slots[k].pendingCleared == (if was.pending && was.name !in names then Some(now) else was.pendingCleared)
                && slots[k] == was.(pending := slots[k].pending, pendingCleared := slots[k].pendingCleared)
      ensures forall k :: 0 <= k < |slots| && slots[k].pending && slots[k].ended.Some? ==>
                forall t :: Entry(voice, slots[k], t).Some?
    {
      var i := 0;
      while i < |slots|
        invariant i <= |slots| == |old(slots)|
        invariant forall k :: i <= k < |slots| ==> slots[k] == old(slots)[k]
        invariant forall k :: 0 <= k < i ==>
                    var was := old(slots)[k];
                    && slots[k].pending == (was.name in names)
                    && slots[k].pendingCleared == (if was.pending && was.name !in names then Some(now) else was.pendingCleared)
                    && slots[k] == was.(pending := slots[k].pending, pendingCleared := slots[k].pendingCleared)
      {
        var slot := slots[i];
        var pending := slot.name in names;
        if slot.pending && !pending {
          slot := slot.(pendingCleared := Some(now));
        }
        slots := slots[i := slot.(pending := pending)];
        i := i + 1;
      }
    }

    /** Nothing of the agent is left to show, apart from a voice that belongs
        to it. */
    method Clear(name: string)
      requires Valid()
      modifies this`slots
      ensures Valid() && OnlySlot(old(slots), slots, SlotOf(old(slots), name))
      ensures var i := SlotOf(old(slots), name);
              i < |slots| ==> forall t :: Entry(voice, slots[i], t).Some? <==> HasVoice(voice, slots[i])
    {
      var i := SlotOf(slots, name);
      if i < |slots| {
        slots := slots[i := slots[i].(turn := None, needsYou := None, ended := None)];
      }
    }
  }

  lemma {:induction false} IdleShowsNothing(slots: seq<Slot>, t: nat)
    requires forall k :: 0 <= k < |slots| ==> slots[k].turn == None && slots[k].needsYou == None && slots[k].ended == None
    ensures ComposeSlots(None, slots, t) == []
  {
    if slots != [] {
      IdleShowsNothing(slots[1..], t);
    }
  }

  /** A Done or Error row never vanishes while its agent is pending and no
      turn runs: not with time, and whoever else's slot or voice changes. */
  lemma {:induction false} PendingRowStays(voice: Option<Voice>, slots: seq<Slot>, i: nat, t: nat)
    requires i < |slots| && slots[i].pending && slots[i].ended.Some?
    ensures exists row :: row in ComposeSlots(voice, slots, t) && row.name == slots[i].name && row.fadingFrom == None
  {
    if i == 0 {
      var row := Entry(voice, slots[0], t).value;
      assert row in Singleton(Entry(voice, slots[0], t));
      assert row in ComposeSlots(voice, slots, t);
    } else {
      PendingRowStays(voice, slots[1..], i - 1, t);
    }
  }
}
