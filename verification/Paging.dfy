/** Reading a transcript page by page (`get_transcript`, src/mcp.rs). */
module Paging {
  import opened Basics

  const CHARS_DEFAULT := 20_000
  const CHARS_MIN := 2_000
  const CHARS_MAX := 100_000

  /** A transcript line, as rendered. */
  datatype Line = Line(speaker: string, startMs: nat, endMs: nat, rendered: string)

  /** The lines asked for: of one speaker, or between two times. */
  datatype Filter = Filter(speaker: Option<string>, startMs: Option<nat>, endMs: Option<nat>)

  /** The line overlaps the time asked for and is the speaker's. */
  predicate Matches(f: Filter, line: Line) {
    && (f.speaker.Some? ==> line.speaker == f.speaker.value)
    && (f.startMs.Some? ==> line.endMs > f.startMs.value)
    && (f.endMs.Some? ==> line.startMs < f.endMs.value)
  }

  /** A line that takes time matches exactly when it is the speaker's and some
      moment of it is one asked for. */
  lemma MatchesOverlap(f: Filter, line: Line)
    requires line.startMs < line.endMs && Ordered(f)
    ensures Matches(f, line) <==>
              && (f.speaker == None || f.speaker == Some(line.speaker))
              && exists t :: IsDuring(f, line, t)
  {
    if Matches(f, line) {
      var t := if f.startMs.Some? && f.startMs.value > line.startMs then f.startMs.value else line.startMs;
      assert IsDuring(f, line, t);
    }
  }

  /** `t` is a moment of the line that was asked for. */
  predicate IsDuring(f: Filter, line: Line, t: nat) {
    && line.startMs <= t < line.endMs
    && (f.startMs.Some? ==> f.startMs.value <= t) && (f.endMs.Some? ==> t < f.endMs.value)
  }

  /** As the page loop tests it. */
  predicate Skips(f: Filter, line: Line)
    ensures Skips(f, line) <==> !Matches(f, line)
  {
    || (f.speaker.Some? && f.speaker.value != line.speaker)
    || (f.startMs.Some? && line.endMs <= f.startMs.value)
    || (f.endMs.Some? && line.startMs >= f.endMs.value)
  }

  function Matching(f: Filter, lines: seq<Line>): seq<Line> {
    if lines == [] then []
    else
      Matching(f, lines[..|lines| - 1])
      + if Matches(f, lines[|lines| - 1]) then [lines[|lines| - 1]] else []
  }

  /** The lines as text, each with its newline. */
  function Text(lines: seq<Line>): string {
    if lines == [] then "" else Text(lines[..|lines| - 1]) + lines[|lines| - 1].rendered + "\n"
  }

  lemma {:induction false} MatchingAppend(f: Filter, a: seq<Line>, b: seq<Line>)
    ensures Matching(f, a + b) == Matching(f, a) + Matching(f, b)
    ensures forall x :: Matching(f, [x]) == if Matches(f, x) then [x] else []
  {
    assert forall x: Line :: [x][..0] == [] && Matching(f, []) == [];
    if b == [] {
      assert a + b == a;
    } else {
      assert (a + b)[..|a + b| - 1] == a + b[..|b| - 1];
      MatchingAppend(f, a, b[..|b| - 1]);
    }
  }

  lemma {:induction false} TextAppend(a: seq<Line>, b: seq<Line>)
    ensures Text(a + b) == Text(a) + Text(b)
    ensures forall x :: Text([x]) == x.rendered + "\n"
  {
    assert forall x: Line :: [x][..0] == [] && Text([]) == "";
    if b == [] {
      assert a + b == a;
    } else {
      var front, last := b[..|b| - 1], b[|b| - 1];
      assert (a + b)[..|a + b| - 1] == a + front;
      TextAppend(a, front);
      assert Text(a + b) == Text(a) + (Text(front) + last.rendered + "\n");
    }
  }

  function Clamp(value: Option<nat>, default: nat, min: nat, max: nat): (r: nat)
    requires min <= default <= max
    ensures min <= r <= max
    ensures value.Some? && min <= value.value <= max ==> r == value.value
    ensures value.Some? && value.value < min ==> r == min
    ensures value.Some? && value.value > max ==> r == max
    ensures value == None ==> r == default
  {
    var v := if value.Some? then value.value else default;
    if v < min then min else if v > max then max else v
  }

  datatype Error = EndBeforeStart | PastTheEnd

  datatype Page = Page(transcript: string, returned: nat, nextOffset: Option<nat>)

  datatype Result = Ok(page: Page) | Err(error: Error)

  predicate Ordered(f: Filter) {
    f.startMs.Some? && f.endMs.Some? ==> f.startMs.value < f.endMs.value
  }

  /** Where the page ends in `lines`. */
  function PageEnd(lines: seq<Line>, page: Page): nat {
    if page.nextOffset.Some? then page.nextOffset.value else |lines|
  }

  /** A page from `offset`: the matching lines up to its end and no others,
      within the cap unless it is one longer line; and it goes on exactly when
      a matching line is left, the first that would not have fit. */
  ghost predicate IsPage(f: Filter, lines: seq<Line>, offset: nat, maxChars: nat, page: Page) {
    var end := PageEnd(lines, page);
    && offset <= end <= |lines|
    && var shown := Matching(f, lines[offset..end]);
       && page.transcript == Text(shown) && page.returned == |shown|
       && (|page.transcript| <= maxChars || page.returned == 1)
       && (page.nextOffset.Some? ==>
             && offset < end < |lines| && page.returned > 0 && Matches(f, lines[end])
             && |page.transcript| + |lines[end].rendered| + 1 > maxChars)
  }

  /** One page of the transcript. */
  method Transcript(lines: seq<Line>, f: Filter, offset: Option<nat>, maxChars: Option<nat>) returns (result: Result)
    ensures result == Err(EndBeforeStart) <==> f.startMs.Some? && f.endMs.Some? && f.endMs.value <= f.startMs.value
    ensures result == Err(PastTheEnd) <==> Ordered(f) && offset.Some? && offset.value > |lines|
    ensures result.Ok? <==> Ordered(f) && (offset.Some? ==> offset.value <= |lines|)
    ensures result.Ok? ==>
              IsPage(f, lines, if offset.Some? then offset.value else 0,
                     Clamp(maxChars, CHARS_DEFAULT, CHARS_MIN, CHARS_MAX), result.page)
  {
    if f.startMs.Some? && f.endMs.Some? && f.endMs.value <= f.startMs.value {
      return Err(EndBeforeStart);
    }
    var from := if offset.Some? then offset.value else 0;
    if from > |lines| {
      return Err(PastTheEnd);
    }
    var max := Clamp(maxChars, CHARS_DEFAULT, CHARS_MIN, CHARS_MAX);
    var page := PageFrom(lines, f, from, max);
    return Ok(page);
  }

  method PageFrom(lines: seq<Line>, f: Filter, from: nat, max: nat) returns (page: Page)
    requires from <= |lines|
    ensures IsPage(f, lines, from, max, page)
  {
    hide Matching, Text, Matches, Skips;
    PageStarts(f, lines, from);
    var text := "";
    var chars, returned, next := 0, 0, None;
    var i := from;
    while i < |lines|
      invariant from <= i <= |lines|
      invariant text == Text(Matching(f, lines[from..i]))
      invariant chars == |text| && returned == |Matching(f, lines[from..i])|
      invariant chars <= max || returned == 1
      invariant next == None && (returned == 0 ==> chars == 0)
    {
      var line := lines[i];
      PageGrows(f, lines, from, i);
      if Skips(f, line) {
        i := i + 1;
        continue;
      }
      var len := |line.rendered| + 1;
      if returned > 0 && chars + len > max {
        next := Some(i);
        break;
      }
      text := text + line.rendered + "\n";
      chars := chars + len;
      returned := returned + 1;
      i := i + 1;
    }
    return Page(text, returned, next);
  }

  lemma PageStarts(f: Filter, lines: seq<Line>, from: nat)
    requires from <= |lines|
    ensures Matching(f, lines[from..from]) == [] && Text([]) == ""
  {
  }

  lemma PageGrows(f: Filter, lines: seq<Line>, from: nat, i: nat)
    requires from <= i < |lines|
    ensures Matching(f, lines[from..i + 1])
         == if Matches(f, lines[i]) then Matching(f, lines[from..i]) + [lines[i]] else Matching(f, lines[from..i])
    ensures Text(Matching(f, lines[from..i]) + [lines[i]]) == Text(Matching(f, lines[from..i])) + lines[i].rendered + "\n"
    ensures from == i ==> Matching(f, lines[from..i]) == []
  {
    assert lines[from..i + 1][..i - from] == lines[from..i];
    var shown := Matching(f, lines[from..i]);
    assert (shown + [lines[i]])[..|shown|] == shown;
  }

  /** Following `nextOffset` from the start, with any page sizes, ends; the
      pages joined are every matching line in order, no gap and no repeat. */
  method FollowPages(lines: seq<Line>, f: Filter, sizes: nat -> Option<nat>) returns (pages: seq<Page>)
    requires Ordered(f)
    ensures Joined(pages) == Text(Matching(f, lines))
    ensures Returned(pages) == |Matching(f, lines)|
    ensures 1 <= |pages| <= |lines| + 1
  {
    hide Matching, Text, Matches;
    PageStarts(f, lines, 0);
    pages := [];
    var offset := Some(0);
    while offset.Some?
      invariant offset.Some? ==> |pages| <= offset.value < |lines| + 1
      invariant offset == None ==> 1 <= |pages| <= |lines| + 1
      invariant Joined(pages) == Text(Matching(f, lines[..if offset.Some? then offset.value else |lines|]))
      invariant Returned(pages) == |Matching(f, lines[..if offset.Some? then offset.value else |lines|])|
      decreases if offset.Some? then |lines| + 1 - offset.value else 0
    {
      var result := Transcript(lines, f, offset, sizes(|pages|));
      var page := result.page;
      var end := PageEnd(lines, page);
      assert lines[..end] == lines[..offset.value] + lines[offset.value..end];
      MatchingAppend(f, lines[..offset.value], lines[offset.value..end]);
      TextAppend(Matching(f, lines[..offset.value]), Matching(f, lines[offset.value..end]));
      JoinedAppend(pages, page);
      pages := pages + [page];
      offset := page.nextOffset;
    }
    assert lines[..|lines|] == lines;
  }

  function Joined(pages: seq<Page>): string {
    if pages == [] then "" else Joined(pages[..|pages| - 1]) + pages[|pages| - 1].transcript
  }

  function Returned(pages: seq<Page>): nat {
    if pages == [] then 0 else Returned(pages[..|pages| - 1]) + pages[|pages| - 1].returned
  }

  lemma JoinedAppend(pages: seq<Page>, page: Page)
    ensures Joined(pages + [page]) == Joined(pages) + page.transcript
    ensures Returned(pages + [page]) == Returned(pages) + page.returned
  {
    assert (pages + [page])[..|pages|] == pages;
  }
}
