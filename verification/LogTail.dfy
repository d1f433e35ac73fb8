/** Following a log: a cursor that delivers every complete line once. */
module LogTail {
  import opened Common
  import opened LogLines

  /** An emitted line, as its raw bytes without line ending and colour codes; the other fields derive from it. */
  datatype Event = Event(raw: Bytes)

  const RETURN: Byte := 13

  /** Removal of terminal colour codes. */
  type Stripper = Bytes -> Bytes

  function TrimLineEnd(line: Bytes): Bytes {
    if line != [] && LineEnd(line[|line| - 1]) then TrimLineEnd(line[..|line| - 1]) else line
  }

  predicate LineEnd(b: Byte) {
    b == RETURN || b == NEWLINE
  }

  /** Exactly the returns and newlines at the end of a line are taken off. */
  lemma {:induction false} TrimLineEndMeans(line: Bytes)
    ensures var kept := TrimLineEnd(line);
            && kept <= line
            && (kept == [] || !LineEnd(kept[|kept| - 1]))
            && forall i :: |kept| <= i < |line| ==> LineEnd(line[i])
  {
    if line != [] && LineEnd(line[|line| - 1]) {
      TrimLineEndMeans(line[..|line| - 1]);
    }
  }

  /** Empty lines give no event. */
  function ParseEvent(line: Bytes, strip: Stripper): Option<Event> {
    var raw := strip(TrimLineEnd(line));
    if raw == [] then None else Some(Event(raw))
  }

  /** A line as what is left of it and its trailing returns and newlines. */
  ghost predicate EndsWith(line: Bytes, kept: Bytes, ending: Bytes) {
    && line == kept + ending
    && (forall i :: 0 <= i < |ending| ==> LineEnd(ending[i]))
    && (kept == [] || !LineEnd(kept[|kept| - 1]))
  }

  /** A line gives an event exactly when something is left of it without line ending and colours, and that is the event. */
  lemma {:induction false} EventMeans(line: Bytes, strip: Stripper, event: Event)
    ensures ParseEvent(line, strip) == Some(event)
       <==> exists kept: Bytes, ending: Bytes :: EndsWith(line, kept, ending) && event.raw == strip(kept) && event.raw != []
  {
    var trimmed := TrimLineEnd(line);
    TrimmedEnding(line);
    if kept: Bytes, ending: Bytes :| EndsWith(line, kept, ending) && event.raw == strip(kept) && event.raw != [] {
      TrimmedIsOnly(line, kept, ending);
      assert ParseEvent(line, strip) == Some(Event(strip(kept)));
    }
  }

  lemma {:induction false} TrimmedEnding(line: Bytes)
    ensures |TrimLineEnd(line)| <= |line| && EndsWith(line, TrimLineEnd(line), line[|TrimLineEnd(line)|..])
  {
    hide TrimLineEnd;
    TrimLineEndMeans(line);
    var n := |TrimLineEnd(line)|;
    hide LineEnd;
    HeadAndRest(line, n);
    assert forall i :: 0 <= i < |line[n..]| ==> line[n..][i] == line[n + i];
  }

  lemma {:induction false} TrimmedIsOnly(line: Bytes, kept: Bytes, ending: Bytes)
    requires EndsWith(line, kept, ending)
    ensures TrimLineEnd(line) == kept
    decreases |ending|
  {
    if ending == [] {
      assert line == kept;
    } else {
      assert line[..|line| - 1] == kept + ending[..|ending| - 1];
      assert line[|line| - 1] == ending[|ending| - 1];
      TrimmedIsOnly(line[..|line| - 1], kept, ending[..|ending| - 1]);
    }
  }

  /** The events of the complete lines of some text. */
  function Events(s: Bytes, strip: Stripper): seq<Event> {
    Collect(Lines(s), line => ParseEvent(line, strip))
  }

  // ---- One read ----

  datatype Delivery = Delivery(offset: nat, events: seq<Event>)

  /** A read from `offset`: up to the last newline, if there is one. */
  function Delivered(content: Bytes, offset: nat, strip: Stripper): Delivery {
    if offset > |content| || LastNewline(content[offset..]).None? then Delivery(offset, [])
    else
      var n := LastNewline(content[offset..]).value + 1;
      Delivery(offset + n, Events(content[offset..offset + n], strip))
  }

  /** The line loop over the complete part of what was read. */
  method CollectEvents(complete: Bytes, strip: Stripper) returns (events: seq<Event>)
    ensures events == Events(complete, strip)
  {
    events := [];
    var lines := Lines(complete);
    TakeAll(lines);
    for i := 0 to |lines|
      invariant events == Collect(lines[..i], line => ParseEvent(line, strip))
    {
      TakeNext(lines, i);
      CollectSnoc(lines[..i], lines[i], line => ParseEvent(line, strip));
      var event := ParseEvent(lines[i], strip);
      events := events + Kept1(event);
    }
  }

  class LogTailCursor {
    var offset: nat

    constructor (start: nat)
      ensures offset == start
    {
      offset := start;
    }

    /**
     * `fileLen` is the length reported just before, none for an error, which counts as length zero; `content` is what
     * the file holds when it is read, none when it cannot be opened or read.
     */
    method ReadNewLogEvents(fileLen: Option<nat>, content: Option<Bytes>, strip: Stripper) returns (events: Option<seq<Event>>)
      modifies this
      ensures var start := if (if fileLen.Some? then fileLen.value else 0) < old(offset) then 0 else old(offset);
              if content.None? then events.None? && offset == start
              else events.Some? && Delivery(offset, events.value) == Delivered(content.value, start, strip)
    {
      hide Events;
      hide LastNewline;
      var len := if fileLen.Some? then fileLen.value else 0;
      if len < offset {
        offset := 0;
      }
      if content.None? {
        return None;
      }
      var file := content.value;
      var buf := if offset > |file| then [] else file[offset..];
      if buf == [] {
        return Some([]);
      }
      var newline := LastNewline(buf);
      if newline.None? {
        return Some([]);
      }
      var complete := buf[..newline.value + 1];
      PrefixOfSuffix(file, offset, newline.value + 1);
      offset := offset + |complete|;
      var found := CollectEvents(complete, strip);
      return Some(found);
    }
  }

  // ---- Any interleaving with the writer ----

  /** `reported` is the length the tailer was last told. */
  datatype State = State(file: Bytes, offset: nat, reported: nat, emitted: seq<Event>)

  datatype Step = Append(bytes: Bytes) | Stat(ok: bool) | Read | ReadFails

  function Next(s: State, step: Step, strip: Stripper): State {
    match step
    case Append(bytes) => s.(file := s.file + bytes)
    case Stat(ok) => s.(reported := if ok then |s.file| else 0)
    case Read =>
      var d := Delivered(s.file, Start(s), strip);
      s.(offset := d.offset, emitted := s.emitted + d.events)
    case ReadFails => s.(offset := Start(s))
  }

  /** Where a read starts: over again when the file was reported shorter than the cursor. */
  function Start(s: State): nat {
    if s.reported < s.offset then 0 else s.offset
  }

  function After(s: State, steps: seq<Step>, strip: Stripper): State
    decreases |steps|
  {
    if steps == [] then s else After(Next(s, steps[0], strip), steps[1..], strip)
  }

  /** Everything between the initial cursor and the current one was emitted once, in order. */
  ghost predicate Exact(s: State, start: nat, strip: Stripper) {
    && start <= s.offset <= |s.file|
    && (s.offset == start || s.file[s.offset - 1] == NEWLINE)
    && s.emitted == Events(s.file[start..s.offset], strip)
  }

  lemma {:induction false} EventsAppend(a: Bytes, b: Bytes, strip: Stripper)
    requires EndsLine(a)
    ensures Events(a + b, strip) == Events(a, strip) + Events(b, strip)
  {
    LinesAppend(a, b);
    CollectAppend(Lines(a), Lines(b), line => ParseEvent(line, strip));
  }

  lemma {:induction false} SliceAfterAppend(file: Bytes, bytes: Bytes, i: nat, j: nat)
    requires i <= j <= |file|
    ensures (file + bytes)[i..j] == file[i..j]
  {
  }

  lemma {:induction false} SliceJoin(file: Bytes, i: nat, j: nat, k: nat)
    requires i <= j <= k <= |file|
    ensures file[i..k] == file[i..j] + file[j..k]
    ensures i < j ==> file[i..j][j - i - 1] == file[j - 1]
  {
  }

  /** A read delivers the lines from the cursor to the last newline, and leaves no newline behind it. */
  lemma {:induction false} ReadIsExact(s: State, start: nat, strip: Stripper)
    requires Exact(s, start, strip) && s.offset <= s.reported
    ensures Exact(Next(s, Read, strip), start, strip)
    ensures NoNewline(s.file[Next(s, Read, strip).offset..])
  {
    hide Events;
    hide NoNewline;
    hide LastNewline;
    var rest := s.file[s.offset..];
    LastNewlineIsLast(rest);
    if LastNewline(rest).None? {
      assert s.emitted + [] == s.emitted;
    } else {
      var n := LastNewline(rest).value + 1;
      PrefixOfSuffix(s.file, s.offset, n);
      SliceJoin(s.file, start, s.offset, s.offset + n);
      EventsAppend(s.file[start..s.offset], s.file[s.offset..s.offset + n], strip);
    }
  }

  lemma {:induction false} StepIsExact(s: State, step: Step, start: nat, strip: Stripper)
    requires Exact(s, start, strip)
    requires step.Read? || step.ReadFails? ==> s.offset <= s.reported
    ensures Exact(Next(s, step, strip), start, strip)
    ensures step.Stat? && step.ok ==> Next(s, step, strip).offset <= Next(s, step, strip).reported
    ensures step.Append? ==> Next(s, step, strip).reported == s.reported && Next(s, step, strip).offset == s.offset
  {
    match step
    case Append(bytes) =>
      SliceAfterAppend(s.file, bytes, start, s.offset);
    case Stat(ok) =>
    case Read =>
      ReadIsExact(s, start, strip);
    case ReadFails =>
  }

  /** Polls stat before they read, as the tailer does; the writer may append anywhere. */
  ghost predicate PollsStatFirst(steps: seq<Step>, asked: bool) {
    steps == [] ||
    match steps[0]
    case Append(_) => PollsStatFirst(steps[1..], asked)
    case Stat(ok) => ok && PollsStatFirst(steps[1..], true)
    case Read => asked && PollsStatFirst(steps[1..], false)
    case ReadFails => asked && PollsStatFirst(steps[1..], false)
  }

  /**
   * Exactly-once delivery: under every interleaving of appends and polls whose length queries succeed, the
   * emitted events are those of the complete lines between the initial and the current cursor, which stands
   * at its initial offset or just past a newline.
   */
  lemma {:induction false} ExactlyOnce(s: State, steps: seq<Step>, asked: bool, start: nat, strip: Stripper)
    requires Exact(s, start, strip) && PollsStatFirst(steps, asked)
    requires asked ==> s.offset <= s.reported
    ensures var t := After(s, steps, strip);
            && start <= t.offset <= |t.file|
            && (t.offset == start || t.file[t.offset - 1] == NEWLINE)
            && t.emitted == Events(t.file[start..t.offset], strip)
    decreases |steps|
  {
    hide Next;
    hide Events;
    if steps == [] {
    } else {
      StepIsExact(s, steps[0], start, strip);
      var next := if steps[0].Append? then asked else steps[0].Stat?;
      assert steps[0].Stat? ==> steps[0].ok;
      ExactlyOnce(Next(s, steps[0], strip), steps[1..], next, start, strip);
    }
  }

  /** After every such interleaving that ends with a read, no newline lies beyond the cursor. */
  lemma {:induction false} NothingLeftBehind(s: State, steps: seq<Step>, asked: bool, start: nat, strip: Stripper)
    requires Exact(s, start, strip) && PollsStatFirst(steps + [Read], asked)
    requires asked ==> s.offset <= s.reported
    ensures var t := After(s, steps + [Read], strip); t.offset <= |t.file| && NoNewline(t.file[t.offset..])
    decreases |steps|
  {
    hide Events;
    hide NoNewline;
    ConsAppend(steps, [Read]);
    if steps == [] {
      ReadIsExact(s, start, strip);
      assert [Read][1..] == [];
    } else {
      hide Next;
      StepIsExact(s, steps[0], start, strip);
      var next := if steps[0].Append? then asked else steps[0].Stat?;
      assert steps[0].Stat? ==> steps[0].ok;
      NothingLeftBehind(Next(s, steps[0], strip), steps[1..], next, start, strip);
    }
  }

  /** A read delivers every complete line behind the offset it starts from. */
  lemma {:induction false} DeliveredEvents(content: Bytes, offset: nat, strip: Stripper)
    requires offset <= |content|
    ensures Delivered(content, offset, strip).events == Events(content[offset..], strip)
  {
    hide Events;
    hide LastNewline;
    var rest := content[offset..];
    LastNewlineIsLast(rest);
    if LastNewline(rest).None? {
      NoLines(rest, strip);
    } else {
      var n := LastNewline(rest).value + 1;
      PrefixOfSuffix(content, offset, n);
      HeadAndRest(rest, n);
      EventsAppend(rest[..n], rest[n..], strip);
      NoLines(rest[n..], strip);
      assert Events(rest[..n], strip) + [] == Events(rest[..n], strip);
    }
  }

  /**
   * What a failed length query does: the next read starts over and emits every complete line of the file,
   * those before the cursor included.
   */
  lemma {:induction false} FailedStatRestarts(s: State, start: nat, strip: Stripper)
    requires Exact(s, start, strip) && s.offset > 0
    ensures var t := Next(Next(s, Stat(false), strip), Read, strip);
            && t.emitted == s.emitted + Events(s.file, strip)
            && (s.file[s.offset - 1] == NEWLINE ==>
                  t.emitted == s.emitted + (Events(s.file[..s.offset], strip) + Events(s.file[s.offset..], strip)))
  {
    hide Delivered;
    hide Events;
    DeliveredEvents(s.file, 0, strip);
    HeadAndRest(s.file, 0);
    assert s.file[..0] + s.file[0..] == s.file[0..];
    HeadAndRest(s.file, s.offset);
    if s.file[s.offset - 1] == NEWLINE {
      EventsAppend(s.file[..s.offset], s.file[s.offset..], strip);
    }
  }

  /**
   * At a line start, delivery stays exactly-once over a failed length query exactly when no line before the cursor
   * gave an event.
   */
  lemma {:induction false} RestartIsExact(s: State, start: nat, strip: Stripper)
    requires Exact(s, start, strip) && s.offset > 0 && s.file[s.offset - 1] == NEWLINE
    ensures Exact(Next(Next(s, Stat(false), strip), Read, strip), start, strip) <==> Events(s.file[..s.offset], strip) == []
  {
    hide Events;
    hide LastNewline;
    hide Next;
    FailedStatRestarts(s, start, strip);
    var n := RestartOffset(s, strip);
    PassedEvents(s, start, n, strip);
    ExtraBetween(s.emitted, Events(s.file[..s.offset], strip), Events(s.file[s.offset..n], strip));
  }

  /** The lines between the cursor and the last newline, seen from the initial cursor and from the current one. */
  lemma {:induction false} PassedEvents(s: State, start: nat, n: nat, strip: Stripper)
    requires Exact(s, start, strip) && 0 < s.offset <= n <= |s.file| && s.file[s.offset - 1] == NEWLINE
    requires s.file[n - 1] == NEWLINE && NoNewline(s.file[n..])
    ensures Events(s.file[start..n], strip) == s.emitted + Events(s.file[s.offset..n], strip)
    ensures Events(s.file[s.offset..], strip) == Events(s.file[s.offset..n], strip)
  {
    hide Events;
    var passed, rest := s.file[s.offset..n], s.file[n..];
    assert s.file[s.offset..] == passed + rest;
    SliceJoin(s.file, start, s.offset, n);
    SliceJoin(s.file, s.offset, n, n);
    EventsAppend(s.file[start..s.offset], passed, strip);
    EventsAppend(passed, rest, strip);
    NoLines(rest, strip);
    assert Events(passed, strip) + [] == Events(passed, strip);
  }

  lemma {:induction false} ExtraBetween<T>(a: seq<T>, extra: seq<T>, b: seq<T>)
    ensures a + (extra + b) == a + b <==> extra == []
  {
    if extra == [] {
      assert extra + b == b;
    } else {
      assert |a + (extra + b)| > |a + b|;
    }
  }

  /** Where a read from the start of the file ends. */
  lemma {:induction false} RestartOffset(s: State, strip: Stripper) returns (n: nat)
    requires 0 < s.offset <= |s.file| && s.file[s.offset - 1] == NEWLINE
    ensures s.offset <= n <= |s.file| && n == Next(Next(s, Stat(false), strip), Read, strip).offset
    ensures Next(Next(s, Stat(false), strip), Read, strip).file == s.file
    ensures s.file[n - 1] == NEWLINE && NoNewline(s.file[n..])
  {
    LastNewlineIsLast(s.file);
    hide LastNewline;
    hide Events;
    assert s.file[0..] == s.file;
    n := LastNewline(s.file).value + 1;
  }

  /** A read that fails after such a query loses the cursor all the same: the next poll starts over. */
  lemma {:induction false} FailedOpenRestarts(s: State, strip: Stripper)
    requires s.offset > 0
    ensures var again := Next(Next(Next(Next(s, Stat(false), strip), ReadFails, strip), Stat(true), strip), Read, strip);
            var restart := Next(Next(s, Stat(false), strip), Read, strip);
            again.offset == restart.offset && again.emitted == restart.emitted && again.file == restart.file
  {
    hide Delivered;
  }

  /**
   * With the initial cursor in the middle of a line, delivery stays exactly-once over a failed length query exactly when
   * the line has ended, and the file up to its end gives the same events as the part of it behind the cursor.
   */
  lemma {:induction false} RestartInMidLine(s: State, start: nat, strip: Stripper)
    requires Exact(s, start, strip) && s.offset == start > 0 && s.file[start - 1] != NEWLINE
    ensures var t := Next(Next(s, Stat(false), strip), Read, strip);
            var rest := s.file[start..];
            Exact(t, start, strip) <==>
            && !NoNewline(rest)
            && (var end := start + FirstNewline(rest) + 1;
                end <= |s.file| && Events(s.file[..end], strip) == Events(s.file[start..end], strip))
  {
    hide Events;
    hide Next;
    hide LastNewline;
    hide FirstNewline;
    var rest := s.file[start..];
    FirstNewlineIsFirst(rest);
    if NoNewline(rest) {
      RestartEndsEarly(s, start, strip);
    } else {
      assert rest[FirstNewline(rest)] == s.file[start + FirstNewline(rest)];
      RestartBehindLine(s, start, start + FirstNewline(rest) + 1, strip);
    }
  }

  lemma {:induction false} RestartBehindLine(s: State, start: nat, end: nat, strip: Stripper)
    requires Exact(s, start, strip) && 0 < s.offset == start < end <= |s.file| && s.file[end - 1] == NEWLINE
    ensures Exact(Next(Next(s, Stat(false), strip), Read, strip), start, strip)
       <==> Events(s.file[..end], strip) == Events(s.file[start..end], strip)
  {
    hide Events;
    hide Lines;
    hide Next;
    hide LastNewline;
    FailedStatRestarts(s, start, strip);
    NoLines([], strip);
    var n := RestartEnd(s, end, strip);
    assert s.file[start..start] == [];
    LinesBehind(s.file, 0, end, n, strip);
    LinesBehind(s.file, start, end, n, strip);
    assert s.file[0..] == s.file && s.file[0..end] == s.file[..end] && s.file[0..n] == s.file[..n];
    assert [] + Events(s.file, strip) == Events(s.file, strip);
    SameTail(Events(s.file[..end], strip), Events(s.file[start..end], strip), Events(s.file[end..n], strip));
  }

  lemma {:induction false} SameTail<T>(a: seq<T>, b: seq<T>, tail: seq<T>)
    ensures a + tail == b + tail <==> a == b
  {
    if a + tail == b + tail {
      CutAppend(a, tail);
      CutAppend(b, tail);
    }
  }

  /** Lines up to the end of one line, and the lines behind it. */
  lemma {:induction false} LinesBehind(file: Bytes, from: nat, end: nat, n: nat, strip: Stripper)
    requires from < end <= n <= |file| && file[end - 1] == NEWLINE && file[n - 1] == NEWLINE && NoNewline(file[n..])
    ensures Events(file[from..n], strip) == Events(file[from..end], strip) + Events(file[end..n], strip)
    ensures Events(file[from..], strip) == Events(file[from..n], strip)
  {
    hide Events;
    SliceJoin(file, from, end, n);
    EventsAppend(file[from..end], file[end..n], strip);
    HeadAndRest(file[from..], n - from);
    PrefixOfSuffix(file, from, n - from);
    SliceJoin(file, from, n, n);
    EventsAppend(file[from..n], file[n..], strip);
    NoLines(file[n..], strip);
    assert Events(file[from..n], strip) + [] == Events(file[from..n], strip);
  }

  lemma {:induction false} RestartEnd(s: State, end: nat, strip: Stripper) returns (n: nat)
    requires 0 < s.offset < end <= |s.file| && s.file[end - 1] == NEWLINE
    ensures end <= n <= |s.file| && n == Next(Next(s, Stat(false), strip), Read, strip).offset
    ensures Next(Next(s, Stat(false), strip), Read, strip).file == s.file
    ensures s.file[n - 1] == NEWLINE && NoNewline(s.file[n..])
  {
    LastNewlineIsLast(s.file);
    hide LastNewline;
    hide Events;
    assert s.file[0..] == s.file;
    n := LastNewline(s.file).value + 1;
  }

  lemma {:induction false} RestartEndsEarly(s: State, start: nat, strip: Stripper)
    requires 0 < s.offset == start <= |s.file| && s.file[start - 1] != NEWLINE && NoNewline(s.file[start..])
    ensures Next(Next(s, Stat(false), strip), Read, strip).offset < start
  {
    LastNewlineIsLast(s.file);
    hide LastNewline;
    hide Events;
    assert s.file[0..] == s.file;
    assert forall i :: start <= i < |s.file| ==> s.file[i] == s.file[start..][i - start];
  }

  lemma {:induction false} NoLines(s: Bytes, strip: Stripper)
    requires NoNewline(s)
    ensures Lines(s) == [] && Events(s, strip) == []
  {
    FirstNewlineIsFirst(s);
  }
}
