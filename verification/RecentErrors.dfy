/** The last error lines of a log, found by a backward chunked scan. */
module RecentErrors {
  import opened Common
  import opened LogLines

  datatype ErrorLine = ErrorLine(timestamp: Option<string>, message: string)

  /** The bytes of "stderr". */
  const NEEDLE: Bytes := [115, 116, 100, 101, 114, 114]

  predicate Mentions(raw: Bytes) {
    |raw| >= |NEEDLE| && (raw[..|NEEDLE|] == NEEDLE || Mentions(raw[1..]))
  }

  /** A line mentions the stream name exactly when the name's bytes stand somewhere in it. */
  lemma {:induction false} MentionsIff(raw: Bytes)
    ensures Mentions(raw) <==> exists before: Bytes, after: Bytes :: raw == before + NEEDLE + after
  {
    hide NEEDLE;
    if Mentions(raw) {
      var k := MentionedAt(raw);
      HeadAndRest(raw, k);
      HeadAndRest(raw[k..], |NEEDLE|);
      AppendAssoc(raw[..k], NEEDLE, raw[k..][|NEEDLE|..]);
    }
    if before: Bytes, after: Bytes :| raw == before + NEEDLE + after {
      AppendAssoc(before, NEEDLE, after);
      FoundBehind(before, NEEDLE + after);
    }
  }

  lemma {:induction false} MentionedAt(raw: Bytes) returns (k: nat)
    requires Mentions(raw)
    ensures k + |NEEDLE| <= |raw| && raw[k..][..|NEEDLE|] == NEEDLE
  {
    if raw[..|NEEDLE|] == NEEDLE {
      TakeAll(raw);
      k := 0;
    } else {
      k := MentionedAt(raw[1..]);
      k := k + 1;
      assert raw[1..][k - 1..] == raw[k..];
    }
  }

  lemma {:induction false} FoundBehind(before: Bytes, rest: Bytes)
    requires |rest| >= |NEEDLE| && rest[..|NEEDLE|] == NEEDLE
    ensures Mentions(before + rest)
  {
    ConsAppend(before, rest);
    if before != [] {
      FoundBehind(before[1..], rest);
    }
  }

  /** How a line that mentions the stream name is read; decoding and JSON parsing are left to this function. */
  type Classifier = Bytes -> Option<ErrorLine>

  function Accept(raw: Bytes, classify: Classifier): Option<ErrorLine> {
    if Mentions(raw) then classify(raw) else None
  }

  function LastOf<T>(s: seq<T>, n: nat): seq<T> {
    if |s| <= n then s else s[|s| - n..]
  }

  function Accepted(content: Bytes, classify: Classifier): seq<ErrorLine> {
    Collect(Segments(content), raw => Accept(raw, classify))
  }

  /** The answer: the last accepted segments, at most `limit` of them, in file order. */
  function RecentLines(content: Bytes, limit: nat, classify: Classifier): seq<ErrorLine> {
    LastOf(Accepted(content, classify), limit)
  }

  function Reverse<T>(s: seq<T>): (r: seq<T>)
    ensures |r| == |s|
  {
    if s == [] then [] else [s[|s| - 1]] + Reverse(s[..|s| - 1])
  }

  lemma {:induction false} ReverseSnoc<T>(s: seq<T>, x: T)
    ensures Reverse(s + [x]) == [x] + Reverse(s)
  {
    assert (s + [x])[..|s|] == s;
  }

  /** Adds an accepted line to the ones found so far, newest first. */
  method PushRecentLine(lines: seq<ErrorLine>, raw: Bytes, limit: nat, classify: Classifier) returns (r: seq<ErrorLine>)
    ensures r == if |lines| >= limit then lines else lines + Kept1(Accept(raw, classify))
  {
    if |lines| >= limit {
      return lines;
    }
    if !Mentions(raw) {
      assert lines + [] == lines;
      return lines;
    }
    var line := classify(raw);
    return lines + Kept1(line);
  }

  /** The text not yet looked at, and the lines already found behind it, still determine the answer. */
  ghost predicate Remaining(rest: Bytes, lines: seq<ErrorLine>, content: Bytes, limit: nat, classify: Classifier) {
    && |lines| <= limit
    && LastOf(Accepted(rest, classify) + Reverse(lines), limit) == RecentLines(content, limit, classify)
  }

  lemma {:induction false} AcceptedSnoc(front: Bytes, last: Bytes, classify: Classifier)
    requires NoNewline(last)
    ensures Accepted(front + [NEWLINE] + last, classify) == Accepted(front, classify) + Kept1(Accept(last, classify))
  {
    SegmentsSnoc(front, last);
    CollectSnoc(Segments(front), last, raw => Accept(raw, classify));
  }

  /** Looking at the last segment of the rest. */
  lemma {:induction false} RemainingStep(front: Bytes, last: Bytes, lines: seq<ErrorLine>, content: Bytes, limit: nat,
                                         classify: Classifier)
    requires Remaining(front + [NEWLINE] + last, lines, content, limit, classify)
    requires NoNewline(last) && |lines| < limit
    ensures Remaining(front, lines + Kept1(Accept(last, classify)), content, limit, classify)
  {
    AcceptedSnoc(front, last, classify);
    var extra := Kept1(Accept(last, classify));
    AppendAssoc(Accepted(front, classify), extra, Reverse(lines));
    if extra == [] {
      assert lines + extra == lines && extra + Reverse(lines) == Reverse(lines);
    } else {
      ReverseSnoc(lines, extra[0]);
    }
  }

  lemma {:induction false} RemainingFull(rest: Bytes, lines: seq<ErrorLine>, content: Bytes, limit: nat, classify: Classifier)
    requires Remaining(rest, lines, content, limit, classify) && |lines| == limit
    ensures Reverse(lines) == RecentLines(content, limit, classify)
  {
    var all := Accepted(rest, classify) + Reverse(lines);
    assert all[|all| - limit..] == Reverse(lines);
  }

  lemma {:induction false} RemainingLast(rest: Bytes, lines: seq<ErrorLine>, content: Bytes, limit: nat, classify: Classifier)
    requires Remaining(rest, lines, content, limit, classify) && |lines| < limit && NoNewline(rest)
    ensures Reverse(lines + Kept1(Accept(rest, classify))) == RecentLines(content, limit, classify)
    ensures rest == [] ==> Kept1(Accept(rest, classify)) == []
  {
    FirstNewlineIsFirst(rest);
    assert Segments(rest) == [rest];
    CollectSnoc([], rest, raw => Accept(raw, classify));
    assert [] + [rest] == [rest];
    var extra := Kept1(Accept(rest, classify));
    assert Accepted(rest, classify) == extra;
    if extra == [] {
      assert lines + extra == lines && extra + Reverse(lines) == Reverse(lines);
    } else {
      ReverseSnoc(lines, extra[0]);
    }
  }

  lemma {:induction false} CutAtNewline(before: Bytes, chunk: Bytes, end: nat, k: nat)
    requires k < end <= |chunk| && chunk[k] == NEWLINE && NoNewline(chunk[..end][k + 1..])
    ensures before + chunk[..end] == (before + chunk[..k]) + [NEWLINE] + chunk[k + 1..end]
    ensures NoNewline(chunk[k + 1..end])
  {
    assert chunk[..end][k + 1..] == chunk[k + 1..end];
    assert chunk[..end] == chunk[..k] + [NEWLINE] + chunk[k + 1..end];
  }

  /** Looking at every finished segment of one chunk, from the back. */
  method ScanChunk(ghost content: Bytes, ghost before: Bytes, chunk: Bytes, lines0: seq<ErrorLine>, limit: nat, classify: Classifier)
    returns (lines: seq<ErrorLine>, trailing: Bytes)
    requires |lines0| < limit && Remaining(before + chunk, lines0, content, limit, classify)
    ensures Remaining(before + trailing, lines, content, limit, classify)
    ensures |lines| < limit ==> NoNewline(trailing)
  {
    lines := lines0;
    var lineEnd := |chunk|;
    TakeAll(chunk);
    while true
      invariant 0 <= lineEnd <= |chunk| && |lines| < limit
      invariant Remaining(before + chunk[..lineEnd], lines, content, limit, classify)
      decreases lineEnd
    {
      var newline := LastNewline(chunk[..lineEnd]);
      LastNewlineIsLast(chunk[..lineEnd]);
      if newline.None? {
        break;
      }
      var k := newline.value;
      CutAtNewline(before, chunk, lineEnd, k);
      RemainingStep(before + chunk[..k], chunk[k + 1..lineEnd], lines, content, limit, classify);
      lines := PushRecentLine(lines, chunk[k + 1..lineEnd], limit, classify);
      lineEnd := k;
      if |lines| >= limit {
        return lines, chunk[..lineEnd];
      }
    }
    trailing := chunk[..lineEnd];
  }

  lemma {:induction false} NextChunk(content: Bytes, from: nat, offset: nat, trailing: Bytes)
    requires from <= offset <= |content|
    ensures content[..from] + (content[from..offset] + trailing) == content[..offset] + trailing
  {
    assert content[..offset] == content[..from] + content[from..offset];
  }

  /** The backward scan answers for every content, limit and chunk size; a missing file has no lines. */
  method RecentLinesFromFile(file: Option<Bytes>, limit: nat, chunkSize: nat, classify: Classifier)
    returns (result: seq<ErrorLine>)
    requires chunkSize >= 1
    ensures result == if file.None? then [] else RecentLines(file.value, limit, classify)
  {
    if limit == 0 || file.None? {
      if file.Some? {
        assert |RecentLines(file.value, 0, classify)| == 0;
      }
      return [];
    }
    var content := file.value;
    var offset := |content|;
    var trailing: Bytes := [];
    var lines: seq<ErrorLine> := [];
    StartRemaining(content, limit, classify);
    while offset > 0 && |lines| < limit
      invariant 0 <= offset <= |content|
      invariant Remaining(content[..offset] + trailing, lines, content, limit, classify)
      invariant |lines| < limit ==> NoNewline(trailing)
    {
      var readLen := if offset < chunkSize then offset else chunkSize;
      var end := offset;
      offset := offset - readLen;
      NextChunk(content, offset, end, trailing);
      var chunk := content[offset..end] + trailing;
      lines, trailing := ScanChunk(content, content[..offset], chunk, lines, limit, classify);
    }
    if |lines| == limit {
      RemainingFull(content[..offset] + trailing, lines, content, limit, classify);
      return Reverse(lines);
    }
    assert content[..offset] + trailing == trailing;
    RemainingLast(trailing, lines, content, limit, classify);
    if trailing != [] {
      lines := PushRecentLine(lines, trailing, limit, classify);
    } else {
      assert lines + [] == lines;
    }
    return Reverse(lines);
  }

  lemma {:induction false} StartRemaining(content: Bytes, limit: nat, classify: Classifier)
    ensures Remaining(content[..|content|] + [], [], content, limit, classify)
  {
    assert content[..|content|] + [] == content;
    assert Accepted(content, classify) + Reverse<ErrorLine>([]) == Accepted(content, classify);
  }
}
