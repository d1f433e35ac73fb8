/** Log files as bytes, cut at newlines. */
module LogLines {
  import opened Common

  newtype Byte = x: int | 0 <= x < 256

  type Bytes = seq<Byte>

  const NEWLINE: Byte := 10

  predicate NoNewline(s: Bytes) {
    forall i :: 0 <= i < |s| ==> s[i] != NEWLINE
  }

  /** The first newline, or the length. */
  function FirstNewline(s: Bytes): (n: nat)
    ensures n <= |s| && (n < |s| ==> s[n] == NEWLINE)
  {
    if s == [] || s[0] == NEWLINE then 0 else 1 + FirstNewline(s[1..])
  }

  lemma {:induction false} FirstNewlineIsFirst(s: Bytes)
    ensures NoNewline(s[..FirstNewline(s)])
    ensures FirstNewline(s) == |s| <==> NoNewline(s)
  {
    if s == [] || s[0] == NEWLINE {
    } else {
      FirstNewlineIsFirst(s[1..]);
      var n := FirstNewline(s[1..]);
      assert s[..n + 1] == [s[0]] + s[1..][..n];
      if NoNewline(s[1..]) {
        assert forall i :: 1 <= i < |s| ==> s[i] == s[1..][i - 1];
      } else {
        assert s[n + 1] == s[1..][n];
      }
    }
  }

  lemma {:induction false} FirstNewlineAt(a: Bytes, b: Bytes)
    requires NoNewline(a)
    ensures FirstNewline(a + [NEWLINE] + b) == |a|
  {
    if a == [] {
      assert (a + [NEWLINE] + b)[0] == NEWLINE;
    } else {
      var s := a + [NEWLINE] + b;
      assert s[1..] == a[1..] + [NEWLINE] + b;
      FirstNewlineAt(a[1..], b);
    }
  }

  /** The last newline, or none. */
  function LastNewline(s: Bytes): (n: Option<nat>)
    ensures n.Some? ==> n.value < |s| && s[n.value] == NEWLINE
  {
    if s == [] then None
    else if s[|s| - 1] == NEWLINE then Some(|s| - 1)
    else LastNewline(s[..|s| - 1])
  }

  lemma {:induction false} LastNewlineIsLast(s: Bytes)
    ensures LastNewline(s).None? <==> NoNewline(s)
    ensures LastNewline(s).Some? ==> NoNewline(s[LastNewline(s).value + 1..])
  {
    if s == [] {
    } else {
      var init, last := s[..|s| - 1], s[|s| - 1];
      assert s == init + [last];
      if last == NEWLINE {
      } else {
        LastNewlineIsLast(init);
        if LastNewline(init).Some? {
          var k := LastNewline(init).value;
          assert s[k + 1..] == init[k + 1..] + [last];
        }
      }
    }
  }

  /** The newline-separated segments; the last one is what follows the last newline. */
  function Segments(s: Bytes): (segs: seq<Bytes>)
    ensures segs != []
    decreases |s|
  {
    var n := FirstNewline(s);
    if n == |s| then [s] else [s[..n]] + Segments(s[n + 1..])
  }

  /** Segments with a newline between any two. */
  function Rejoined(segs: seq<Bytes>): Bytes {
    if segs == [] then [] else if |segs| == 1 then segs[0] else segs[0] + [NEWLINE] + Rejoined(segs[1..])
  }

  /** The segments hold no newline, and put together they are the text. */
  lemma {:induction false} SegmentsMean(s: Bytes)
    ensures Rejoined(Segments(s)) == s
    ensures forall i :: 0 <= i < |Segments(s)| ==> NoNewline(Segments(s)[i])
    decreases |s|
  {
    var n := FirstNewline(s);
    FirstNewlineIsFirst(s);
    TakeAll(s);
    if n < |s| {
      SegmentsMean(s[n + 1..]);
      ConsParts(s[..n], Segments(s[n + 1..]));
      assert s == s[..n] + [NEWLINE] + s[n + 1..];
    }
  }

  /** A newline-free ending is the last segment. */
  lemma {:induction false} SegmentsSnoc(a: Bytes, b: Bytes)
    requires NoNewline(b)
    ensures Segments(a + [NEWLINE] + b) == Segments(a) + [b]
    decreases |a|
  {
    var s := a + [NEWLINE] + b;
    var n := FirstNewline(a);
    FirstNewlineIsFirst(a);
    FirstNewlineIsFirst(b);
    if n == |a| {
      FirstNewlineAt(a, b);
      assert s[..n] == a && s[n + 1..] == b;
      assert Segments(a) == [a] && Segments(b) == [b];
    } else {
      var behind := a[n + 1..] + [NEWLINE] + b;
      assert a == a[..n] + [NEWLINE] + a[n + 1..];
      assert s == a[..n] + [NEWLINE] + behind;
      FirstNewlineAt(a[..n], behind);
      assert s[..n] == a[..n] && s[n + 1..] == behind;
      SegmentsSnoc(a[n + 1..], b);
      AppendAssoc([a[..n]], Segments(a[n + 1..]), [b]);
    }
  }

  /** The complete lines: every segment but the unfinished last one. */
  function Lines(s: Bytes): seq<Bytes> {
    var segs := Segments(s);
    segs[..|segs| - 1]
  }

  ghost predicate EndsLine(s: Bytes) {
    s == [] || s[|s| - 1] == NEWLINE
  }

  lemma {:induction false} SegmentsAfterLine(a: Bytes, b: Bytes)
    requires EndsLine(a)
    ensures Segments(a + b) == Lines(a) + Segments(b)
    decreases |a|
  {
    if a == [] {
      assert a + b == b;
      assert Segments(a) == [a];
    } else {
      var n := FirstNewline(a);
      FirstNewlineIsFirst(a);
      assert n < |a|;
      assert a == a[..n] + [NEWLINE] + a[n + 1..];
      assert a + b == a[..n] + [NEWLINE] + (a[n + 1..] + b);
      FirstNewlineAt(a[..n], a[n + 1..] + b);
      assert (a + b)[..n] == a[..n] && (a + b)[n + 1..] == a[n + 1..] + b;
      SegmentsAfterLine(a[n + 1..], b);
      LinesCons(a, n);
      AppendAssoc([a[..n]], Lines(a[n + 1..]), Segments(b));
    }
  }

  lemma {:induction false} LinesCons(a: Bytes, n: nat)
    requires n == FirstNewline(a) < |a|
    ensures Lines(a) == [a[..n]] + Lines(a[n + 1..])
  {
  }

  /** Lines of text appended behind a finished line come after the lines already there. */
  lemma {:induction false} LinesAppend(a: Bytes, b: Bytes)
    requires EndsLine(a)
    ensures Lines(a + b) == Lines(a) + Lines(b)
  {
    SegmentsAfterLine(a, b);
  }

  /** What a partial function keeps of a list, in order. */
  function Collect<L>(segs: seq<Bytes>, f: Bytes -> Option<L>): seq<L> {
    if segs == [] then []
    else
      var last := |segs| - 1;
      Collect(segs[..last], f) + Kept1(f(segs[last]))
  }

  function Kept1<L>(x: Option<L>): seq<L> {
    if x.Some? then [x.value] else []
  }

  lemma {:induction false} CollectAppend<L>(a: seq<Bytes>, b: seq<Bytes>, f: Bytes -> Option<L>)
    ensures Collect(a + b, f) == Collect(a, f) + Collect(b, f)
  {
    if b == [] {
      assert a + b == a;
    } else {
      var last := |b| - 1;
      assert (a + b)[..|a| + last] == a + b[..last] && (a + b)[|a| + last] == b[last];
      CollectAppend(a, b[..last], f);
      AppendAssoc(Collect(a, f), Collect(b[..last], f), Kept1(f(b[last])));
    }
  }

  lemma {:induction false} CollectSnoc<L>(a: seq<Bytes>, b: Bytes, f: Bytes -> Option<L>)
    ensures Collect(a + [b], f) == Collect(a, f) + Kept1(f(b))
  {
    assert (a + [b])[..|a|] == a;
  }
}
