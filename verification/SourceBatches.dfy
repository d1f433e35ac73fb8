/** Backfill order: readable source files newest first, expired ones set aside, the rest packed into batches. */
module SourceBatches {
  import opened Common

  const MAX_BYTES: nat := 16 * 1024 * 1024
  const MAX_FILES: nat := 8
  const U64_MAX: nat := 0xFFFF_FFFF_FFFF_FFFF

  /** A readable file; `rank` is its place in the order of paths. */
  datatype SourceFile = SourceFile(source: string, rank: int, modified: int, len: nat, lastTimestamp: Option<int>)

  /** What the file system says about a source: nothing when it is not a readable regular file. */
  type FileSystem = string -> Option<SourceFile>

  predicate IsBeforeRetention(f: SourceFile, cutoff: int) {
    f.len == 0
    || match f.lastTimestamp
       case Some(last) => last < cutoff
       case None => f.modified > 0 && f.modified < cutoff
  }

  predicate Expired(f: SourceFile, minTimestamp: Option<int>) {
    minTimestamp.Some? && IsBeforeRetention(f, minTimestamp.value)
  }

  function SaturatingAdd(a: nat, b: nat): nat {
    if a + b <= U64_MAX then a + b else U64_MAX
  }

  // ---- Newest first ----

  /** Newer files first; files of the same age in path order. */
  predicate Before(a: SourceFile, b: SourceFile) {
    a.modified > b.modified || (a.modified == b.modified && a.rank <= b.rank)
  }

  ghost predicate NewestFirst(files: seq<SourceFile>) {
    forall i, j :: 0 <= i < j < |files| ==> Before(files[i], files[j])
  }

  function Readable(sources: seq<string>, fs: FileSystem): seq<SourceFile> {
    if sources == [] then []
    else (if fs(sources[0]).Some? then [fs(sources[0]).value] else []) + Readable(sources[1..], fs)
  }

  /** Every source that is a readable file is listed, in order and as often as it is given. */
  lemma {:induction false} ReadableMeans(sources: seq<string>, fs: FileSystem, f: SourceFile)
    ensures multiset(Readable(sources, fs))[f] == |Places(sources, fs, f)|
  {
    if sources == [] {
      assert Places(sources, fs, f) == {};
    } else {
      var init, last := sources[..|sources| - 1], sources[|sources| - 1];
      ReadableMeans(init, fs, f);
      ReadableSnoc(init, last, fs);
      PlacesSnoc(init, last, fs, f);
      hide Readable;
      hide Places;
      HeadLast(sources);
    }
  }

  lemma {:induction false} PlacesSnoc(sources: seq<string>, last: string, fs: FileSystem, f: SourceFile)
    ensures |Places(sources + [last], fs, f)| == |Places(sources, fs, f)| + (if fs(last) == Some(f) then 1 else 0)
  {
    var n := |sources|;
    assert Places(sources + [last], fs, f) == Places(sources, fs, f) + (if fs(last) == Some(f) then {n} else {});
  }

  /** Where a file stands among the sources. */
  ghost function Places(sources: seq<string>, fs: FileSystem, f: SourceFile): set<nat> {
    set i: nat | i < |sources| && fs(sources[i]) == Some(f)
  }

  lemma {:induction false} ReadableSnoc(sources: seq<string>, last: string, fs: FileSystem)
    ensures Readable(sources + [last], fs) == Readable(sources, fs) + (if fs(last).Some? then [fs(last).value] else [])
  {
    ConsAppend(sources, [last]);
    if sources != [] {
      ReadableSnoc(sources[1..], last, fs);
      AppendAssoc(if fs(sources[0]).Some? then [fs(sources[0]).value] else [], Readable(sources[1..], fs),
                  if fs(last).Some? then [fs(last).value] else []);
    }
  }

  /** Puts a file in front of the first one that does not come strictly before it. */
  function Insert(f: SourceFile, files: seq<SourceFile>): seq<SourceFile> {
    if files == [] || Before(f, files[0]) then [f] + files else [files[0]] + Insert(f, files[1..])
  }

  function Sorted(files: seq<SourceFile>): seq<SourceFile> {
    if files == [] then [] else Insert(files[0], Sorted(files[1..]))
  }

  lemma {:induction false} InsertKeeps(f: SourceFile, files: seq<SourceFile>)
    requires NewestFirst(files)
    ensures NewestFirst(Insert(f, files))
    ensures multiset(Insert(f, files)) == multiset{f} + multiset(files)
  {
    if files == [] || Before(f, files[0]) {
      NewestFirstCons(f, files);
    } else {
      HeadTail(files);
      NewestFirstTail(files);
      InsertKeeps(f, files[1..]);
      var rest := Insert(f, files[1..]);
      forall i | 0 <= i < |rest|
        ensures Before(files[0], rest[i])
      {
        assert rest[i] in multiset(rest);
        if rest[i] != f {
          assert rest[i] in files[1..];
        }
      }
      NewestFirstCons(files[0], rest);
    }
  }

  lemma {:induction false} NewestFirstTail(files: seq<SourceFile>)
    requires NewestFirst(files) && files != []
    ensures NewestFirst(files[1..]) && forall g :: g in files[1..] ==> Before(files[0], g)
  {
    assert forall i :: 0 <= i < |files[1..]| ==> files[1..][i] == files[i + 1];
  }

  lemma {:induction false} NewestFirstCons(f: SourceFile, files: seq<SourceFile>)
    requires NewestFirst(files)
    requires files == [] || Before(f, files[0]) || forall i :: 0 <= i < |files| ==> Before(f, files[i])
    ensures NewestFirst([f] + files)
  {
    var all := [f] + files;
    assert forall i :: 1 <= i < |all| ==> all[i] == files[i - 1];
  }

  /** Sorting lists the same files, newest first. */
  lemma {:induction false} SortedIsNewestFirst(files: seq<SourceFile>)
    ensures NewestFirst(Sorted(files)) && multiset(Sorted(files)) == multiset(files)
    ensures forall i, j :: 0 <= i < j < |Sorted(files)| ==>
              || Sorted(files)[i].modified > Sorted(files)[j].modified
              || (Sorted(files)[i].modified == Sorted(files)[j].modified && Sorted(files)[i].rank <= Sorted(files)[j].rank)
  {
    if files == [] {
    } else {
      SortedIsNewestFirst(files[1..]);
      InsertKeeps(files[0], Sorted(files[1..]));
      HeadTail(files);
    }
  }

  // ---- Packing ----

  function Bytes(files: seq<SourceFile>): nat {
    if files == [] then 0 else Bytes(files[..|files| - 1]) + files[|files| - 1].len
  }

  lemma {:induction false} BytesSnoc(files: seq<SourceFile>, f: SourceFile)
    ensures Bytes(files + [f]) == Bytes(files) + f.len
  {
    assert (files + [f])[..|files|] == files;
  }

  lemma {:induction false} BytesPrefix(files: seq<SourceFile>, n: nat)
    requires n <= |files|
    ensures Bytes(files[..n]) <= Bytes(files)
  {
    if n < |files| {
      var init := files[..|files| - 1];
      assert init[..n] == files[..n];
      BytesPrefix(init, n);
    } else {
      assert files[..n] == files;
    }
  }

  function Flatten(batches: seq<seq<SourceFile>>): seq<SourceFile> {
    if batches == [] then [] else Flatten(batches[..|batches| - 1]) + batches[|batches| - 1]
  }

  /** The files kept, or set aside, in order. */
  function Select(files: seq<SourceFile>, minTimestamp: Option<int>, expired: bool): seq<SourceFile> {
    if files == [] then []
    else
      var last := files[|files| - 1];
      Select(files[..|files| - 1], minTimestamp, expired) + (if Expired(last, minTimestamp) == expired then [last] else [])
  }

  /** A batch has no room for the next file: it is full, or holds bytes and the file would overflow it. */
  predicate NoRoom(batch: seq<SourceFile>, next: SourceFile) {
    |batch| == 8 || (Bytes(batch) > 0 && Bytes(batch) + next.len > 16_777_216)
  }

  /** One to eight files, over sixteen megabytes only when the last file alone holds all the bytes. */
  ghost predicate WellPacked(batch: seq<SourceFile>) {
    && 0 < |batch| <= 8
    && (Bytes(batch) > 16_777_216 ==> Bytes(batch[..|batch| - 1]) == 0)
  }

  ghost predicate Packed(batches: seq<seq<SourceFile>>) {
    && (forall i :: 0 <= i < |batches| ==> WellPacked(batches[i]))
    && (forall i, j {:trigger batches[i], batches[j]} :: 0 <= i < j < |batches| && j == i + 1 && batches[j] != []
                                                         ==> NoRoom(batches[i], batches[j][0]))
  }

  lemma {:induction false} PackedGrow(batches: seq<seq<SourceFile>>, batch: seq<SourceFile>, f: SourceFile)
    requires Packed(batches + [batch]) && !NoRoom(batch, f)
    ensures Packed(batches + [batch + [f]])
  {
    BytesSnoc(batch, f);
    assert (batch + [f])[..|batch|] == batch;
    var old_, new_ := batches + [batch], batches + [batch + [f]];
    assert forall i :: 0 <= i < |batches| ==> new_[i] == old_[i];
    assert WellPacked(old_[|batches|]);
    assert new_[|batches|][0] == old_[|batches|][0];
  }

  lemma {:induction false} PackedNext(batches: seq<seq<SourceFile>>, f: SourceFile)
    requires Packed(batches)
    requires batches != [] ==> NoRoom(batches[|batches| - 1], f)
    ensures Packed(batches + [[f]])
  {
    assert [f][..0] == [];
    var new_ := batches + [[f]];
    assert forall i :: 0 <= i < |batches| ==> new_[i] == batches[i];
  }

  lemma {:induction false} FlattenSnoc(batches: seq<seq<SourceFile>>, batch: seq<SourceFile>)
    ensures Flatten(batches + [batch]) == Flatten(batches) + batch
  {
    assert (batches + [batch])[..|batches|] == batches;
  }

  lemma {:induction false} SelectNext(files: seq<SourceFile>, i: nat, minTimestamp: Option<int>, expired: bool)
    requires i < |files|
    ensures Select(files[..i + 1], minTimestamp, expired)
         == Select(files[..i], minTimestamp, expired) + (if Expired(files[i], minTimestamp) == expired then [files[i]] else [])
  {
    assert files[..i + 1][..i] == files[..i];
  }

  lemma {:induction false} SelectSplits(files: seq<SourceFile>, minTimestamp: Option<int>)
    ensures multiset(Select(files, minTimestamp, true)) + multiset(Select(files, minTimestamp, false)) == multiset(files)
  {
    if files == [] {
    } else {
      SelectSplits(files[..|files| - 1], minTimestamp);
      assert files == files[..|files| - 1] + [files[|files| - 1]];
    }
  }

  /** What is settled so far: closed batches, and the batch being filled. */
  ghost predicate Progress(batches: seq<seq<SourceFile>>, current: seq<SourceFile>, currentBytes: nat, kept: seq<SourceFile>) {
    && Packed(if current == [] then batches else batches + [current])
    && (current == [] ==> batches == [])
    && Flatten(batches) + current == kept
    && currentBytes == if Bytes(current) <= U64_MAX then Bytes(current) else U64_MAX
  }

  /** The two tests of the loop are the rule about room. */
  lemma {:induction false} RoomTest(batches: seq<seq<SourceFile>>, current: seq<SourceFile>, currentBytes: nat, f: SourceFile,
                                    kept: seq<SourceFile>)
    requires Progress(batches, current, currentBytes, kept) && current != []
    ensures NoRoom(current, f)
       <==> (currentBytes > 0 && SaturatingAdd(currentBytes, f.len) > MAX_BYTES) || |current| >= MAX_FILES
  {
    hide Flatten;
    assert WellPacked((batches + [current])[|batches|]);
  }

  lemma {:induction false} ProgressFirst(batches: seq<seq<SourceFile>>, currentBytes: nat, f: SourceFile, kept: seq<SourceFile>)
    requires Progress(batches, [], currentBytes, kept)
    ensures Progress(batches, [f], SaturatingAdd(currentBytes, f.len), kept + [f])
  {
    PackedNext(batches, f);
    BytesSnoc([], f);
    AppendAssoc(Flatten(batches), [], [f]);
    assert [] + [f] == [f];
    hide Packed;
    hide Flatten;
  }

  lemma {:induction false} ProgressNext(batches: seq<seq<SourceFile>>, current: seq<SourceFile>, currentBytes: nat, f: SourceFile,
                                        kept: seq<SourceFile>)
    requires Progress(batches, current, currentBytes, kept) && current != [] && NoRoom(current, f)
    ensures Progress(batches + [current], [f], SaturatingAdd(0, f.len), kept + [f])
  {
    PackedNext(batches + [current], f);
    FlattenSnoc(batches, current);
    BytesSnoc([], f);
    assert [] + [f] == [f];
    hide Packed;
    hide Flatten;
    hide NoRoom;
  }

  lemma {:induction false} ProgressGrow(batches: seq<seq<SourceFile>>, current: seq<SourceFile>, currentBytes: nat, f: SourceFile,
                                        kept: seq<SourceFile>)
    requires Progress(batches, current, currentBytes, kept) && current != [] && !NoRoom(current, f)
    ensures Progress(batches, current + [f], SaturatingAdd(currentBytes, f.len), kept + [f])
  {
    PackedGrow(batches, current, f);
    AppendAssoc(Flatten(batches), current, [f]);
    BytesSnoc(current, f);
    hide Packed;
    hide Flatten;
    hide NoRoom;
  }

  /** One retained file joins the current batch or starts the next one. */
  method PackFile(batches0: seq<seq<SourceFile>>, current0: seq<SourceFile>, currentBytes0: nat, f: SourceFile,
                  ghost kept: seq<SourceFile>)
    returns (batches: seq<seq<SourceFile>>, current: seq<SourceFile>, currentBytes: nat)
    requires Progress(batches0, current0, currentBytes0, kept)
    ensures Progress(batches, current, currentBytes, kept + [f])
    ensures current != []
  {
    hide Progress;
    hide NoRoom;
    batches, current, currentBytes := batches0, current0, currentBytes0;
    var wouldExceedBytes := currentBytes > 0 && SaturatingAdd(currentBytes, f.len) > MAX_BYTES;
    var wouldExceedFiles := |current| >= MAX_FILES;
    if current == [] {
      ProgressFirst(batches, currentBytes, f, kept);
    } else {
      RoomTest(batches, current, currentBytes, f, kept);
      if wouldExceedBytes || wouldExceedFiles {
        ProgressNext(batches, current, currentBytes, f, kept);
        batches := batches + [current];
        current := [];
        currentBytes := 0;
      } else {
        ProgressGrow(batches, current, currentBytes, f, kept);
      }
    }
    currentBytes := SaturatingAdd(currentBytes, f.len);
    ConsAppend(current, [f]);
    current := current + [f];
  }

  /** The packing loop over the sorted files. */
  method PriorityBatches(sources: seq<string>, fs: FileSystem, minTimestamp: Option<int>)
    returns (batches: seq<seq<SourceFile>>, skipped: seq<SourceFile>)
    ensures multiset(skipped) + multiset(Flatten(batches)) == multiset(Readable(sources, fs))
    ensures NewestFirst(Sorted(Readable(sources, fs)))
    ensures Flatten(batches) == Select(Sorted(Readable(sources, fs)), minTimestamp, false)
    ensures skipped == Select(Sorted(Readable(sources, fs)), minTimestamp, true)
    ensures Packed(batches)
    ensures minTimestamp == None ==> skipped == []
    ensures forall f :: f in skipped ==> OutOfDate(f, minTimestamp)
    ensures forall f :: f in Flatten(batches) ==> !OutOfDate(f, minTimestamp)
  {
    hide Sorted;
    hide Readable;
    hide NewestFirst;
    hide Select;
    hide Expired;
    hide Progress;
    hide Packed;
    hide Flatten;
    var files := Sorted(Readable(sources, fs));
    SortedIsNewestFirst(Readable(sources, fs));
    TakeAll(files);
    NothingPacked(minTimestamp);
    SelectSplits(files, minTimestamp);
    batches, skipped := [], [];
    var current: seq<SourceFile> := [];
    var currentBytes := 0;
    for i := 0 to |files|
      invariant skipped == Select(files[..i], minTimestamp, true)
      invariant Progress(batches, current, currentBytes, Select(files[..i], minTimestamp, false))
    {
      SelectNext(files, i, minTimestamp, true);
      SelectNext(files, i, minTimestamp, false);
      NothingMore(skipped, Select(files[..i], minTimestamp, false));
      if Expired(files[i], minTimestamp) {
        skipped := skipped + [files[i]];
        continue;
      }
      batches, current, currentBytes :=
        PackFile(batches, current, currentBytes, files[i], Select(files[..i], minTimestamp, false));
    }
    FinishedPacking(batches, current, currentBytes, Select(files, minTimestamp, false));
    SelectedDates(files, minTimestamp);
    if current != [] {
      batches := batches + [current];
    }
  }

  /**
   * With a retention limit, what lies behind it: an empty file, one whose last line is older, and one without a known
   * last line that was modified before.
   */
  ghost predicate OutOfDate(f: SourceFile, minTimestamp: Option<int>) {
    exists limit :: minTimestamp == Some(limit) && LastSeenBefore(f, limit)
  }

  predicate LastSeenBefore(f: SourceFile, limit: int) {
    f.len == 0 || (if f.lastTimestamp.Some? then f.lastTimestamp.value < limit else 0 < f.modified < limit)
  }

  lemma {:induction false} SelectedDates(files: seq<SourceFile>, minTimestamp: Option<int>)
    ensures minTimestamp == None ==> Select(files, minTimestamp, true) == []
    ensures forall f :: f in Select(files, minTimestamp, true) ==> OutOfDate(f, minTimestamp)
    ensures forall f :: f in Select(files, minTimestamp, false) ==> !OutOfDate(f, minTimestamp)
  {
    if files != [] {
      var last := files[|files| - 1];
      SelectedDates(files[..|files| - 1], minTimestamp);
      assert Expired(last, minTimestamp) <==> OutOfDate(last, minTimestamp);
    }
  }

  lemma {:induction false} NothingPacked(minTimestamp: Option<int>)
    ensures Progress([], [], 0, Select([], minTimestamp, false)) && Select([], minTimestamp, true) == []
  {
    assert Flatten([]) + [] == [];
  }

  lemma {:induction false} FinishedPacking(batches: seq<seq<SourceFile>>, current: seq<SourceFile>, currentBytes: nat,
                                           kept: seq<SourceFile>)
    requires Progress(batches, current, currentBytes, kept)
    ensures var all := if current == [] then batches else batches + [current];
            Packed(all) && Flatten(all) == kept
  {
    FlattenSnoc(batches, current);
    NothingMore(Flatten(batches), current);
  }

  lemma {:induction false} NothingMore<T>(a: seq<T>, b: seq<T>)
    ensures a + [] == a && b + [] == b
  {
  }

  // ---- Packing has one outcome ----

  /** Two well-packed ways to cut the same files agree on the first cut. */
  lemma {:induction false} FirstBatchUnique(a: seq<SourceFile>, b: seq<SourceFile>, all: seq<SourceFile>)
    requires WellPacked(a) && WellPacked(b) && a <= all && b <= all
    requires |a| < |b|
    ensures !NoRoom(a, b[|a|])
  {
    assert a == b[..|a|];
    BytesPrefix(b[..|b| - 1], |a|);
    assert b[..|b| - 1][..|a|] == b[..|a|];
    BytesPrefix(b, |a| + 1);
    assert b[..|a| + 1] == a + [b[|a|]];
    BytesSnoc(a, b[|a|]);
  }

  lemma {:induction false} FlattenCons(batch: seq<SourceFile>, rest: seq<seq<SourceFile>>)
    ensures Flatten([batch] + rest) == batch + Flatten(rest)
  {
    if rest == [] {
      assert [batch] + rest == [batch] && [batch][..0] == [];
      assert batch + [] == batch && [] + batch == batch;
    } else {
      var init, last := rest[..|rest| - 1], rest[|rest| - 1];
      FlattenCons(batch, init);
      assert rest == init + [last];
      AppendAssoc([batch], init, [last]);
      FlattenSnoc([batch] + init, last);
      AppendAssoc(batch, Flatten(init), last);
    }
  }

  lemma {:induction false} TailOfPacked(batches: seq<seq<SourceFile>>)
    requires Packed(batches) && batches != []
    ensures Packed(batches[1..]) && WellPacked(batches[0])
    ensures |batches| > 1 ==> WellPacked(batches[1]) && NoRoom(batches[0], batches[1][0])
  {
    hide WellPacked;
    assert forall i :: 0 <= i < |batches[1..]| ==> batches[1..][i] == batches[i + 1];
    if |batches| > 1 {
      var first, second := batches[0], batches[1];
      assert WellPacked(second);
      BatchNonEmpty(second);
    }
  }

  lemma {:induction false} BatchNonEmpty(batch: seq<SourceFile>)
    requires WellPacked(batch)
    ensures batch != []
  {
  }

  lemma {:induction false} PackedTail(batches: seq<seq<SourceFile>>)
    requires Packed(batches) && batches != []
    ensures Packed(batches[1..]) && WellPacked(batches[0])
    ensures Flatten(batches) == batches[0] + Flatten(batches[1..])
    ensures |batches| > 1 ==> batches[1] != [] && NoRoom(batches[0], batches[1][0])
                              && Flatten(batches[1..]) != [] && Flatten(batches[1..])[0] == batches[1][0]
    ensures |batches| == 1 ==> Flatten(batches[1..]) == []
  {
    hide Packed;
    hide NoRoom;
    TailOfPacked(batches);
    HeadTail(batches);
    FlattenCons(batches[0], batches[1..]);
    if |batches| > 1 {
      HeadTail(batches[1..]);
      FlattenCons(batches[1], batches[1..][1..]);
    }
  }

  /** The rules leave the greedy loop no choice: any other packing of the same files is the same packing. */
  lemma {:induction false} PackingUnique(a: seq<seq<SourceFile>>, b: seq<seq<SourceFile>>)
    requires Packed(a) && Packed(b) && Flatten(a) == Flatten(b)
    ensures a == b
  {
    if a == [] || b == [] {
      if a != [] {
        PackedTail(a);
      }
      if b != [] {
        PackedTail(b);
      }
    } else {
      PackedTail(a);
      PackedTail(b);
      SameFirst(a, b);
      CutAppend(a[0], Flatten(a[1..]));
      CutAppend(b[0], Flatten(b[1..]));
      PackingUnique(a[1..], b[1..]);
      HeadTail(a);
      HeadTail(b);
    }
  }

  lemma {:induction false} SameFirst(a: seq<seq<SourceFile>>, b: seq<seq<SourceFile>>)
    requires Packed(a) && Packed(b) && Flatten(a) == Flatten(b) && a != [] && b != []
    ensures a[0] == b[0]
  {
    hide Packed;
    hide NoRoom;
    PackedTail(a);
    PackedTail(b);
    var all := Flatten(a);
    if |a[0]| < |b[0]| {
      FirstBatchUnique(a[0], b[0], all);
      assert false;
    } else if |b[0]| < |a[0]| {
      FirstBatchUnique(b[0], a[0], all);
      assert false;
    } else {
      CutAppend(a[0], Flatten(a[1..]));
      CutAppend(b[0], Flatten(b[1..]));
    }
  }
}
