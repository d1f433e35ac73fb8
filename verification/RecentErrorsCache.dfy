/** The cache over the backward scan, as a protocol between an appending writer and any number of readers. */
module RecentErrorsCache {
  import opened Common
  import opened LogLines
  import opened RecentErrors

  /** What a reader compares: the file's length and modification time. */
  datatype Signature = Signature(len: nat, modified: int)

  datatype Entry = Entry(signature: Signature, limit: nat, lines: seq<ErrorLine>)

  /** Where a reader stands between its lookup, its scan, its re-check and the write to the cache. */
  datatype Reader =
    | Idle
    | Signed(signature: Signature, limit: nat)
    | Opened(signature: Signature, limit: nat, len: nat)
    | Scanned(signature: Signature, limit: nat, len: nat, lines: seq<ErrorLine>)
    | Unreadable(signature: Signature, limit: nat)
    | Confirmed(signature: Signature, limit: nat, lines: seq<ErrorLine>)

  /** One log file, its cache entry, and the readers at work on it. */
  datatype State = State(file: Bytes, modified: int, cache: Option<Entry>, readers: map<nat, Reader>)

  datatype Step =
    | Append(bytes: Bytes, modified: int)
    | Sign(reader: nat, limit: nat)
    | Hit(reader: nat)
    | Open(reader: nat)
    | Read(reader: nat)
    | ReadFails(reader: nat)
    | Recheck(reader: nat)
    | Store(reader: nat)

  function At(s: State, reader: nat): Reader {
    if reader in s.readers then s.readers[reader] else Idle
  }

  function Sig(s: State): Signature {
    Signature(|s.file|, s.modified)
  }

  /** The cached answer for a signature, if the entry is for that signature and limit. */
  function Cached(s: State, signature: Signature, limit: nat): Option<seq<ErrorLine>> {
    if s.cache.Some? && s.cache.value.limit == limit && s.cache.value.signature == signature
    then Some(s.cache.value.lines)
    else None
  }

  function Move(s: State, reader: nat, r: Reader): State {
    s.(readers := s.readers[reader := r])
  }

  predicate Enabled(s: State, step: Step) {
    match step
    case Append(_, _) => true
    case Sign(reader, limit) => At(s, reader).Idle? && limit > 0
    case Hit(reader) => At(s, reader).Signed? && Cached(s, At(s, reader).signature, At(s, reader).limit).Some?
    case Open(reader) => At(s, reader).Signed? && Cached(s, At(s, reader).signature, At(s, reader).limit).None?
    case Read(reader) => At(s, reader).Opened? && At(s, reader).len <= |s.file|
    case ReadFails(reader) => At(s, reader).Opened?
    case Recheck(reader) => At(s, reader).Scanned? || At(s, reader).Unreadable?
    case Store(reader) => At(s, reader).Confirmed?
  }

  /** A reader scans the file as long as it was when opened; a failed read is taken for an empty answer. */
  function Next(s: State, step: Step, classify: Classifier): State
    requires Enabled(s, step)
  {
    match step
    case Append(bytes, modified) => s.(file := s.file + bytes, modified := modified)
    case Sign(reader, limit) => Move(s, reader, Signed(Sig(s), limit))
    case Hit(reader) => Move(s, reader, Idle)
    case Open(reader) => Move(s, reader, Opened(At(s, reader).signature, At(s, reader).limit, |s.file|))
    case Read(reader) =>
      var r := At(s, reader);
      Move(s, reader, Scanned(r.signature, r.limit, r.len, RecentLines(s.file[..r.len], r.limit, classify)))
    case ReadFails(reader) => Move(s, reader, Unreadable(At(s, reader).signature, At(s, reader).limit))
    case Recheck(reader) =>
      var r := At(s, reader);
      Move(s, reader,
           if Sig(s) == r.signature then Confirmed(r.signature, r.limit, if r.Scanned? then r.lines else []) else Idle)
    case Store(reader) =>
      var r := At(s, reader);
      Move(s, reader, Idle).(cache := Some(Entry(r.signature, r.limit, r.lines)))
  }

  /** The answer of a fresh scan of the file as it was at a given length. */
  function FreshAt(s: State, len: nat, limit: nat, classify: Classifier): seq<ErrorLine>
    requires len <= |s.file|
  {
    RecentLines(s.file[..len], limit, classify)
  }

  ghost predicate ReaderOk(s: State, r: Reader, classify: Classifier) {
    match r
    case Idle => true
    case Signed(signature, _) => signature.len <= |s.file|
    case Opened(signature, _, len) => signature.len <= len <= |s.file|
    case Scanned(signature, limit, len, lines) =>
      signature.len <= len <= |s.file| && lines == FreshAt(s, len, limit, classify)
    case Unreadable(signature, _) => signature.len <= |s.file|
    case Confirmed(signature, limit, lines) =>
      signature.len <= |s.file| && lines == FreshAt(s, signature.len, limit, classify)
  }

  ghost predicate EntryOk(s: State, e: Entry, classify: Classifier) {
    e.signature.len <= |s.file| && e.lines == FreshAt(s, e.signature.len, e.limit, classify)
  }

  ghost predicate Coherent(s: State, classify: Classifier) {
    && (s.cache.Some? ==> EntryOk(s, s.cache.value, classify))
    && (forall k :: k in s.readers ==> ReaderOk(s, s.readers[k], classify))
  }

  lemma {:induction false} PrefixKept(file: Bytes, bytes: Bytes, len: nat)
    requires len <= |file|
    ensures (file + bytes)[..len] == file[..len]
  {
  }

  /** Appending changes no answer about a shorter file. */
  lemma {:induction false} AppendKeeps(s: State, bytes: Bytes, modified: int, classify: Classifier)
    requires Coherent(s, classify)
    ensures Coherent(Next(s, Append(bytes, modified), classify), classify)
  {
    var t := Next(s, Append(bytes, modified), classify);
    if s.cache.Some? {
      PrefixKept(s.file, bytes, s.cache.value.signature.len);
    }
    forall k | k in t.readers
      ensures ReaderOk(t, t.readers[k], classify)
    {
      var r := s.readers[k];
      assert ReaderOk(s, r, classify);
      if r.Scanned? {
        PrefixKept(s.file, bytes, r.len);
      }
      if r.Confirmed? {
        PrefixKept(s.file, bytes, r.signature.len);
      }
    }
  }

  /**
   * Every step keeps the cache coherent, with one exception: re-checking after a failed read, which confirms the empty
   * answer for the cache. That step keeps it exactly when the file changed meanwhile or the empty answer is right.
   */
  lemma {:induction false} StepKeepsCoherence(s: State, step: Step, classify: Classifier)
    requires Coherent(s, classify) && Enabled(s, step)
    ensures Coherent(Next(s, step, classify), classify) <==>
              (step.Recheck? && At(s, step.reader).Unreadable? && Sig(s) == At(s, step.reader).signature
               ==> RecentLines(s.file, At(s, step.reader).limit, classify) == [])
  {
    if step.Append? {
      AppendKeeps(s, step.bytes, step.modified, classify);
    } else {
      ReaderMoves(s, step, classify);
      TakeAll(s.file);
      hide RecentLines;
      hide Next;
    }
  }

  /** What a reader's step changes: its own standing, and for a store the entry. */
  lemma {:induction false} ReaderMoves(s: State, step: Step, classify: Classifier)
    requires Coherent(s, classify) && Enabled(s, step) && !step.Append?
    ensures var t := Next(s, step, classify);
            var r := At(s, step.reader);
            && t.file == s.file && step.reader in t.readers
            && (forall k :: k in t.readers && k != step.reader ==> ReaderOk(t, t.readers[k], classify))
            && (ReaderOk(t, t.readers[step.reader], classify) <==>
                  (step.Recheck? && r.Unreadable? && Sig(s) == r.signature ==> RecentLines(s.file, r.limit, classify) == []))
            && (if step.Store? then t.cache.Some? && EntryOk(t, t.cache.value, classify) else t.cache == s.cache)
  {
    hide RecentLines;
    OthersStand(s, step, classify);
    OwnStand(s, step, classify);
  }

  lemma {:induction false} OthersStand(s: State, step: Step, classify: Classifier)
    requires Coherent(s, classify) && Enabled(s, step) && !step.Append?
    ensures var t := Next(s, step, classify);
            && t.file == s.file && step.reader in t.readers
            && (forall k :: k in t.readers && k != step.reader ==> ReaderOk(t, t.readers[k], classify))
            && (!step.Store? ==> t.cache == s.cache)
  {
    hide RecentLines;
    var t := Next(s, step, classify);
    assert forall k :: k in t.readers && k != step.reader ==> k in s.readers && t.readers[k] == s.readers[k];
  }

  lemma {:induction false} OwnStand(s: State, step: Step, classify: Classifier)
    requires Coherent(s, classify) && Enabled(s, step) && !step.Append?
    ensures var t := Next(s, step, classify);
            var r := At(s, step.reader);
            && t.file == s.file && step.reader in t.readers
            && (ReaderOk(t, t.readers[step.reader], classify) <==>
                  (step.Recheck? && r.Unreadable? && Sig(s) == r.signature ==> RecentLines(s.file, r.limit, classify) == []))
            && (step.Store? ==> t.cache.Some? && EntryOk(t, t.cache.value, classify))
  {
    hide RecentLines;
    var r := At(s, step.reader);
    TakeAll(s.file);
    assert r.Idle? || ReaderOk(s, r, classify);
    hide Coherent;
  }

  /** A run: each step taken from the state its predecessors lead to. */
  ghost predicate Run(s: State, steps: seq<Step>, classify: Classifier)
    decreases |steps|
  {
    steps == [] || (Enabled(s, steps[0]) && Run(Next(s, steps[0], classify), steps[1..], classify))
  }

  function After(s: State, steps: seq<Step>, classify: Classifier): State
    requires Run(s, steps, classify)
    decreases |steps|
  {
    if steps == [] then s else After(Next(s, steps[0], classify), steps[1..], classify)
  }

  /**
   * Over every interleaving of appends, lookups, scans and re-checks in which no read fails, a cached answer
   * equals a fresh scan of the file at the entry's length.
   */
  lemma {:induction false} CacheCoherence(s: State, steps: seq<Step>, classify: Classifier)
    requires Run(s, steps, classify) && Coherent(s, classify)
    requires forall k :: k in s.readers ==> !s.readers[k].Unreadable?
    requires forall i :: 0 <= i < |steps| ==> !steps[i].ReadFails?
    ensures Coherent(After(s, steps, classify), classify)
    decreases |steps|
  {
    if steps == [] {
    } else {
      StepKeepsCoherence(s, steps[0], classify);
      var t := Next(s, steps[0], classify);
      assert forall k :: k in t.readers ==> !t.readers[k].Unreadable?;
      CacheCoherence(t, steps[1..], classify);
    }
  }

  /** After any such interleaving a hit gives the answer an uncached scan would have given when the reader looked. */
  lemma {:induction false} HitIsFresh(s: State, steps: seq<Step>, reader: nat, classify: Classifier)
    requires Run(s, steps, classify) && Coherent(s, classify)
    requires forall k :: k in s.readers ==> !s.readers[k].Unreadable?
    requires forall i :: 0 <= i < |steps| ==> !steps[i].ReadFails?
    requires Enabled(After(s, steps, classify), Hit(reader))
    ensures var t := After(s, steps, classify);
            var r := At(t, reader);
            r.signature.len <= |t.file|
            && Cached(t, r.signature, r.limit) == Some(FreshAt(t, r.signature.len, r.limit, classify))
  {
    CacheCoherence(s, steps, classify);
  }

  /** A read that fails between two equal signatures leaves an empty answer behind for a file that has error lines. */
  lemma {:induction false} FailedReadIsCached(file: Bytes, modified: int, limit: nat, classify: Classifier)
    requires limit > 0 && RecentLines(file, limit, classify) != []
    ensures var s := State(file, modified, None, map[]);
            var steps := [Sign(0, limit), Open(0), ReadFails(0), Recheck(0), Store(0), Sign(0, limit)];
            && Coherent(s, classify)
            && Run(s, steps, classify)
            && Cached(After(s, steps, classify), Sig(s), limit) == Some([])
  {
    hide Run;
    hide After;
    hide RecentLines;
    var s := State(file, modified, None, map[]);
    var s1 := Next(s, Sign(0, limit), classify);
    var s2 := Next(s1, Open(0), classify);
    var s3 := Next(s2, ReadFails(0), classify);
    var s4 := Next(s3, Recheck(0), classify);
    var s5 := Next(s4, Store(0), classify);
    var s6 := Next(s5, Sign(0, limit), classify);
    RunNothing(s6, classify);
    var sign, store, recheck, fails, open := Sign(0, limit), Store(0), Recheck(0), ReadFails(0), Open(0);
    assert [sign] + [] == [sign] && [store] + [sign] == [store, sign];
    assert [recheck] + [store, sign] == [recheck, store, sign];
    assert [fails] + [recheck, store, sign] == [fails, recheck, store, sign];
    assert [open] + [fails, recheck, store, sign] == [open, fails, recheck, store, sign];
    assert [sign] + [open, fails, recheck, store, sign] == [sign, open, fails, recheck, store, sign];
    RunCons(s5, Sign(0, limit), [], classify);
    RunCons(s4, Store(0), [Sign(0, limit)], classify);
    RunCons(s3, Recheck(0), [Store(0), Sign(0, limit)], classify);
    RunCons(s2, ReadFails(0), [Recheck(0), Store(0), Sign(0, limit)], classify);
    RunCons(s1, Open(0), [ReadFails(0), Recheck(0), Store(0), Sign(0, limit)], classify);
    RunCons(s, Sign(0, limit), [Open(0), ReadFails(0), Recheck(0), Store(0), Sign(0, limit)], classify);
  }

  lemma {:induction false} RunNothing(s: State, classify: Classifier)
    ensures Run(s, [], classify) && After(s, [], classify) == s
  {
  }

  lemma {:induction false} RunCons(s: State, step: Step, steps: seq<Step>, classify: Classifier)
    requires Enabled(s, step) && Run(Next(s, step, classify), steps, classify)
    ensures Run(s, [step] + steps, classify)
    ensures After(s, [step] + steps, classify) == After(Next(s, step, classify), steps, classify)
  {
    ConsParts(step, steps);
  }
}
