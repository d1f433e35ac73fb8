/** Vocabulary shared by every component: results, duplicate-free enumerations and counting. */
module Common {

  datatype Option<+T> = None | Some(value: T)

  datatype Result<+T, +E> = Success(value: T) | Failure(error: E)

  ghost predicate NoDup<T>(s: seq<T>) {
    forall i, j :: 0 <= i < j < |s| ==> s[i] != s[j]
  }

  function Elems<T>(s: seq<T>): set<T> {
    set x | x in s
  }

  /** `s` lists every member of `xs` once. An ordered map's key sequence is one such list. */
  ghost predicate Enumerates<T>(s: seq<T>, xs: set<T>) {
    NoDup(s) && Elems(s) == xs
  }

  /** Cardinality of a duplicate-free sequence. */
  lemma {:induction false} NoDupSize<T>(s: seq<T>)
    requires NoDup(s)
    ensures |Elems(s)| == |s|
  {
    if s == [] {
    } else {
      var last := |s| - 1;
      assert s == s[..last] + [s[last]];
      NoDupSize(s[..last]);
      assert Elems(s) == Elems(s[..last]) + {s[last]};
    }
  }

  /** A duplicate-free sequence of members of `xs` as long as `xs` lists all of it. */
  lemma {:induction false} FullSize<T>(s: seq<T>, xs: set<T>)
    requires NoDup(s) && Elems(s) <= xs && |s| == |xs|
    ensures Elems(s) == xs
  {
    NoDupSize(s);
    if Elems(s) != xs {
      assert Elems(s) < xs;
      StrictSubsetSize(Elems(s), xs);
      assert false;
    }
  }

  lemma {:induction false} StrictSubsetSize<T>(a: set<T>, b: set<T>)
    requires a < b
    ensures |a| < |b|
  {
    var x :| x in b && x !in a;
    SubsetSize(a, b - {x});
  }

  lemma {:induction false} SubsetSize<T>(a: set<T>, b: set<T>)
    requires a <= b
    ensures |a| <= |b|
  {
    if a == {} {
    } else {
      var x :| x in a;
      SubsetSize(a - {x}, b - {x});
    }
  }

  lemma {:induction false} ElemsAppend<T>(s: seq<T>, x: T)
    ensures Elems(s + [x]) == Elems(s) + {x}
  {
  }

  // Sequence equalities, kept apart so that a caller's proof does not have to compare sequences itself.

  lemma {:induction false} TakeNext<T>(s: seq<T>, j: nat)
    requires j < |s|
    ensures s[..j + 1] == s[..j] + [s[j]]
  {
  }

  lemma {:induction false} TakeAll<T>(s: seq<T>)
    ensures s[..|s|] == s && s[..0] == []
  {
  }

  lemma {:induction false} HeadTail<T>(s: seq<T>)
    requires s != []
    ensures s == [s[0]] + s[1..]
  {
  }

  lemma {:induction false} AppendAssoc<T>(a: seq<T>, b: seq<T>, c: seq<T>)
    ensures (a + b) + c == a + (b + c)
  {
  }

  lemma {:induction false} ConsAppend<T>(a: seq<T>, b: seq<T>)
    ensures a != [] ==> (a + b)[1..] == a[1..] + b && (a + b)[0] == a[0]
    ensures a == [] ==> a + b == b
  {
  }

  lemma {:induction false} ConsParts<T>(x: T, rest: seq<T>)
    ensures ([x] + rest)[0] == x && ([x] + rest)[1..] == rest
  {
  }

  lemma {:induction false} HeadAndRest<T>(s: seq<T>, k: nat)
    requires k <= |s|
    ensures s == s[..k] + s[k..]
  {
  }

  lemma {:induction false} HeadLast<T>(s: seq<T>)
    requires s != []
    ensures s == s[..|s| - 1] + [s[|s| - 1]]
  {
  }

  lemma {:induction false} NoDupSnoc<T>(s: seq<T>, x: T)
    requires NoDup(s) && x !in Elems(s)
    ensures NoDup(s + [x])
  {
  }

  // Slices of a suffix, in terms of the whole.

  lemma {:induction false} SliceOfSuffix<T>(s: seq<T>, i: nat, j: nat, k: nat)
    requires i <= |s| && j <= k <= |s| - i
    ensures s[i..][j..k] == s[i + j..i + k]
  {
  }

  lemma {:induction false} PrefixOfSuffix<T>(s: seq<T>, i: nat, n: nat)
    requires i + n <= |s|
    ensures s[i..][..n] == s[i..i + n] && s[i..][n..] == s[i + n..]
    ensures n > 0 ==> s[i..][n - 1] == s[i + n - 1]
  {
  }

  lemma {:induction false} CutAppend<T>(a: seq<T>, b: seq<T>)
    ensures (a + b)[..|a|] == a && (a + b)[|a|..] == b
  {
  }

  /** The members of `s` that belong to `keep`, in order. */
  function Kept<T>(s: seq<T>, keep: set<T>): seq<T> {
    if s == [] then []
    else (if s[0] in keep then [s[0]] else []) + Kept(s[1..], keep)
  }

  lemma {:induction false} KeptElems<T>(s: seq<T>, keep: set<T>)
    ensures Elems(Kept(s, keep)) == Elems(s) * keep
    ensures NoDup(s) ==> NoDup(Kept(s, keep))
  {
    if s == [] {
    } else {
      KeptElems(s[1..], keep);
      assert s == [s[0]] + s[1..];
      assert Elems(s) == {s[0]} + Elems(s[1..]);
      var head := if s[0] in keep then [s[0]] else [];
      assert Elems(Kept(s, keep)) == Elems(head) + Elems(Kept(s[1..], keep));
      if NoDup(s) {
        assert forall i, j :: 0 <= i < j < |s[1..]| ==> s[1..][i] == s[i + 1] && s[1..][j] == s[j + 1];
        assert NoDup(s[1..]);
        forall k | 0 <= k < |Kept(s[1..], keep)|
          ensures Kept(s[1..], keep)[k] != s[0]
        {
          assert Kept(s[1..], keep)[k] in Elems(Kept(s[1..], keep));
          assert Kept(s[1..], keep)[k] in s[1..];
        }
      }
    }
  }

  lemma {:induction false} KeptAppend<T>(a: seq<T>, b: seq<T>, keep: set<T>)
    ensures Kept(a + b, keep) == Kept(a, keep) + Kept(b, keep)
  {
    ConsAppend(a, b);
    if a != [] {
      KeptAppend(a[1..], b, keep);
      AppendAssoc(if a[0] in keep then [a[0]] else [], Kept(a[1..], keep), Kept(b, keep));
    } else {
      ConsAppend(Kept(a, keep), Kept(b, keep));
    }
  }

  /** How many positions of `s` hold a member of `xs`. */
  function Count(s: seq<string>, xs: set<string>): nat {
    if s == [] then 0
    else Count(s[..|s| - 1], xs) + (if s[|s| - 1] in xs then 1 else 0)
  }

  lemma {:induction false} CountPositive(s: seq<string>, xs: set<string>)
    ensures Count(s, xs) == 0 <==> forall x :: x in s ==> x !in xs
  {
    if s == [] {
    } else {
      CountPositive(s[..|s| - 1], xs);
      assert s == s[..|s| - 1] + [s[|s| - 1]];
    }
  }

  /** How many positions of `s` hold `x`. */
  function Occurrences(s: seq<string>, x: string): nat {
    if s == [] then 0
    else Occurrences(s[..|s| - 1], x) + (if s[|s| - 1] == x then 1 else 0)
  }

  lemma {:induction false} CountAppend(s: seq<string>, x: string, xs: set<string>)
    ensures Count(s + [x], xs) == Count(s, xs) + (if x in xs then 1 else 0)
  {
    assert (s + [x])[..|s|] == s;
  }

  lemma {:induction false} OccurrencesAppend(s: seq<string>, x: string, y: string)
    ensures Occurrences(s + [x], y) == Occurrences(s, y) + (if x == y then 1 else 0)
  {
    assert (s + [x])[..|s|] == s;
  }

  lemma {:induction false} OccurrencesPrefix(s: seq<string>, j: nat, x: string)
    requires j <= |s|
    ensures Occurrences(s[..j], x) <= Occurrences(s, x)
    ensures j < |s| ==> Occurrences(s[..j + 1], x) == Occurrences(s[..j], x) + (if s[j] == x then 1 else 0)
  {
    if j < |s| {
      assert s[..j + 1][..j] == s[..j];
      OccurrencesPrefix(s[..|s| - 1], j, x);
      assert s[..|s| - 1][..j] == s[..j];
    } else {
      assert s[..j] == s;
    }
  }

  /** Dropping `x` from the counted set lowers the count by the occurrences of `x`. */
  lemma {:induction false} CountRemove(s: seq<string>, xs: set<string>, x: string)
    requires x in xs
    ensures Count(s, xs - {x}) == Count(s, xs) - Occurrences(s, x)
  {
    if s == [] {
    } else {
      CountRemove(s[..|s| - 1], xs, x);
    }
  }
}
