/** Sequences without repetition, and sequences cut into batches. */
module Seqs {

  ghost predicate Distinct<T>(s: seq<T>) {
    forall i, j :: 0 <= i < j < |s| ==> s[i] != s[j]
  }

  /** `dict.fromkeys`: the distinct values in order of first occurrence. */
  function Dedupe<T(==)>(s: seq<T>): seq<T> {
    if s == [] then []
    else
      var before := Dedupe(s[..|s| - 1]);
      if s[|s| - 1] in before then before else before + [s[|s| - 1]]
  }

  lemma {:induction false} DedupeDistinct<T>(s: seq<T>)
    ensures Distinct(Dedupe(s))
    ensures forall x :: x in s <==> x in Dedupe(s)
  {
    if s != [] {
      var init, last := s[..|s| - 1], s[|s| - 1];
      DedupeDistinct(init);
      assert s == init + [last];
    }
  }

  lemma NotEarlier<T>(s: seq<T>, i: nat)
    requires i < |s| && Distinct(s)
    ensures s[i] !in s[..i]
  {
  }

  // ---------- batches ----------

  /** `range(0, len(s), size)` slices. */
  function Batches<T>(s: seq<T>, size: nat): seq<seq<T>>
    requires size > 0
    decreases |s|
  {
    if s == [] then [] else if |s| <= size then [s] else [s[..size]] + Batches(s[size..], size)
  }

  /** The slice from `start` is the next batch. */
  lemma NextBatch<T>(s: seq<T>, start: nat, size: nat)
    requires size > 0 && start < |s|
    ensures var end := if start + size < |s| then start + size else |s|;
            Batches(s[start..], size) == [s[start..end]] + Batches(s[end..], size)
  {
    var rest := s[start..];
    if size < |rest| {
      assert rest[size..] == s[start + size..] && rest[..size] == s[start..start + size];
    } else {
      assert rest == s[start..|s|] && s[|s|..] == [];
    }
  }

  lemma NoBatch<T>(s: seq<T>, size: nat)
    requires size > 0
    ensures Batches(s[|s|..], size) == []
  {
  }

  function Concat<T>(batches: seq<seq<T>>): seq<T> {
    if batches == [] then [] else batches[0] + Concat(batches[1..])
  }

  /** Batches are nonempty and within the limit, and one after the other they are the sequence. */
  lemma {:induction false} BatchesPartition<T>(s: seq<T>, size: nat)
    requires size > 0
    ensures Concat(Batches(s, size)) == s
    ensures forall k :: 0 <= k < |Batches(s, size)| ==> 0 < |Batches(s, size)[k]| <= size
    decreases |s|
  {
    if |s| > size {
      BatchesPartition(s[size..], size);
      assert Batches(s, size)[1..] == Batches(s[size..], size);
      assert s[..size] + s[size..] == s;
    } else if s != [] {
      assert [s][1..] == [];
    }
  }

  lemma {:induction false} ConcatMembers<T>(batches: seq<seq<T>>, x: T)
    ensures x in Concat(batches) <==> exists k :: 0 <= k < |batches| && x in batches[k]
  {
    if batches != [] {
      ConcatMembers(batches[1..], x);
      if k :| 0 <= k < |batches[1..]| && x in batches[1..][k] {
        assert batches[k + 1] == batches[1..][k];
      }
    }
  }

  lemma {:induction false} RepeatedInConcat<T>(batches: seq<seq<T>>, j: nat, k: nat, x: T)
    requires j < k < |batches| && x in batches[j] && x in batches[k]
    ensures !Distinct(Concat(batches))
  {
    var head, rest := batches[0], Concat(batches[1..]);
    if j == 0 {
      ConcatMembers(batches[1..], x);
      assert batches[1..][k - 1] == batches[k];
      var a :| 0 <= a < |head| && head[a] == x;
      var b :| 0 <= b < |rest| && rest[b] == x;
      assert Concat(batches)[a] == Concat(batches)[|head| + b];
    } else {
      assert batches[1..][j - 1] == batches[j] && batches[1..][k - 1] == batches[k];
      RepeatedInConcat(batches[1..], j - 1, k - 1, x);
      var a, b :| 0 <= a < b < |rest| && rest[a] == rest[b];
      assert Concat(batches)[|head| + a] == Concat(batches)[|head| + b];
    }
  }

  /** Each element of a sequence without repetition lies in exactly one batch. */
  lemma EachInOneBatch<T>(s: seq<T>, size: nat, x: T)
    requires size > 0 && Distinct(s) && x in s
    ensures exists k :: 0 <= k < |Batches(s, size)| && x in Batches(s, size)[k]
    ensures forall j, k :: 0 <= j < k < |Batches(s, size)| ==> x !in Batches(s, size)[j] || x !in Batches(s, size)[k]
  {
    var batches := Batches(s, size);
    BatchesPartition(s, size);
    ConcatMembers(batches, x);
    forall j, k | 0 <= j < k < |batches| ensures x !in batches[j] || x !in batches[k] {
      if x in batches[j] && x in batches[k] {
        RepeatedInConcat(batches, j, k, x);
      }
    }
  }
}
