/**
 * Items grouped by a key, the groups cut into bounded pipelines, and one verdict per item: the shape of a chain cycle,
 * for any items and keys.
 */
module Pipelines {
  import opened Seqs

  // ---------- groups ----------

  function Select<T>(s: seq<T>, p: T -> bool): seq<T> {
    if s == [] then [] else Select(s[..|s| - 1], p) + (if p(s[|s| - 1]) then [s[|s| - 1]] else [])
  }

  lemma {:induction false} SelectMembers<T>(s: seq<T>, p: T -> bool)
    ensures forall x :: x in Select(s, p) <==> x in s && p(x)
    ensures |Select(s, p)| <= |s|
  {
    if s != [] {
      SelectMembers(s[..|s| - 1], p);
      assert s == s[..|s| - 1] + [s[|s| - 1]];
    }
  }

  lemma {:induction false} SelectNothing<T>(s: seq<T>, p: T -> bool)
    requires forall x :: x in s ==> !p(x)
    ensures Select(s, p) == []
  {
    if s != [] {
      SelectNothing(s[..|s| - 1], p);
      assert s[|s| - 1] in s;
    }
  }

  /** Two disjoint selections together are the selection of either. */
  lemma {:induction false} SelectSplit<T>(s: seq<T>, p: T -> bool, q: T -> bool, either: T -> bool)
    requires forall x :: x in s ==> (either(x) <==> p(x) || q(x)) && !(p(x) && q(x))
    ensures multiset(Select(s, p)) + multiset(Select(s, q)) == multiset(Select(s, either))
  {
    if s != [] {
      SelectSplit(s[..|s| - 1], p, q, either);
      assert s[|s| - 1] in s;
    }
  }

  lemma {:induction false} SelectSame<T>(s: seq<T>, p: T -> bool, q: T -> bool)
    requires forall x :: x in s ==> p(x) == q(x)
    ensures Select(s, p) == Select(s, q)
  {
    if s != [] {
      SelectSame(s[..|s| - 1], p, q);
      assert s[|s| - 1] in s;
    }
  }

  function Keys<T, K>(s: seq<T>, key: T -> K): (keys: seq<K>)
    ensures |keys| == |s| && forall i :: 0 <= i < |s| ==> keys[i] == key(s[i])
  {
    seq(|s|, i requires 0 <= i < |s| => key(s[i]))
  }

  function HasKey<T, K(==)>(key: T -> K, k: K): T -> bool { x => key(x) == k }

  function HasChosenKey<T, K(==)>(key: T -> K, keys: seq<K>, chosen: K -> bool): T -> bool {
    x => key(x) in keys && chosen(key(x))
  }

  function Group<T, K(==)>(s: seq<T>, key: T -> K, k: K): seq<T> { Select(s, HasKey(key, k)) }

  /** The groups of the chosen keys, one after the other. */
  function Grouped<T, K(==)>(s: seq<T>, key: T -> K, keys: seq<K>, chosen: K -> bool): seq<T> {
    if keys == [] then []
    else
      var last := keys[|keys| - 1];
      Grouped(s, key, keys[..|keys| - 1], chosen) + (if chosen(last) then Group(s, key, last) else [])
  }

  /** Grouping loses and duplicates nothing. */
  lemma {:induction false} GroupedIsPermutation<T, K>(s: seq<T>, key: T -> K, keys: seq<K>, chosen: K -> bool)
    requires Distinct(keys)
    ensures multiset(Grouped(s, key, keys, chosen)) == multiset(Select(s, HasChosenKey(key, keys, chosen)))
  {
    var p := HasChosenKey(key, keys, chosen);
    if keys == [] {
      SelectNothing(s, p);
    } else {
      var before, last := keys[..|keys| - 1], keys[|keys| - 1];
      GroupedIsPermutation(s, key, before, chosen);
      assert keys == before + [last] && last !in before;
      hide Select, Distinct;
      if chosen(last) {
        SelectSplit(s, HasChosenKey(key, before, chosen), HasKey(key, last), p);
      } else {
        SelectSame(s, HasChosenKey(key, before, chosen), p);
      }
    }
  }

  // ---------- pipelines: the batches of each chosen group ----------

  datatype Batch<T, K> = Batch(signer: K, items: seq<T>)

  function Signed<T, K>(signer: K, chunks: seq<seq<T>>): (batches: seq<Batch<T, K>>)
    ensures |batches| == |chunks| && forall i :: 0 <= i < |chunks| ==> batches[i] == Batch(signer, chunks[i])
  {
    seq(|chunks|, i requires 0 <= i < |chunks| => Batch(signer, chunks[i]))
  }

  lemma SignedAppend<T, K>(signer: K, chunks: seq<seq<T>>, chunk: seq<T>)
    ensures Signed(signer, chunks + [chunk]) == Signed(signer, chunks) + [Batch(signer, chunk)]
  {
  }

  function Pipelines<T, K(==)>(s: seq<T>, key: T -> K, keys: seq<K>, chosen: K -> bool, size: nat): seq<Batch<T, K>>
    requires size > 0
  {
    if keys == [] then []
    else
      var last := keys[|keys| - 1];
      Pipelines(s, key, keys[..|keys| - 1], chosen, size)
      + (if chosen(last) then Signed(last, Batches(Group(s, key, last), size)) else [])
  }

  function ItemsOf<T, K>(batches: seq<Batch<T, K>>): seq<T> {
    if batches == [] then [] else batches[0].items + ItemsOf(batches[1..])
  }

  lemma ItemsOfHead<T, K>(a: seq<Batch<T, K>>)
    requires a != []
    ensures ItemsOf(a) == a[0].items + ItemsOf(a[1..])
  {
  }

  lemma {:induction false} ItemsOfAppend<T, K>(a: seq<Batch<T, K>>, b: seq<Batch<T, K>>)
    ensures ItemsOf(a + b) == ItemsOf(a) + ItemsOf(b)
    decreases |a|
  {
    if a == [] {
      assert a + b == b;
    } else {
      ItemsOfAppend(a[1..], b);
      ItemsOfHead(a);
      ItemsOfHead(a + b);
      hide ItemsOf;
      assert (a + b)[1..] == a[1..] + b && (a + b)[0] == a[0];
    }
  }

  lemma {:induction false} ItemsOfSigned<T, K>(signer: K, chunks: seq<seq<T>>)
    ensures ItemsOf(Signed(signer, chunks)) == Concat(chunks)
  {
    if chunks != [] {
      ItemsOfSigned(signer, chunks[1..]);
      assert Signed(signer, chunks)[1..] == Signed(signer, chunks[1..]);
    }
  }

  /** One chosen key after the other, the items of each go out in their order, all of them. */
  lemma {:induction false} PipelinesInOrder<T, K>(s: seq<T>, key: T -> K, keys: seq<K>, chosen: K -> bool, size: nat)
    requires size > 0
    ensures ItemsOf(Pipelines(s, key, keys, chosen, size)) == Grouped(s, key, keys, chosen)
  {
    if keys != [] {
      var before, last := keys[..|keys| - 1], keys[|keys| - 1];
      PipelinesInOrder(s, key, before, chosen, size);
      var chunks := Batches(Group(s, key, last), size);
      ItemsOfAppend(Pipelines(s, key, before, chosen, size), if chosen(last) then Signed(last, chunks) else []);
      ItemsOfSigned(last, chunks);
      BatchesPartition(Group(s, key, last), size);
    }
  }

  ghost predicate WellSigned<T, K>(b: Batch<T, K>, s: seq<T>, key: T -> K, chosen: K -> bool, size: nat) {
    && chosen(b.signer) && 0 < |b.items| <= size
    && forall i :: 0 <= i < |b.items| ==> b.items[i] in s && key(b.items[i]) == b.signer
  }

  /** Each pipeline holds items of one chosen key only, at least one and at most `size`. */
  lemma {:induction false} PipelinesWellSigned<T, K>(s: seq<T>, key: T -> K, keys: seq<K>, chosen: K -> bool, size: nat)
    requires size > 0
    ensures forall k :: 0 <= k < |Pipelines(s, key, keys, chosen, size)| ==>
              WellSigned(Pipelines(s, key, keys, chosen, size)[k], s, key, chosen, size)
  {
    if keys != [] {
      var last := keys[|keys| - 1];
      PipelinesWellSigned(s, key, keys[..|keys| - 1], chosen, size);
      if chosen(last) {
        var group := Group(s, key, last);
        var chunks := Batches(group, size);
        BatchesPartition(group, size);
        SelectMembers(s, HasKey(key, last));
        forall k: int, i: int | 0 <= k < |chunks| && 0 <= i < |chunks[k]|
          ensures chunks[k][i] in s && key(chunks[k][i]) == last
        {
          ConcatMembers(chunks, chunks[k][i]);
          assert chunks[k][i] in group;
        }
      }
    }
  }

  /** `dict` of groups in order of first occurrence. */
  function GroupKeys<T, K(==)>(s: seq<T>, key: T -> K): seq<K> { Dedupe(Keys(s, key)) }

  lemma KeyIsGrouped<T, K>(s: seq<T>, key: T -> K, x: T)
    requires x in s
    ensures key(x) in GroupKeys(s, key)
  {
    var i :| 0 <= i < |s| && s[i] == x;
    var keys, k := Keys(s, key), key(x);
    assert keys[i] == k;
    assert k in keys;
    DedupeDistinct(keys);
    assert k in Dedupe(keys);
  }

  function HasChosen<T, K(==)>(key: T -> K, chosen: K -> bool): T -> bool { x => chosen(key(x)) }

  /** Conservation: the pipelines hold exactly the items of chosen keys, each as often as it occurs. */
  lemma PipelinesConserve<T, K>(s: seq<T>, key: T -> K, chosen: K -> bool, size: nat)
    requires size > 0
    ensures multiset(ItemsOf(Pipelines(s, key, GroupKeys(s, key), chosen, size)))
            == multiset(Select(s, HasChosen(key, chosen)))
  {
    hide Pipelines, Select, Dedupe, ItemsOf, Grouped;
    PipelinesInOrder(s, key, GroupKeys(s, key), chosen, size);
    GroupedConserve(s, key, chosen);
  }

  lemma GroupedConserve<T, K>(s: seq<T>, key: T -> K, chosen: K -> bool)
    ensures multiset(Grouped(s, key, GroupKeys(s, key), chosen)) == multiset(Select(s, HasChosen(key, chosen)))
  {
    hide Select, Dedupe, Grouped;
    var keys := GroupKeys(s, key);
    DedupeDistinct(Keys(s, key));
    GroupedIsPermutation(s, key, keys, chosen);
    forall x | x in s ensures key(x) in keys {
      KeyIsGrouped(s, key, x);
    }
    SelectSame(s, HasChosenKey(key, keys, chosen), HasChosen(key, chosen));
  }

  lemma {:induction false} SelectAll<T>(s: seq<T>, p: T -> bool)
    ensures |Select(s, p)| <= |s|
    ensures |Select(s, p)| == |s| <==> forall i :: 0 <= i < |s| ==> p(s[i])
  {
    if s != [] {
      SelectAll(s[..|s| - 1], p);
    }
  }

  /** A single item of a chosen key goes out alone. */
  lemma OneItem<T, K>(x: T, key: T -> K, chosen: K -> bool, size: nat)
    requires size > 0 && chosen(key(x))
    ensures Pipelines([x], key, GroupKeys([x], key), chosen, size) == [Batch(key(x), [x])]
  {
    var keys := Keys([x], key);
    assert keys == [key(x)] && [x][..0] == [] && keys[..0] == [];
    assert Dedupe(keys) == [key(x)];
    assert Select([x][..0], HasKey(key, key(x))) == [];
    assert Group([x], key, key(x)) == [x];
    NextBatch([x], 0, size);
    NoBatch([x], size);
  }

  // ---------- one verdict per item ----------

  function Judged<T, V>(items: seq<T>, verdict: T -> V): (log: seq<(T, V)>)
    ensures |log| == |items| && forall i :: 0 <= i < |log| ==> log[i] == (items[i], verdict(items[i]))
  {
    seq(|items|, i requires 0 <= i < |items| => (items[i], verdict(items[i])))
  }

  /** The verdicts on the first `n` pipelines; `verdict` gives that of an item of the k-th. */
  function Log<T, K, V>(batches: seq<Batch<T, K>>, verdict: nat -> T -> V, n: nat): seq<(T, V)>
    requires n <= |batches|
  {
    if n == 0 then [] else Log(batches, verdict, n - 1) + Judged(batches[n - 1].items, verdict(n - 1))
  }

  function Firsts<T, V>(log: seq<(T, V)>): (items: seq<T>)
    ensures |items| == |log| && forall i :: 0 <= i < |log| ==> items[i] == log[i].0
  {
    seq(|log|, i requires 0 <= i < |log| => log[i].0)
  }

  lemma {:induction false} OneVerdictEach<T, K, V>(batches: seq<Batch<T, K>>, verdict: nat -> T -> V, n: nat)
    requires n <= |batches|
    ensures Firsts(Log(batches, verdict, n)) == ItemsOf(batches[..n])
  {
    if n > 0 {
      OneVerdictEach(batches, verdict, n - 1);
      assert batches[..n] == batches[..n - 1] + [batches[n - 1]];
      ItemsOfAppend(batches[..n - 1], [batches[n - 1]]);
      assert ItemsOf([batches[n - 1]]) == batches[n - 1].items + ItemsOf([batches[n - 1]][1..]);
    }
  }

  /** Later pipelines do not change the verdicts on earlier ones. */
  lemma {:induction false} LogAppend<T, K, V>(batches: seq<Batch<T, K>>, b: Batch<T, K>, verdict: nat -> T -> V, n: nat)
    requires n <= |batches|
    ensures Log(batches + [b], verdict, n) == Log(batches, verdict, n)
    ensures Log(batches + [b], verdict, |batches| + 1)
            == Log(batches + [b], verdict, |batches|) + Judged(b.items, verdict(|batches|))
  {
    if n > 0 {
      LogAppend(batches, b, verdict, n - 1);
    }
  }

  lemma {:induction false} LogPrefix<T, K, V>(batches: seq<Batch<T, K>>, more: seq<Batch<T, K>>,
                                              verdict: nat -> T -> V, n: nat)
    requires n <= |batches| && batches <= more
    ensures Log(more, verdict, n) == Log(batches, verdict, n)
  {
    if n > 0 {
      LogPrefix(batches, more, verdict, n - 1);
    }
  }

  // ---------- stopping at a verdict ----------

  predicate Stopped<T, V>(log: seq<(T, V)>, stop: V -> bool) { exists i :: 0 <= i < |log| && stop(log[i].1) }

  /** The log up to and including its first stopping verdict. */
  function Until<T, V>(log: seq<(T, V)>, stop: V -> bool): (u: seq<(T, V)>)
    ensures u <= log
  {
    if log == [] then [] else if stop(log[0].1) then [log[0]] else [log[0]] + Until(log[1..], stop)
  }

  /** Everything before its last verdict is no stop, and without a stop it is the whole log. */
  lemma {:induction false} UntilMeans<T, V>(log: seq<(T, V)>, stop: V -> bool)
    ensures var u := Until(log, stop);
            && (Stopped(log, stop) <==> Stopped(u, stop)) && (!Stopped(log, stop) ==> u == log)
            && (forall i :: 0 <= i < |u| - 1 ==> !stop(u[i].1))
            && (Stopped(u, stop) ==> u != [] && stop(u[|u| - 1].1))
  {
    if log != [] && !stop(log[0].1) {
      UntilMeans(log[1..], stop);
      var u, rest := Until(log, stop), Until(log[1..], stop);
      assert u == [log[0]] + rest;
      if i :| 0 <= i < |log| && stop(log[i].1) {
        assert stop(log[1..][i - 1].1);
        assert u[|u| - 1] == rest[|rest| - 1];
      }
    } else if log != [] {
      assert Until(log, stop)[0] == log[0];
    }
  }

  lemma UntilHead<T, V>(log: seq<(T, V)>, stop: V -> bool)
    requires log != []
    ensures Until(log, stop) == if stop(log[0].1) then [log[0]] else [log[0]] + Until(log[1..], stop)
    ensures Stopped(log, stop) <==> stop(log[0].1) || Stopped(log[1..], stop)
  {
    StoppedAppend([log[0]], log[1..], stop);
    assert [log[0]] + log[1..] == log;
    if stop(log[0].1) {
      assert stop([log[0]][0].1);
    }
  }

  lemma HeadTail<T>(a: seq<T>, b: seq<T>)
    requires a != []
    ensures (a + b)[0] == a[0] && (a + b)[1..] == a[1..] + b
    ensures [a[0]] + (a[1..] + b) == a + b
  {
  }

  lemma {:induction false} UntilAppend<T, V>(a: seq<(T, V)>, b: seq<(T, V)>, stop: V -> bool)
    ensures Until(a + b, stop) == if Stopped(a, stop) then Until(a, stop) else a + Until(b, stop)
    decreases |a|
  {
    if a == [] {
      assert a + b == b;
    } else {
      UntilHead(a, stop);
      UntilHead(a + b, stop);
      UntilAppend(a[1..], b, stop);
      hide Until, Stopped;
      HeadTail(a, b);
      HeadTail(a, Until(b, stop));
    }
  }

  lemma StoppedAppend<T, V>(a: seq<(T, V)>, b: seq<(T, V)>, stop: V -> bool)
    ensures Stopped(a + b, stop) <==> Stopped(a, stop) || Stopped(b, stop)
  {
    if i :| 0 <= i < |a| && stop(a[i].1) {
      assert (a + b)[i] == a[i];
    }
    if i :| 0 <= i < |b| && stop(b[i].1) {
      assert (a + b)[|a| + i] == b[i];
    }
    if i :| 0 <= i < |a + b| && stop((a + b)[i].1) {
      assert (a + b)[i] == if i < |a| then a[i] else b[i - |a|];
    }
  }

  predicate EndsWith<X(==)>(s: seq<X>, last: X) { s != [] && s[|s| - 1] == last }

  lemma EndsWithAppend<X>(a: seq<X>, b: seq<X>, last: X)
    requires EndsWith(b, last)
    ensures EndsWith(a + b, last)
  {
  }

  predicate NoStopIn<T, V>(items: seq<T>, verdict: T -> V, stop: V -> bool) {
    forall j :: 0 <= j < |items| ==> !stop(verdict(items[j]))
  }

  /** Item `i` of pipeline `k` is the first in sending order whose verdict stops. */
  predicate FirstStop<T, K, V>(batches: seq<Batch<T, K>>, verdict: nat -> T -> V, stop: V -> bool, k: nat, i: nat)
    requires k < |batches| && i < |batches[k].items|
  {
    && stop(verdict(k)(batches[k].items[i])) && NoStopIn(batches[k].items[..i], verdict(k), stop)
    && forall m :: 0 <= m < k ==> NoStopIn(batches[m].items, verdict(m), stop)
  }

  lemma FirstStopUnique<T, K, V>(batches: seq<Batch<T, K>>, verdict: nat -> T -> V, stop: V -> bool, k: nat, i: nat,
                                 k': nat, i': nat)
    requires k < |batches| && i < |batches[k].items| && FirstStop(batches, verdict, stop, k, i)
    requires k' < |batches| && i' < |batches[k'].items| && FirstStop(batches, verdict, stop, k', i')
    ensures k == k' && i == i'
  {
  }

  lemma JudgedStops<T, V>(items: seq<T>, verdict: T -> V, stop: V -> bool)
    ensures Stopped(Judged(items, verdict), stop) <==> !NoStopIn(items, verdict, stop)
  {
    var judged := Judged(items, verdict);
    if j :| 0 <= j < |items| && stop(verdict(items[j])) {
      assert stop(judged[j].1);
    }
  }

  lemma {:induction false} UnstoppedMeans<T, K, V>(batches: seq<Batch<T, K>>, verdict: nat -> T -> V, stop: V -> bool,
                                                   n: nat)
    requires n <= |batches|
    ensures !Stopped(Log(batches, verdict, n), stop)
            <==> forall m :: 0 <= m < n ==> NoStopIn(batches[m].items, verdict(m), stop)
  {
    if n > 0 {
      UnstoppedMeans(batches, verdict, stop, n - 1);
      StoppedAppend(Log(batches, verdict, n - 1), Judged(batches[n - 1].items, verdict(n - 1)), stop);
      JudgedStops(batches[n - 1].items, verdict(n - 1), stop);
      hide NoStopIn, Stopped;
    }
  }

  /** Judging stops at the first item whose verdict stops. */
  lemma JudgedFirstStop<T, V>(items: seq<T>, verdict: T -> V, stop: V -> bool) returns (i: nat)
    requires Stopped(Judged(items, verdict), stop)
    ensures i < |items| && stop(verdict(items[i])) && NoStopIn(items[..i], verdict, stop)
    ensures EndsWith(Until(Judged(items, verdict), stop), (items[i], verdict(items[i])))
  {
    var judged := Judged(items, verdict);
    UntilMeans(judged, stop);
    var u := Until(judged, stop);
    i := |u| - 1;
    assert u[i] == judged[i];
    forall j | 0 <= j < i ensures !stop(verdict(items[..i][j])) {
      assert u[j] == judged[j] && !stop(u[j].1);
    }
  }

  lemma FirstStopHere<T, K, V>(batches: seq<Batch<T, K>>, verdict: nat -> T -> V, stop: V -> bool, k: nat)
    returns (i: nat)
    requires k < |batches| && !Stopped(Log(batches, verdict, k), stop)
    requires Stopped(Judged(batches[k].items, verdict(k)), stop)
    ensures i < |batches[k].items| && FirstStop(batches, verdict, stop, k, i)
    ensures EndsWith(Until(Judged(batches[k].items, verdict(k)), stop),
                     (batches[k].items[i], verdict(k)(batches[k].items[i])))
  {
    hide Until, Stopped, NoStopIn, Log, Judged, EndsWith;
    UnstoppedMeans(batches, verdict, stop, k);
    i := JudgedFirstStop(batches[k].items, verdict(k), stop);
  }

  /** The log cut at its first stop ends with the first item whose verdict stops. */
  lemma {:induction false} UntilFirstStop<T, K, V>(batches: seq<Batch<T, K>>, verdict: nat -> T -> V, stop: V -> bool,
                                                   n: nat)
    returns (k: nat, i: nat)
    requires n <= |batches| && Stopped(Log(batches, verdict, n), stop)
    ensures k < n && i < |batches[k].items| && FirstStop(batches, verdict, stop, k, i)
    ensures EndsWith(Until(Log(batches, verdict, n), stop), (batches[k].items[i], verdict(k)(batches[k].items[i])))
  {
    k := n - 1;
    var before, judged := Log(batches, verdict, k), Judged(batches[k].items, verdict(k));
    hide Until, Stopped, NoStopIn, Judged, FirstStop, EndsWith;
    assert Log(batches, verdict, n) == before + judged;
    hide Log;
    UntilAppend(before, judged, stop);
    StoppedAppend(before, judged, stop);
    if Stopped(before, stop) {
      k, i := UntilFirstStop(batches, verdict, stop, n - 1);
    } else {
      i := FirstStopHere(batches, verdict, stop, k);
      EndsWithAppend(before, Until(judged, stop), (batches[k].items[i], verdict(k)(batches[k].items[i])));
    }
  }

  lemma FirstsPrefix<T, V>(u: seq<(T, V)>, log: seq<(T, V)>)
    requires u <= log
    ensures Firsts(u) <= Firsts(log)
  {
  }

  // ---------- earlier keys, earlier work ----------

  lemma {:induction false} PipelinesGrow<T, K>(s: seq<T>, key: T -> K, keys: seq<K>, chosen: K -> bool, size: nat,
                                               g: nat)
    requires size > 0 && g <= |keys|
    ensures Pipelines(s, key, keys[..g], chosen, size) <= Pipelines(s, key, keys, chosen, size)
    decreases |keys|
  {
    if g < |keys| {
      var before := keys[..|keys| - 1];
      PipelinesGrow(s, key, before, chosen, size, g);
      assert before[..g] == keys[..g];
    } else {
      assert keys[..g] == keys;
    }
  }

  lemma {:induction false} GroupedGrow<T, K>(s: seq<T>, key: T -> K, keys: seq<K>, chosen: K -> bool, g: nat)
    requires g <= |keys|
    ensures Grouped(s, key, keys[..g], chosen) <= Grouped(s, key, keys, chosen)
    decreases |keys|
  {
    if g < |keys| {
      var before := keys[..|keys| - 1];
      GroupedGrow(s, key, before, chosen, g);
      assert before[..g] == keys[..g];
    } else {
      assert keys[..g] == keys;
    }
  }

  lemma {:induction false} ItemsOfPrefix<T, K>(batches: seq<Batch<T, K>>, n: nat)
    requires n <= |batches|
    ensures ItemsOf(batches[..n]) <= ItemsOf(batches)
  {
    ItemsOfAppend(batches[..n], batches[n..]);
    assert batches[..n] + batches[n..] == batches;
  }
}
