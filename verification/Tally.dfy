/** Counting the entries of a log by the number each of them bears. */
module Tally {

  ghost function Marks<T>(mark: T -> nat, log: seq<T>): set<nat> {
    set i | 0 <= i < |log| :: mark(log[i])
  }

  /** No two entries bear the same number. */
  ghost predicate Distinct<T>(mark: T -> nat, log: seq<T>) {
    forall i, j :: 0 <= i < j < |log| ==> mark(log[i]) != mark(log[j])
  }

  /** How many entries satisfy `p`. */
  function Count<T>(p: T -> bool, log: seq<T>): nat {
    if log == [] then 0 else Count(p, log[..|log| - 1]) + if p(log[|log| - 1]) then 1 else 0
  }

  lemma CountLast<T>(p: T -> bool, log: seq<T>, x: T)
    ensures Count(p, log + [x]) == Count(p, log) + if p(x) then 1 else 0
  {
    assert (log + [x])[..|log|] == log;
  }

  lemma {:induction false} CountAppend<T>(p: T -> bool, a: seq<T>, b: seq<T>)
    ensures Count(p, a + b) == Count(p, a) + Count(p, b)
    decreases |b|
  {
    if b == [] {
      assert a + b == a;
    } else {
      assert (a + b)[..|a + b| - 1] == a + b[..|b| - 1];
      CountAppend(p, a, b[..|b| - 1]);
    }
  }

  function Marked<T>(mark: T -> nat, k: nat): T -> bool {
    (x: T) => mark(x) == k
  }

  /** How many entries bear number `k`. */
  function Times<T>(mark: T -> nat, log: seq<T>, k: nat): nat {
    Count(Marked(mark, k), log)
  }

  lemma MarksLast<T>(mark: T -> nat, log: seq<T>, x: T)
    ensures forall k :: k in Marks(mark, log + [x]) <==> k in Marks(mark, log) || k == mark(x)
  {
    var more := log + [x];
    forall k | k in Marks(mark, log) ensures k in Marks(mark, more) {
      var i :| 0 <= i < |log| && mark(log[i]) == k;
      assert mark(more[i]) == k;
    }
    assert mark(more[|log|]) == mark(x);
  }

  lemma DistinctLast<T>(mark: T -> nat, log: seq<T>, x: T)
    requires Distinct(mark, log) && mark(x) !in Marks(mark, log)
    ensures Distinct(mark, log + [x])
  {
    forall i | 0 <= i < |log| ensures mark(log[i]) != mark(x) {
      assert mark(log[i]) in Marks(mark, log);
    }
  }

  lemma DistinctPrefix<T>(mark: T -> nat, log: seq<T>, n: nat)
    requires Distinct(mark, log) && n <= |log|
    ensures Distinct(mark, log[..n])
  {
  }

  lemma {:induction false} TimesDistinct<T>(mark: T -> nat, log: seq<T>, k: nat)
    requires Distinct(mark, log)
    ensures Times(mark, log, k) == if k in Marks(mark, log) then 1 else 0
  {
    if log != [] {
      var front, last := log[..|log| - 1], log[|log| - 1];
      TimesDistinct(mark, front, k);
      CountLast(Marked(mark, k), front, last);
      assert log == front + [last];
      MarksLast(mark, front, last);
      assert forall i :: 0 <= i < |front| ==> mark(log[i]) != mark(last);
    }
  }

  // ---------------------------------------------------------------- no repetitions

  ghost predicate Injective<K, V>(m: map<K, V>) {
    forall a, b :: a in m && b in m && a != b ==> m[a] != m[b]
  }

  ghost predicate NoDuplicates<T>(s: seq<T>) {
    forall i, j :: 0 <= i < j < |s| ==> s[i] != s[j]
  }

  lemma NoDuplicatesStep<T>(s: seq<T>, x: T)
    ensures NoDuplicates(s + [x]) <==> NoDuplicates(s) && x !in s
  {
    var all := s + [x];
    if NoDuplicates(all) {
      forall i, j | 0 <= i < j < |s| ensures s[i] != s[j] {
        assert all[i] != all[j];
      }
      assert all[|s|] == x;
      assert forall i :: 0 <= i < |s| ==> all[i] == s[i];
    }
  }
}
