/** Byte streams that carry one item after the other. */
module Streams {
  import opened Results
  import opened Bytes

  /** Reads the item at the head of a stream and says how many bytes it took. */
  type Reader<!T> = seq<byte> -> Option<(T, nat)>

  /** The items read off a stream, and the bytes at which reading stops. */
  function Split<T>(read: Reader<T>, b: seq<byte>): (seq<T>, seq<byte>)
    decreases |b|
  {
    match read(b)
    case None => ([], b)
    case Some((x, n)) =>
      if 0 < n <= |b| then
        var (more, rest) := Split(read, b[n..]);
        ([x] + more, rest)
      else ([], b)
  }

  function Glue<T>(write: T -> seq<byte>, items: seq<T>): seq<byte> {
    if items == [] then [] else write(items[0]) + Glue(write, items[1..])
  }

  function Each<T, U>(f: T -> U, s: seq<T>): (r: seq<U>)
    ensures |r| == |s| && forall i :: 0 <= i < |s| ==> r[i] == f(s[i])
  {
    if s == [] then [] else [f(s[0])] + Each(f, s[1..])
  }

  /** Whatever follows, `read` gets back the item that `write` wrote. */
  ghost predicate ReadsBack<T>(read: Reader<T>, write: T -> seq<byte>, x: T) {
    write(x) != [] && forall rest :: read(write(x) + rest) == Some((x, |write(x)|))
  }

  lemma SplitFirst<T>(read: Reader<T>, write: T -> seq<byte>, x: T, more: seq<byte>)
    requires ReadsBack(read, write, x)
    ensures Split(read, write(x) + more) == ([x] + Split(read, more).0, Split(read, more).1)
  {
    var b := write(x) + more;
    assert read(b) == Some((x, |write(x)|));
    assert b[|write(x)|..] == more;
  }

  lemma GlueFirst<T>(write: T -> seq<byte>, items: seq<T>, rest: seq<byte>)
    requires items != []
    ensures Glue(write, items) + rest == write(items[0]) + (Glue(write, items[1..]) + rest)
  {
  }

  lemma {:induction false} GlueLast<T>(write: T -> seq<byte>, items: seq<T>, x: T)
    ensures Glue(write, items + [x]) == Glue(write, items) + write(x)
    decreases |items|
  {
    if items != [] {
      assert (items + [x])[1..] == items[1..] + [x];
      GlueLast(write, items[1..], x);
    }
  }

  lemma GlueStep<T>(write: T -> seq<byte>, items: seq<T>, i: nat)
    requires i < |items|
    ensures Glue(write, items[..i + 1]) == Glue(write, items[..i]) + write(items[i])
  {
    assert items[..i + 1] == items[..i] + [items[i]];
    GlueLast(write, items[..i], items[i]);
  }

  lemma ConsFirst<T>(items: seq<T>, s: seq<T>)
    requires items != []
    ensures [items[0]] + (items[1..] + s) == items + s
  {
  }

  /** Items written one after the other are read back in order, whatever follows. */
  lemma {:induction false} SplitOfGlue<T>(read: Reader<T>, write: T -> seq<byte>, items: seq<T>, rest: seq<byte>)
    requires forall i :: 0 <= i < |items| ==> ReadsBack(read, write, items[i])
    ensures Split(read, Glue(write, items) + rest) == (items + Split(read, rest).0, Split(read, rest).1)
    decreases |items|
  {
    if items == [] {
      assert Glue(write, items) + rest == rest && items + Split(read, rest).0 == Split(read, rest).0;
    } else {
      GlueFirst(write, items, rest);
      SplitFirst(read, write, items[0], Glue(write, items[1..]) + rest);
      SplitOfGlue(read, write, items[1..], rest);
      ConsFirst(items, Split(read, rest).0);
    }
  }

  // ---------------------------------------------------------------- a given number of items

  /** Reads exactly `n` items. */
  function ReadCount<T>(read: Reader<T>, n: nat, b: seq<byte>): Option<(seq<T>, seq<byte>)> {
    if n == 0 then Some(([], b))
    else
      match read(b)
      case None => None
      case Some((x, k)) =>
        if k > |b| then None
        else
          match ReadCount(read, n - 1, b[k..])
          case None => None
          case Some((more, rest)) => Some(([x] + more, rest))
  }

  /** Whatever follows, `read` gets the value of the item that `write` wrote. */
  ghost predicate ReadsValue<T, U>(read: Reader<U>, write: T -> seq<byte>, value: T -> U, x: T) {
    forall rest :: read(write(x) + rest) == Some((value(x), |write(x)|))
  }

  /** Whatever follows, `read` gets something else than its value. */
  ghost predicate Misreads<T, U>(read: Reader<U>, write: T -> seq<byte>, value: T -> U, x: T) {
    forall rest :: read(write(x) + rest).Some? && read(write(x) + rest).value.0 != value(x)
  }

  lemma CountFirst<T, U>(read: Reader<U>, write: T -> seq<byte>, value: T -> U, x: T, more: seq<byte>, n: nat)
    requires ReadsValue(read, write, value, x) && n > 0
    ensures ReadCount(read, n, write(x) + more) ==
            match ReadCount(read, n - 1, more)
            case None => None
            case Some((items, rest)) => Some(([value(x)] + items, rest))
  {
    assert read(write(x) + more) == Some((value(x), |write(x)|));
    assert (write(x) + more)[|write(x)|..] == more;
  }

  lemma MiscountFirst<T, U>(read: Reader<U>, write: T -> seq<byte>, value: T -> U, x: T, more: seq<byte>, n: nat)
    requires Misreads(read, write, value, x) && n > 0
    ensures var r := ReadCount(read, n, write(x) + more); r.Some? ==> r.value.0 != [] && r.value.0[0] != value(x)
  {
    assert read(write(x) + more).value.0 != value(x);
  }

  lemma EachFirst<T, U>(value: T -> U, items: seq<T>, tail: seq<U>)
    requires items != []
    ensures [value(items[0])] + tail == Each(value, items) <==> tail == Each(value, items[1..])
  {
    var all := [value(items[0])] + tail;
    if all == Each(value, items) {
      assert tail == all[1..];
    }
  }

  ghost predicate AllFit<T>(fits: T -> bool, items: seq<T>) {
    forall i :: 0 <= i < |items| ==> fits(items[i])
  }

  lemma AllFitFirst<T>(fits: T -> bool, items: seq<T>)
    requires items != []
    ensures AllFit(fits, items) <==> fits(items[0]) && AllFit(fits, items[1..])
  {
    if fits(items[0]) && AllFit(fits, items[1..]) {
      forall i | 0 <= i < |items| ensures fits(items[i]) {
        if i > 0 {
          assert items[i] == items[1..][i - 1];
        }
      }
    }
  }

  ghost predicate ReadOrMisread<T, U>(read: Reader<U>, write: T -> seq<byte>, value: T -> U, fits: T -> bool, x: T) {
    if fits(x) then ReadsValue(read, write, value, x) else Misreads(read, write, value, x)
  }

  ghost predicate ReadWhole<T, U>(read: Reader<U>, write: T -> seq<byte>, value: T -> U, items: seq<T>) {
    ReadCount(read, |items|, Glue(write, items)) == Some((Each(value, items), []))
  }

  lemma ReadFirstIff<T, U>(read: Reader<U>, write: T -> seq<byte>, value: T -> U, items: seq<T>)
    requires items != [] && ReadsValue(read, write, value, items[0])
    ensures ReadWhole(read, write, value, items) <==> ReadWhole(read, write, value, items[1..])
  {
    var more := Glue(write, items[1..]);
    CountFirst(read, write, value, items[0], more, |items|);
    var r := ReadCount(read, |items| - 1, more);
    if r.Some? {
      EachFirst(value, items, r.value.0);
    }
  }

  lemma MisreadFirst<T, U>(read: Reader<U>, write: T -> seq<byte>, value: T -> U, items: seq<T>)
    requires items != [] && Misreads(read, write, value, items[0])
    ensures !ReadWhole(read, write, value, items)
  {
    MiscountFirst(read, write, value, items[0], Glue(write, items[1..]), |items|);
  }

  /** If the items that fit are read back and the others are misread, a list is read back if and only if all its items fit. */
  lemma {:induction false} ReadCountIff<T, U>(read: Reader<U>, write: T -> seq<byte>, value: T -> U, fits: T -> bool, items: seq<T>)
    requires forall i :: 0 <= i < |items| ==> ReadOrMisread(read, write, value, fits, items[i])
    ensures ReadWhole(read, write, value, items) <==> AllFit(fits, items)
    decreases |items|
  {
    if items != [] {
      AllFitFirst(fits, items);
      assert ReadOrMisread(read, write, value, fits, items[0]);
      if fits(items[0]) {
        ReadFirstIff(read, write, value, items);
        ReadCountIff(read, write, value, fits, items[1..]);
      } else {
        MisreadFirst(read, write, value, items);
      }
    }
  }
}
