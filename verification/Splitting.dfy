/** Splitting by a separator and joining, over sequences of anything. */
module Splitting {

  /** How many separators begin the text. */
  function LeadingSeparators<T(==)>(s: seq<T>, sep: T): (n: nat)
    ensures n <= |s| && (n < |s| ==> s[n] != sep)
    ensures forall k :: 0 <= k < n ==> s[k] == sep
  {
    if s == [] || s[0] != sep then 0 else 1 + LeadingSeparators(s[1..], sep)
  }

  /** How many octets come before the first separator. */
  function RunLength<T(==)>(s: seq<T>, sep: T): (n: nat)
    ensures n <= |s| && (n < |s| ==> s[n] == sep)
    ensures forall k :: 0 <= k < n ==> s[k] != sep
  {
    if s == [] || s[0] == sep then 0 else 1 + RunLength(s[1..], sep)
  }

  /** The maximal runs of non-separators, in order. */
  function Split<T(==)>(s: seq<T>, sep: T): seq<seq<T>>
    decreases |s|
  {
    var t := s[LeadingSeparators(s, sep)..];
    if t == [] then []
    else
      var n := RunLength(t, sep);
      assert n > 0;
      [t[..n]] + Split(t[n..], sep)
  }

  function Join<T(==)>(parts: seq<seq<T>>, sep: T): seq<T>
    decreases |parts|
  {
    if parts == [] then []
    else if |parts| == 1 then parts[0]
    else parts[0] + [sep] + Join(parts[1..], sep)
  }

  lemma {:induction false} RunIs<T>(s: seq<T>, sep: T, n: nat)
    requires n <= |s| && (n < |s| ==> s[n] == sep) && forall k :: 0 <= k < n ==> s[k] != sep
    ensures RunLength(s, sep) == n
  {
    if n == 0 {
    } else {
      RunIs(s[1..], sep, n - 1);
    }
  }

  predicate Clean<T(==)>(t: seq<T>, sep: T) { t != [] && sep !in t }

  predicate AllClean<T(==)>(parts: seq<seq<T>>, sep: T) {
    forall k :: 0 <= k < |parts| ==> Clean(parts[k], sep)
  }

  /** What split yields is non-empty and free of separators. */
  lemma {:induction false} SplitClean<T>(s: seq<T>, sep: T)
    ensures AllClean(Split(s, sep), sep)
    decreases |s|
  {
    var t := s[LeadingSeparators(s, sep)..];
    if t == [] {
    } else {
      var n := RunLength(t, sep);
      assert n > 0;
      SplitClean(t[n..], sep);
      var parts := Split(s, sep);
      forall k | 0 <= k < |parts| ensures Clean(parts[k], sep) {
        if k > 0 {
          assert parts[k] == Split(t[n..], sep)[k - 1];
        }
      }
    }
  }

  /** A clean part in front of the end or of a separator is split off as it is. */
  lemma SplitFirst<T>(part: seq<T>, tail: seq<T>, sep: T)
    requires Clean(part, sep) && (tail != [] ==> tail[0] == sep)
    ensures Split(part + tail, sep) == [part] + Split(tail, sep)
  {
    var s := part + tail;
    assert LeadingSeparators(s, sep) == 0 && s[0..] == s;
    assert forall k :: 0 <= k < |part| ==> s[k] == part[k];
    RunIs(s, sep, |part|);
    var n := RunLength(s, sep);
    assert s[..n] == part && s[n..] == tail;
  }

  lemma SplitSkips<T>(tail: seq<T>, sep: T)
    ensures Split([sep] + tail, sep) == Split(tail, sep)
  {
    var s := [sep] + tail;
    assert s[1..] == tail;
    assert LeadingSeparators(s, sep) == 1 + LeadingSeparators(tail, sep);
    assert s[LeadingSeparators(s, sep)..] == tail[LeadingSeparators(tail, sep)..];
  }

  lemma SplitFirstOf<T>(whole: seq<T>, part: seq<T>, tail: seq<T>, sep: T)
    requires Clean(part, sep) && (tail != [] ==> tail[0] == sep) && whole == part + tail
    ensures Split(whole, sep) == [part] + Split(tail, sep)
  {
    SplitFirst(part, tail, sep);
  }

  lemma SplitPrepend<T>(part: seq<T>, tail: seq<T>, sep: T)
    requires Clean(part, sep)
    ensures Split(part + [sep] + tail, sep) == [part] + Split(tail, sep)
  {
    var behind: seq<T> := [sep] + tail;
    var whole: seq<T> := part + [sep] + tail;
    SplitFirstOf(whole, part, behind, sep);
    SplitSkips(tail, sep);
  }

  lemma SplitOne<T>(part: seq<T>, sep: T)
    requires Clean(part, sep)
    ensures Split(part, sep) == [part]
  {
    SplitFirst(part, [], sep);
    assert part + [] == part && Split([], sep) == [];
  }

  lemma {:induction false} SplitOfJoin<T>(parts: seq<seq<T>>, sep: T)
    requires AllClean(parts, sep)
    ensures Split(Join(parts, sep), sep) == parts
    decreases |parts|
  {
    if parts == [] {
    } else {
      var first, rest := parts[0], parts[1..];
      assert Clean(first, sep) && parts == [first] + rest;
      if rest == [] {
        SplitOne(first, sep);
      } else {
        SplitOfJoin(rest, sep);
        SplitPrepend(first, Join(rest, sep), sep);
      }
    }
  }

  /** Joining and splitting again gives a list back exactly when its parts are non-empty and free of separators. */
  lemma SplitJoin<T>(parts: seq<seq<T>>, sep: T)
    ensures Split(Join(parts, sep), sep) == parts <==> AllClean(parts, sep)
  {
    if AllClean(parts, sep) {
      SplitOfJoin(parts, sep);
    } else {
      SplitClean(Join(parts, sep), sep);
    }
  }

  /** So on what a split yields, the round trip is the identity. */
  lemma SplitJoinSplit<T>(s: seq<T>, sep: T)
    ensures Split(Join(Split(s, sep), sep), sep) == Split(s, sep)
  {
    SplitClean(s, sep);
    SplitJoin(Split(s, sep), sep);
  }

  /** Where a run of non-separators ends. */
  function RunEnd<T(==)>(text: seq<T>, at: nat, sep: T): (end: nat)
    requires at <= |text|
    ensures at <= end <= |text|
    decreases |text| - at
  {
    if at == |text| || text[at] == sep then at else RunEnd(text, at + 1, sep)
  }

  /** Splitting from some place on, as a pointer moves over the text. */
  function SplitFrom<T(==)>(text: seq<T>, at: nat, sep: T): seq<seq<T>>
    requires at <= |text|
    decreases |text| - at
  {
    if at == |text| then []
    else if text[at] == sep then SplitFrom(text, at + 1, sep)
    else
      var end := RunEnd(text, at + 1, sep);
      [text[at..end]] + SplitFrom(text, end, sep)
  }

  lemma {:induction false} RunEndIs<T>(text: seq<T>, at: nat, sep: T)
    requires at <= |text|
    ensures RunEnd(text, at, sep) == at + RunLength(text[at..], sep)
    decreases |text| - at
  {
    if at == |text| || text[at] == sep {
    } else {
      RunEndIs(text, at + 1, sep);
      assert text[at..][1..] == text[at + 1..];
    }
  }

  lemma SplitOneSeparator<T>(s: seq<T>, rest: seq<T>, sep: T)
    requires s != [] && s[0] == sep && rest == s[1..]
    ensures Split(s, sep) == Split(rest, sep)
  {
    assert s[LeadingSeparators(s, sep)..] == rest[LeadingSeparators(rest, sep)..];
  }

  lemma SplitOneRun<T>(s: seq<T>, run: seq<T>, rest: seq<T>, sep: T)
    requires s != [] && s[0] != sep && |run| == RunLength(s, sep) && run == s[..|run|] && rest == s[|run|..]
    ensures Split(s, sep) == [run] + Split(rest, sep)
  {
    assert s[0..] == s;
  }

  /** The pointer's account of splitting agrees with the runs of the text. */
  lemma {:induction false} SplitFromIs<T>(text: seq<T>, at: nat, sep: T)
    requires at <= |text|
    ensures SplitFrom(text, at, sep) == Split(text[at..], sep)
    decreases |text| - at
  {
    if at == |text| {
    } else if text[at] == sep {
      SplitFromIs(text, at + 1, sep);
      SplitOneSeparator(text[at..], text[at + 1..], sep);
    } else {
      var end := RunEnd(text, at + 1, sep);
      SplitFromIs(text, end, sep);
      RunEndIs(text, at, sep);
      assert text[at..][..end - at] == text[at..end] && text[at..][end - at..] == text[end..];
      SplitOneRun(text[at..], text[at..end], text[end..], sep);
    }
  }

  /** No part is longer than the whole. */
  lemma {:induction false} SplitShorter<T>(s: seq<T>, sep: T)
    ensures forall k :: 0 <= k < |Split(s, sep)| ==> |Split(s, sep)[k]| <= |s|
    decreases |s|
  {
    var t := s[LeadingSeparators(s, sep)..];
    if t == [] {
    } else {
      var m := RunLength(t, sep);
      assert m > 0;
      var rest := Split(t[m..], sep);
      SplitShorter(t[m..], sep);
      forall k | 0 <= k < |Split(s, sep)| ensures |Split(s, sep)[k]| <= |s| {
        if k > 0 {
          assert Split(s, sep)[k] == rest[k - 1];
        }
      }
    }
  }

  /** What is not in the whole is in no part. */
  lemma {:induction false} SplitAvoids<T>(s: seq<T>, sep: T, x: T)
    requires x !in s
    ensures forall k :: 0 <= k < |Split(s, sep)| ==> x !in Split(s, sep)[k]
    decreases |s|
  {
    var t := s[LeadingSeparators(s, sep)..];
    if t == [] {
    } else {
      var m := RunLength(t, sep);
      assert m > 0;
      var rest := Split(t[m..], sep);
      SplitAvoids(t[m..], sep, x);
      forall k | 0 <= k < |Split(s, sep)| ensures x !in Split(s, sep)[k] {
        if k > 0 {
          assert Split(s, sep)[k] == rest[k - 1];
        }
      }
    }
  }

  /** What is in no part and is no separator is not in the whole. */
  lemma {:induction false} JoinAvoids<T>(parts: seq<seq<T>>, sep: T, x: T)
    requires x != sep && forall k :: 0 <= k < |parts| ==> x !in parts[k]
    ensures x !in Join(parts, sep)
    decreases |parts|
  {
    if |parts| <= 1 {
    } else {
      JoinAvoids(parts[1..], sep, x);
    }
  }
}
