/** Splitting, joining and decimal text, as the utilities do them with moving pointers. */
module TextTools {
  import opened Bytes
  import opened Splitting

  /** Parts of a text are texts. */
  function SplitText(text: Text, sep: byte): (parts: seq<Text>)
    ensures parts == Split(text, sep)
  {
    SplitAvoids(text, sep, 0);
    Split(text, sep)
  }

  function JoinText(parts: seq<Text>, sep: byte): (text: Text)
    requires sep != 0
    ensures text == Join(parts, sep)
  {
    JoinAvoids(parts, sep, 0);
    Join(parts, sep)
  }

  /** Run after run is copied into a buffer; strchr finds where the next one may begin. */
  method CopyRuns(text: seq<byte>, sep: byte) returns (parts: seq<seq<byte>>)
    ensures parts == SplitFrom(text, 0, sep)
  {
    parts := [];
    var worker := 0;
    while worker < |text|
      invariant worker <= |text| && SplitFrom(text, 0, sep) == parts + SplitFrom(text, worker, sep)
      decreases |text| - worker
    {
      if text[worker] == sep {
        worker := SkipSeparators(text, worker, sep);
        if worker == |text| {
          break;
        }
      }
      var buffer := CopyRun(text, worker, sep);
      parts := parts + [buffer];
      worker := worker + |buffer|;
    }
  }

  method SplitTextByCharacter(text: Text, sep: byte) returns (parts: seq<Text>)
    requires sep != 0
    ensures parts == SplitText(text, sep)
  {
    var runs := CopyRuns(text, sep);
    SplitFromIs(text, 0, sep);
    assert text[0..] == text;
    SplitAvoids(text, sep, 0);
    parts := runs;
  }

  /** Steps over separators. */
  method SkipSeparators(text: seq<byte>, from: nat, sep: byte) returns (worker: nat)
    requires from < |text| && text[from] == sep
    ensures from < worker <= |text| && (worker < |text| ==> text[worker] != sep)
    ensures SplitFrom(text, from, sep) == SplitFrom(text, worker, sep)
  {
    worker := from;
    while worker < |text| && text[worker] == sep
      invariant from <= worker <= |text| && SplitFrom(text, from, sep) == SplitFrom(text, worker, sep)
    {
      worker := worker + 1;
    }
  }

  /** Copies octets into a buffer until a separator or the end comes. */
  method CopyRun(text: seq<byte>, worker: nat, sep: byte) returns (buffer: seq<byte>)
    requires worker < |text| && text[worker] != sep
    ensures buffer != [] && worker + |buffer| <= |text|
    ensures SplitFrom(text, worker, sep) == [buffer] + SplitFrom(text, worker + |buffer|, sep)
  {
    buffer := [];
    var inc := 0;
    while worker + inc < |text| && text[worker + inc] != sep
      invariant worker + inc <= |text| && buffer == text[worker..worker + inc]
      invariant RunEnd(text, worker, sep) == RunEnd(text, worker + inc, sep)
    {
      buffer := buffer + [text[worker + inc]];
      inc := inc + 1;
    }
  }

  /** Appends part after part, with a separator behind all but the last. */
  method JoinTextByCharacter(parts: seq<Text>, sep: byte) returns (text: Text)
    requires sep != 0
    ensures text == JoinText(parts, sep)
  {
    text := [];
    ghost var rest := parts;
    for inc := 0 to |parts|
      invariant rest == parts[inc..]
      invariant Join(parts, sep) == text + Join(rest, sep)
    {
      text := text + parts[inc];
      if inc + 1 < |parts| {
        text := text + [sep];
      }
      rest := rest[1..];
    }
  }

  /** What is split off a text is joined and split again without change. */
  lemma SplitJoinSplitText(text: Text, sep: byte)
    requires sep != 0
    ensures SplitText(JoinText(SplitText(text, sep), sep), sep) == SplitText(text, sep)
  {
    SplitJoinSplit(text, sep);
  }

  // ---------------------------------------------------------- decimal text

  predicate IsDigit(b: byte) { 48 <= b <= 57 }

  predicate IsSpace(b: byte) { b == 32 || 9 <= b <= 13 }

  function Digits(s: seq<byte>, value: nat): nat
    decreases |s|
  {
    if s == [] || !IsDigit(s[0]) then value else Digits(s[1..], 10 * value + (s[0] - 48))
  }

  /** White space, a sign, and as many digits as follow. */
  function Atoi(s: seq<byte>): int
    decreases |s|
  {
    if s == [] then 0
    else if IsSpace(s[0]) then Atoi(s[1..])
    else if s[0] == 45 then 0 - Digits(s[1..], 0)
    else if s[0] == 43 then Digits(s[1..], 0)
    else Digits(s, 0)
  }

  function Decimal(n: nat): (t: Text)
    ensures t != [] && forall k :: 0 <= k < |t| ==> IsDigit(t[k])
  {
    if n < 10 then [48 + n] else Decimal(n / 10) + [48 + n % 10]
  }

  /** White space is passed over. */
  lemma AtoiSkips(b: byte, s: seq<byte>)
    requires b == 32 || 9 <= b <= 13
    ensures Atoi([b] + s) == Atoi(s)
  {
    assert ([b] + s)[1..] == s;
  }

  /** A sign in front of a number, and whatever is not a digit behind it. */
  lemma AtoiSigned(sign: seq<byte>, n: nat, more: seq<byte>)
    requires sign == [] || sign == [43] || sign == [45]
    requires more == [] || !IsDigit(more[0])
    ensures Atoi(sign + (Decimal(n) + more)) == if sign == [45] then 0 - n else n
  {
    var t := Decimal(n);
    DigitsStop(t, more, 0);
    DigitsOfDecimal(n);
    assert IsDigit(t[0]) && (t + more)[0] == t[0];
    if sign == [] {
      assert sign + (t + more) == t + more;
    } else {
      assert (sign + (t + more))[1..] == t + more;
    }
  }

  lemma {:induction false} DigitsStop(t: seq<byte>, more: seq<byte>, value: nat)
    requires more == [] || !IsDigit(more[0])
    requires forall k :: 0 <= k < |t| ==> IsDigit(t[k])
    ensures Digits(t + more, value) == Digits(t, value)
    decreases |t|
  {
    if t == [] {
      assert t + more == more;
    } else {
      DigitsStop(t[1..], more, 10 * value + (t[0] - 48));
      assert (t + more)[1..] == t[1..] + more;
    }
  }

  lemma {:induction false} DigitsAppend(s: seq<byte>, d: byte, value: nat)
    requires IsDigit(d) && forall k :: 0 <= k < |s| ==> IsDigit(s[k])
    ensures Digits(s + [d], value) == 10 * Digits(s, value) + (d - 48)
    decreases |s|
  {
    if s == [] {
      assert s + [d] == [d] && [d][1..] == [];
      assert Digits([d], value) == Digits([], 10 * value + (d - 48));
    } else {
      assert IsDigit(s[0]);
      DigitsAppend(s[1..], d, 10 * value + (s[0] - 48));
      assert (s + [d])[1..] == s[1..] + [d];
    }
  }

  lemma {:induction false} DigitsOfDecimal(n: nat)
    ensures Digits(Decimal(n), 0) == n
  {
    if n < 10 {
      assert Decimal(n)[1..] == [];
      assert Digits(Decimal(n), 0) == Digits([], n);
    } else {
      DigitsOfDecimal(n / 10);
      DigitsAppend(Decimal(n / 10), 48 + n % 10, 0);
    }
  }

  lemma AtoiDecimal(n: nat)
    ensures Atoi(Decimal(n)) == n
  {
    assert IsDigit(Decimal(n)[0]);
    DigitsOfDecimal(n);
  }
}
