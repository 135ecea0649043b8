/** The walkers over a stream's octets: the validator, the counters and the type-list checks. */
module Validation {
  import opened Bytes
  import opened Arguments

  /** How a constructor or validator ends: normally, with Err_CorruptStream, or with std::out_of_range. */
  datatype Outcome = Ok | Corrupt | OutOfRange

  /** The octets after the header are whole arguments, one after another, with nothing left over. */
  ghost predicate WholeArguments(s: seq<byte>) {
    exists rs :: Sized(rs) && Joined(rs) == s
  }

  lemma WholeArgumentsParse(s: seq<byte>)
    ensures WholeArguments(s) <==> Parse(s).Some?
  {
    if Parse(s).Some? {
      JoinedParse(s);
    }
    if WholeArguments(s) {
      var rs :| Sized(rs) && Joined(rs) == s;
      ParseJoined(rs);
    }
  }

  /** The types of a list of arguments. */
  function KindsOf(rs: seq<RawArg>): (ks: seq<ArgKind>)
    ensures |ks| == |rs|
    ensures forall k :: 0 <= k < |rs| ==> ks[k] == rs[k].kind
  {
    seq(|rs|, k requires 0 <= k < |rs| => rs[k].kind)
  }

  /** Accepts exactly the buffers whose octets after the header are whole arguments. */
  method IntegrityCheck(octets: seq<byte>) returns (r: Outcome)
    ensures r == OutOfRange <==> |octets| < HEADER_SIZE
    ensures r == Ok <==> |octets| >= HEADER_SIZE && WholeArguments(octets[HEADER_SIZE..])
  {
    if |octets| == HEADER_SIZE {
      assert octets[HEADER_SIZE..] == [];
      WholeArgumentsParse([]);
      return Ok;
    }
    if |octets| < HEADER_SIZE {
      return OutOfRange;
    }
    WholeArgumentsParse(octets[HEADER_SIZE..]);
    if |octets| < HEADER_SIZE + ARG_HEADER_SIZE {
      return Corrupt;
    }
    var worker := HEADER_SIZE;
    while worker != |octets|
      invariant HEADER_SIZE <= worker <= |octets|
      invariant Parse(octets[HEADER_SIZE..]).Some? <==> Parse(octets[worker..]).Some?
      decreases |octets| - worker
    {
      if |octets| - worker < ARG_HEADER_SIZE {
        return Corrupt;
      }
      var argSize := SizeAt(octets[worker..]);
      if |octets| - (worker + ARG_HEADER_SIZE) < argSize {
        return Corrupt;
      }
      assert AfterFirst(octets[worker..]) == octets[worker + ARG_HEADER_SIZE + argSize..];
      worker := worker + ARG_HEADER_SIZE + argSize;
    }
    r := Ok;
  }

  /** On validated octets the counting walker stays in bounds, ends, and counts the arguments. */
  method CountArguments(octets: seq<byte>) returns (count: nat)
    requires |octets| >= HEADER_SIZE && Parse(octets[HEADER_SIZE..]).Some?
    ensures count == |Parse(octets[HEADER_SIZE..]).value|
  {
    count := 0;
    var stream := HEADER_SIZE;
    while stream != |octets|
      invariant HEADER_SIZE <= stream <= |octets|
      invariant Parse(octets[stream..]).Some?
      invariant count + |Parse(octets[stream..]).value| == |Parse(octets[HEADER_SIZE..]).value|
      decreases |octets| - stream
    {
      var size := SizeAt(octets[stream..]);
      assert AfterFirst(octets[stream..]) == octets[stream + ARG_HEADER_SIZE + size..];
      stream := stream + ARG_HEADER_SIZE + size;
      count := count + 1;
    }
  }

  /** The types in order, or null when there is no argument data. */
  method GetArgTypes(octets: seq<byte>) returns (types: Option<seq<ArgKind>>)
    requires |octets| >= HEADER_SIZE && Parse(octets[HEADER_SIZE..]).Some?
    ensures types == if |octets| == HEADER_SIZE then None else Some(KindsOf(Parse(octets[HEADER_SIZE..]).value))
  {
    if |octets| == HEADER_SIZE {
      return None;
    }
    var found: seq<ArgKind> := [];
    var stream := HEADER_SIZE;
    ghost var all := Parse(octets[HEADER_SIZE..]).value;
    ghost var k := 0;
    while stream != |octets|
      invariant HEADER_SIZE <= stream <= |octets| && k <= |all|
      invariant Parse(octets[stream..]) == Some(all[k..])
      invariant found == KindsOf(all)[..k]
      decreases |octets| - stream
    {
      var here := octets[stream..];
      var size := SizeAt(here);
      assert all[k..] == [FirstArg(here)] + Parse(AfterFirst(here)).value;
      assert AfterFirst(here) == octets[stream + ARG_HEADER_SIZE + size..];
      assert all[k..][1..] == all[k + 1..];
      found := found + [KindAt(here)];
      stream := stream + ARG_HEADER_SIZE + size;
      k := k + 1;
    }
    assert found == KindsOf(all);
    types := Some(found);
  }

  /** The types of validated octets; empty when there is no argument data. */
  ghost function TypesOf(octets: seq<byte>): seq<ArgKind>
    requires |octets| >= HEADER_SIZE && Parse(octets[HEADER_SIZE..]).Some?
  {
    KindsOf(Parse(octets[HEADER_SIZE..]).value)
  }

  lemma NoArgData(octets: seq<byte>)
    requires |octets| >= HEADER_SIZE && Parse(octets[HEADER_SIZE..]).Some?
    ensures TypesOf(octets) == [] <==> |octets| == HEADER_SIZE
  {
    if |octets| > HEADER_SIZE {
      assert octets[HEADER_SIZE..] != [];
    }
  }

  /** With arguments present the list must match exactly; with none, an empty list or one led by NONE is accepted. */
  method VerifyArgTypes(octets: seq<byte>, list: seq<ArgKind>) returns (ok: bool)
    requires |octets| >= HEADER_SIZE && Parse(octets[HEADER_SIZE..]).Some?
    ensures ok <==> if TypesOf(octets) == [] then list == [] || list[0] == ARGTYPE_NONE else list == TypesOf(octets)
  {
    var types := GetArgTypes(octets);
    NoArgData(octets);
    if types.None? || |types.value| == 0 {
      return |list| == 0 || list[0] == ARGTYPE_NONE;
    }
    if |types.value| != |list| {
      return false;
    }
    var inc := 0;
    while inc < |list| && inc < |types.value|
      invariant 0 <= inc <= |list| == |types.value|
      invariant list[..inc] == types.value[..inc]
    {
      if list[inc] != types.value[inc] {
        return false;
      }
      inc := inc + 1;
    }
    ok := true;
  }

  method VerifyArgTypesStartWith(octets: seq<byte>, list: seq<ArgKind>) returns (ok: bool)
    requires |octets| >= HEADER_SIZE && Parse(octets[HEADER_SIZE..]).Some?
    ensures ok <==> if TypesOf(octets) == [] then list == [] || list[0] == ARGTYPE_NONE else list <= TypesOf(octets)
  {
    var types := GetArgTypes(octets);
    NoArgData(octets);
    if types.None? || |types.value| == 0 {
      return |list| == 0 || list[0] == ARGTYPE_NONE;
    }
    if |types.value| < |list| {
      return false;
    }
    for inc := 0 to |list|
      invariant list[..inc] == types.value[..inc]
    {
      if list[inc] != types.value[inc] {
        return false;
      }
    }
    ok := true;
  }

  /** k copies of a list, end to end. */
  ghost function Copies(list: seq<ArgKind>, k: nat): seq<ArgKind> {
    if k == 0 then [] else list + Copies(list, k - 1)
  }

  lemma {:induction false} CopiesLength(list: seq<ArgKind>, k: nat)
    ensures |Copies(list, k)| == k * |list|
  {
    if k == 0 {
    } else {
      CopiesLength(list, k - 1);
      Distribute(k, 1, |list|);
    }
  }

  lemma {:induction false} CopiesAt(list: seq<ArgKind>, k: nat, j: nat)
    requires list != [] && j < |Copies(list, k)|
    ensures Copies(list, k)[j] == list[j % |list|]
    decreases k
  {
    var n := |list|;
    if j < n {
      ModUnique(j, n, 0, j);
    } else {
      CopiesAt(list, k - 1, j - n);
      ModStep(j - n, n);
    }
  }

  lemma ModStep(a: nat, n: nat)
    requires n > 0
    ensures (a + n) % n == a % n
  {
    var q := a / n;
    assert a + n == (q + 1) * n + a % n;
    ModUnique(a + n, n, q + 1, a % n);
  }

  /** The types from the offset on are one or more copies of the list. */
  ghost predicate Repeats(types: seq<ArgKind>, offset: nat, list: seq<ArgKind>) {
    && offset < |types| && list != []
    && exists k: nat :: k >= 1 && types[offset..] == Copies(list, k)
  }

  lemma RepeatsWhenModular(types: seq<ArgKind>, offset: nat, list: seq<ArgKind>, k: nat)
    requires offset < |types| && list != [] && k >= 1
    requires |types| - offset == k * |list|
    requires forall j :: 0 <= j < |types| - offset ==> types[offset + j] == list[j % |list|]
    ensures Repeats(types, offset, list)
  {
    CopiesLength(list, k);
    forall j | 0 <= j < |types| - offset ensures types[offset..][j] == Copies(list, k)[j] {
      CopiesAt(list, k, j);
      assert types[offset..][j] == types[offset + j];
    }
    assert types[offset..] == Copies(list, k);
  }

  lemma ModularWhenRepeats(types: seq<ArgKind>, offset: nat, list: seq<ArgKind>)
    requires Repeats(types, offset, list)
    ensures |types| - offset >= |list| && (|types| - offset) % |list| == 0
    ensures forall j :: 0 <= j < |types| - offset ==> types[offset + j] == list[j % |list|]
  {
    var k :| k >= 1 && types[offset..] == Copies(list, k);
    CopiesLength(list, k);
    Distribute(k, 1, |list|);
    ModUnique(|types| - offset, |list|, k, 0);
    forall j | 0 <= j < |types| - offset ensures types[offset + j] == list[j % |list|] {
      CopiesAt(list, k, j);
      assert types[offset + j] == types[offset..][j];
    }
  }

  /** The loop with the wrapping counter, once the offset is known to lie inside the list. */
  method MatchPattern(types: seq<ArgKind>, argOffset: nat, list: seq<ArgKind>) returns (ok: bool)
    requires argOffset < |types| && list != []
    ensures ok <==> Repeats(types, argOffset, list)
  {
    var n := |list|;
    var patternInc, inc := 0, argOffset;
    ghost var q := 0;
    while inc < |types|
      invariant argOffset <= inc <= |types| && 0 <= patternInc <= n
      invariant inc - argOffset == q * n + patternInc && q >= 0
      invariant inc > argOffset ==> patternInc > 0
      invariant forall j :: 0 <= j < inc - argOffset ==> types[argOffset + j] == list[j % n]
    {
      if patternInc == n {
        patternInc, q := 0, q + 1;
      }
      ModUnique(inc - argOffset, n, q, patternInc);
      if types[inc] != list[patternInc] {
        ghost var j := inc - argOffset;
        assert types[argOffset + j] != list[j % n];
        if Repeats(types, argOffset, list) {
          ModularWhenRepeats(types, argOffset, list);
        }
        return false;
      }
      inc, patternInc := inc + 1, patternInc + 1;
    }
    if patternInc == n {
      RepeatsWhenModular(types, argOffset, list, q + 1);
    } else if Repeats(types, argOffset, list) {
      ModUnique(|types| - argOffset, n, q, patternInc);
      ModularWhenRepeats(types, argOffset, list);
    }
    ok := patternInc == n;
  }

  /** Accepts exactly the repetitions, whatever the offset. */
  method VerifyArgTypePattern(octets: seq<byte>, argOffset: uint64, list: seq<ArgKind>) returns (ok: bool)
    requires |octets| >= HEADER_SIZE && Parse(octets[HEADER_SIZE..]).Some?
    requires |TypesOf(octets)| < UINT64_LIMIT - 1
    ensures ok <==> Repeats(TypesOf(octets), argOffset, list)
  {
    var found := GetArgTypes(octets);
    NoArgData(octets);
    if found.None? {
      return false;
    }
    var types := found.value;
    // size_t arithmetic: the offset plus one, and the difference below, may wrap round
    if |types| < (argOffset + 1) % UINT64_LIMIT {
      return false;
    }
    var span := (|types| - argOffset) % UINT64_LIMIT;
    if span < |list| || (|list| == 0 && span != 0) {
      return false;
    }
    if argOffset >= |types| {
      // an offset of SIZE_MAX: the loop body never runs and the counter stays at zero
      return |list| == 0;
    }
    ok := MatchPattern(types, argOffset, list);
  }
}
