/** Whole runs over a ConationStream: any sequence of operations, and the round trips through it. */
module StreamRuns {
  import opened Bytes
  import opened Arguments
  import opened Ident
  import opened Validation
  import opened Streams

  datatype Op =
    | OpPush(a: Arg)
    | OpPop
    | OpRewind
    | OpCopy
    | OpHeader(cmd: byte, flags: bv8, ident: bv64)
    | OpWipe

  ghost function Passed(m: ListModel): nat { if m.popped.None? then 0 else m.popped.value }

  ghost predicate Bounded(m: ListModel) { Passed(m) <= |m.args| }

  /** What an operation does to the list and the place in it. */
  ghost function Apply(m: ListModel, op: Op): ListModel
    requires Bounded(m)
  {
    match op
    case OpPush(a) => ListModel(m.args + [Raw(a)], m.popped)
    case OpPop =>
      var k := Passed(m);
      if k < |m.args| && ValidSize(m.args[k].kind, |m.args[k].payload|) then m.(popped := Some(k + 1)) else m
    case OpRewind => m.(popped := None)
    case OpCopy => m
    case OpHeader(_, _, _) => m
    case OpWipe => ListModel([], None)
  }

  /** What a pop answers, as the list alone determines it. */
  ghost function Answer(m: ListModel): PopResult
    requires Bounded(m)
  {
    var k := Passed(m);
    if k == |m.args| then (if m.popped.None? then PopOutOfRange else Exhausted)
    else if ValidSize(m.args[k].kind, |m.args[k].payload|) then PopValue(m.args[k])
    else PopCorrupt
  }

  /** Pushes and wipes are made on a rewound stream within 64-bit sizes. */
  ghost predicate LegalOp(m: ListModel, op: Op)
    requires Bounded(m)
  {
    match op
    case OpPush(a) => m.popped.None? && HEADER_SIZE + |Joined(m.args)| + |Encoded(Raw(a))| < UINT64_LIMIT
    case OpWipe => m.popped.None?
    case _ => true
  }

  ghost predicate Legal(m: ListModel, ops: seq<Op>)
    requires Bounded(m)
    decreases |ops|
  {
    ops == [] || (LegalOp(m, ops[0]) && Legal(Apply(m, ops[0]), ops[1..]))
  }

  ghost function ApplyAll(m: ListModel, ops: seq<Op>): ListModel
    requires Bounded(m)
    decreases |ops|
  {
    if ops == [] then m else ApplyAll(Apply(m, ops[0]), ops[1..])
  }

  ghost function Answers(m: ListModel, ops: seq<Op>): seq<PopResult>
    requires Bounded(m) && Legal(m, ops)
    decreases |ops|
  {
    if ops == [] then []
    else (if ops[0].OpPop? then [Answer(m)] else []) + Answers(Apply(m, ops[0]), ops[1..])
  }

  /** One operation on the object does to it what Apply does to the list. */
  method Perform(s: ConationStream, op: Op) returns (next: ConationStream, answer: seq<PopResult>)
    requires s.Valid() && Bounded(s.Model()) && LegalOp(s.Model(), op)
    modifies s
    ensures next == s || fresh(next)
    ensures next.Valid() && Bounded(next.Model()) && next.Model() == Apply(old(s.Model()), op)
    ensures answer == if op.OpPop? then [Answer(old(s.Model()))] else []
  {
    next, answer := s, [];
    if op.OpPush? {
      s.Push(op.a);
    } else if op.OpPop? {
      var r := s.PopArgument(false);
      answer := [r];
    } else if op.OpRewind? {
      s.Rewind();
    } else if op.OpCopy? {
      next := new ConationStream.Copy(s);
    } else if op.OpHeader? {
      s.AlterHeader(Header(op.cmd, |s.bytes| - HEADER_SIZE, op.flags, op.ident));
    } else {
      s.WipeArgs();
    }
  }

  /**
   * After any legal run the size field is true, the cursor is null or on a boundary, and every answer and the final
   * list are those of the plain list model.
   */
  method Run(start: ConationStream, ops: seq<Op>) returns (final: ConationStream, answers: seq<PopResult>)
    requires start.Valid() && Bounded(start.Model()) && Legal(start.Model(), ops)
    modifies start
    ensures final.Valid() && SizeField(final.bytes) == |final.bytes| - HEADER_SIZE
    ensures final.Model() == ApplyAll(old(start.Model()), ops)
    ensures answers == Answers(old(start.Model()), ops)
    decreases |ops|
  {
    if ops == [] {
      return start, [];
    }
    var next, first := Perform(start, ops[0]);
    var rest;
    final, rest := Run(next, ops[1..]);
    answers := first + rest;
  }

  /** The next argument of a list that fits, fits behind those before it. */
  lemma PrefixFits(list: seq<Arg>, i: nat)
    requires Fits(list) && i < |list|
    ensures RawAll(list)[..i + 1] == RawAll(list)[..i] + [Raw(list[i])]
    ensures HEADER_SIZE + |Joined(RawAll(list)[..i])| + |Encoded(Raw(list[i]))| < UINT64_LIMIT
  {
    JoinedSplit(RawAll(list), i);
  }

  /** Builds a stream of typed arguments. */
  method Build(cmd: byte, flags: bv8, ident: bv64, list: seq<Arg>) returns (s: ConationStream)
    requires Fits(list)
    ensures fresh(s) && s.Valid() && s.index.None? && s.args == RawAll(list)
    ensures s.bytes[0] == cmd && s.bytes[9..17] == CompositeBytes(BuildIdentComposite(flags, ident))
  {
    s := new ConationStream.Make(cmd, flags, ident);
    for i := 0 to |list|
      invariant fresh(s) && s.Valid() && s.index.None? && s.args == RawAll(list)[..i]
      invariant s.bytes[0] == cmd && s.bytes[9..17] == CompositeBytes(BuildIdentComposite(flags, ident))
    {
      PrefixFits(list, i);
      s.Push(list[i]);
    }
  }

  /** Pushing any list and popping until nothing is left gives the list back. */
  method PushThenPopAll(cmd: byte, flags: bv8, ident: bv64, list: seq<Arg>) returns (popped: seq<Arg>, last: PopResult)
    requires Fits(list)
    ensures popped == list
    ensures last == if list == [] then PopOutOfRange else Exhausted
  {
    var s := Build(cmd, flags, ident, list);
    popped, last := PopAll(s, list);
  }

  /** One pop of a stream of which some arguments have been popped: the next, or none. */
  method PopNext(s: ConationStream, ghost all: seq<RawArg>, ghost k: nat) returns (r: PopResult)
    requires s.Valid() && s.args == all && s.Passed() == k <= |all|
    requires k < |all| ==> ValidSize(all[k].kind, |all[k].payload|)
    modifies s`index, s`popped
    ensures s.Valid() && s.Passed() == if k < |all| then k + 1 else k
    ensures k < |all| ==> r == PopValue(all[k]) && s.index.Some?
    ensures k == |all| ==> r == (if old(s.index).None? then PopOutOfRange else Exhausted) && s.index == old(s.index)
  {
    r := s.PopArgument(false);
  }

  method PopAll(s: ConationStream, ghost list: seq<Arg>) returns (popped: seq<Arg>, last: PopResult)
    requires s.Valid() && s.index.None? && s.args == RawAll(list)
    modifies s`index, s`popped
    ensures popped == list
    ensures last == if list == [] then PopOutOfRange else Exhausted
    ensures s.Valid()
  {
    popped := [];
    while true
      invariant s.Valid()
      invariant s.Passed() == |popped| <= |list| && popped == list[..|popped|]
      invariant s.index.None? <==> popped == []
      decreases |list| - |popped|
    {
      ghost var k := |popped|;
      if k < |list| {
        DecodeRaw(list[k]);
      }
      last := PopNext(s, RawAll(list), k);
      if last.Popped? {
        popped := popped + [last.arg];
      } else {
        break;
      }
    }
  }

  /** Popped arguments pushed into an empty stream with the same header. */
  method Rebuild(cmd: byte, flags: bv8, ident: bv64, popped: seq<Arg>) returns (s: ConationStream)
    requires Fits(RepushedAll(popped))
    ensures fresh(s) && s.Valid() && s.index.None? && s.args == RawAll(RepushedAll(popped))
    ensures s.bytes[0] == cmd && s.bytes[9..17] == CompositeBytes(BuildIdentComposite(flags, ident))
  {
    s := new ConationStream.Make(cmd, flags, ident);
    for i := 0 to |popped|
      invariant fresh(s) && s.Valid() && s.index.None? && s.args == RawAll(RepushedAll(popped))[..i]
      invariant s.bytes[0] == cmd && s.bytes[9..17] == CompositeBytes(BuildIdentComposite(flags, ident))
    {
      PrefixFits(RepushedAll(popped), i);
      s.PushArgument(popped[i]);
    }
  }

  /** The octets of a stream of the given header and arguments. */
  function Spelling(cmd: byte, flags: bv8, ident: bv64, rs: seq<RawArg>): seq<byte>
    requires |Joined(rs)| < UINT64_LIMIT
  {
    HeaderBytes(Header(cmd, |Joined(rs)|, flags, ident)) + Joined(rs)
  }

  /** Command, ident composite and arguments are all there is to a valid stream. */
  lemma Spelled(s: ConationStream, cmd: byte, flags: bv8, ident: bv64)
    requires s.Valid() && s.bytes[0] == cmd && s.bytes[9..17] == CompositeBytes(BuildIdentComposite(flags, ident))
    ensures |Joined(s.args)| < UINT64_LIMIT && s.bytes == Spelling(cmd, flags, ident, s.args)
  {
    FromBigEndianRoundTrip(s.bytes[1..9]);
    assert s.bytes == [s.bytes[0]] + s.bytes[1..9] + s.bytes[9..17] + s.bytes[HEADER_SIZE..];
  }

  /**
   * Popping a stream and re-pushing what was popped under the same header rebuilds the same octets exactly when no
   * status lacks a code or a message.
   */
  method RepushRoundTrip(cmd: byte, flags: bv8, ident: bv64, list: seq<Arg>) returns (before: seq<byte>, after: seq<byte>)
    requires Fits(list) && Fits(RepushedAll(list))
    ensures before == Spelling(cmd, flags, ident, RawAll(list))
    ensures after == Spelling(cmd, flags, ident, RawAll(RepushedAll(list)))
    ensures before == after <==> forall k :: 0 <= k < |list| ==> StatusNormal(list[k])
  {
    var s := Build(cmd, flags, ident, list);
    Spelled(s, cmd, flags, ident);
    before := s.bytes;
    var popped, _ := PopAll(s, list);
    var t := Rebuild(cmd, flags, ident, popped);
    Spelled(t, cmd, flags, ident);
    after := t.bytes;
    SameSpelling(cmd, flags, ident, RawAll(list), RawAll(RepushedAll(list)));
    RepushIdentical(list);
  }

  lemma SameSpelling(cmd: byte, flags: bv8, ident: bv64, a: seq<RawArg>, b: seq<RawArg>)
    requires |Joined(a)| < UINT64_LIMIT && |Joined(b)| < UINT64_LIMIT
    ensures Spelling(cmd, flags, ident, a) == Spelling(cmd, flags, ident, b) <==> Joined(a) == Joined(b)
  {
    assert Spelling(cmd, flags, ident, a)[HEADER_SIZE..] == Joined(a);
    assert Spelling(cmd, flags, ident, b)[HEADER_SIZE..] == Joined(b);
  }

  /** Arguments of known types and valid sizes, as a validated stream may hold them. */
  ghost predicate AllPoppable(rs: seq<RawArg>) {
    forall k :: 0 <= k < |rs| ==> Poppable(rs[k])
  }

  ghost predicate Poppable(r: RawArg) {
    KnownKind(r.kind) && ValidSize(r.kind, |r.payload|)
  }

  /**
   * On a validated stream of known, well-sized arguments, repeated pops end and agree with the walkers. They read
   * nothing but what they pop exactly when every payload holds the octets its kind is read from, which the validator
   * does not look at.
   */
  method DrainAgrees(s: ConationStream)
    returns (kinds: seq<ArgKind>, count: nat, types: Option<seq<ArgKind>>, inside: bool)
    requires s.Valid() && s.index.None?
    requires AllPoppable(s.args)
    modifies s
    ensures |kinds| == count && kinds == KindsOf(old(s.args))
    ensures types == if kinds == [] then None else Some(kinds)
    ensures inside <==> forall k :: 0 <= k < |old(s.args)| ==> StaysInside(old(s.args)[k], Joined(old(s.args)[k + 1..]))
    ensures inside <==> forall k :: 0 <= k < |old(s.args)| ==> Readable(old(s.args)[k])
  {
    ParseJoined(s.args);
    count := CountArguments(s.bytes);
    types := GetArgTypes(s.bytes);
    NoArgData(s.bytes);
    ghost var all := s.args;
    kinds, inside := PopKinds(s);
    forall k | 0 <= k < |all| ensures StaysInside(all[k], Joined(all[k + 1..])) <==> Readable(all[k]) {
      InsideExactly(all[k], Joined(all[k + 1..]));
    }
  }

  /** The first of some arguments can be read from their own octets. */
  ghost predicate FirstReadable(rs: seq<RawArg>, n: nat)
    requires n <= |rs|
  {
    forall k :: 0 <= k < n ==> Readable(rs[k])
  }

  /** One pop, of which only the type is looked at, and whether it kept to its argument. */
  method PopKind(s: ConationStream, ghost all: seq<RawArg>, ghost k: nat) returns (more: bool, kind: ArgKind, own: bool)
    requires s.Valid() && s.args == all && s.Passed() == k <= |all| && AllPoppable(all)
    modifies s`index, s`popped
    ensures s.Valid() && s.Passed() == (if more then k + 1 else k) && (more <==> k < |all|)
    ensures more ==> kind == all[k].kind && (FirstReadable(all, k + 1) <==> FirstReadable(all, k) && own)
  {
    if k < |all| {
      PopAt(all, k);
    }
    var r := PopNext(s, all, k);
    more, own := r.Popped? || r.OverRead?, r.Popped?;
    kind := if r.Popped? then Kind(r.arg) else if r.OverRead? then r.kind else ARGTYPE_NONE;
  }

  method PopKinds(s: ConationStream) returns (kinds: seq<ArgKind>, inside: bool)
    requires s.Valid() && s.index.None? && AllPoppable(s.args)
    modifies s`index, s`popped
    ensures kinds == KindsOf(old(s.args))
    ensures inside <==> FirstReadable(old(s.args), |old(s.args)|)
  {
    ghost var all := s.args;
    kinds, inside := [], true;
    while true
      invariant s.Valid() && s.Passed() == |kinds| <= |all|
      invariant forall j :: 0 <= j < |kinds| ==> kinds[j] == all[j].kind
      invariant inside <==> FirstReadable(all, |kinds|)
      decreases |all| - |kinds|
    {
      var more, kind, own := PopKind(s, all, |kinds|);
      if !more {
        break;
      }
      kinds, inside := kinds + [kind], inside && own;
    }
    assert kinds == KindsOf(all);
  }

  lemma PopAt(all: seq<RawArg>, k: nat)
    requires AllPoppable(all) && k < |all|
    ensures ValidSize(all[k].kind, |all[k].payload|)
    ensures var r := PopValue(all[k]);
            && (if r.Popped? then Kind(r.arg) == all[k].kind else r == OverRead(all[k].kind))
            && (FirstReadable(all, k + 1) <==> FirstReadable(all, k) && r.Popped?)
  {
    assert Poppable(all[k]);
    if FirstReadable(all, k) && Readable(all[k]) {
      forall j | 0 <= j < k + 1 ensures Readable(all[j]) {
      }
    }
  }

  /** Twenty-seven octets that the validator accepts and whose one argument, an empty pair of names, cannot be read. */
  method AcceptedOverRead() returns (octets: seq<byte>, accepted: Outcome, r: PopResult)
    ensures |octets| == 27 && accepted == Ok && r == OverRead(ARGTYPE_ODHEADER)
    ensures octets[HEADER_SIZE..] == Encoded(RawArg(ARGTYPE_ODHEADER, []))
    ensures Reach(RawArg(ARGTYPE_ODHEADER, []), []) == None
  {
    var none := RawArg(ARGTYPE_ODHEADER, []);
    var body := Encoded(none);
    octets := HeaderBytes(Header(0, |body|, 0, 0)) + body;
    HeaderRoundTrip(Header(0, |body|, 0, 0), body);
    assert octets[HEADER_SIZE..] == body;
    OneParsed(none);
    WholeArgumentsParse(body);
    assert octets[HEADER_SIZE..HEADER_SIZE + SizeField(octets)] == body;
    var s;
    accepted, s := ConationStream.FromOctets(octets);
    assert octets[..HEADER_SIZE + SizeField(octets)] == octets;
    ParsedArgs(s);
    r := s.PopArgument(false);
  }

  lemma OneParsed(r: RawArg)
    requires |r.payload| < UINT64_LIMIT
    ensures Parse(Encoded(r)) == Some([r]) && HasWholeArg(Encoded(r)) && FirstArg(Encoded(r)) == r
  {
    JoinedOne(r);
    ParseJoined([r]);
    EncodedFields(r, []);
    assert Encoded(r) + [] == Encoded(r);
  }

  /** A stream's arguments are what its octets split into. */
  lemma ParsedArgs(s: ConationStream)
    requires s.Sound()
    ensures Parse(s.bytes[HEADER_SIZE..]) == Some(s.args)
  {
    ParseJoined(s.args);
  }

  /** With a header size that disagrees with the vector, a pop throws and leaves the cursor behind the argument header. */
  method ThrowMovesCursor() returns (r: PopResult, index: Option<nat>)
    ensures r == PopCorrupt && index == Some(HEADER_SIZE + ARG_HEADER_SIZE)
  {
    OneBoolFits();
    var s := Build(0, 0, 0, [Bool(true)]);
    DecodeRaw(Bool(true));
    s.AlterHeader(Header(0, 0, 0, 0));
    r := s.PopArgument(false);
    index := s.index;
  }

  lemma OneBoolFits()
    ensures Fits([Bool(true)]) && RawAll([Bool(true)]) == [Raw(Bool(true))]
    ensures |Joined([Raw(Bool(true))])| == ARG_HEADER_SIZE + 1
  {
    JoinedOne(Raw(Bool(true)));
    assert RawAll([Bool(true)]) == [Raw(Bool(true))];
  }
}
