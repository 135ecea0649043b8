/** The streams that carry out routines: copies of a stored stream, readdressed to each target. */
module RoutineStreams {
  import opened Bytes
  import opened Arguments
  import opened Ident
  import opened Validation
  import opened Streams
  import StreamRuns
  import Transport

  /** "SERVER", the origin of what routines send. */
  const SERVER: Text := [83, 69, 82, 86, 69, 82]

  predicate StartsWithODHeader(rs: seq<RawArg>) { rs != [] && rs[0].kind == ARGTYPE_ODHEADER }

  /** The argument octets behind the header that is replaced, if there is one. */
  function Behind(rs: seq<RawArg>): seq<byte> {
    if StartsWithODHeader(rs) then Joined(rs[1..]) else Joined(rs)
  }

  /** Behind a header there is something, but fewer octets than the copy leaves off. */
  predicate TooShort(rs: seq<RawArg>) { StartsWithODHeader(rs) && 0 < |Behind(rs)| < HEADER_SIZE }

  /**
   * What is copied of them: all, unless the cursor has been moved past a header, when the last 17 are left off; where
   * there are not as many, nothing comes of it.
   */
  function Copied(rs: seq<RawArg>): seq<byte> {
    if !StartsWithODHeader(rs) || Behind(rs) == [] then Behind(rs)
    else if TooShort(rs) then []
    else Behind(rs)[..|Behind(rs)| - HEADER_SIZE]
  }

  /** Octets as the table keeps them: a true size field and whole arguments. */
  predicate IsStored(octets: seq<byte>) {
    && HEADER_SIZE <= |octets| < UINT64_LIMIT && SizeField(octets) == |octets| - HEADER_SIZE
    && Parse(octets[HEADER_SIZE..]).Some?
  }

  function ArgsOf(octets: seq<byte>): seq<RawArg>
    requires IsStored(octets)
  {
    Parse(octets[HEADER_SIZE..]).value
  }

  /** As long as what comes in one stream can be. */
  predicate Small(t: seq<byte>) { |t| <= Transport.MAX_STREAM_ARGS_SIZE }

  /** A stored stream of a size that can have come in another. */
  predicate Loadable(octets: seq<byte>) { IsStored(octets) && Small(octets[HEADER_SIZE..]) }

  /** The copied length is not negative, and what is copied splits into arguments. */
  predicate Sendable(octets: seq<byte>)
    requires IsStored(octets)
  {
    !TooShort(ArgsOf(octets)) && Parse(Copied(ArgsOf(octets))).Some?
  }

  function NewHeader(hasODHeader: bool, target: Text): seq<RawArg> {
    if hasODHeader then [Raw(ODHeader(SERVER, target))] else []
  }

  /** The flags of what a routine sends. */
  function RoutineFlags(stored: seq<byte>): bv8
    requires |stored| >= HEADER_SIZE
  {
    HeaderOf(stored).flags | IDENT_ISROUTINE_BIT
  }

  /**
   * The stream a target is sent: the stored command, the stored flags and the routine flag, a fresh ident, a header of
   * the target's own if there was one, and what is copied of the stored arguments.
   */
  function StreamFor(stored: seq<byte>, ident: bv64, target: Text): seq<byte>
    requires Loadable(stored)
  {
    var rs := ArgsOf(stored);
    var body := Joined(NewHeader(StartsWithODHeader(rs), target)) + Copied(rs);
    HeaderBytes(Header(stored[0], |body| % UINT64_LIMIT, RoutineFlags(stored), ident)) + body
  }

  /** Loads a stored stream. */
  method Load(octets: seq<byte>) returns (stored: ConationStream)
    requires IsStored(octets)
    ensures fresh(stored) && stored.Valid() && stored.index.None? && stored.bytes == octets && stored.args == ArgsOf(octets)
  {
    var body := octets[HEADER_SIZE..];
    WholeArgumentsParse(body);
    assert octets[HEADER_SIZE..HEADER_SIZE + SizeField(octets)] == body && octets[..HEADER_SIZE + SizeField(octets)] == octets;
    var r, s := ConationStream.FromOctets(octets);
    stored := s;
    StreamRuns.ParsedArgs(stored);
  }

  /** Where a stored stream stands when its arguments are about to be copied. */
  ghost predicate Sought(stored: ConationStream, octets: seq<byte>, hasODHeader: bool)
    reads stored
  {
    && stored.Valid() && stored.bytes == octets && IsStored(octets) && stored.args == ArgsOf(octets)
    && hasODHeader == StartsWithODHeader(stored.args) == stored.index.Some?
    && (hasODHeader ==> stored.popped == Some(1))
  }

  /**
   * Reads the argument types, and pops a leading origin/destination header to get past it. What is popped is thrown
   * away, whatever it has been put together from.
   */
  method SeekPastHeader(stored: ConationStream, ghost octets: seq<byte>) returns (hasODHeader: bool)
    requires stored.Valid() && stored.index.None? && stored.bytes == octets && IsStored(octets)
    requires stored.args == ArgsOf(octets)
    modifies stored`index, stored`popped
    ensures Sought(stored, octets, hasODHeader)
  {
    hasODHeader := LeadsWithODHeader(stored);
    if hasODHeader {
      var _ := stored.PopArgument(false);
    }
  }

  method HasNoArguments(stored: ConationStream) returns (bare: bool)
    requires stored.Valid()
    ensures bare == (stored.args == [])
  {
    ParseJoined(stored.args);
    var types := GetArgTypes(stored.bytes);
    NoArgData(stored.bytes);
    bare := types.None?;
  }

  method LeadsWithODHeader(stored: ConationStream) returns (hasODHeader: bool)
    requires stored.Valid()
    ensures hasODHeader == StartsWithODHeader(stored.args)
  {
    ParseJoined(stored.args);
    var types := GetArgTypes(stored.bytes);
    NoArgData(stored.bytes);
    hasODHeader := types.Some? && types.value[0] == ARGTYPE_ODHEADER;
  }

  /** What identifies a stream that a routine sends: the stored command, and its flags with the routine flag added. */
  ghost predicate Identified(out: seq<byte>, stored: seq<byte>, ident: bv64)
    requires |out| >= HEADER_SIZE && |stored| >= HEADER_SIZE
  {
    && out[0] == stored[0]
    && out[9..17] == CompositeBytes(BuildIdentComposite(RoutineFlags(stored), ident))
  }

  /** An empty stream for the routine, or one that begins with a header of its own. */
  method Begin(stored: seq<byte>, hasODHeader: bool, ident: bv64, target: Text) returns (out: ConationStream)
    requires |stored| >= HEADER_SIZE && Small(target)
    ensures fresh(out) && out.Valid() && out.index.None? && out.args == NewHeader(hasODHeader, target)
    ensures Identified(out.bytes, stored, ident) && |out.bytes| <= |target| + 100
  {
    out := new ConationStream.Make(HeaderOf(stored).cmd, RoutineFlags(stored), ident);
    if hasODHeader {
      out.Push(ODHeader(SERVER, target));
      JoinedOne(Raw(ODHeader(SERVER, target)));
    }
  }

  lemma SmallWord(n: nat)
    requires n < UINT64_LIMIT
    ensures n % UINT64_LIMIT == n
  {
  }

  /** A sound stream is its header, and its arguments' octets behind it. */
  lemma Assembled(out: ConationStream, cmd: byte, flags: bv8, ident: bv64, header: seq<RawArg>, copied: seq<byte>)
    requires out.Valid() && out.bytes[0] == cmd && out.bytes[9..17] == CompositeBytes(BuildIdentComposite(flags, ident))
    requires Parse(copied).Some? && out.args == header + Parse(copied).value
    ensures var body := Joined(header) + copied;
            out.bytes == HeaderBytes(Header(cmd, |body| % UINT64_LIMIT, flags, ident)) + body
  {
    StreamRuns.Spelled(out, cmd, flags, ident);
    JoinedParse(copied);
    JoinedAppend(header, Parse(copied).value);
    SmallWord(|Joined(out.args)|);
  }

  /** A sound stream of that identity and those arguments is, octet for octet, the one the target is sent. */
  lemma BuiltOctets(out: ConationStream, stored: seq<byte>, ident: bv64, target: Text, header: seq<RawArg>)
    requires Loadable(stored) && Sendable(stored) && out.Valid() && Identified(out.bytes, stored, ident)
    requires header == NewHeader(StartsWithODHeader(ArgsOf(stored)), target)
    requires out.args == header + Parse(Copied(ArgsOf(stored))).value
    ensures out.bytes == StreamFor(stored, ident, target)
  {
    Assembled(out, stored[0], RoutineFlags(stored), ident, header, Copied(ArgsOf(stored)));
  }

  /** Copies the stored arguments behind what has been begun; the result is sound exactly when that can be sent. */
  method BuildFor(stored: ConationStream, ghost octets: seq<byte>, hasODHeader: bool, ident: bv64, target: Text)
    returns (r: AppendResult, out: ConationStream)
    requires Loadable(octets) && Sought(stored, octets, hasODHeader) && Small(target)
    ensures fresh(out) && (r == Appended <==> Sendable(octets)) && (r == CopyWraps <==> TooShort(ArgsOf(octets)))
    ensures r == Appended ==> out.Valid() && out.bytes == StreamFor(octets, ident, target)
  {
    out := Begin(stored.bytes, hasODHeader, ident, target);
    CopiedIsAppendable(stored);
    WholeArgumentsParse(Copied(stored.args));
    r := out.AppendArgData(stored);
    if stored.index.Some? && stored.Unread() == [] {
      assert out.args == out.args + [];
    }
    if r == Appended {
      BuiltOctets(out, octets, ident, target, NewHeader(hasODHeader, target));
    }
  }

  /** What AppendArgData takes from a stream that is rewound, or popped once, is what is said to be copied. */
  lemma CopiedIsAppendable(stored: ConationStream)
    requires stored.Valid() && StartsWithODHeader(stored.args) == stored.index.Some?
    requires stored.index.Some? ==> stored.popped == Some(1)
    ensures stored.LengthWraps() <==> TooShort(stored.args)
    ensures stored.index.Some? ==> (stored.Unread() == [] <==> Behind(stored.args) == [])
    ensures !(stored.index.Some? && stored.Unread() == []) && !TooShort(stored.args) ==>
              (stored.index.Some? ==> HEADER_SIZE <= stored.index.value < |stored.bytes|)
              && stored.Appendable() == Copied(stored.args)
  {
    var rs := stored.args;
    if stored.index.Some? {
      assert rs[..1] == [rs[0]];
      JoinedOne(rs[0]);
      var behind := Joined(rs[1..]);
      assert stored.bytes[HEADER_SIZE..] == Encoded(rs[0]) + behind;
      assert stored.bytes[stored.index.value..] == behind;
      stored.CursorAtEnd();
      if |behind| >= HEADER_SIZE {
        assert stored.bytes[stored.index.value..|stored.bytes| - HEADER_SIZE] == behind[..|behind| - HEADER_SIZE];
      }
    }
  }

  /**
   * The exact condition. A routine's arguments reach a target whole exactly when the stored stream does not begin
   * with an origin/destination header, or has nothing behind it.
   */
  lemma WholeExactly(rs: seq<RawArg>)
    requires Sized(rs)
    ensures !TooShort(rs) && Parse(Copied(rs)) == Some(if StartsWithODHeader(rs) then rs[1..] else rs) <==>
            !StartsWithODHeader(rs) || |rs| == 1
  {
    if !StartsWithODHeader(rs) {
      ParseJoined(rs);
    } else if |rs| == 1 {
      assert rs[1..] == [];
    } else {
      assert Behind(rs) == Encoded(rs[1]) + Joined(rs[1..][1..]);
      if !TooShort(rs) && Parse(Copied(rs)).Some? {
        JoinedParse(Copied(rs));
      }
    }
  }

  /** The last 17 octets are whole arguments. */
  ghost predicate EndsInLeftOff(rs: seq<RawArg>) { exists j :: 0 <= j <= |rs| && |Joined(rs[j..])| == HEADER_SIZE }

  lemma TrimExactly(rs: seq<RawArg>)
    requires Sized(rs)
    ensures |Joined(rs)| >= HEADER_SIZE && Parse(Joined(rs)[..|Joined(rs)| - HEADER_SIZE]).Some? <==> EndsInLeftOff(rs)
  {
    if |Joined(rs)| >= HEADER_SIZE {
      TrimmedParses(rs, HEADER_SIZE);
    } else {
      forall j | 0 <= j <= |rs| ensures |Joined(rs[j..])| < HEADER_SIZE {
        JoinedLengths(rs, j);
      }
    }
  }

  /**
   * When a routine can be sent at all: its stored stream does not begin with an origin/destination header, has nothing
   * behind it, or ends in arguments that make up exactly the 17 octets that are left off.
   */
  lemma SendableExactly(rs: seq<RawArg>)
    requires Sized(rs)
    ensures !TooShort(rs) && Parse(Copied(rs)).Some? <==> !StartsWithODHeader(rs) || |rs| == 1 || EndsInLeftOff(rs[1..])
  {
    if !StartsWithODHeader(rs) {
      ParseJoined(rs);
    } else if |rs| == 1 {
      assert rs[1..] == [];
    } else {
      assert Behind(rs) == Encoded(rs[1]) + Joined(rs[1..][1..]);
      TrimExactly(rs[1..]);
    }
  }

  // ------------------------------------------------------- what a target receives

  lemma FlagsKept(composite: bv64, flags: bv8, ident: bv64)
    requires flags == GetIdentFlags(composite) | IDENT_ISROUTINE_BIT
    ensures GetIdentFlags(BuildIdentComposite(flags, ident)) & 2 != 0
    ensures ident <= IDENT_MAX_IDENT_VALUE ==>
              && GetIdentInteger(BuildIdentComposite(flags, ident)) == ident
              && GetIdentFlags(BuildIdentComposite(flags, ident)) & 0xFD == GetIdentFlags(composite) & 0xFD
  {
  }

  /** What is sent is not too large for its size field. */
  lemma BodySmall(stored: seq<byte>, target: Text)
    requires Loadable(stored) && Small(target)
    ensures |Joined(NewHeader(StartsWithODHeader(ArgsOf(stored)), target)) + Copied(ArgsOf(stored))| < UINT64_LIMIT
  {
    var rs := ArgsOf(stored);
    JoinedParse(stored[HEADER_SIZE..]);
    if StartsWithODHeader(rs) {
      JoinedOne(Raw(ODHeader(SERVER, target)));
      assert Joined(rs) == Encoded(rs[0]) + Joined(rs[1..]);
    }
  }

  /**
   * The header of every stream sent: the stored command; the routine flag, and with an ident of at most 56 bits that ident
   * and the stored flags besides; and a true size.
   */
  lemma HeaderSent(stored: seq<byte>, ident: bv64, target: Text)
    requires Loadable(stored) && Small(target)
    ensures var out := StreamFor(stored, ident, target);
            && |out| >= HEADER_SIZE && HeaderOf(out).cmd == HeaderOf(stored).cmd && HeaderOf(out).flags & 2 != 0
            && (ident <= IDENT_MAX_IDENT_VALUE ==>
                  HeaderOf(out).ident == ident && HeaderOf(out).flags & 0xFD == HeaderOf(stored).flags & 0xFD)
            && SizeField(out) == |out| - HEADER_SIZE
  {
    var rs := ArgsOf(stored);
    var body := Joined(NewHeader(StartsWithODHeader(rs), target)) + Copied(rs);
    BodySmall(stored, target);
    SmallWord(|body|);
    HeaderRoundTrip(Header(stored[0], |body| % UINT64_LIMIT, RoutineFlags(stored), ident), body);
    FlagsKept(CompositeField(stored), RoutineFlags(stored), ident);
  }

  lemma OneInFront(first: RawArg, copied: seq<byte>)
    requires |first.payload| < UINT64_LIMIT && Parse(copied).Some?
    ensures Parse(Encoded(first) + copied) == Some([first] + Parse(copied).value)
  {
    var rest := Parse(copied).value;
    JoinedParse(copied);
    assert ([first] + rest)[1..] == rest;
    ParseJoined([first] + rest);
  }

  lemma BodySent(stored: seq<byte>, ident: bv64, target: Text)
    requires Loadable(stored)
    ensures var rs := ArgsOf(stored);
            StreamFor(stored, ident, target)[HEADER_SIZE..] ==
            (if StartsWithODHeader(rs) then Encoded(Raw(ODHeader(SERVER, target))) else []) + Copied(rs)
  {
    JoinedOne(Raw(ODHeader(SERVER, target)));
  }

  /**
   * What a stream's arguments are: without a header in front of the stored ones, those; otherwise a header from the server
   * to this target, and then what the octets behind the stored header hold but for the last 17, if there are any.
   */
  ghost predicate Readdressed(args: Option<seq<RawArg>>, rs: seq<RawArg>, target: Text) {
    if rs == [] || rs[0].kind != ARGTYPE_ODHEADER then args == Some(rs)
    else
      var n := |Joined(rs[1..])|;
      exists rest ::
        && args == Some([Raw(ODHeader(SERVER, target))] + rest)
        && Joined(rest) == Joined(rs[1..])[..if n < HEADER_SIZE then 0 else n - HEADER_SIZE]
  }

  lemma BodyReaddressed(rs: seq<RawArg>, target: Text, body: seq<byte>)
    requires Sized(rs) && !TooShort(rs) && Parse(Copied(rs)).Some? && Small(target)
    requires body == (if StartsWithODHeader(rs) then Encoded(Raw(ODHeader(SERVER, target))) else []) + Copied(rs)
    ensures Readdressed(Parse(body), rs, target)
  {
    if StartsWithODHeader(rs) {
      DecodeRaw(ODHeader(SERVER, target));
      OneInFront(Raw(ODHeader(SERVER, target)), Copied(rs));
      JoinedParse(Copied(rs));
      assert Behind(rs)[..0] == [];
    } else {
      ParseJoined(rs);
      assert body == Joined(rs);
    }
  }

  /** The arguments of every stream sent. */
  lemma ArgumentsSent(stored: seq<byte>, ident: bv64, target: Text)
    requires Loadable(stored) && Small(target) && Sendable(stored)
    ensures Readdressed(Parse(StreamFor(stored, ident, target)[HEADER_SIZE..]), ArgsOf(stored), target)
  {
    BodySent(stored, ident, target);
    JoinedParse(stored[HEADER_SIZE..]);
    BodyReaddressed(ArgsOf(stored), target, StreamFor(stored, ident, target)[HEADER_SIZE..]);
  }
}
