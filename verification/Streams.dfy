/** ConationStream: a byte vector with a 17-octet header, grown by pushes and walked by a cursor. */
module Streams {
  import opened Bytes
  import opened Arguments
  import opened Ident
  import opened Validation

  /** How appending another stream's arguments ends: done, done but not whole, or with a length that has wrapped. */
  datatype AppendResult = Appended | AppendCorrupt | CopyWraps

  /**
   * How a pop ends. Unknown and Exhausted are the two ways it returns a null argument. After OverRead, what it returns,
   * if it returns at all, has been put together from octets that are not the argument's own.
   */
  datatype PopResult =
    | Popped(arg: Arg)
    | Unknown(kind: ArgKind)
    | OverRead(kind: ArgKind)
    | Exhausted
    | PopCorrupt
    | PopOutOfRange

  datatype Header = Header(cmd: byte, argsSize: uint64, flags: bv8, ident: bv64)

  function CompositeBytes(composite: bv64): (s: seq<byte>)
    ensures |s| == 8
  {
    BigEndian(composite as nat, 8)
  }

  function HeaderBytes(h: Header): (s: seq<byte>)
    ensures |s| == HEADER_SIZE
  {
    [h.cmd] + BigEndian(h.argsSize, 8) + CompositeBytes(BuildIdentComposite(h.flags, h.ident))
  }

  /** One octet of command, eight of size, and eight of the composite, each number most significant octet first. */
  lemma HeaderOctets(h: Header, k: nat)
    requires k < HEADER_SIZE
    ensures HeaderBytes(h)[k] ==
            if k == 0 then h.cmd
            else if k < 9 then h.argsSize / Pow256(8 - k) % 256
            else BuildIdentComposite(h.flags, h.ident) as nat / Pow256(16 - k) % 256
  {
    if 0 < k < 9 {
      BigEndianOctets(h.argsSize, 8, k - 1);
    } else if k >= 9 {
      BigEndianOctets(BuildIdentComposite(h.flags, h.ident) as nat, 8, k - 9);
    }
  }

  function SizeField(s: seq<byte>): uint64
    requires |s| >= HEADER_SIZE
  {
    FromBigEndianBound(s[1..9]);
    PowConstants();
    FromBigEndian(s[1..9])
  }

  function CompositeField(s: seq<byte>): bv64
    requires |s| >= HEADER_SIZE
  {
    FromBigEndianBound(s[9..17]);
    PowConstants();
    FromBigEndian(s[9..17]) as bv64
  }

  /** The header a stream's first octets spell out. */
  function HeaderOf(s: seq<byte>): Header
    requires |s| >= HEADER_SIZE
  {
    Header(s[0], SizeField(s), GetIdentFlags(CompositeField(s)), GetIdentInteger(CompositeField(s)))
  }

  lemma CompositeRoundTrip(composite: bv64)
    ensures FromBigEndian(CompositeBytes(composite)) == composite as nat
    ensures (composite as nat) as bv64 == composite
  {
    PowConstants();
    BigEndianRoundTrip(composite as nat, 8);
  }

  /** A header written by AlterHeader is read back by GetHeader as it was exactly when its ident has at most 56 bits. */
  lemma HeaderRoundTrip(h: Header, tail: seq<byte>)
    ensures HeaderOf(HeaderBytes(h) + tail).cmd == h.cmd
    ensures HeaderOf(HeaderBytes(h) + tail).argsSize == SizeField(HeaderBytes(h) + tail) == h.argsSize
    ensures CompositeField(HeaderBytes(h) + tail) == BuildIdentComposite(h.flags, h.ident)
    ensures h.ident <= IDENT_MAX_IDENT_VALUE <==> HeaderOf(HeaderBytes(h) + tail) == h
  {
    var s := HeaderBytes(h) + tail;
    PowConstants();
    BigEndianRoundTrip(h.argsSize, 8);
    CompositeRoundTrip(BuildIdentComposite(h.flags, h.ident));
    assert s[1..9] == BigEndian(h.argsSize, 8);
    assert s[9..17] == CompositeBytes(BuildIdentComposite(h.flags, h.ident));
    DecodeBuilt(h.flags, h.ident);
  }

  /** What popping a well-sized argument yields. */
  function PopValue(a: RawArg): PopResult
    requires ValidSize(a.kind, |a.payload|)
  {
    if !Readable(a) then OverRead(a.kind)
    else
      match Decode(a)
      case Some(arg) => Popped(arg)
      case None => Unknown(a.kind)
  }

  /** The simple form a stream refines: a list of arguments and how many of them have been popped. */
  datatype ListModel = ListModel(args: seq<RawArg>, popped: Option<nat>)

  class ConationStream {
    var bytes: seq<byte>
    /** The offset of the read cursor; None stands for the null Index of a rewound stream. */
    var index: Option<nat>
    /** What the octets after the header spell, and how many arguments lie before the cursor. */
    ghost var args: seq<RawArg>
    ghost var popped: Option<nat>

    /** The arguments are whole and the cursor is null or on an argument boundary. */
    ghost predicate Sound()
      reads this
    {
      && HEADER_SIZE <= |bytes| < UINT64_LIMIT
      && Sized(args) && bytes[HEADER_SIZE..] == Joined(args)
      && (popped.None? <==> index.None?)
      && (popped.Some? ==> popped.value <= |args| && index.value == HEADER_SIZE + |Joined(args[..popped.value])|)
    }

    predicate SizeAgrees()
      reads this
      requires |bytes| >= HEADER_SIZE
    {
      SizeField(bytes) == |bytes| - HEADER_SIZE
    }

    ghost predicate Valid()
      reads this
    {
      Sound() && SizeAgrees()
    }

    /** Where the next pop starts reading. */
    function Cursor(): nat
      reads this
    {
      if index.Some? then index.value else HEADER_SIZE
    }

    ghost function Passed(): nat
      reads this
    {
      if popped.Some? then popped.value else 0
    }

    /** The arguments between the cursor and the end. */
    ghost function Unread(): seq<RawArg>
      reads this
      requires Sound()
    {
      args[Passed()..]
    }

    ghost function Model(): ListModel
      reads this
    {
      ListModel(args, popped)
    }

    /** Seventeen zero octets: no arguments, and a size field of zero. */
    constructor Empty()
      ensures Valid() && Model() == ListModel([], None)
      ensures bytes == HeaderBytes(Header(0, 0, 0, 0))
    {
      bytes := seq(HEADER_SIZE, i => 0);
      index, args, popped := None, [], None;
      new;
      ZeroHeader();
      HeaderRoundTrip(Header(0, 0, 0, 0), []);
      assert HeaderBytes(Header(0, 0, 0, 0)) + [] == bytes;
    }

    static lemma ZeroHeader()
      ensures HeaderBytes(Header(0, 0, 0, 0)) == seq(HEADER_SIZE, i => 0)
    {
      assert BuildIdentComposite(0, 0) == 0;
      BigEndianZero(8);
    }

    static lemma {:induction false} BigEndianZero(width: nat)
      ensures BigEndian(0, width) == seq(width, i => 0)
    {
      if width > 0 {
        BigEndianZero(width - 1);
      }
    }

    /** A stream with the given header and no arguments. */
    constructor Make(cmd: byte, flags: bv8, ident: bv64)
      ensures Valid() && Model() == ListModel([], None)
      ensures bytes == HeaderBytes(Header(cmd, 0, flags, ident))
    {
      bytes := seq(HEADER_SIZE, i => 0);
      index, args, popped := None, [], None;
      new;
      AlterHeader(Header(cmd, 0, flags, ident));
      assert bytes == HeaderBytes(Header(cmd, 0, flags, ident));
    }

    /** A copy has the same octets and the same place in them. */
    constructor Copy(other: ConationStream)
      requires other.Sound()
      ensures Sound() && bytes == other.bytes && index == other.index && Model() == other.Model()
    {
      bytes, index := other.bytes, other.index;
      args, popped := other.args, other.popped;
    }

    /** Takes over octets that the validator has accepted. */
    constructor Adopt(octets: seq<byte>)
      requires HEADER_SIZE <= |octets| < UINT64_LIMIT && Parse(octets[HEADER_SIZE..]).Some?
      ensures Sound() && bytes == octets && Model() == ListModel(Parse(octets[HEADER_SIZE..]).value, None)
    {
      bytes, index := octets, None;
      args, popped := Parse(octets[HEADER_SIZE..]).value, None;
      JoinedParse(octets[HEADER_SIZE..]);
    }

    /** The pointer constructor: takes as many octets as the embedded size field says, and validates them. */
    static method FromOctets(memory: seq<byte>) returns (r: Outcome, s: ConationStream?)
      requires HEADER_SIZE <= |memory| && HEADER_SIZE + SizeField(memory) <= |memory| < UINT64_LIMIT
      ensures r == Ok <==> WholeArguments(memory[HEADER_SIZE..HEADER_SIZE + SizeField(memory)])
      ensures r != OutOfRange && (r == Ok <==> s != null)
      ensures s != null ==> fresh(s) && s.Valid() && s.index.None? && s.bytes == memory[..HEADER_SIZE + SizeField(memory)]
    {
      var octets := memory[..HEADER_SIZE + SizeField(memory)];
      assert octets[HEADER_SIZE..] == memory[HEADER_SIZE..HEADER_SIZE + SizeField(memory)];
      assert octets[1..9] == memory[1..9];
      r := IntegrityCheck(octets);
      WholeArgumentsParse(octets[HEADER_SIZE..]);
      s := null;
      if r == Ok {
        s := new ConationStream.Adopt(octets);
      }
    }

    /** The header constructor: with no payload given, the argument octets are the zeroes the vector was resized with. */
    static method FromHeader(h: Header, payload: Option<seq<byte>>) returns (r: Outcome, s: ConationStream?)
      requires HEADER_SIZE + h.argsSize < UINT64_LIMIT
      requires payload.Some? ==> h.argsSize <= |payload.value|
      ensures var body := if payload.Some? then payload.value[..h.argsSize] else seq(h.argsSize, i => 0);
              && r != OutOfRange && (r == Ok <==> WholeArguments(body)) && (r == Ok <==> s != null)
              && (s != null ==> fresh(s) && s.Valid() && s.index.None? && s.bytes == HeaderBytes(h) + body)
    {
      var body := if payload.Some? then payload.value[..h.argsSize] else seq(h.argsSize, i => 0);
      var octets := HeaderBytes(h) + body;
      HeaderRoundTrip(h, body);
      r := IntegrityCheck(octets);
      assert octets[HEADER_SIZE..] == body;
      WholeArgumentsParse(body);
      s := null;
      if r == Ok {
        s := new ConationStream.Adopt(octets);
      }
    }

    /** Overwrites the header fields in place; the arguments and the cursor stay. */
    method AlterHeader(h: Header)
      requires |bytes| >= HEADER_SIZE
      modifies this`bytes
      ensures bytes == HeaderBytes(h) + old(bytes)[HEADER_SIZE..]
      ensures SizeField(bytes) == h.argsSize && CompositeField(bytes) == BuildIdentComposite(h.flags, h.ident)
      ensures old(Sound()) ==> Sound()
      ensures old(Sound()) && h.argsSize == |bytes| - HEADER_SIZE ==> Valid()
    {
      bytes := [h.cmd] + bytes[1..];
      bytes := bytes[..1] + BigEndian(h.argsSize, 8) + bytes[9..];
      bytes := bytes[..9] + CompositeBytes(BuildIdentComposite(h.flags, h.ident)) + bytes[17..];
      assert bytes == HeaderBytes(h) + old(bytes)[HEADER_SIZE..];
      HeaderRoundTrip(h, old(bytes)[HEADER_SIZE..]);
      assert bytes[HEADER_SIZE..] == old(bytes)[HEADER_SIZE..];
    }

    method Rewind()
      modifies this`index, this`popped
      ensures index == None && popped == None
      ensures old(Sound()) ==> Sound()
    {
      index, popped := None, None;
    }

    /** Recomputes the size field from the length of the vector; one that holds no whole header is not ready for that. */
    method AutoSetStreamArgsSize() returns (ready: bool)
      requires |bytes| < UINT64_LIMIT
      modifies this`bytes
      ensures ready == (|old(bytes)| >= HEADER_SIZE)
      ensures !ready ==> bytes == old(bytes)
      ensures ready ==> |bytes| == |old(bytes)| && SizeAgrees()
      ensures ready ==> bytes[0] == old(bytes)[0] && bytes[9..] == old(bytes)[9..]
    {
      ready := |bytes| >= HEADER_SIZE;
      if !ready {
        return;
      }
      var size := |bytes| - HEADER_SIZE;
      bytes := bytes[..1] + BigEndian(size, 8) + bytes[9..];
      PowConstants();
      BigEndianRoundTrip(size, 8);
      assert bytes[1..9] == BigEndian(size, 8);
    }

    method EncodeArgType(kind: ArgKind)
      modifies this`bytes
      ensures bytes == old(bytes) + BigEndian(kind, 2)
    {
      var encoded := BigEndian(kind, 2);
      for inc := 0 to 2
        invariant bytes == old(bytes) + encoded[..inc]
      {
        bytes := bytes + [encoded[inc]];
      }
    }

    method EncodeSize(size: uint64)
      modifies this`bytes
      ensures bytes == old(bytes) + BigEndian(size, 8)
    {
      var netSize := BigEndian(size, 8);
      for inc := 0 to 8
        invariant bytes == old(bytes) + netSize[..inc]
      {
        bytes := bytes + [netSize[inc]];
      }
    }

    method EncodeBlob(blob: seq<byte>)
      modifies this`bytes
      ensures bytes == old(bytes) + blob
    {
      if |blob| == 0 {
        return;
      }
      bytes := bytes + blob;
    }

    /** Type, size and payload, one behind another. */
    method EncodeArg(r: RawArg)
      requires |r.payload| < UINT64_LIMIT
      modifies this`bytes
      ensures bytes == old(bytes) + Encoded(r)
    {
      EncodeArgType(r.kind);
      EncodeSize(|r.payload|);
      EncodeBlob(r.payload);
      Behind(old(bytes), BigEndian(r.kind, 2), BigEndian(|r.payload|, 8), r.payload);
    }

    static lemma Behind<T>(front: seq<T>, a: seq<T>, b: seq<T>, c: seq<T>)
      ensures front + a + b + c == front + (a + b + c)
    {
    }

    /** One argument more, encoded behind the others. */
    static lemma OneMore(before: seq<RawArg>, r: RawArg)
      requires Sized(before) && |r.payload| < UINT64_LIMIT
      ensures Sized(before + [r]) && Joined(before + [r]) == Joined(before) + Encoded(r)
    {
      JoinedMore(before + [r], before, r);
    }

    /** Every Push_* method: type, size, payload, then the size field is brought up to date. */
    method Push(a: Arg)
      requires Sound() && index.None?
      requires |bytes| + |Encoded(Raw(a))| < UINT64_LIMIT
      modifies this`bytes, this`args
      ensures Valid() && index.None? && args == old(args) + [Raw(a)]
      ensures bytes[HEADER_SIZE..] == old(bytes)[HEADER_SIZE..] + Encoded(Raw(a))
      ensures bytes[0] == old(bytes)[0] && bytes[9..17] == old(bytes)[9..17]
    {
      EncodeArg(Raw(a));
      ghost var grown := bytes;
      var _ := AutoSetStreamArgsSize();
      GrownBody(old(bytes), Encoded(Raw(a)), grown, bytes);
      OneMore(args, Raw(a));
      args := args + [Raw(a)];
    }

    static lemma GrownBody(before: seq<byte>, extra: seq<byte>, grown: seq<byte>, after: seq<byte>)
      requires |before| >= HEADER_SIZE && grown == before + extra && |after| == |grown|
      requires after[0] == grown[0] && after[9..] == grown[9..]
      ensures after[HEADER_SIZE..] == before[HEADER_SIZE..] + extra
      ensures after[0] == before[0] && after[9..17] == before[9..17]
    {
      assert after[HEADER_SIZE..] == after[9..][8..] == grown[9..][8..] == grown[HEADER_SIZE..];
      assert after[9..17] == after[9..][..8] == grown[9..][..8] == grown[9..17];
    }

    method WipeArgs()
      requires Sound() && index.None?
      modifies this`bytes, this`args
      ensures Valid() && index.None? && args == [] && |bytes| == HEADER_SIZE
      ensures bytes[0] == old(bytes)[0] && bytes[9..17] == old(bytes)[9..17]
    {
      ghost var before := bytes;
      bytes := bytes[..HEADER_SIZE];
      ghost var cut := bytes;
      assert cut[9..17] == before[9..17];
      var _ := AutoSetStreamArgsSize();
      GrownBody(cut, [], cut, bytes);
      args := [];
    }

    /** Reading at the start of the k-th argument finds that argument, and its end is the start of the next. */
    static lemma ReadAt(octets: seq<byte>, rs: seq<RawArg>, k: nat, start: nat)
      requires Sized(rs) && |octets| >= HEADER_SIZE && octets[HEADER_SIZE..] == Joined(rs)
      requires k < |rs| && start == HEADER_SIZE + |Joined(rs[..k])|
      ensures start <= |octets| && HasWholeArg(octets[start..])
      ensures SizeAt(octets[start..]) == |rs[k].payload| && KindAt(octets[start..]) == rs[k].kind
      ensures start + ARG_HEADER_SIZE + |rs[k].payload| == HEADER_SIZE + |Joined(rs[..k + 1])| <= |octets|
      ensures octets[start + ARG_HEADER_SIZE..start + ARG_HEADER_SIZE + |rs[k].payload|] == rs[k].payload
    {
      var tail := Joined(rs[k + 1..]);
      JoinedSplit(rs, k);
      var s := octets[start..];
      assert s == octets[HEADER_SIZE..][|Joined(rs[..k])|..] == Encoded(rs[k]) + tail;
      EncodedFields(rs[k], tail);
      assert octets[start + ARG_HEADER_SIZE..start + ARG_HEADER_SIZE + |rs[k].payload|] ==
             s[ARG_HEADER_SIZE..ARG_HEADER_SIZE + |rs[k].payload|];
    }

    lemma CursorAtEnd()
      requires Sound()
      ensures Cursor() <= |bytes|
      ensures Unread() == [] <==> Cursor() == |bytes|
    {
      var k := Passed();
      assert args == args[..k] + args[k..];
      JoinedAppend(args[..k], args[k..]);
      assert args[..0] == [] && args[0..] == args;
    }

    /** What the cursor stands at is the first unread argument; behind it lies the next boundary. */
    lemma FirstUnread()
      requires Sound() && Unread() != []
      ensures var a, start := Unread()[0], Cursor();
              && start + ARG_HEADER_SIZE + |a.payload| <= |bytes|
              && KindAt(bytes[start..]) == a.kind && SizeAt(bytes[start..]) == |a.payload|
              && RawArg(a.kind, bytes[start + ARG_HEADER_SIZE..start + ARG_HEADER_SIZE + |a.payload|]) == a
              && Passed() < |args| && start + ARG_HEADER_SIZE + |a.payload| == HEADER_SIZE + |Joined(args[..Passed() + 1])|
    {
      assert args[..0] == [];
      ReadAt(bytes, args, Passed(), Cursor());
    }

    /** Sets the cursor to the boundary behind some arguments. */
    method MoveTo(to: nat, ghost passed: nat)
      requires Sound() && passed <= |args| && to == HEADER_SIZE + |Joined(args[..passed])|
      modifies this`index, this`popped
      ensures Sound() && index == Some(to) && popped == Some(passed)
      ensures old(SizeAgrees()) ==> Valid()
    {
      index, popped := Some(to), Some(passed);
    }

    /**
     * Reads the argument at the cursor. A size that the type forbids throws before anything else and restores
     * the cursor; a size field that disagrees with the vector makes CheckInRange throw, past the restore.
     */
    method PopArgument(peek: bool) returns (r: PopResult)
      requires Sound()
      modifies this`index, this`popped
      ensures old(index).None? && old(Unread()) == [] ==> r == PopOutOfRange && index == old(index) && Sound()
      ensures old(index).Some? && old(Unread()) == [] ==> r == Exhausted && index == old(index) && Sound()
      ensures old(Unread()) != [] ==>
                var a := old(Unread())[0];
                if !ValidSize(a.kind, |a.payload|) then r == PopCorrupt && index == old(index) && Sound()
                else if !SizeAgrees() then r == PopCorrupt && index == Some(old(Cursor()) + ARG_HEADER_SIZE)
                else
                  && r == PopValue(a)
                  && index == Some(old(Cursor()) + ARG_HEADER_SIZE + (if peek then 0 else |a.payload|))
                  && (!peek ==> Valid() && popped == Some(old(Passed()) + 1))
      ensures index == old(index) ==> popped == old(popped)
      ensures old(SizeAgrees()) && (r.PopCorrupt? || r.PopOutOfRange?) ==> index == old(index)
    {
      CursorAtEnd();
      var start := Cursor();
      if index.None? && start == |bytes| {
        return PopOutOfRange;
      }
      if start == |bytes| {
        return Exhausted;
      }
      ghost var passed, first := Passed(), Unread()[0];
      FirstUnread();
      var kind := KindAt(bytes[start..]);
      var size := SizeAt(bytes[start..]);
      if !ValidSize(kind, size) {
        return PopCorrupt;
      }
      var at := start + ARG_HEADER_SIZE;
      var raw := RawArg(kind, bytes[at..at + size]);
      assert raw == first;
      if !SizeAgrees() {
        index := Some(at);
        return PopCorrupt;
      }
      r := PopValue(raw);
      if peek {
        index := Some(at);
      } else {
        MoveTo(at + size, passed + 1);
      }
    }
  
    /** Pushes an argument that was popped from somewhere; statuses are rebuilt on the way. */
    method PushArgument(a: Arg)
      requires Sound() && index.None?
      requires |bytes| + |Encoded(Raw(Repushed(a)))| < UINT64_LIMIT
      modifies this`bytes, this`args
      ensures Valid() && index.None? && args == old(args) + [Raw(Repushed(a))]
      ensures bytes[0] == old(bytes)[0] && bytes[9..17] == old(bytes)[9..17]
    {
      match a
      case NetCmdStatus(code, msg) => Push(StatusArg(MakeStatus(code == STATUS_OK || code == STATUS_WARN, code, msg)));
      case _ => Push(a);
    }

    /** Puts octets behind ours, brings the size field up to date, rewinds, and validates the result. */
    method AppendOctets(copied: seq<byte>) returns (r: Outcome)
      requires Sound() && |bytes| + |copied| < UINT64_LIMIT
      modifies this
      ensures HEADER_SIZE <= |bytes| && bytes[HEADER_SIZE..] == old(bytes)[HEADER_SIZE..] + copied
      ensures bytes[0] == old(bytes)[0] && bytes[9..17] == old(bytes)[9..17]
      ensures SizeAgrees() && index == None
      ensures r != OutOfRange && (r == Ok <==> WholeArguments(copied))
      ensures r == Ok ==> Valid() && Parse(copied).Some? && args == old(args) + Parse(copied).value
    {
      ghost var before := bytes;
      bytes := bytes + copied;
      ghost var grown := bytes;
      var _ := AutoSetStreamArgsSize();
      GrownBody(before, copied, grown, bytes);
      Rewind();
      r := IntegrityCheck(bytes);
      WholeArgumentsParse(bytes[HEADER_SIZE..]);
      WholeArgumentsParse(copied);
      ParseJoined(args);
      ParseTail(before[HEADER_SIZE..], copied);
      if r == Ok {
        args := args + Parse(copied).value;
      }
    }

    /** A cursor that is set has fewer than 17 octets in front of it, but some. */
    predicate LengthWraps()
      reads this
    {
      index.Some? && |bytes| - HEADER_SIZE < index.value < |bytes|
    }

    /** The octets AppendArgData takes from its input: all of them, or 17 fewer than lie behind a cursor that is set. */
    function Appendable(): seq<byte>
      reads this
      requires HEADER_SIZE <= |bytes| && (index.Some? ==> HEADER_SIZE <= index.value < |bytes|)
      requires !LengthWraps()
    {
      if index.None? then bytes[HEADER_SIZE..] else bytes[index.value..|bytes| - HEADER_SIZE]
    }

    /**
     * Copies the input's argument octets behind ours. A cursor at the very end makes the call do nothing. One that
     * leaves fewer than 17 octets makes the copied length negative, and so, unsigned, one that no memory holds: our own
     * vector is cut short by what is missing, and the copy runs off the end.
     */
    method AppendArgData(input: ConationStream) returns (r: AppendResult)
      requires Sound() && input.Sound() && input != this
      requires |bytes| + |input.bytes| < UINT64_LIMIT
      modifies this
      ensures r == CopyWraps <==> input.LengthWraps()
      ensures r == CopyWraps ==>
                var copied := (|input.bytes| - HEADER_SIZE - input.Cursor()) % UINT64_LIMIT;
                bytes == old(bytes)[..(|old(bytes)| + copied) % UINT64_LIMIT]
      ensures r != CopyWraps ==> HEADER_SIZE <= |bytes|
      ensures input.index.Some? && input.Unread() == [] ==>
                r == Appended && Sound() && bytes == old(bytes) && index == old(index) && Model() == old(Model())
      ensures r != CopyWraps && !(input.index.Some? && input.Unread() == []) ==>
                && (input.index.Some? ==> HEADER_SIZE <= input.index.value < |input.bytes|)
                && bytes[HEADER_SIZE..] == old(bytes)[HEADER_SIZE..] + input.Appendable()
                && bytes[0] == old(bytes)[0] && bytes[9..17] == old(bytes)[9..17]
                && SizeAgrees() && index == None
                && (r == Appended <==> WholeArguments(input.Appendable()))
                && (r == Appended ==> Valid() && Parse(input.Appendable()).Some?
                                      && args == old(args) + Parse(input.Appendable()).value)
    {
      input.CursorAtEnd();
      if input.index == Some(|input.bytes|) {
        return Appended;
      }
      var offset := if input.index.Some? then input.index.value else 0;
      if |input.bytes| - HEADER_SIZE < offset {
        bytes := bytes[..(|bytes| + (|input.bytes| - HEADER_SIZE - offset) % UINT64_LIMIT) % UINT64_LIMIT];
        return CopyWraps;
      }
      var inputArgsSize := (|input.bytes| - HEADER_SIZE) - offset;
      var from := if input.index.Some? then offset else HEADER_SIZE;
      assert input.bytes[from..from + inputArgsSize] == input.Appendable();
      var checked := AppendOctets(input.bytes[from..from + inputArgsSize]);
      r := if checked == Ok then Appended else AppendCorrupt;
    }

    /**
     * What AppendArgData adds is the input's unread argument list exactly when the input is rewound: with the cursor
     * set it takes 17 octets fewer than are unread, if there are as many, so even when those split, they spell another
     * list.
     */
    lemma AppendIsConcatenation()
      requires Valid() && (index.None? || Unread() != [])
      ensures index.Some? ==> HEADER_SIZE <= index.value < |bytes|
      ensures !LengthWraps() && Parse(Appendable()) == Some(Unread()) <==> index.None?
      ensures index.None? ==> WholeArguments(Appendable()) && Unread() == args
      ensures index.Some? && !LengthWraps() ==> |Appendable()| + HEADER_SIZE == |Joined(Unread())|
    {
      var k := Passed();
      assert args == args[..k] + args[k..];
      JoinedAppend(args[..k], args[k..]);
      CursorAtEnd();
      if index.None? {
        assert args[0..] == args;
        ParseJoined(args);
        WholeArgumentsParse(Appendable());
      } else if !LengthWraps() && Parse(Appendable()).Some? {
        JoinedParse(Appendable());
      }
    }

    /** What a partly read input adds is there and well formed exactly when its last 17 octets are whole arguments. */
    lemma AppendSoundExactly()
      requires Valid() && index.Some? && Unread() != []
      ensures HEADER_SIZE <= index.value < |bytes|
      ensures !LengthWraps() && WholeArguments(Appendable()) <==>
              exists j :: 0 <= j <= |Unread()| && |Joined(Unread()[j..])| == HEADER_SIZE
    {
      UnreadOctets();
      if LengthWraps() {
        forall j | 0 <= j <= |Unread()| ensures |Joined(Unread()[j..])| < HEADER_SIZE {
          JoinedLengths(Unread(), j);
        }
      } else {
        WholeArgumentsParse(Appendable());
        TrimmedParses(Unread(), HEADER_SIZE);
      }
    }

    lemma UnreadOctets()
      requires Valid() && index.Some? && Unread() != []
      ensures HEADER_SIZE <= index.value < |bytes| && |Joined(Unread())| == |bytes| - index.value && Sized(Unread())
      ensures !LengthWraps() ==>
                |Joined(Unread())| >= HEADER_SIZE && Appendable() == Joined(Unread())[..|Joined(Unread())| - HEADER_SIZE]
    {
      CursorAtEnd();
      assert args == args[..Passed()] + Unread();
      JoinedAppend(args[..Passed()], Unread());
      assert bytes[index.value..] == bytes[HEADER_SIZE..][index.value - HEADER_SIZE..] == Joined(Unread());
    }
  }
}
