/** The arguments a Conation stream carries: a typed layer (twelve kinds) over a raw layer (type, size, payload). */
module Arguments {
  import opened Bytes

  const HEADER_SIZE: nat := 17
  const ARG_HEADER_SIZE: nat := 10

  const ARGTYPE_NONE: nat := 0
  const ARGTYPE_NETCMDSTATUS: nat := 1
  const ARGTYPE_INT32: nat := 2
  const ARGTYPE_UINT32: nat := 4
  const ARGTYPE_INT64: nat := 8
  const ARGTYPE_UINT64: nat := 16
  const ARGTYPE_BINSTREAM: nat := 32
  const ARGTYPE_STRING: nat := 64
  const ARGTYPE_FILEPATH: nat := 128
  const ARGTYPE_SCRIPT: nat := 256
  const ARGTYPE_FILE: nat := 512
  const ARGTYPE_BOOL: nat := 1024
  const ARGTYPE_ODHEADER: nat := 2048

  datatype Option<+T> = None | Some(value: T)

  // ---------------------------------------------------------------- raw layer

  type ArgKind = k: nat | k < 0x1_0000

  datatype RawArg = RawArg(kind: ArgKind, payload: seq<byte>)

  function Encoded(r: RawArg): (s: seq<byte>)
    ensures |s| == ARG_HEADER_SIZE + |r.payload|
  {
    BigEndian(r.kind, 2) + BigEndian(|r.payload|, 8) + r.payload
  }

  /** Two octets of type, eight of size, and the payload. */
  lemma EncodedOctets(r: RawArg, k: nat)
    requires k < ARG_HEADER_SIZE
    ensures Encoded(r)[ARG_HEADER_SIZE..] == r.payload
    ensures Encoded(r)[k] == if k < 2 then r.kind / Pow256(1 - k) % 256 else |r.payload| / Pow256(9 - k) % 256
  {
    if k < 2 {
      BigEndianOctets(r.kind, 2, k);
    } else {
      BigEndianOctets(|r.payload|, 8, k - 2);
    }
  }

  function Joined(rs: seq<RawArg>): seq<byte> {
    if rs == [] then [] else Encoded(rs[0]) + Joined(rs[1..])
  }

  /** Every declared size fits the 64-bit size field. */
  ghost predicate Sized(rs: seq<RawArg>) {
    forall k :: 0 <= k < |rs| ==> |rs[k].payload| < UINT64_LIMIT
  }

  /** The type field of the argument whose encoding begins s. */
  function KindAt(s: seq<byte>): ArgKind
    requires |s| >= 2
  {
    FromBigEndianBound(s[..2]);
    PowConstants();
    FromBigEndian(s[..2])
  }

  /** The size field of the argument whose encoding begins s. */
  function SizeAt(s: seq<byte>): uint64
    requires |s| >= ARG_HEADER_SIZE
  {
    FromBigEndianBound(s[2..10]);
    PowConstants();
    FromBigEndian(s[2..10])
  }

  /** Some whole argument begins s. */
  predicate HasWholeArg(s: seq<byte>) {
    |s| >= ARG_HEADER_SIZE && ARG_HEADER_SIZE + SizeAt(s) <= |s|
  }

  function FirstArg(s: seq<byte>): RawArg
    requires HasWholeArg(s)
  {
    RawArg(KindAt(s), s[ARG_HEADER_SIZE..ARG_HEADER_SIZE + SizeAt(s)])
  }

  function AfterFirst(s: seq<byte>): seq<byte>
    requires HasWholeArg(s)
  {
    s[ARG_HEADER_SIZE + SizeAt(s)..]
  }

  /** Splits octets into whole arguments with nothing left over, or finds that they do not split. */
  function Parse(s: seq<byte>): (r: Option<seq<RawArg>>)
    decreases |s|
  {
    if s == [] then Some([])
    else if !HasWholeArg(s) then None
    else
      var rest := Parse(AfterFirst(s));
      if rest.None? then None else Some([FirstArg(s)] + rest.value)
  }

  lemma EncodedFields(r: RawArg, tail: seq<byte>)
    requires |r.payload| < UINT64_LIMIT
    ensures HasWholeArg(Encoded(r) + tail)
    ensures FirstArg(Encoded(r) + tail) == r
    ensures AfterFirst(Encoded(r) + tail) == tail
    ensures SizeAt(Encoded(r) + tail) == |r.payload|
  {
    var s := Encoded(r) + tail;
    PowConstants();
    BigEndianRoundTrip(r.kind, 2);
    BigEndianRoundTrip(|r.payload|, 8);
    assert s[..2] == BigEndian(r.kind, 2);
    assert s[2..10] == BigEndian(|r.payload|, 8);
    assert s[10..10 + |r.payload|] == r.payload;
  }

  lemma FirstArgEncodes(s: seq<byte>)
    requires HasWholeArg(s)
    ensures s == Encoded(FirstArg(s)) + AfterFirst(s)
    ensures |FirstArg(s).payload| == SizeAt(s)
  {
    FromBigEndianRoundTrip(s[..2]);
    FromBigEndianRoundTrip(s[2..10]);
    assert s == s[..2] + s[2..10] + s[10..10 + SizeAt(s)] + s[10 + SizeAt(s)..];
  }

  /** Parsing inverts joining. */
  lemma {:induction false} ParseJoined(rs: seq<RawArg>)
    requires Sized(rs)
    ensures Parse(Joined(rs)) == Some(rs)
  {
    if rs == [] {
    } else {
      ParseJoined(rs[1..]);
      EncodedFields(rs[0], Joined(rs[1..]));
      assert rs == [rs[0]] + rs[1..];
    }
  }

  /** Joining inverts parsing, so octets split in at most one way. */
  lemma {:induction false} JoinedParse(s: seq<byte>)
    requires Parse(s).Some?
    ensures Joined(Parse(s).value) == s && Sized(Parse(s).value)
    decreases |s|
  {
    if s == [] {
    } else {
      JoinedParse(AfterFirst(s));
      FirstArgEncodes(s);
      var rs := Parse(s).value;
      assert rs[1..] == Parse(AfterFirst(s)).value;
      forall k | 0 <= k < |rs| ensures |rs[k].payload| < UINT64_LIMIT {
        if k > 0 {
          assert rs[k] == rs[1..][k - 1];
        }
      }
    }
  }

  lemma {:induction false} JoinedAppend(a: seq<RawArg>, b: seq<RawArg>)
    ensures Joined(a + b) == Joined(a) + Joined(b)
  {
    if a == [] {
      assert a + b == b;
    } else {
      JoinedAppend(a[1..], b);
      assert (a + b)[1..] == a[1..] + b;
    }
  }

  lemma JoinedOne(r: RawArg)
    ensures Joined([r]) == Encoded(r)
  {
    assert [r][1..] == [];
    assert Joined([r]) == Encoded(r) + Joined([]);
  }

  lemma Cut<T>(s: seq<T>, k: nat)
    requires k < |s|
    ensures s == s[..k] + ([s[k]] + s[k + 1..]) && s[..k + 1] == s[..k] + [s[k]]
  {
  }

  lemma Associate<T>(a: seq<T>, b: seq<T>, c: seq<T>)
    ensures a + b + c == a + (b + c)
  {
  }

  lemma Regroup<T>(a: seq<T>, b: seq<T>, c: seq<T>, d: seq<T>)
    ensures a + b + c + d == a + b + (c + d)
  {
  }

  lemma JoinedAround(rs: seq<RawArg>, front: seq<RawArg>, r: RawArg, rest: seq<RawArg>)
    requires rs == front + ([r] + rest)
    ensures Joined(rs) == Joined(front) + (Encoded(r) + Joined(rest))
  {
    JoinedAppend(front, [r] + rest);
    JoinedAppend([r], rest);
    JoinedOne(r);
  }

  lemma JoinedMore(rs: seq<RawArg>, front: seq<RawArg>, r: RawArg)
    requires rs == front + [r]
    ensures Joined(rs) == Joined(front) + Encoded(r)
  {
    JoinedAppend(front, [r]);
    JoinedOne(r);
  }

  /** The encoding of the k-th argument lies between those of its neighbours. */
  lemma JoinedSplit(rs: seq<RawArg>, k: nat)
    requires k < |rs|
    ensures Joined(rs) == Joined(rs[..k]) + (Encoded(rs[k]) + Joined(rs[k + 1..]))
    ensures Joined(rs[..k + 1]) == Joined(rs[..k]) + Encoded(rs[k])
  {
    Cut(rs, k);
    JoinedAround(rs, rs[..k], rs[k], rs[k + 1..]);
    JoinedMore(rs[..k + 1], rs[..k], rs[k]);
  }

  /** Octets made of two parts that split, split into both lists. */
  lemma ParseAppend(a: seq<byte>, b: seq<byte>)
    requires Parse(a).Some? && Parse(b).Some?
    ensures Parse(a + b) == Some(Parse(a).value + Parse(b).value)
  {
    var p, q := Parse(a).value, Parse(b).value;
    JoinedParse(a);
    JoinedParse(b);
    JoinedAppend(p, q);
    assert Sized(p + q);
    ParseJoined(p + q);
  }

  /** A prefix that holds a whole first argument begins with the same one. */
  lemma FirstOfPrefix(s: seq<byte>, front: seq<byte>, behind: seq<byte>)
    requires s == front + behind && HasWholeArg(front)
    ensures HasWholeArg(s) && FirstArg(s) == FirstArg(front) && AfterFirst(s) == AfterFirst(front) + behind
  {
    assert s[..2] == front[..2] && s[2..10] == front[2..10];
    var n := ARG_HEADER_SIZE + SizeAt(front);
    assert s[ARG_HEADER_SIZE..n] == front[ARG_HEADER_SIZE..n];
    assert s[n..] == front[n..] + behind;
  }

  /** When a prefix and the whole both split, so does the remainder, into the remaining arguments. */
  lemma {:induction false} ParseSuffix(s: seq<byte>, front: seq<byte>, behind: seq<byte>)
    requires s == front + behind && Parse(s).Some? && Parse(front).Some?
    ensures Parse(behind).Some?
    ensures Parse(s).value == Parse(front).value + Parse(behind).value
    decreases |s|
  {
    if front == [] {
      assert s == behind;
    } else {
      FirstOfPrefix(s, front, behind);
      ParseSuffix(AfterFirst(s), AfterFirst(front), behind);
      Associate([FirstArg(front)], Parse(AfterFirst(front)).value, Parse(behind).value);
    }
  }

  /** Behind octets that split, further octets leave a whole that splits exactly when they do. */
  lemma ParseTail(a: seq<byte>, b: seq<byte>)
    requires Parse(a).Some?
    ensures Parse(a + b).Some? <==> Parse(b).Some?
    ensures Parse(b).Some? ==>
              Parse(a + b).value == Parse(a).value + Parse(b).value
              && Joined(Parse(a).value + Parse(b).value) == a + b && Sized(Parse(a).value + Parse(b).value)
              && Joined(Parse(b).value) == b
  {
    if Parse(b).Some? {
      ParseAppend(a, b);
      JoinedParse(a + b);
      JoinedParse(b);
    }
    if Parse(a + b).Some? {
      ParseSuffix(a + b, a, b);
    }
  }

  lemma JoinedFront(rs: seq<RawArg>, j: nat)
    requires j <= |rs|
    ensures |Joined(rs[..j])| <= |Joined(rs)| && Joined(rs)[..|Joined(rs[..j])|] == Joined(rs[..j])
  {
    assert rs == rs[..j] + rs[j..];
    JoinedAppend(rs[..j], rs[j..]);
  }

  /** Octets cut off the end of whole arguments leave whole arguments exactly when the cut lies between two. */
  lemma CutParses(rs: seq<RawArg>, n: nat)
    requires Sized(rs) && n <= |Joined(rs)|
    ensures Parse(Joined(rs)[..n]).Some? <==> exists j :: 0 <= j <= |rs| && |Joined(rs[..j])| == n
  {
    var s := Joined(rs);
    ParseJoined(rs);
    if Parse(s[..n]).Some? {
      var front := Parse(s[..n]).value;
      ParseSuffix(s, s[..n], s[n..]);
      JoinedParse(s[..n]);
      assert rs[..|front|] == front;
    }
    if exists j :: 0 <= j <= |rs| && |Joined(rs[..j])| == n {
      var j :| 0 <= j <= |rs| && |Joined(rs[..j])| == n;
      JoinedFront(rs, j);
      ParseJoined(rs[..j]);
    }
  }

  lemma JoinedLengths(rs: seq<RawArg>, j: nat)
    requires j <= |rs|
    ensures |Joined(rs)| == |Joined(rs[..j])| + |Joined(rs[j..])|
  {
    assert rs == rs[..j] + rs[j..];
    JoinedAppend(rs[..j], rs[j..]);
  }

  lemma TrimmedParses(rs: seq<RawArg>, m: nat)
    requires Sized(rs) && m <= |Joined(rs)|
    ensures Parse(Joined(rs)[..|Joined(rs)| - m]).Some? <==> exists j :: 0 <= j <= |rs| && |Joined(rs[j..])| == m
  {
    var n := |Joined(rs)| - m;
    CutParses(rs, n);
    if j: nat :| j <= |rs| && |Joined(rs[..j])| == n {
      JoinedLengths(rs, j);
    }
    if j: nat :| j <= |rs| && |Joined(rs[j..])| == m {
      JoinedLengths(rs, j);
    }
  }

  // -------------------------------------------------------------- typed layer

  datatype Arg =
    | NetCmdStatus(code: byte, msg: Text)
    | Int32(i32: int32)
    | Uint32(u32: uint32)
    | Int64(i64: int64)
    | Uint64(u64: uint64)
    | BinStream(data: seq<byte>)
    | String(text: Text)
    | FilePath(path: Text)
    | Script(script: Text)
    | File(name: Text, content: seq<byte>)
    | Bool(flag: bool)
    | ODHeader(origin: Text, destination: Text)

  function Kind(a: Arg): ArgKind {
    match a
    case NetCmdStatus(_, _) => ARGTYPE_NETCMDSTATUS
    case Int32(_) => ARGTYPE_INT32
    case Uint32(_) => ARGTYPE_UINT32
    case Int64(_) => ARGTYPE_INT64
    case Uint64(_) => ARGTYPE_UINT64
    case BinStream(_) => ARGTYPE_BINSTREAM
    case String(_) => ARGTYPE_STRING
    case FilePath(_) => ARGTYPE_FILEPATH
    case Script(_) => ARGTYPE_SCRIPT
    case File(_, _) => ARGTYPE_FILE
    case Bool(_) => ARGTYPE_BOOL
    case ODHeader(_, _) => ARGTYPE_ODHEADER
  }

  /** Two's complement: the unsigned word a signed one is sent as. */
  function ToWord32(i: int32): uint32 { if i < 0 then i + UINT32_LIMIT else i }
  function FromWord32(n: uint32): int32 { if n < 0x8000_0000 then n else n - UINT32_LIMIT }
  function ToWord64(i: int64): uint64 { if i < 0 then i + UINT64_LIMIT else i }
  function FromWord64(n: uint64): int64 { if n < 0x8000_0000_0000_0000 then n else n - UINT64_LIMIT }

  function Payload(a: Arg): seq<byte> {
    match a
    case NetCmdStatus(code, msg) => [code] + msg
    case Int32(i) => BigEndian(ToWord32(i), 4)
    case Uint32(n) => BigEndian(n, 4)
    case Int64(i) => BigEndian(ToWord64(i), 8)
    case Uint64(n) => BigEndian(n, 8)
    case BinStream(data) => data
    case String(t) => t
    case FilePath(t) => t
    case Script(t) => t
    case File(name, content) => name + [0] + content
    case Bool(b) => [if b then 1 else 0]
    case ODHeader(origin, destination) => origin + [0] + destination + [0]
  }

  function Raw(a: Arg): RawArg { RawArg(Kind(a), Payload(a)) }

  /** The types on the wire are single bits, in the order in which the source names them. */
  lemma KindsOnWire(a: Arg)
    ensures Kind(a) ==
            match a
            case NetCmdStatus(_, _) => 1
            case Int32(_) => 2
            case Uint32(_) => 4
            case Int64(_) => 8
            case Uint64(_) => 16
            case BinStream(_) => 32
            case String(_) => 64
            case FilePath(_) => 128
            case Script(_) => 256
            case File(_, _) => 512
            case Bool(_) => 1024
            case ODHeader(_, _) => 2048
  {
  }

  /** The number an argument holds. */
  function NumberIn(a: Arg): int
    requires NumberKind(Kind(a))
  {
    match a
    case Int32(i) => i
    case Uint32(n) => n
    case Int64(i) => i
    case Uint64(n) => n
  }

  /** The residue that a number travels as. */
  function Residue(a: Arg): nat
    requires NumberKind(Kind(a))
  {
    NumberIn(a) % if a.Int32? || a.Uint32? then UINT32_LIMIT else UINT64_LIMIT
  }

  lemma WordIsResidue(a: Arg)
    requires NumberKind(Kind(a))
    ensures Payload(a) == BigEndian(Residue(a), if a.Int32? || a.Uint32? then 4 else 8)
  {
    var word := if a.Int32? then ToWord32(a.i32) else if a.Uint32? then a.u32 else if a.Int64? then ToWord64(a.i64) else a.u64;
    assert word == Residue(a);
  }

  /** A number travels as its residue, in four octets or eight, the most significant first. */
  lemma NumberOnWire(a: Arg, k: nat)
    requires NumberKind(Kind(a)) && k < |Payload(a)|
    ensures |Payload(a)| == if a.Int32? || a.Uint32? then 4 else 8
    ensures Payload(a)[k] == Residue(a) / Pow256(|Payload(a)| - 1 - k) % 256
  {
    WordIsResidue(a);
    BigEndianOctets(Residue(a), |Payload(a)|, k);
  }

  /** What does not hold a number travels as its octets, with a terminator behind each text that is not the last. */
  lemma TextOnWire(a: Arg)
    ensures a.NetCmdStatus? ==> Payload(a)[0] == a.code && Payload(a)[1..] == a.msg
    ensures a.File? ==>
              && Payload(a)[..|a.name|] == a.name && Payload(a)[|a.name|] == 0
              && Payload(a)[|a.name| + 1..] == a.content
    ensures a.Bool? ==> Payload(a) == [if a.flag then 1 else 0]
    ensures a.ODHeader? ==>
              var n, m := |a.origin|, |a.destination|;
              && |Payload(a)| == n + m + 2 && Payload(a)[n] == Payload(a)[n + m + 1] == 0
              && Payload(a)[..n] == a.origin && Payload(a)[n + 1..n + m + 1] == a.destination
  {
  }

  function RawAll(args: seq<Arg>): (rs: seq<RawArg>)
    ensures |rs| == |args|
    ensures forall k :: 0 <= k < |args| ==> rs[k] == Raw(args[k])
  {
    seq(|args|, k requires 0 <= k < |args| => Raw(args[k]))
  }

  /** The kinds whose size is fixed are checked against it; any other size passes. */
  predicate ValidSize(kind: nat, size: nat) {
    if kind == ARGTYPE_INT32 || kind == ARGTYPE_UINT32 then size == 4
    else if kind == ARGTYPE_INT64 || kind == ARGTYPE_UINT64 then size == 8
    else if kind == ARGTYPE_BOOL then size == 1
    else true
  }

  /** Of the kinds that have a fixed size, the sizes that pass are those that are pushed. */
  lemma SizeExactly(r: RawArg)
    requires NumberKind(r.kind) || r.kind == ARGTYPE_BOOL
    ensures ValidSize(r.kind, |r.payload|) <==> exists a: Arg :: Kind(a) == r.kind && |Payload(a)| == |r.payload|
  {
    var sample := if r.kind == ARGTYPE_INT32 then Int32(0)
                  else if r.kind == ARGTYPE_UINT32 then Uint32(0)
                  else if r.kind == ARGTYPE_INT64 then Int64(0)
                  else if r.kind == ARGTYPE_UINT64 then Uint64(0) else Bool(false);
    assert Kind(sample) == r.kind;
  }

  predicate KnownKind(kind: nat) {
    kind in {ARGTYPE_NETCMDSTATUS, ARGTYPE_INT32, ARGTYPE_UINT32, ARGTYPE_INT64, ARGTYPE_UINT64, ARGTYPE_BINSTREAM,
             ARGTYPE_STRING, ARGTYPE_FILEPATH, ARGTYPE_SCRIPT, ARGTYPE_FILE, ARGTYPE_BOOL, ARGTYPE_ODHEADER}
  }

  /** The text after the first terminator of p. */
  function SecondString(p: seq<byte>): Text
    requires 0 in p
  {
    CString(p[|CString(p)| + 1..])
  }

  predicate HoldsTwoStrings(p: seq<byte>) {
    0 in p && 0 in p[|CString(p)| + 1..]
  }

  /** The payload holds the octets its kind is read from: a status code, and the terminators of embedded C strings. */
  predicate Readable(r: RawArg) {
    if r.kind == ARGTYPE_NETCMDSTATUS then |r.payload| >= 1
    else if r.kind == ARGTYPE_FILE then 0 in r.payload
    else if r.kind == ARGTYPE_ODHEADER then HoldsTwoStrings(r.payload)
    else true
  }

  /**
   * How many octets a pop reads from the start of a payload, when some lie behind it; None when it reads on past their
   * end. Texts inside a payload are read up to a terminator wherever that is, and a status's message is as long as the
   * payload less one, which wraps round when the payload is empty.
   */
  function Reach(r: RawArg, behind: seq<byte>): Option<nat> {
    var s := r.payload + behind;
    if r.kind == ARGTYPE_NETCMDSTATUS then if r.payload == [] then None else Some(|r.payload|)
    else if r.kind == ARGTYPE_FILE then if 0 in s then Some(|CString(s)| + 1) else None
    else if r.kind == ARGTYPE_ODHEADER then
      if HoldsTwoStrings(s) then Some(|CString(s)| + 1 + |SecondString(s)| + 1) else None
    else Some(|r.payload|)
  }

  /** What a pop reads is the argument's own. */
  predicate StaysInside(r: RawArg, behind: seq<byte>) {
    Reach(r, behind).Some? && Reach(r, behind).value <= |r.payload|
  }

  /** A text that ends inside a payload is the same with or without the octets behind it; any other reads into them. */
  lemma {:induction false} FirstText(p: seq<byte>, s: seq<byte>)
    requires p <= s
    ensures 0 in p ==> CString(s) == CString(p) && |CString(p)| < |p|
    ensures 0 !in p ==> |CString(s)| >= |p|
  {
    if p == [] {
    } else {
      assert p[0] == s[0];
      assert p == [p[0]] + p[1..];
      FirstText(p[1..], s[1..]);
    }
  }

  /** A pop reads no octet but its own argument's exactly when the payload holds what its kind is read from. */
  lemma InsideExactly(r: RawArg, behind: seq<byte>)
    ensures StaysInside(r, behind) <==> Readable(r)
  {
    var p, s := r.payload, r.payload + behind;
    if r.kind == ARGTYPE_FILE {
      FirstText(p, s);
      assert 0 in p ==> 0 in s;
    } else if r.kind == ARGTYPE_ODHEADER {
      InsideTwice(p, s);
    }
  }

  lemma InsideTwice(p: seq<byte>, s: seq<byte>)
    requires p <= s
    ensures HoldsTwoStrings(p) <==> HoldsTwoStrings(s) && |CString(s)| + 1 + |SecondString(s)| + 1 <= |p|
  {
    FirstText(p, s);
    assert 0 in p ==> 0 in s;
    if 0 in p {
      var n := |CString(p)| + 1;
      assert p[n..] <= s[n..];
      FirstText(p[n..], s[n..]);
      assert 0 in p[n..] ==> 0 in s[n..];
    }
  }

  predicate NumberKind(kind: nat) {
    kind == ARGTYPE_INT32 || kind == ARGTYPE_UINT32 || kind == ARGTYPE_INT64 || kind == ARGTYPE_UINT64
  }

  /** A number in network order. */
  function DecodeWord(r: RawArg): (a: Arg)
    requires NumberKind(r.kind) && ValidSize(r.kind, |r.payload|)
    ensures Kind(a) == r.kind
  {
    FromBigEndianBound(r.payload);
    PowConstants();
    var word := FromBigEndian(r.payload);
    if r.kind == ARGTYPE_INT32 then Int32(FromWord32(word))
    else if r.kind == ARGTYPE_UINT32 then Uint32(word)
    else if r.kind == ARGTYPE_INT64 then Int64(FromWord64(word))
    else Uint64(word)
  }

  /** What a pop makes of a payload; None for a type that is not known. */
  function Decode(r: RawArg): (a: Option<Arg>)
    requires ValidSize(r.kind, |r.payload|) && Readable(r)
    ensures a.Some? <==> KnownKind(r.kind)
    ensures a.Some? ==> Kind(a.value) == r.kind
  {
    var p := r.payload;
    if NumberKind(r.kind) then Some(DecodeWord(r))
    else if r.kind == ARGTYPE_NETCMDSTATUS then Some(NetCmdStatus(p[0], CString(p[1..])))
    else if r.kind == ARGTYPE_BINSTREAM then Some(BinStream(p))
    else if r.kind == ARGTYPE_STRING then Some(String(CString(p)))
    else if r.kind == ARGTYPE_FILEPATH then Some(FilePath(CString(p)))
    else if r.kind == ARGTYPE_SCRIPT then Some(Script(CString(p)))
    else if r.kind == ARGTYPE_FILE then
      var name := CString(p);
      Some(File(name, p[|name| + 1..]))
    else if r.kind == ARGTYPE_BOOL then Some(Bool(p[0] != 0))
    else if r.kind == ARGTYPE_ODHEADER then Some(ODHeader(CString(p), SecondString(p)))
    else None
  }

  /** A text that is popped is the payload, or the part of it behind the status code, up to its first terminator. */
  lemma DecodeTexts(r: RawArg)
    requires ValidSize(r.kind, |r.payload|) && Readable(r) && KnownKind(r.kind)
    ensures var a, p := Decode(r).value, r.payload;
            && (a.String? ==> CutText(a.text, p)) && (a.FilePath? ==> CutText(a.path, p))
            && (a.Script? ==> CutText(a.script, p))
            && (a.NetCmdStatus? ==> p != [] && a.code == p[0] && CutText(a.msg, p[1..]))
            && (a.BinStream? ==> a.data == p) && (a.Bool? ==> p != [] && (a.flag <==> p[0] != 0))
            && (a.File? ==> CutText(a.name, p) && |a.name| < |p| && a.content == p[|a.name| + 1..])
            && (a.ODHeader? ==> CutText(a.origin, p) && |a.origin| < |p| && CutText(a.destination, p[|a.origin| + 1..]))
  {
  }

  /** Some octets up to the first terminator, or to their end. */
  predicate CutText(t: Text, p: seq<byte>) { t <= p && (t == p || p[|t|] == 0) }

  lemma DecodeNumber(a: Arg)
    requires a.Int32? || a.Uint32? || a.Int64? || a.Uint64?
    ensures ValidSize(Kind(a), |Payload(a)|) && Readable(Raw(a))
    ensures Decode(Raw(a)) == Some(a)
  {
    PowConstants();
    var word := if a.Int32? then ToWord32(a.i32) else if a.Uint32? then a.u32 else if a.Int64? then ToWord64(a.i64) else a.u64;
    BigEndianRoundTrip(word, |Payload(a)|);
  }

  lemma DecodeFile(a: Arg)
    requires a.File?
    ensures Readable(Raw(a)) && Decode(Raw(a)) == Some(a)
  {
    var p := Payload(a);
    CStringOfTerminated(a.name, a.content);
    assert p[|a.name|] == 0;
    assert p[|a.name| + 1..] == a.content;
  }

  lemma TwoStrings(p: seq<byte>, origin: Text, tail: seq<byte>, destination: Text)
    requires p == origin + [0] + tail && tail == destination + [0]
    ensures HoldsTwoStrings(p) && CString(p) == origin && SecondString(p) == destination
  {
    CStringOfTerminated(origin, tail);
    assert p[|origin|] == 0 && p[|origin| + 1..] == tail;
    assert tail == destination + [0] + [] && tail[|destination|] == 0;
    CStringOfTerminated(destination, []);
  }

  lemma DecodeTwoStrings(r: RawArg, origin: Text, destination: Text)
    requires r.kind == ARGTYPE_ODHEADER && HoldsTwoStrings(r.payload)
    requires CString(r.payload) == origin && SecondString(r.payload) == destination
    ensures Readable(r) && Decode(r) == Some(ODHeader(origin, destination))
  {
  }

  lemma DecodeODHeader(a: Arg)
    requires a.ODHeader?
    ensures Readable(Raw(a)) && Decode(Raw(a)) == Some(a)
  {
    var p, tail := Payload(a), a.destination + [0];
    Regroup(a.origin, [0], a.destination, [0]);
    TwoStrings(p, a.origin, tail, a.destination);
    DecodeTwoStrings(Raw(a), a.origin, a.destination);
  }

  /** Every argument a push writes is read back by a pop as the argument it was. */
  lemma DecodeRaw(a: Arg)
    ensures KnownKind(Kind(a))
    ensures ValidSize(Kind(a), |Payload(a)|) && Readable(Raw(a))
    ensures Decode(Raw(a)) == Some(a)
  {
    match a
    case Int32(_) => DecodeNumber(a);
    case Uint32(_) => DecodeNumber(a);
    case Int64(_) => DecodeNumber(a);
    case Uint64(_) => DecodeNumber(a);
    case File(_, _) => DecodeFile(a);
    case ODHeader(_, _) => DecodeODHeader(a);
    case NetCmdStatus(code, msg) => assert Payload(a)[1..] == msg;
    case BinStream(_) =>
    case String(_) =>
    case FilePath(_) =>
    case Script(_) =>
    case Bool(_) =>
  }

  /** Typed lists are told apart by their octets. */
  lemma RawInjective(a: Arg, b: Arg)
    requires Raw(a) == Raw(b)
    ensures a == b
  {
    DecodeRaw(a);
    DecodeRaw(b);
  }

  ghost predicate Fits(args: seq<Arg>) {
    |Joined(RawAll(args))| + HEADER_SIZE < UINT64_LIMIT
  }

  lemma {:induction false} JoinedCovers(rs: seq<RawArg>, k: nat)
    requires k < |rs|
    ensures |rs[k].payload| <= |Joined(rs)|
  {
    if k == 0 {
    } else {
      JoinedCovers(rs[1..], k - 1);
    }
  }

  /** Two typed lists of representable size with the same octets are the same list. */
  lemma EncodingInjective(a: seq<Arg>, b: seq<Arg>)
    requires Fits(a) && Fits(b)
    requires Joined(RawAll(a)) == Joined(RawAll(b))
    ensures a == b
  {
    var ra, rb := RawAll(a), RawAll(b);
    forall k | 0 <= k < |ra| ensures |ra[k].payload| < UINT64_LIMIT { JoinedCovers(ra, k); }
    forall k | 0 <= k < |rb| ensures |rb[k].payload| < UINT64_LIMIT { JoinedCovers(rb, k); }
    ParseJoined(ra);
    ParseJoined(rb);
    assert ra == rb;
    forall k | 0 <= k < |a| ensures a[k] == b[k] {
      assert ra[k] == rb[k];
      RawInjective(a[k], b[k]);
    }
  }

  // ------------------------------------------------------- command statuses

  const STATUS_INVALID: byte := 0
  const STATUS_OK: byte := 1
  const STATUS_FAILED: byte := 2
  const STATUS_WARN: byte := 4
  const STATUS_IERR: byte := 8
  const STATUS_UNSUPPORTED: byte := 16
  const STATUS_ACCESSDENIED: byte := 32
  const STATUS_MISSING: byte := 64
  const STATUS_MISUSED: byte := 128

  function Ascii(s: string): (t: Text)
    ensures |t| == |s|
  {
    seq(|s|, k requires 0 <= k < |s| => if 0 < s[k] as int < 256 then s[k] as int else 63)
  }

  function DefaultMessage(code: byte): (msg: string)
    ensures msg != ""
  {
    if code == STATUS_OK then "Request executed successfully and without incident."
    else if code == STATUS_FAILED then "Generic failure executing request."
    else if code == STATUS_IERR then "Internal error in node core executing request."
    else RefusalMessage(code)
  }

  function RefusalMessage(code: byte): (msg: string)
    ensures msg != ""
  {
    if code == STATUS_UNSUPPORTED then
      "Operation needed for request execution not supported on platform or is unimplemented."
    else if code == STATUS_MISUSED then "Request is malformed and/or requests a nonsensical or impossible operation."
    else AbsenceMessage(code)
  }

  function AbsenceMessage(code: byte): (msg: string)
    ensures msg != ""
  {
    if code == STATUS_MISSING then "File or other resource needed for request execution is missing."
    else if code == STATUS_ACCESSDENIED then "Request produced access denied error of unspecified origin."
    else "Unmapped request status, this is likely a serious error."
  }

  datatype CmdStatus = CmdStatus(worked: bool, code: byte, msg: Text)

  predicate WorkedCode(code: byte) { code == STATUS_OK || code == STATUS_WARN }

  /** The NetCmdStatus constructor: a zero code and an empty message are replaced. */
  function MakeStatus(worked: bool, details: byte, msg: Text): CmdStatus {
    var code := if details != STATUS_INVALID then details else if worked then STATUS_OK else STATUS_FAILED;
    CmdStatus(worked, code, if msg != [] then msg else Ascii(DefaultMessage(code)))
  }

  /** What is sent of a status. */
  function StatusArg(s: CmdStatus): Arg { NetCmdStatus(s.code, s.msg) }

  /** What Pop_NetCmdStatus makes of the argument: whether it worked is worked out from the code. */
  function PopStatus(a: Arg): CmdStatus
    requires a.NetCmdStatus?
  {
    CmdStatus(WorkedCode(a.code), a.code, a.msg)
  }

  /** A status survives the trip exactly when its flag agrees with its code. */
  lemma StatusRoundTrip(s: CmdStatus)
    ensures PopStatus(StatusArg(s)) == s <==> (s.worked <==> s.code == STATUS_OK || s.code == STATUS_WARN)
  {
  }

  /** A status made without a code of its own is given one that agrees with its flag, and a message if it has none. */
  lemma DefaultStatusTravels(worked: bool, msg: Text)
    ensures var s := MakeStatus(worked, STATUS_INVALID, msg);
            && PopStatus(StatusArg(s)) == s && s.worked == worked && s.code != STATUS_INVALID
            && s.msg != [] && (msg != [] ==> s.msg == msg)
  {
  }

  /** One made with a code keeps it. */
  lemma GivenStatusKept(worked: bool, code: byte, msg: Text)
    requires code != STATUS_INVALID
    ensures var s := MakeStatus(worked, code, msg);
            s.worked == worked && s.code == code && s.msg != [] && (msg != [] ==> s.msg == msg)
  {
  }

  /** What PushArgument pushes for an argument that was popped: statuses go through their constructor again. */
  function Repushed(a: Arg): Arg {
    match a
    case NetCmdStatus(code, msg) => StatusArg(MakeStatus(WorkedCode(code), code, msg))
    case _ => a
  }

  predicate StatusNormal(a: Arg) {
    a.NetCmdStatus? ==> a.code != STATUS_INVALID && a.msg != []
  }

  function RepushedAll(args: seq<Arg>): (r: seq<Arg>)
    ensures |r| == |args|
    ensures forall k :: 0 <= k < |args| ==> r[k] == Repushed(args[k])
  {
    seq(|args|, k requires 0 <= k < |args| => Repushed(args[k]))
  }

  /** Re-pushing popped arguments writes the same octets exactly when every status has a code and a message. */
  lemma RepushIdentical(args: seq<Arg>)
    requires Fits(args) && Fits(RepushedAll(args))
    ensures Joined(RawAll(RepushedAll(args))) == Joined(RawAll(args)) <==>
            forall k :: 0 <= k < |args| ==> StatusNormal(args[k])
  {
    if forall k :: 0 <= k < |args| ==> StatusNormal(args[k]) {
      assert RepushedAll(args) == args;
    }
    if Joined(RawAll(RepushedAll(args))) == Joined(RawAll(args)) {
      EncodingInjective(RepushedAll(args), args);
      forall k | 0 <= k < |args| ensures StatusNormal(args[k]) {
        assert Repushed(args[k]) == args[k];
      }
    }
  }
}
