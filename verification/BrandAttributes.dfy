/** The attributes a node binary is branded with, over the tables of their delimiters and capacities. */
module BrandAttributes {
  import opened Bytes
  import opened Arguments
  import opened Brander

  datatype Attribute = IDENTITY | SERVERADDR | REVISION | PLATFORMSTRING | COMPILETIME | AUTHTOKEN | CERT | STARTUPSCRIPT

  /** The order in which a map of attributes is gone through. */
  const ATTRIBUTES: seq<Attribute> :=
    [IDENTITY, SERVERADDR, REVISION, PLATFORMSTRING, COMPILETIME, AUTHTOKEN, CERT, STARTUPSCRIPT]

  /** What the delimiter and capacity tables say of each attribute. */
  type Tables = Attribute -> Spec

  /** The tables tell attributes apart, keep delimiters longer than a number, and have only the compile time a number. */
  ghost predicate Proper(t: Tables) {
    && (forall a: Attribute :: 8 <= |t(a).delim| && (t(a).text <==> a != COMPILETIME))
    && (forall a: Attribute, b: Attribute :: a != b ==> t(a) != t(b))
  }

  function Specs(t: Tables): (ds: seq<Spec>)
    ensures Proper(t) ==> forall d :: d in ds ==> 8 <= |d.delim|
  {
    [t(IDENTITY), t(SERVERADDR), t(REVISION), t(PLATFORMSTRING), t(COMPILETIME), t(AUTHTOKEN), t(CERT), t(STARTUPSCRIPT)]
  }

  lemma SpecIn(t: Tables, a: Attribute)
    ensures t(a) in Specs(t)
  {
    assert Specs(t)[PlaceOf(a)] == t(a);
  }

  function PlaceOf(a: Attribute): (j: nat)
    ensures j < 8 && ATTRIBUTES[j] == a
  {
    match a
    case IDENTITY => 0
    case SERVERADDR => 1
    case REVISION => 2
    case PLATFORMSTRING => 3
    case COMPILETIME => 4
    case AUTHTOKEN => 5
    case CERT => 6
    case STARTUPSCRIPT => 7
  }

  /** The values given, in the order of the map. */
  function JobFrom(t: Tables, values: map<Attribute, AttrValue>, k: nat): Job
    requires k <= 8
    decreases 8 - k
  {
    if k == 8 then []
    else if ATTRIBUTES[k] in values then [(t(ATTRIBUTES[k]), values[ATTRIBUTES[k]])] + JobFrom(t, values, k + 1)
    else JobFrom(t, values, k + 1)
  }

  lemma JobStep(t: Tables, values: map<Attribute, AttrValue>, k: nat)
    requires k < 8
    ensures ATTRIBUTES[k] !in values ==> JobFrom(t, values, k) == JobFrom(t, values, k + 1)
    ensures ATTRIBUTES[k] in values ==>
              JobFrom(t, values, k) != [] && JobFrom(t, values, k)[0] == (t(ATTRIBUTES[k]), values[ATTRIBUTES[k]])
              && JobFrom(t, values, k)[1..] == JobFrom(t, values, k + 1)
  {
  }

  /** Writes value after value, and gives up at the first whose delimiter is missing or whose type is wrong. */
  method BrandBinaryViaBuffer(t: Tables, buf: array<byte>, values: map<Attribute, AttrValue>) returns (ok: bool)
    requires Inside(buf[..], JobFrom(t, values, 0))
    modifies buf
    ensures (ok, buf[..]) == Branded(old(buf[..]), JobFrom(t, values, 0))
  {
    ok := true;
    for k := 0 to 8
      invariant Inside(buf[..], JobFrom(t, values, k))
      invariant Branded(buf[..], JobFrom(t, values, k)) == Branded(old(buf[..]), JobFrom(t, values, 0))
    {
      JobStep(t, values, k);
      var a := ATTRIBUTES[k];
      if a in values {
        StepInside(buf[..], JobFrom(t, values, k));
        ok := BrandOne(buf, t(a), values[a]);
        if !ok {
          return;
        }
      }
    }
    ok := true;
  }

  /** strlen: steps to the terminator. */
  method TextAt(buf: array<byte>, at: nat) returns (t: Text)
    requires at <= buf.Length && 0 in buf[at..]
    ensures t == CString(buf[at..])
  {
    ghost var tail := buf[at..];
    var n := at;
    t := [];
    while n < buf.Length && buf[n] != 0
      invariant at <= n <= buf.Length && t == buf[at..n]
      invariant forall k :: at <= k < n ==> buf[k] != 0
    {
      t := t + [buf[n]];
      n := n + 1;
    }
    assert n < buf.Length by {
      var k :| 0 <= k < |tail| && tail[k] == 0;
      assert buf[at + k] == 0;
    }
    assert tail[..|t|] == t && tail[|t|] == 0;
    TerminatedReads(tail, t);
  }

  /** Finds an attribute's place and reads what is there. */
  method ReadBrandedBinaryViaBuffer(t: Tables, buf: array<byte>, a: Attribute) returns (value: Option<AttrValue>)
    requires Proper(t) && (Start(buf[..], t(a)).Some? ==> InSlot(buf[..], t(a)))
    ensures value == Read(buf[..], t(a))
  {
    var d := t(a);
    var search := ScanForDelim(buf, Pattern(d));
    if search == None {
      return None;
    }
    if a == COMPILETIME {
      var octets := buf[search.value..search.value + 8];
      assert octets == buf[..][search.value..search.value + 8];
      FromBigEndianBound(octets);
      PowConstants();
      return Some(Number(FromWord64(FromBigEndian(octets))));
    }
    SlotTail(buf[..], search.value, Width(d));
    assert buf[search.value..] == buf[..][search.value..];
    var text := TextAt(buf, search.value);
    value := Some(Str(text));
  }

  lemma SlotTail(s: seq<byte>, at: nat, w: nat)
    requires at + w <= |s| && 0 in s[at..at + w]
    ensures 0 in s[at..]
  {
    var k :| 0 <= k < w && s[at..at + w][k] == 0;
    assert s[at..][k] == 0;
  }

  predicate IsItem(t: Tables, values: map<Attribute, AttrValue>, j: nat, item: (Spec, AttrValue)) {
    j < 8 && ATTRIBUTES[j] in values && item == (t(ATTRIBUTES[j]), values[ATTRIBUTES[j]])
  }

  ghost predicate Comes(t: Tables, values: map<Attribute, AttrValue>, k: nat, item: (Spec, AttrValue)) {
    exists j :: k <= j && IsItem(t, values, j, item)
  }

  lemma ComesSplit(t: Tables, values: map<Attribute, AttrValue>, k: nat, item: (Spec, AttrValue))
    ensures Comes(t, values, k, item) <==> IsItem(t, values, k, item) || Comes(t, values, k + 1, item)
  {
    if Comes(t, values, k, item) {
      var j :| k <= j && IsItem(t, values, j, item);
      assert j == k || Comes(t, values, k + 1, item);
    }
  }

  /** A map of values as a job: exactly its values. */
  lemma {:induction false} JobItems(t: Tables, values: map<Attribute, AttrValue>, k: nat, item: (Spec, AttrValue))
    requires k <= 8
    ensures item in JobFrom(t, values, k) <==> Comes(t, values, k, item)
    decreases 8 - k
  {
    if k >= 8 {
    } else {
      JobItems(t, values, k + 1, item);
      ComesSplit(t, values, k, item);
      JobStep(t, values, k);
      if ATTRIBUTES[k] in values {
        var job, rest := JobFrom(t, values, k), JobFrom(t, values, k + 1);
        assert job == [job[0]] + rest;
      }
    }
  }

  /** Each attribute once. */
  lemma {:induction false} JobDistinct(t: Tables, values: map<Attribute, AttrValue>, k: nat)
    requires k <= 8 && Proper(t)
    ensures Distinct(JobFrom(t, values, k))
    decreases 8 - k
  {
    if k >= 8 {
    } else {
      JobDistinct(t, values, k + 1);
      JobStep(t, values, k);
      if ATTRIBUTES[k] in values {
        var job, rest := JobFrom(t, values, k), JobFrom(t, values, k + 1);
        assert job == [job[0]] + rest;
        forall i | 0 <= i < |rest| ensures rest[i].0 != job[0].0 {
          JobItems(t, values, k + 1, rest[i]);
          LaterDiffers(t, values, k, rest[i]);
        }
      }
    }
  }

  lemma LaterDiffers(t: Tables, values: map<Attribute, AttrValue>, k: nat, item: (Spec, AttrValue))
    requires k < 8 && Comes(t, values, k + 1, item) && Proper(t)
    ensures item.0 != t(ATTRIBUTES[k])
  {
    var j :| k + 1 <= j && IsItem(t, values, j, item);
    OrderDistinct(k, j);
  }

  lemma OrderDistinct(k: nat, j: nat)
    requires k < j < 8
    ensures ATTRIBUTES[k] != ATTRIBUTES[j]
  {
  }

  /** Every value given has a place in the buffer, the right type, and tame octets. */
  ghost predicate Brandable(t: Tables, s: seq<byte>, values: map<Attribute, AttrValue>)
    requires Proper(t)
  {
    forall a :: a in values ==>
      Start(s, t(a)).Some? && TypeFits(t(a), values[a]) && Tame(Specs(t), t(a), values[a])
  }

  lemma BrandableJob(t: Tables, s: seq<byte>, values: map<Attribute, AttrValue>)
    requires Proper(t) && Laid(s, Specs(t)) && Brandable(t, s, values)
    ensures var job := JobFrom(t, values, 0); Distinct(job) && Doable(s, Specs(t), job) && AllHarmless(s, Specs(t), job)
  {
    var job := JobFrom(t, values, 0);
    JobDistinct(t, values, 0);
    forall i | 0 <= i < |job|
      ensures job[i].0 in Specs(t) && Start(s, job[i].0).Some? && TypeFits(job[i].0, job[i].1)
      ensures Tame(Specs(t), job[i].0, job[i].1)
    {
      JobItems(t, values, 0, job[i]);
      var j :| 0 <= j && IsItem(t, values, j, job[i]);
      assert ATTRIBUTES[j] in values;
      SpecIn(t, ATTRIBUTES[j]);
    }
    TameJobHarmless(s, Specs(t), job);
  }

  /** What the job has for an attribute has been given. */
  lemma OnlyGiven(t: Tables, values: map<Attribute, AttrValue>, item: (Spec, AttrValue), a: Attribute)
    requires Proper(t) && item in JobFrom(t, values, 0) && item.0 == t(a)
    ensures a in values
  {
    JobItems(t, values, 0, item);
    var j :| 0 <= j && IsItem(t, values, j, item);
    assert ATTRIBUTES[j] == a;
  }

  /** What is asked of an attribute is in the job, and nothing else of that attribute is. */
  lemma AskedItem(t: Tables, values: map<Attribute, AttrValue>, a: Attribute)
    requires Proper(t)
    ensures a in values ==> (t(a), values[a]) in JobFrom(t, values, 0)
    ensures Asked(JobFrom(t, values, 0), t(a)) ==> a in values
  {
    if a in values {
      JobItems(t, values, 0, (t(a), values[a]));
      assert IsItem(t, values, PlaceOf(a), (t(a), values[a]));
    }
    if Asked(JobFrom(t, values, 0), t(a)) {
      var i :| 0 <= i < |JobFrom(t, values, 0)| && JobFrom(t, values, 0)[i].0 == t(a);
      OnlyGiven(t, values, JobFrom(t, values, 0)[i], a);
    }
  }

  /** A brandable map of values is branded to the end, and faithfully. */
  lemma BrandedFaithfully(t: Tables, s: seq<byte>, values: map<Attribute, AttrValue>)
    requires Proper(t) && Laid(s, Specs(t)) && Brandable(t, s, values)
    ensures var job := JobFrom(t, values, 0);
            && Doable(s, Specs(t), job) && Inside(s, job) && Branded(s, job).0
            && Faithful(s, Specs(t), job, Branded(s, job).1)
  {
    BrandableJob(t, s, values);
    BrandingIsFaithful(s, Specs(t), JobFrom(t, values, 0));
  }

  /** What was given for an attribute. */
  function GivenFor(values: map<Attribute, AttrValue>, a: Attribute): Option<AttrValue> {
    if a in values then Some(values[a]) else None
  }

  /** What an attribute reads as in a faithfully branded buffer. */
  lemma BrandedReads(t: Tables, s: seq<byte>, values: map<Attribute, AttrValue>, a: Attribute, r: seq<byte>)
    requires Proper(t) && Doable(s, Specs(t), JobFrom(t, values, 0)) && Faithful(s, Specs(t), JobFrom(t, values, 0), r)
    ensures ReadsFaithfully(s, t(a), GivenFor(values, a), r)
  {
    AskedItem(t, values, a);
    SpecIn(t, a);
    FaithfulReads(s, Specs(t), JobFrom(t, values, 0), r, t(a), GivenFor(values, a));
  }

  /**
   * Branding a well laid out binary with tame values: every attribute given reads back as what it keeps of its value,
   * every other reads as before, no first match moves, and no octet outside the written ones changes.
   */
  method BrandThenRead(t: Tables, buf: array<byte>, values: map<Attribute, AttrValue>, a: Attribute)
    returns (ok: bool, value: Option<AttrValue>)
    requires Proper(t) && Laid(buf[..], Specs(t)) && Brandable(t, buf[..], values)
    modifies buf
    ensures ok && StartsKept(old(buf[..]), Specs(t), buf[..]) && Untouched(old(buf[..]), JobFrom(t, values, 0), buf[..])
    ensures ReadsFaithfully(old(buf[..]), t(a), GivenFor(values, a), buf[..]) && value == Read(buf[..], t(a))
  {
    BrandedFaithfully(t, buf[..], values);
    BrandedReads(t, buf[..], values, a, Branded(buf[..], JobFrom(t, values, 0)).1);
    ok := BrandBinaryViaBuffer(t, buf, values);
    value := ReadBrandedBinaryViaBuffer(t, buf, a);
  }

  // ------------------------------------------------------ the source's tables

  function DelimStart(a: Attribute): (d: string)
    ensures |d| == if a == COMPILETIME then 19 else 20
  {
    match a
    case IDENTITY => "TBXI://{{SMVLID_BI::"
    case SERVERADDR => "SFRR://{{SMVLSA_NN::"
    case REVISION => "SGMA://{{SMVLRV_FR::"
    case PLATFORMSTRING => "UTLL://{{SMVLPS_SF::"
    case COMPILETIME => "SISF:\\{{SMVLCT_TT::"
    case AUTHTOKEN => "ESAT://{{SMSCAT_FA::"
    case CERT => "SSCX://{{SSLCBF_NO::"
    case STARTUPSCRIPT => "SLSC://{{LNIIBS_XE::"
  }

  function Capacity(a: Attribute): nat {
    match a
    case IDENTITY => 128
    case SERVERADDR => 128
    case REVISION => 64
    case PLATFORMSTRING => 128
    case COMPILETIME => 19 + 8 + 1
    case AUTHTOKEN => 512
    case CERT => 8192
    case STARTUPSCRIPT => 1024 * 128
  }

  function SourceTable(a: Attribute): (d: Spec)
    ensures |d.delim| >= 19 && (d.text <==> a != COMPILETIME)
  {
    RawSpec(Ascii(DelimStart(a)), Capacity(a), a != COMPILETIME)
  }

  /** The first two letters tell the delimiters apart. */
  function Head(a: Attribute): (h: (char, char)) {
    match a
    case IDENTITY => ('T', 'B')
    case SERVERADDR => ('S', 'F')
    case REVISION => ('S', 'G')
    case PLATFORMSTRING => ('U', 'T')
    case COMPILETIME => ('S', 'I')
    case AUTHTOKEN => ('E', 'S')
    case CERT => ('S', 'S')
    case STARTUPSCRIPT => ('S', 'L')
  }

  lemma HeadOfDelim(a: Attribute)
    ensures DelimStart(a)[0] == Head(a).0 && DelimStart(a)[1] == Head(a).1
  {
    match a
    case IDENTITY =>
    case SERVERADDR =>
    case REVISION =>
    case PLATFORMSTRING =>
    case COMPILETIME =>
    case AUTHTOKEN =>
    case CERT =>
    case STARTUPSCRIPT =>
  }

  lemma AsciiTellsApart(s: string, t: string, k: nat)
    requires k < |s| && k < |t| && 0 < s[k] as int < 256 && 0 < t[k] as int < 256 && s[k] != t[k]
    ensures Ascii(s) != Ascii(t)
  {
    assert Ascii(s)[k] == s[k] as int && Ascii(t)[k] == t[k] as int;
  }

  lemma SpecsDiffer(a: Attribute, b: Attribute)
    requires a != b
    ensures SourceTable(a) != SourceTable(b)
  {
    HeadOfDelim(a);
    HeadOfDelim(b);
    AsciiTellsApart(DelimStart(a), DelimStart(b), if Head(a).0 != Head(b).0 then 0 else 1);
  }

  /** The tables of the source are such tables. */
  lemma SourceIsProper()
    ensures Proper(SourceTable)
  {
    forall a: Attribute, b: Attribute | a != b ensures SourceTable(a) != SourceTable(b) {
      SpecsDiffer(a, b);
    }
  }
}
