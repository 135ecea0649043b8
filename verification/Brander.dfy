/** Branding: attributes written in place behind delimiters that are found by scanning a binary. */
module Brander {
  import opened Bytes
  import opened Arguments

  datatype AttrValue = Number(number: int64) | Str(text: Text)

  /** What is known of an attribute: its delimiter, its capacity, and whether it holds a text or a number. */
  datatype RawSpec = RawSpec(delim: Text, capacity: nat, text: bool)

  type Spec = d: RawSpec | d.delim != [] && (d.text ==> d.capacity > |d.delim| + 3) witness RawSpec([1], 5, true)

  /** The longest text an attribute can hold: its delimiter and three octets are taken off its capacity. */
  function MaxText(d: Spec): (n: nat)
    requires d.text
    ensures n > 0
  {
    d.capacity - |d.delim| - 3
  }

  /** How many octets branding writes behind the delimiter and its terminator. */
  function Width(d: Spec): (w: nat)
    ensures w > 0
  {
    if d.text then MaxText(d) + 1 else 8
  }

  // ------------------------------------------------------------- scanning

  /** The delimiter with its terminator. */
  function Pattern(d: Spec): (p: seq<byte>)
    ensures |p| == |d.delim| + 1 && p[|p| - 1] == 0
    ensures forall k :: 0 <= k < |p| - 1 ==> p[k] != 0
  {
    assert forall k :: 0 <= k < |d.delim| ==> d.delim[k] in d.delim;
    d.delim + [0]
  }

  predicate Occurs(s: seq<byte>, p: seq<byte>, at: nat) {
    at + |p| <= |s| && s[at..at + |p|] == p
  }

  /** Where a pattern first occurs at or behind some place. */
  function ScanFrom(s: seq<byte>, p: seq<byte>, from: nat): (at: Option<nat>)
    requires from <= |s| && p != []
    ensures at.Some? ==> from <= at.value && Occurs(s, p, at.value)
    ensures at.Some? ==> forall k :: from <= k < at.value ==> !Occurs(s, p, k)
    ensures at == None ==> forall k :: from <= k ==> !Occurs(s, p, k)
    decreases |s| - from
  {
    if from == |s| then None
    else if Occurs(s, p, from) then Some(from)
    else ScanFrom(s, p, from + 1)
  }

  /** The place behind the first occurrence of a pattern. */
  function BehindFirst(s: seq<byte>, p: seq<byte>): (st: Option<nat>)
    requires p != []
    ensures st.Some? ==> |p| <= st.value <= |s|
  {
    var at := ScanFrom(s, p, 0);
    if at == None then None else Some(at.value + |p|)
  }

  lemma FirstMeans(s: seq<byte>, p: seq<byte>, st: Option<nat>)
    requires p != [] && (st.Some? ==> |p| <= st.value)
    ensures BehindFirst(s, p) == st <==>
            if st.Some? then Occurs(s, p, st.value - |p|) && forall k :: 0 <= k < st.value - |p| ==> !Occurs(s, p, k)
            else forall k :: 0 <= k ==> !Occurs(s, p, k)
    ensures st.Some? && Occurs(s, p, st.value - |p|) ==> s[st.value - 1] == p[|p| - 1]
  {
    if st.Some? && Occurs(s, p, st.value - |p|) {
      assert s[st.value - |p|..st.value][|p| - 1] == s[st.value - 1];
    }
    var at := ScanFrom(s, p, 0);
    if st.Some? && at.Some? && Occurs(s, p, st.value - |p|) && st.value - |p| < at.value {
      assert false;
    }
  }

  /** Where an attribute's octets begin. */
  function Start(s: seq<byte>, d: Spec): (st: Option<nat>)
    ensures st.Some? ==> |Pattern(d)| <= st.value <= |s|
  {
    BehindFirst(s, Pattern(d))
  }

  /** memcmp at one place of the buffer; what lies beyond its end never matches. */
  method Matches(buf: array<byte>, worker: nat, pattern: seq<byte>) returns (same: bool)
    ensures same <==> Occurs(buf[..], pattern, worker)
  {
    if worker + |pattern| > buf.Length {
      return false;
    }
    for k := 0 to |pattern|
      invariant forall i :: 0 <= i < k ==> buf[worker + i] == pattern[i]
    {
      if buf[worker + k] != pattern[k] {
        assert buf[..][worker..worker + |pattern|][k] != pattern[k];
        return false;
      }
    }
    assert buf[..][worker..worker + |pattern|] == pattern;
    same := true;
  }

  /** Moves a pointer along the buffer until delimiter and terminator lie under it, and a little beyond. */
  method ScanForDelim(buf: array<byte>, pattern: seq<byte>) returns (search: Option<nat>)
    requires pattern != []
    ensures search == BehindFirst(buf[..], pattern)
  {
    var worker := 0;
    while worker != buf.Length
      invariant worker <= buf.Length && ScanFrom(buf[..], pattern, 0) == ScanFrom(buf[..], pattern, worker)
      decreases buf.Length - worker
    {
      var same := Matches(buf, worker, pattern);
      if same {
        return Some(worker + |pattern|);
      }
      worker := worker + 1;
    }
    search := None;
  }

  // ------------------------------------------------------------- branding

  predicate TypeFits(d: Spec, v: AttrValue) { if d.text then v.Str? else v.Number? }

  /** As much of a text as fits. */
  function Kept(t: Text, n: nat): (k: Text)
    ensures |k| <= n && |k| <= |t| && k == t[..|k|] && (|t| <= n ==> k == t) && (|t| > n ==> |k| == n)
  {
    if |t| <= n then t else t[..n]
  }

  function Zeros(n: nat): (s: seq<byte>)
    ensures |s| == n && forall k :: 0 <= k < n ==> s[k] == 0
  {
    seq(n, k => 0)
  }

  /** What strncpy and the terminator behind it leave. */
  function Padded(t: Text, n: nat): (f: seq<byte>)
    ensures |f| == n + 1
  {
    Kept(t, n) + Zeros(n + 1 - |Kept(t, n)|)
  }

  /** The octets written for a value: a number in network order, or a padded text. */
  function Field(d: Spec, v: AttrValue): (f: seq<byte>)
    requires TypeFits(d, v)
    ensures |f| == Width(d)
  {
    if !d.text then BigEndian(ToWord64(v.number), 8) else Padded(v.text, MaxText(d))
  }

  function Overwritten(s: seq<byte>, at: nat, f: seq<byte>): (r: seq<byte>)
    requires at + |f| <= |s|
    ensures |r| == |s|
  {
    s[..at] + f + s[at + |f|..]
  }

  /** Everything branding is asked to write, in order. */
  type Job = seq<(Spec, AttrValue)>

  /** The writes stay inside the buffer; the source leaves this to its callers. */
  predicate Inside(s: seq<byte>, job: Job)
    decreases |job|
  {
    if job == [] then true
    else
      var (d, v) := job[0];
      var st := Start(s, d);
      st.Some? && TypeFits(d, v) ==>
        st.value + Width(d) <= |s| && Inside(Overwritten(s, st.value, Field(d, v)), job[1..])
  }

  /** The buffer behind the whole job, and whether it was done to the end. */
  function Branded(s: seq<byte>, job: Job): (bool, seq<byte>)
    requires Inside(s, job)
    decreases |job|
  {
    if job == [] then (true, s)
    else
      var (d, v) := job[0];
      var st := Start(s, d);
      if st == None || !TypeFits(d, v) then (false, s)
      else Branded(Overwritten(s, st.value, Field(d, v)), job[1..])
  }

  /** strncpy: the text, then terminators up to the count, and one behind. */
  method WriteText(buf: array<byte>, at: nat, t: Text, n: nat)
    requires at + n + 1 <= buf.Length
    modifies buf
    ensures buf[..] == Overwritten(old(buf[..]), at, Padded(t, n))
  {
    ghost var f := Padded(t, n);
    for k := 0 to n
      invariant forall i :: 0 <= i < k ==> buf[at + i] == f[i]
      invariant forall i :: 0 <= i < buf.Length && !(at <= i < at + k) ==> buf[i] == old(buf[i])
    {
      buf[at + k] := if k < |t| then t[k] else 0;
    }
    buf[at + n] := 0;
    assert forall i :: at <= i < at + n + 1 ==> buf[i] == f[i - at];
    assert buf[..] == Overwritten(old(buf[..]), at, f);
  }

  method WriteNumber(buf: array<byte>, at: nat, number: int64)
    requires at + 8 <= buf.Length
    modifies buf
    ensures buf[..] == Overwritten(old(buf[..]), at, BigEndian(ToWord64(number), 8))
  {
    var net := BigEndian(ToWord64(number), 8);
    for k := 0 to 8
      invariant forall i :: 0 <= i < k ==> buf[at + i] == net[i]
      invariant forall i :: 0 <= i < buf.Length && !(at <= i < at + k) ==> buf[i] == old(buf[i])
    {
      buf[at + k] := net[k];
    }
    assert forall i :: at <= i < at + 8 ==> buf[i] == net[i - at];
    assert buf[..] == Overwritten(old(buf[..]), at, net);
  }

  /** Finds an attribute's place and overwrites it, unless there is none or the value is of the wrong type. */
  method BrandOne(buf: array<byte>, d: Spec, v: AttrValue) returns (ok: bool)
    requires Start(buf[..], d).Some? && TypeFits(d, v) ==> Start(buf[..], d).value + Width(d) <= buf.Length
    modifies buf
    ensures ok == (Start(old(buf[..]), d).Some? && TypeFits(d, v))
    ensures buf[..] == if ok then Overwritten(old(buf[..]), Start(old(buf[..]), d).value, Field(d, v)) else old(buf[..])
  {
    var search := ScanForDelim(buf, Pattern(d));
    if search == None {
      return false;
    }
    if !TypeFits(d, v) {
      return false;
    }
    if !d.text {
      WriteNumber(buf, search.value, v.number);
    } else {
      WriteText(buf, search.value, v.text, MaxText(d));
    }
    ok := true;
  }

  /** What is read at a place: eight octets in network order, or the text up to its terminator. */
  function ReadAt(s: seq<byte>, at: nat, text: bool): AttrValue
    requires at <= |s| && (!text ==> at + 8 <= |s|)
  {
    if text then Str(CString(s[at..]))
    else
      var octets := s[at..at + 8];
      FromBigEndianBound(octets);
      PowConstants();
      Number(FromWord64(FromBigEndian(octets)))
  }

  /** What an attribute reads as. */
  function Read(s: seq<byte>, d: Spec): Option<AttrValue>
    requires Start(s, d).Some? && !d.text ==> Start(s, d).value + 8 <= |s|
  {
    var st := Start(s, d);
    if st == None then None else Some(ReadAt(s, st.value, d.text))
  }

  // ------------------------------------------------------ what branding keeps

  /** A write beginning behind a terminator leaves every occurrence before and behind it alone. */
  lemma OccursElsewhere(s: seq<byte>, p: seq<byte>, at: nat, f: seq<byte>, k: nat)
    requires at + |f| <= |s| && 0 < at && s[at - 1] == 0
    requires p != [] && forall i :: 0 <= i < |p| - 1 ==> p[i] != 0
    requires k < at || at + |f| <= k
    ensures Occurs(Overwritten(s, at, f), p, k) <==> Occurs(s, p, k)
  {
    var r := Overwritten(s, at, f);
    if k + |p| <= |s| {
      var x, y := s[k..k + |p|], r[k..k + |p|];
      if k + |p| <= at || at + |f| <= k {
        assert x == y;
      } else {
        var i := at - 1 - k;
        assert x[i] == s[at - 1] == 0 && y[i] == r[at - 1] == 0 && p[i] != 0;
      }
    }
  }

  /** Nowhere in the written octets does a pattern begin. */
  ghost predicate Harmless(r: seq<byte>, ds: seq<Spec>, at: nat, width: nat) {
    forall d, k :: d in ds && at <= k < at + width ==> !Occurs(r, Pattern(d), k)
  }

  predicate EndsWith(t: seq<byte>, d: seq<byte>) { |d| <= |t| && t[|t| - |d|..] == d }

  /** A text that ends in no delimiter makes no pattern begin where it is written. */
  lemma TextHarmless(s: seq<byte>, ds: seq<Spec>, at: nat, t: Text, n: nat)
    requires at + n + 1 <= |s| && forall d :: d in ds ==> !EndsWith(Kept(t, n), d.delim)
    ensures Harmless(Overwritten(s, at, Padded(t, n)), ds, at, n + 1)
  {
    var r, kept := Overwritten(s, at, Padded(t, n)), Kept(t, n);
    forall d, k | d in ds && at <= k < at + n + 1 ensures !Occurs(r, Pattern(d), k) {
      assert !EndsWith(kept, d.delim);
      WrittenText(s, at, t, n);
      TextOccurs(r, at, kept, Pattern(d), d.delim, k - at);
    }
  }

  lemma WrittenText(s: seq<byte>, at: nat, t: Text, n: nat)
    requires at + n + 1 <= |s|
    ensures var r, kept := Overwritten(s, at, Padded(t, n)), Kept(t, n);
            && r[at..at + |kept|] == kept && at + |kept| < |r|
            && forall k :: at + |kept| <= k < at + n + 1 ==> r[k] == 0
  {
  }

  /** The octets from the k-th on are how a delimiter begins. */
  predicate Begins(octets: seq<byte>, k: nat, delim: seq<byte>)
    requires k <= |octets| <= |delim|
  {
    octets[k..] == delim[..|octets| - k]
  }

  lemma NumberOccurs(r: seq<byte>, at: nat, octets: seq<byte>, d: Spec, i: nat)
    requires i < |octets| <= |d.delim| && at + |octets| <= |r| && r[at..at + |octets|] == octets
    requires Occurs(r, Pattern(d), at + i)
    ensures Begins(octets, i, d.delim)
  {
    var x, n := r[at + i..at + i + |Pattern(d)|], |octets| - i;
    assert x[..n] == r[at + i..at + |octets|] == octets[i..];
    assert Pattern(d)[..n] == d.delim[..n];
  }

  /** A number none of whose last octets are how a delimiter begins is harmless wherever it is written. */
  lemma NumberHarmless(s: seq<byte>, ds: seq<Spec>, at: nat, octets: seq<byte>)
    requires at + |octets| <= |s| && forall d :: d in ds ==> |octets| <= |d.delim|
    requires forall d, k :: d in ds && 0 <= k < |octets| ==> !Begins(octets, k, d.delim)
    ensures Harmless(Overwritten(s, at, octets), ds, at, |octets|)
  {
    var r := Overwritten(s, at, octets);
    assert r[at..at + |octets|] == octets;
    forall d, k | d in ds && at <= k < at + |octets| ensures !Occurs(r, Pattern(d), k) {
      if Occurs(r, Pattern(d), k) {
        NumberOccurs(r, at, octets, d, k - at);
      }
    }
  }

  /** A pattern that begins in a text, or in the terminators behind it, ends with the text. */
  lemma TextOccurs(r: seq<byte>, at: nat, kept: Text, p: seq<byte>, d: Text, k: nat)
    requires at + |kept| < |r| && r[at..at + |kept|] == kept && r[at + |kept|] == 0
    requires d != [] && p == d + [0]
    requires k > |kept| ==> at + k < |r| ==> r[at + k] == 0
    ensures Occurs(r, p, at + k) ==> |d| <= |kept| && kept[|kept| - |d|..] == d
  {
    if Occurs(r, p, at + k) {
      var x := r[at + k..at + k + |p|];
      assert x == p;
      forall j | at + k <= j < at + k + |d| ensures r[j] != 0 {
        var i := j - at - k;
        assert x[i] == r[j] && p[i] == d[i];
        assert r[j] in d;
      }
      forall j | at <= j < at + |kept| ensures r[j] != 0 {
        assert r[at..at + |kept|][j - at] == r[j] && r[j] in kept;
      }
      assert p[|d|] == 0 && r[at + k + |d|] == x[|d|];
      TextEnds(r, at, |kept|, |d|, k);
      assert kept[k..] == r[at + k..at + |kept|] == x[..|d|] == d;
    }
  }

  lemma TextEnds(r: seq<byte>, at: nat, text: nat, d: nat, k: nat)
    requires at + text < |r| && r[at + text] == 0 && at + k + d < |r| && r[at + k + d] == 0
    requires forall j :: at + k <= j < at + k + d ==> r[j] != 0
    requires forall j :: at <= j < at + text ==> r[j] != 0
    requires d > 0 && (k > text ==> r[at + k] == 0)
    ensures k + d == text
  {
    assert r[at + k] != 0;
  }

  ghost predicate SlotsApart(s: seq<byte>, d: Spec, e: Spec)
    requires Start(s, d).Some? && Start(s, e).Some?
  {
    || Start(s, d).value + Width(d) <= Start(s, e).value - |Pattern(e)|
    || Start(s, e).value + Width(e) <= Start(s, d).value - |Pattern(d)|
  }

  ghost predicate InSlotAt(s: seq<byte>, at: nat, w: nat, text: bool) {
    at + w <= |s| && (text ==> 0 in s[at..at + w])
  }

  ghost predicate InSlot(s: seq<byte>, d: Spec)
    requires Start(s, d).Some?
  {
    InSlotAt(s, Start(s, d).value, Width(d), d.text)
  }

  /** What is found lies inside the buffer, in slots of its own, and texts are terminated inside their slots. */
  ghost predicate Laid(s: seq<byte>, ds: seq<Spec>) {
    && (forall d :: d in ds && Start(s, d).Some? ==> InSlot(s, d))
    && (forall d, e :: d in ds && e in ds && d != e && Start(s, d).Some? && Start(s, e).Some? ==> SlotsApart(s, d, e))
  }

  /** A first match outside the written octets stays where it is, if none begins inside them. */
  lemma FirstKept(s: seq<byte>, p: seq<byte>, at: nat, f: seq<byte>)
    requires at + |f| <= |s| && 0 < at && s[at - 1] == 0
    requires p != [] && forall i :: 0 <= i < |p| - 1 ==> p[i] != 0
    requires forall k :: at <= k < at + |f| ==> !Occurs(Overwritten(s, at, f), p, k)
    requires BehindFirst(s, p).Some? ==>
               BehindFirst(s, p).value - |p| < at || at + |f| <= BehindFirst(s, p).value - |p|
    ensures BehindFirst(Overwritten(s, at, f), p) == BehindFirst(s, p)
  {
    var r := Overwritten(s, at, f);
    FirstMeans(s, p, BehindFirst(s, p));
    FirstMeans(r, p, BehindFirst(s, p));
    forall k | 0 <= k && !Occurs(s, p, k) ensures !Occurs(r, p, k) {
      if k < at || at + |f| <= k {
        OccursElsewhere(s, p, at, f, k);
      }
    }
    if BehindFirst(s, p).Some? {
      OccursElsewhere(s, p, at, f, BehindFirst(s, p).value - |p|);
    }
  }

  /** No first match moves, appears or disappears. */
  lemma StartKept(s: seq<byte>, ds: seq<Spec>, d: Spec, f: seq<byte>, e: Spec)
    requires Laid(s, ds) && d in ds && e in ds && Start(s, d).Some? && |f| == Width(d)
    requires Start(s, d).value + Width(d) <= |s|
    requires Harmless(Overwritten(s, Start(s, d).value, f), ds, Start(s, d).value, |f|)
    ensures Start(Overwritten(s, Start(s, d).value, f), e) == Start(s, e)
  {
    if e != d && Start(s, e).Some? {
      assert SlotsApart(s, d, e);
    }
    FirstMeans(s, Pattern(d), Start(s, d));
    FirstKept(s, Pattern(e), Start(s, d).value, f);
  }

  lemma {:induction false} CStringLocal(x: seq<byte>, y: seq<byte>, w: nat)
    requires w <= |x| && w <= |y| && x[..w] == y[..w] && 0 in x[..w]
    ensures CString(x) == CString(y)
  {
    assert x[0] == x[..w][0] == y[..w][0] == y[0];
    if x[0] == 0 {
    } else {
      assert x[1..][..w - 1] == x[..w][1..] == y[..w][1..] == y[1..][..w - 1];
      assert x[..w] == [x[0]] + x[1..][..w - 1];
      CStringLocal(x[1..], y[1..], w - 1);
    }
  }

  /** Octets apart from the written ones are what they were, and so is a text terminated among them. */
  lemma ApartKept(s: seq<byte>, at: nat, f: seq<byte>, sb: nat, w: nat)
    requires at + |f| <= |s| && sb + w <= |s| && (sb + w <= at || at + |f| <= sb)
    ensures Overwritten(s, at, f)[sb..sb + w] == s[sb..sb + w]
    ensures 0 in s[sb..sb + w] ==>
              0 in Overwritten(s, at, f)[sb..sb + w] && CString(Overwritten(s, at, f)[sb..]) == CString(s[sb..])
  {
    var r := Overwritten(s, at, f);
    assert r[sb..sb + w] == s[sb..sb + w];
    if 0 in s[sb..sb + w] {
      assert r[sb..][..w] == r[sb..sb + w] && s[sb..][..w] == s[sb..sb + w];
      CStringLocal(s[sb..], r[sb..], w);
    }
  }

  lemma ReadAtKept(s: seq<byte>, at: nat, f: seq<byte>, sb: nat, w: nat, text: bool)
    requires at + |f| <= |s| && sb + w <= |s| && (sb + w <= at || at + |f| <= sb)
    requires if text then 0 in s[sb..sb + w] else w == 8
    ensures ReadAt(Overwritten(s, at, f), sb, text) == ReadAt(s, sb, text)
  {
    ApartKept(s, at, f, sb, w);
  }

  lemma SlotAtKept(s: seq<byte>, at: nat, f: seq<byte>, sb: nat, w: nat, text: bool)
    requires at + |f| <= |s| && (sb + w <= at || at + |f| <= sb) && InSlotAt(s, sb, w, text)
    ensures InSlotAt(Overwritten(s, at, f), sb, w, text)
  {
    ApartKept(s, at, f, sb, w);
  }

  /** Every other attribute reads as before. */
  lemma ReadKept(s: seq<byte>, d: Spec, f: seq<byte>, e: Spec)
    requires Start(s, d).Some? && |f| == Width(d) && Start(s, d).value + Width(d) <= |s|
    requires Start(s, e).Some? ==> InSlot(s, e) && SlotsApart(s, d, e)
    requires Start(Overwritten(s, Start(s, d).value, f), e) == Start(s, e)
    ensures Start(s, e).Some? ==> InSlot(Overwritten(s, Start(s, d).value, f), e)
    ensures Read(Overwritten(s, Start(s, d).value, f), e) == Read(s, e)
  {
    if Start(s, e).Some? {
      SlotAtKept(s, Start(s, d).value, f, Start(s, e).value, Width(e), e.text);
      ReadAtKept(s, Start(s, d).value, f, Start(s, e).value, Width(e), e.text);
    }
  }

  /** What an attribute keeps of a value: a number whole, a text as far as it fits. */
  function Remembered(d: Spec, v: AttrValue): AttrValue
    requires TypeFits(d, v)
  {
    if !d.text then v else Str(Kept(v.text, MaxText(d)))
  }

  /** A text is cut to its attribute's capacity less the delimiter and three octets; a number is kept. */
  lemma RememberedExactly(d: Spec, v: AttrValue)
    requires TypeFits(d, v)
    ensures v.Number? ==> Remembered(d, v) == v
    ensures v.Str? ==>
              var most := d.capacity - |d.delim| - 3;
              Remembered(d, v).Str? && Remembered(d, v).text == if |v.text| <= most then v.text else v.text[..most]
  {
  }

  /** What is written: a number's octets, most significant first, or a text and terminators to the end of its place. */
  lemma FieldOctets(d: Spec, v: AttrValue, k: nat)
    requires TypeFits(d, v) && k < Width(d)
    ensures v.Number? ==> Width(d) == 8 && Field(d, v)[k] == v.number % UINT64_LIMIT / Pow256(7 - k) % 256
    ensures v.Str? ==>
              && Width(d) == d.capacity - |d.delim| - 2
              && Field(d, v)[k] == if k < |v.text| && k < Width(d) - 1 then v.text[k] else 0
  {
    if v.Number? {
      BigEndianOctets(ToWord64(v.number), 8, k);
    }
  }

  lemma TerminatedReads(tail: seq<byte>, k: Text)
    requires |k| < |tail| && tail[..|k|] == k && tail[|k|] == 0
    ensures CString(tail) == k
  {
    assert tail == k + [0] + tail[|k| + 1..];
    CStringOfTerminated(k, tail[|k| + 1..]);
  }

  lemma PaddedReads(tail: seq<byte>, t: Text, n: nat)
    requires n < |tail| && tail[..n + 1] == Padded(t, n)
    ensures CString(tail) == Kept(t, n) && 0 in tail[..n + 1]
  {
    var k := Kept(t, n);
    assert tail[|k|] == tail[..n + 1][|k|] == 0;
    assert tail[..|k|] == tail[..n + 1][..|k|] == k;
    TerminatedReads(tail, k);
  }

  /** The attribute written reads back as what it keeps of the value. */
  lemma ReadBack(s: seq<byte>, d: Spec, v: AttrValue)
    requires Start(s, d).Some? && TypeFits(d, v) && Start(s, d).value + Width(d) <= |s|
    requires Start(Overwritten(s, Start(s, d).value, Field(d, v)), d) == Start(s, d)
    ensures InSlot(Overwritten(s, Start(s, d).value, Field(d, v)), d)
    ensures Read(Overwritten(s, Start(s, d).value, Field(d, v)), d) == Some(Remembered(d, v))
  {
    var st, f := Start(s, d).value, Field(d, v);
    var r := Overwritten(s, st, f);
    assert r[st..st + |f|] == f && r[st..][..|f|] == r[st..st + |f|];
    if d.text {
      PaddedReads(r[st..], v.text, MaxText(d));
    } else {
      PowConstants();
      BigEndianRoundTrip(ToWord64(v.number), 8);
    }
  }

  /** One write: matches stay, the layout stays, the attribute reads back, the others read as before. */
  lemma WriteKeeps(s: seq<byte>, ds: seq<Spec>, d: Spec, v: AttrValue) returns (r: seq<byte>)
    requires Laid(s, ds) && d in ds && Start(s, d).Some? && TypeFits(d, v) && Start(s, d).value + Width(d) <= |s|
    requires Harmless(Overwritten(s, Start(s, d).value, Field(d, v)), ds, Start(s, d).value, Width(d))
    ensures r == Overwritten(s, Start(s, d).value, Field(d, v)) && Laid(r, ds)
    ensures StartsKept(s, ds, r)
    ensures Read(r, d) == Some(Remembered(d, v))
    ensures forall e :: e in ds && e != d ==> Read(r, e) == Read(s, e)
  {
    var f := Field(d, v);
    r := Overwritten(s, Start(s, d).value, f);
    forall e | e in ds ensures Start(r, e) == Start(s, e) { StartKept(s, ds, d, f, e); }
    ReadBack(s, d, v);
    forall e | e in ds && e != d
      ensures Start(s, e).Some? ==> InSlot(s, e) && InSlot(r, e)
      ensures Read(r, e) == Read(s, e)
    {
      ReadKept(s, d, f, e);
    }
    forall e, g | e in ds && g in ds && e != g && Start(r, e).Some? && Start(r, g).Some? ensures SlotsApart(r, e, g) {
      assert SlotsApart(s, e, g);
    }
  }

  // ------------------------------------------------------------ whole jobs

  ghost predicate Distinct(job: Job) {
    forall i, j :: 0 <= i < j < |job| ==> job[i].0 != job[j].0
  }

  /** Every delimiter is there and every value has its attribute's type. */
  ghost predicate Doable(s: seq<byte>, ds: seq<Spec>, job: Job) {
    forall i :: 0 <= i < |job| ==> job[i].0 in ds && Start(s, job[i].0).Some? && TypeFits(job[i].0, job[i].1)
  }

  /** At each write in turn, the write stays inside the buffer and no pattern begins in the written octets. */
  ghost predicate AllHarmless(s: seq<byte>, ds: seq<Spec>, job: Job)
    decreases |job|
  {
    if job == [] then true
    else
      var (d, v) := job[0];
      && Start(s, d).Some? && TypeFits(d, v) && Start(s, d).value + Width(d) <= |s|
      && var r := Overwritten(s, Start(s, d).value, Field(d, v));
         Harmless(r, ds, Start(s, d).value, Width(d)) && AllHarmless(r, ds, job[1..])
  }

  ghost predicate Written(s: seq<byte>, job: Job, k: nat) {
    exists i :: 0 <= i < |job| && Start(s, job[i].0).Some?
                && Start(s, job[i].0).value <= k < Start(s, job[i].0).value + Width(job[i].0)
  }

  /** No first match has moved, and everything lies in its slot as before. */
  ghost predicate StartsKept(s: seq<byte>, ds: seq<Spec>, r: seq<byte>) {
    && (forall e :: e in ds ==> Start(r, e) == Start(s, e))
    && (forall e :: e in ds && Start(s, e).Some? ==> InSlot(s, e) && InSlot(r, e))
  }

  ghost predicate Asked(job: Job, e: Spec) { exists i :: 0 <= i < |job| && job[i].0 == e }

  /** Every attribute of the job reads back as what it keeps of its value. */
  ghost predicate ReadsBack(s: seq<byte>, ds: seq<Spec>, job: Job, r: seq<byte>)
    requires Doable(s, ds, job) && StartsKept(s, ds, r)
  {
    forall i :: 0 <= i < |job| ==> Read(r, job[i].0) == Some(Remembered(job[i].0, job[i].1))
  }

  /** Every other attribute reads as before. */
  ghost predicate OthersKept(s: seq<byte>, ds: seq<Spec>, job: Job, r: seq<byte>)
    requires StartsKept(s, ds, r)
  {
    forall e :: e in ds && !Asked(job, e) ==> Read(r, e) == Read(s, e)
  }

  /** No octet outside the written ones has changed. */
  ghost predicate Untouched(s: seq<byte>, job: Job, r: seq<byte>) {
    |r| == |s| && forall k :: 0 <= k < |s| && !Written(s, job, k) ==> r[k] == s[k]
  }

  ghost predicate Faithful(s: seq<byte>, ds: seq<Spec>, job: Job, r: seq<byte>)
    requires Doable(s, ds, job)
  {
    StartsKept(s, ds, r) && ReadsBack(s, ds, job, r) && OthersKept(s, ds, job, r) && Untouched(s, job, r)
  }

  lemma ReadsBackStep(s: seq<byte>, ds: seq<Spec>, job: Job, r1: seq<byte>, r: seq<byte>)
    requires job != [] && Distinct(job) && Doable(s, ds, job) && StartsKept(s, ds, r1) && StartsKept(s, ds, r)
    requires Read(r1, job[0].0) == Some(Remembered(job[0].0, job[0].1))
    requires Doable(r1, ds, job[1..]) && Faithful(r1, ds, job[1..], r)
    ensures ReadsBack(s, ds, job, r)
  {
    forall i | 0 <= i < |job| ensures Read(r, job[i].0) == Some(Remembered(job[i].0, job[i].1)) {
      if i == 0 {
        assert !Asked(job[1..], job[0].0);
      } else {
        assert job[1..][i - 1] == job[i];
      }
    }
  }

  lemma OthersKeptStep(s: seq<byte>, ds: seq<Spec>, job: Job, r1: seq<byte>, r: seq<byte>)
    requires job != [] && StartsKept(s, ds, r1) && StartsKept(s, ds, r) && StartsKept(r1, ds, r)
    requires forall e :: e in ds && e != job[0].0 ==> Read(r1, e) == Read(s, e)
    requires OthersKept(r1, ds, job[1..], r)
    ensures OthersKept(s, ds, job, r)
  {
    forall e | e in ds && !Asked(job, e) ensures Read(r, e) == Read(s, e) {
      assert forall j :: 0 <= j < |job[1..]| ==> job[1..][j] == job[j + 1];
      assert job[0].0 != e && !Asked(job[1..], e);
    }
  }

  lemma UntouchedStep(s: seq<byte>, ds: seq<Spec>, job: Job, r1: seq<byte>, r: seq<byte>, at: nat, f: seq<byte>)
    requires job != [] && Doable(s, ds, job) && StartsKept(s, ds, r1)
    requires Start(s, job[0].0) == Some(at) && |f| == Width(job[0].0) && at + |f| <= |s| && r1 == Overwritten(s, at, f)
    requires Untouched(r1, job[1..], r)
    ensures Untouched(s, job, r)
  {
    forall k | 0 <= k < |s| && !Written(s, job, k) ensures r[k] == s[k] {
      assert job[0].0 in ds && !(at <= k < at + |f|);
      forall i | 0 <= i < |job[1..]| && Start(r1, job[1..][i].0).Some?
        ensures !(Start(r1, job[1..][i].0).value <= k < Start(r1, job[1..][i].0).value + Width(job[1..][i].0))
      {
        assert job[1..][i] == job[i + 1] && job[i + 1].0 in ds;
      }
      assert r[k] == r1[k];
    }
  }

  lemma StartsKeptTwice(s: seq<byte>, ds: seq<Spec>, r1: seq<byte>, r: seq<byte>)
    requires StartsKept(s, ds, r1) && StartsKept(r1, ds, r)
    ensures StartsKept(s, ds, r)
  {
  }

  /**
   * Branding any set of attributes of a well laid out buffer with harmless values succeeds, and is faithful: no first
   * match moves, every one reads back, the others read as before, and nothing outside the written octets changes.
   */
  lemma {:induction false} BrandingIsFaithful(s: seq<byte>, ds: seq<Spec>, job: Job)
    requires Laid(s, ds) && Distinct(job) && Doable(s, ds, job) && AllHarmless(s, ds, job)
    ensures Inside(s, job) && Branded(s, job).0 && Faithful(s, ds, job, Branded(s, job).1)
    decreases |job|
  {
    if job == [] {
    } else {
      var (d, v) := job[0];
      assert job[0].0 == d && job[0].1 == v;
      var r1 := WriteKeeps(s, ds, d, v);
      forall i | 0 <= i < |job[1..]|
        ensures job[1..][i].0 in ds && Start(r1, job[1..][i].0).Some? && TypeFits(job[1..][i].0, job[1..][i].1)
      {
        assert job[1..][i] == job[i + 1];
      }
      BrandingIsFaithful(r1, ds, job[1..]);
      var r := Branded(s, job).1;
      StartsKeptTwice(s, ds, r1, r);
      ReadsBackStep(s, ds, job, r1, r);
      OthersKeptStep(s, ds, job, r1, r);
      UntouchedStep(s, ds, job, r1, r, Start(s, d).value, Field(d, v));
    }
  }

  lemma StepInside(s: seq<byte>, job: Job)
    requires Inside(s, job) && job != []
    ensures var (d, v) := job[0];
            if Start(s, d).Some? && TypeFits(d, v) then
              && Start(s, d).value + Width(d) <= |s|
              && Inside(Overwritten(s, Start(s, d).value, Field(d, v)), job[1..])
              && Branded(s, job) == Branded(Overwritten(s, Start(s, d).value, Field(d, v)), job[1..])
            else Branded(s, job) == (false, s)
  {
  }

  lemma StepOutside(s: seq<byte>, job: Job, r: seq<byte>)
    requires job != [] && Start(s, job[0].0).Some? && TypeFits(job[0].0, job[0].1)
    requires Start(s, job[0].0).value + Width(job[0].0) <= |s|
    requires r == Overwritten(s, Start(s, job[0].0).value, Field(job[0].0, job[0].1)) && Inside(r, job[1..])
    ensures Inside(s, job) && Branded(s, job) == Branded(r, job[1..])
  {
  }

  /** A job stops at the first value that cannot be placed, with everything before it written and nothing behind it. */
  lemma {:induction false} StopsAtFirstBad(s: seq<byte>, before: Job, d: Spec, v: AttrValue, behind: Job, job: Job)
    requires Inside(s, before) && Branded(s, before).0 && job == before + [(d, v)] + behind
    requires Start(Branded(s, before).1, d) == None || !TypeFits(d, v)
    ensures Inside(s, job) && Branded(s, job) == (false, Branded(s, before).1)
    decreases |before|
  {
    if before == [] {
      assert job[0] == (d, v);
    } else {
      var (e, w) := before[0];
      var rest := job[1..];
      assert job[0] == before[0] && rest == before[1..] + [(d, v)] + behind;
      StepInside(s, before);
      var r := Overwritten(s, Start(s, e).value, Field(e, w));
      StopsAtFirstBad(r, before[1..], d, v, behind, rest);
      StepOutside(s, job, r);
    }
  }

  /** A text that ends in no delimiter, or a number none of whose last octets are how one begins. */
  ghost predicate Tame(ds: seq<Spec>, d: Spec, v: AttrValue)
    requires TypeFits(d, v) && forall e :: e in ds ==> 8 <= |e.delim|
  {
    if d.text then forall e :: e in ds ==> !EndsWith(Kept(v.text, MaxText(d)), e.delim)
    else forall e, k :: e in ds && 0 <= k < 8 ==> !Begins(BigEndian(ToWord64(v.number), 8), k, e.delim)
  }

  /** Tame values are harmless wherever they are written. */
  lemma {:induction false} TameJobHarmless(s: seq<byte>, ds: seq<Spec>, job: Job)
    requires Laid(s, ds) && Doable(s, ds, job) && forall e :: e in ds ==> 8 <= |e.delim|
    requires forall i :: 0 <= i < |job| ==> Tame(ds, job[i].0, job[i].1)
    ensures AllHarmless(s, ds, job)
    decreases |job|
  {
    if job == [] {
    } else {
      var (d, v) := job[0];
      assert job[0].0 == d && job[0].1 == v && Tame(ds, d, v) && InSlot(s, d);
      if d.text {
        TextHarmless(s, ds, Start(s, d).value, v.text, MaxText(d));
      } else {
        NumberHarmless(s, ds, Start(s, d).value, BigEndian(ToWord64(v.number), 8));
      }
      var r := WriteKeeps(s, ds, d, v);
      forall i | 0 <= i < |job[1..]|
        ensures job[1..][i].0 in ds && Start(r, job[1..][i].0).Some? && TypeFits(job[1..][i].0, job[1..][i].1)
        ensures Tame(ds, job[1..][i].0, job[1..][i].1)
      {
        assert job[1..][i] == job[i + 1];
      }
      TameJobHarmless(r, ds, job[1..]);
    }
  }

  /** What branding means for one attribute: it reads back what was asked, or as before if nothing was. */
  ghost predicate ReadsFaithfully(s: seq<byte>, d: Spec, asked: Option<AttrValue>, r: seq<byte>) {
    && Start(r, d) == Start(s, d)
    && (Start(s, d).Some? ==> InSlot(s, d) && InSlot(r, d))
    && (asked.Some? ==> TypeFits(d, asked.value) && Read(r, d) == Some(Remembered(d, asked.value)))
    && (asked == None ==> Read(r, d) == Read(s, d))
  }

  /** A faithful job is faithful to each attribute. */
  lemma FaithfulReads(s: seq<byte>, ds: seq<Spec>, job: Job, r: seq<byte>, d: Spec, asked: Option<AttrValue>)
    requires Doable(s, ds, job) && Faithful(s, ds, job, r) && d in ds
    requires if asked.Some? then (d, asked.value) in job else !Asked(job, d)
    ensures ReadsFaithfully(s, d, asked, r)
  {
    if asked.Some? {
      var i :| 0 <= i < |job| && job[i] == (d, asked.value);
      assert Read(r, job[i].0) == Some(Remembered(job[i].0, job[i].1));
    }
  }
}
