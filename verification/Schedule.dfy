/** The schedule language: seven fields, each a star or a comma-separated list of numbers. */
module Schedule {
  import opened Bytes
  import opened Arguments
  import opened Splitting
  import opened TextTools

  const STAR: byte := 42
  const COMMA: byte := 44
  const SPACE: byte := 32

  /** The parts of struct tm that fields are compared with. */
  datatype BrokenTime = BrokenTime(sec: int, min: int, hour: int, mday: int, mon: int, year: int, wday: int)

  datatype TimeField = WEEKDAY | YEAR | MONTH | DAY | HOUR | MINUTE | SECOND

  const FIELDS: seq<TimeField> := [WEEKDAY, YEAR, MONTH, DAY, HOUR, MINUTE, SECOND]

  /** The component of a time that a field names, in the numbering that people use. */
  function Component(t: BrokenTime, field: TimeField): int {
    match field
    case WEEKDAY => t.wday + 1
    case YEAR => t.year + 1900
    case MONTH => t.mon + 1
    case DAY => t.mday
    case HOUR => t.hour
    case MINUTE => t.min
    case SECOND => t.sec
  }

  /** Some part of the list reads as the number. */
  ghost predicate Lists(parts: seq<Text>, n: int) {
    exists k :: 0 <= k < |parts| && Atoi(parts[k]) == n
  }

  /** A field's text accepts a number: it begins with a star, or lists it. */
  ghost predicate TextAccepts(text: Text, n: int) {
    (text != [] && text[0] == STAR) || Lists(SplitText(text, COMMA), n)
  }

  method ListMatches(subfields: seq<Text>, component: int) returns (matches: bool)
    ensures matches <==> Lists(subfields, component)
  {
    var inc := 0;
    while inc < |subfields|
      invariant inc <= |subfields| && forall k :: 0 <= k < inc ==> Atoi(subfields[k]) != component
    {
      if component == Atoi(subfields[inc]) {
        return true;
      }
      inc := inc + 1;
    }
    matches := false;
  }

  /** The static time structure of the checker, and the time it was broken down from. */
  class TimeCache {
    var timeStruct: BrokenTime
    var previousTime: int
    const localtime: int -> BrokenTime

    /** Statics start out as zeroes, so at first the cache is wrong about time zero, and about no other. */
    predicate Valid()
      reads this
    {
      previousTime != 0 ==> timeStruct == localtime(previousTime)
    }

    constructor (localtime: int -> BrokenTime)
      ensures Valid() && this.localtime == localtime && previousTime == 0 && timeStruct == BrokenTime(0, 0, 0, 0, 0, 0, 0)
    {
      this.localtime := localtime;
      timeStruct, previousTime := BrokenTime(0, 0, 0, 0, 0, 0, 0), 0;
    }

    /** The broken-down time a query is answered from. */
    function Seen(time: int): BrokenTime
      reads this
    {
      if previousTime != time then localtime(time) else timeStruct
    }

    lemma SeenRight(time: int)
      requires Valid() && time != 0
      ensures Seen(time) == localtime(time)
    {
    }

    method TimeFieldMatches(time: int, text: Text, field: TimeField) returns (matches: bool)
      requires Valid()
      modifies this
      ensures Valid() && previousTime == time && timeStruct == old(Seen(time))
      ensures matches <==> TextAccepts(text, Component(timeStruct, field))
    {
      if previousTime != time {
        previousTime := time;
        timeStruct := localtime(time);
      }
      if text != [] && text[0] == STAR {
        return true;
      }
      var subfields := SplitTextByCharacter(text, COMMA);
      matches := ListMatches(subfields, Component(timeStruct, field));
    }
  }

  /** Fields from the i-th on are checked in turn: the first that is missing throws, the first that differs rejects. */
  ghost function Verdict(fields: seq<Text>, t: BrokenTime, i: nat): Option<bool>
    requires i <= 7
    decreases 7 - i
  {
    if i == 7 then Some(true)
    else if i >= |fields| then None
    else if !TextAccepts(fields[i], Component(t, FIELDS[i])) then Some(false)
    else Verdict(fields, t, i + 1)
  }

  /** None stands for the exception that a schedule of too few fields brings about. */
  method CheckRoutineTimer(cache: TimeCache, schedule: Text, time: int) returns (r: Option<bool>)
    requires cache.Valid()
    modifies cache
    ensures cache.Valid() && cache.Seen(time) == old(cache.Seen(time))
    ensures r == Verdict(SplitText(schedule, SPACE), old(cache.Seen(time)), 0)
  {
    var fields := SplitTextByCharacter(schedule, SPACE);
    var inc := 0;
    while inc < 7
      invariant inc <= 7 && cache.Valid()
      invariant cache.Seen(time) == old(cache.Seen(time))
      invariant Verdict(fields, old(cache.Seen(time)), 0) == Verdict(fields, old(cache.Seen(time)), inc)
    {
      if inc >= |fields| {
        return None;
      }
      var matches := cache.TimeFieldMatches(time, fields[inc], FIELDS[inc]);
      if !matches {
        return Some(false);
      }
      inc := inc + 1;
    }
    r := Some(true);
  }

  /** A schedule of seven or more fields is accepted exactly when each of the first seven accepts its component. */
  lemma {:induction false} VerdictMeans(fields: seq<Text>, t: BrokenTime, i: nat)
    requires i <= 7 <= |fields|
    ensures Verdict(fields, t, i).Some?
    ensures Verdict(fields, t, i).value <==>
            forall k :: i <= k < 7 ==> TextAccepts(fields[k], Component(t, FIELDS[k]))
    decreases 7 - i
  {
    if i == 7 {
    } else {
      VerdictMeans(fields, t, i + 1);
    }
  }

  /** With fewer, it throws exactly when every field there is accepts. */
  lemma {:induction false} VerdictThrows(fields: seq<Text>, t: BrokenTime, i: nat)
    requires i <= |fields| < 7
    ensures Verdict(fields, t, i) == None <==>
            forall k :: i <= k < |fields| ==> TextAccepts(fields[k], Component(t, FIELDS[k]))
    ensures Verdict(fields, t, i) != Some(true)
    decreases 7 - i
  {
    if i == |fields| {
    } else {
      VerdictThrows(fields, t, i + 1);
    }
  }

  /**
   * When a schedule accepts a time, in the words of struct tm: weekdays and months count from one, years from the year
   * nought.
   */
  lemma AcceptsExactly(fields: seq<Text>, t: BrokenTime)
    ensures Verdict(fields, t, 0) == Some(true) <==>
            && |fields| >= 7 && TextAccepts(fields[0], t.wday + 1) && TextAccepts(fields[1], t.year + 1900)
            && TextAccepts(fields[2], t.mon + 1) && TextAccepts(fields[3], t.mday)
            && TextAccepts(fields[4], t.hour) && TextAccepts(fields[5], t.min) && TextAccepts(fields[6], t.sec)
  {
    if |fields| >= 7 {
      VerdictMeans(fields, t, 0);
      assert forall k :: 0 <= k < 7 ==> FIELDS[k] == [WEEKDAY, YEAR, MONTH, DAY, HOUR, MINUTE, SECOND][k];
    } else {
      VerdictThrows(fields, t, 0);
    }
  }

  // ------------------------------------------------------ printed schedules

  /** What a field is meant to say. */
  datatype Field = Any | OneOf(numbers: seq<nat>)

  predicate Means(f: Field, n: int) {
    f.Any? || exists k :: 0 <= k < |f.numbers| && f.numbers[k] == n
  }

  function Decimals(numbers: seq<nat>): (parts: seq<Text>)
    ensures |parts| == |numbers| && forall k :: 0 <= k < |numbers| ==> parts[k] == Decimal(numbers[k])
  {
    seq(|numbers|, k requires 0 <= k < |numbers| => Decimal(numbers[k]))
  }

  function PrintField(f: Field): Text {
    if f.Any? then [STAR] else JoinText(Decimals(f.numbers), COMMA)
  }

  function PrintFields(fields: seq<Field>): (parts: seq<Text>)
    ensures |parts| == |fields| && forall k :: 0 <= k < |fields| ==> parts[k] == PrintField(fields[k])
  {
    seq(|fields|, k requires 0 <= k < |fields| => PrintField(fields[k]))
  }

  function PrintSchedule(fields: seq<Field>): Text { JoinText(PrintFields(fields), SPACE) }

  /** Fields as they are written: a star, or numbers in decimal with commas between them; blanks stand between fields. */
  lemma PrintedExample()
    ensures PrintField(Any) == Ascii("*") && PrintField(OneOf([30])) == Ascii("30") && PrintField(OneOf([1, 7])) == Ascii("1,7")
    ensures PrintSchedule([OneOf([1, 7]), Any, OneOf([30])]) == Ascii("1,7 * 30")
  {
    assert Decimal(1) == [49] && Decimal(7) == [55] && Decimal(30) == [51, 48];
    assert Decimals([30]) == [[51, 48]] && Decimals([1, 7]) == [[49], [55]];
    assert Join([[55]], COMMA) == [55];
    var fields: seq<Field> := [OneOf([1, 7]), Any, OneOf([30])];
    var parts: seq<Text> := [[49, 44, 55], [42], [51, 48]];
    assert PrintField(fields[0]) == parts[0] && PrintField(fields[1]) == parts[1] && PrintField(fields[2]) == parts[2];
    assert PrintFields(fields) == parts;
    assert parts[1..][1..] == [[51, 48]] && Join([[51, 48]], SPACE) == [51, 48];
    assert Join(parts[1..], SPACE) == [42, 32, 51, 48];
  }

  lemma DecimalsClean(numbers: seq<nat>)
    ensures AllClean(Decimals(numbers), COMMA)
  {
    forall k | 0 <= k < |numbers| ensures Clean(Decimals(numbers)[k], COMMA) {
      var t := Decimal(numbers[k]);
      assert forall i :: 0 <= i < |t| ==> IsDigit(t[i]);
    }
  }

  lemma JoinNotEmpty(parts: seq<Text>, sep: byte)
    requires sep != 0 && parts != [] && parts[0] != []
    ensures Join(parts, sep) != []
  {
  }

  /** A printed field is one part of a schedule, and accepts what it is meant to accept. */
  lemma PrintedField(f: Field, n: int)
    requires f.OneOf? ==> f.numbers != []
    ensures Clean(PrintField(f), SPACE)
    ensures TextAccepts(PrintField(f), n) <==> Means(f, n)
  {
    if f.OneOf? {
      var parts := Decimals(f.numbers);
      JoinNotEmpty(parts, COMMA);
      DecimalsAvoid(f.numbers, SPACE);
      JoinAvoids(parts, COMMA, SPACE);
      DecimalsAvoid(f.numbers, STAR);
      JoinAvoids(parts, COMMA, STAR);
      DecimalsClean(f.numbers);
      SplitJoin(parts, COMMA);
      ListedNumbers(f.numbers, n);
    }
  }

  lemma DecimalsAvoid(numbers: seq<nat>, x: byte)
    requires !IsDigit(x)
    ensures forall k :: 0 <= k < |numbers| ==> x !in Decimals(numbers)[k]
  {
    forall k | 0 <= k < |numbers| ensures x !in Decimals(numbers)[k] {
      var t := Decimal(numbers[k]);
      assert forall i :: 0 <= i < |t| ==> IsDigit(t[i]);
    }
  }

  lemma ListedNumbers(numbers: seq<nat>, n: int)
    ensures Lists(Decimals(numbers), n) <==> Means(OneOf(numbers), n)
  {
    forall k | 0 <= k < |numbers| ensures Atoi(Decimals(numbers)[k]) == numbers[k] {
      AtoiDecimal(numbers[k]);
    }
    if Means(OneOf(numbers), n) {
      var k :| 0 <= k < |numbers| && numbers[k] == n;
      assert Atoi(Decimals(numbers)[k]) == n;
    }
  }

  /** Seven fields, none of them an empty list. */
  predicate Proper(fields: seq<Field>) {
    |fields| == 7 && forall k :: 0 <= k < 7 ==> fields[k].OneOf? ==> fields[k].numbers != []
  }

  /** A printed schedule accepts a time exactly when every field is a star or contains the time's component. */
  lemma PrintedSchedule(fields: seq<Field>, t: BrokenTime)
    requires Proper(fields)
    ensures Verdict(SplitText(PrintSchedule(fields), SPACE), t, 0) ==
            Some(forall k :: 0 <= k < 7 ==> Means(fields[k], Component(t, FIELDS[k])))
  {
    var parts := PrintFields(fields);
    forall k | 0 <= k < 7
      ensures Clean(parts[k], SPACE)
      ensures TextAccepts(parts[k], Component(t, FIELDS[k])) <==> Means(fields[k], Component(t, FIELDS[k]))
    {
      PrintedField(fields[k], Component(t, FIELDS[k]));
    }
    SplitJoin(parts, SPACE);
    VerdictMeans(parts, t, 0);
  }

  /** Any printed schedule, checked at any time but zero, whatever has been checked before. */
  method CheckPrinted(cache: TimeCache, fields: seq<Field>, time: int) returns (r: bool)
    requires cache.Valid() && Proper(fields) && time != 0
    modifies cache
    ensures cache.Valid()
    ensures r <==> forall k :: 0 <= k < 7 ==> Means(fields[k], Component(cache.localtime(time), FIELDS[k]))
  {
    cache.SeenRight(time);
    PrintedSchedule(fields, cache.localtime(time));
    var verdict := CheckRoutineTimer(cache, PrintSchedule(fields), time);
    r := verdict.value;
  }

  /** A first query about time zero is answered from the zeroed structure, right only if time zero breaks down to it. */
  method FirstQueryAtZero(localtime: int -> BrokenTime) returns (seen: BrokenTime)
    ensures seen == localtime(0) <==> localtime(0) == BrokenTime(0, 0, 0, 0, 0, 0, 0)
  {
    var cache := new TimeCache(localtime);
    var _ := cache.TimeFieldMatches(0, [STAR], SECOND);
    seen := cache.timeStruct;
  }
}
