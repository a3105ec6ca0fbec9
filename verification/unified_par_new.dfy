/**
 UNIFIED_PAR_NEW: a ParNew young collection under unified logging (JDK 9+),
 as one preprocessed line, e.g.

   [0.049s][info][gc,start     ] GC(0) Pause Young (Allocation Failure) ParNew: 974K->128K(1152K)
   CMS: 0K->518K(960K) Metaspace: 250K->250K(1056768K) 0M->0M(2M) 3.544ms User=0.01s Sys=0.01s Real=0.01s

 (a single line in the log). The event is an immutable record; the source's
 protected setters become functions returning an updated record.
 */
module UnifiedParNew {
  import opened Wrappers
  import opened Decimal
  import opened Conversions
  import opened UnifiedLogging
  import opened LogLine
  import opened LinePattern

  /** The one trigger the pattern admits; the trigger group captures exactly this text. */
  const TRIGGER_ALLOCATION_FAILURE: string := "Allocation Failure"

  /** The `a->b(c)` part of a pattern, with the literal that follows it. */
  function TripleSlots(after: string): seq<Slot> {
    [Hole(SizeKind), Lit("->"), Hole(SizeKind), Lit("("), Hole(SizeKind), Lit(")" + after)]
  }

  /**
   `REGEX_PREPROCESSED`: decorator, GC number, "Pause Young (<trigger>)", the
   ParNew, CMS, Metaspace and combined-heap triples, the duration and the
   User/Sys/Real times, then optional blanks. It is not anchored at the start.
   */
  const SHAPE_HEAD: seq<Slot> :=
    [Hole(DecoratorKind), Lit(" "), Hole(GcNumberKind), Lit(" Pause Young ("),
     Lit(TRIGGER_ALLOCATION_FAILURE), Lit(") ParNew: ")]

  const SHAPE_TAIL: seq<Slot> := [Hole(DurationKind), Hole(TimesKind)]

  const SHAPE: seq<Slot> :=
    SHAPE_HEAD + TripleSlots(" CMS: ") + TripleSlots(" Metaspace: ") + TripleSlots(" ") + TripleSlots(" ")
    + SHAPE_TAIL

  const REGEX_PREPROCESSED: Pattern := Pattern(false, SHAPE)

  const SHAPE_HOLES: seq<FragmentKind> :=
    [DecoratorKind, GcNumberKind]
    + [SizeKind, SizeKind, SizeKind, SizeKind, SizeKind, SizeKind,
       SizeKind, SizeKind, SizeKind, SizeKind, SizeKind, SizeKind]
    + [DurationKind, TimesKind]

  lemma TripleHoles(after: string)
    ensures Holes(TripleSlots(after)) == [SizeKind, SizeKind, SizeKind]
  {
    var t := TripleSlots(after);
    assert t[6..] == [];
    assert t[5..][1..] == t[6..];
    assert Holes(t[5..]) == [];
    assert t[4..][1..] == t[5..];
    assert t[3..][1..] == t[4..];
    assert t[2..][1..] == t[3..];
    assert t[1..][1..] == t[2..];
    assert Holes(t[4..]) == [SizeKind];
    assert Holes(t[2..]) == [SizeKind, SizeKind];
  }

  lemma HeadHoles()
    ensures Holes(SHAPE_HEAD) == [DecoratorKind, GcNumberKind]
  {
    var h := SHAPE_HEAD;
    assert h[5..][1..] == [];
    assert Holes(h[5..]) == [];
    assert h[4..][1..] == h[5..];
    assert h[3..][1..] == h[4..];
    assert h[2..][1..] == h[3..];
    assert h[1..][1..] == h[2..];
    assert Holes(h[4..]) == [];
    assert Holes(h[3..]) == [];
    assert Holes(h[2..]) == [GcNumberKind];
    assert Holes(h[1..]) == [GcNumberKind];
  }

  lemma ShapeHoles()
    ensures Holes(SHAPE) == SHAPE_HOLES
  {
    var t1, t2, t3 := TripleSlots(" CMS: "), TripleSlots(" Metaspace: "), TripleSlots(" ");
    HeadHoles();
    TripleHoles(" CMS: ");
    TripleHoles(" Metaspace: ");
    TripleHoles(" ");
    assert Holes(SHAPE_TAIL) == [DurationKind, TimesKind] by {
      assert SHAPE_TAIL[1..][1..] == [];
    }
    HolesAppend(SHAPE_HEAD, t1);
    HolesAppend(SHAPE_HEAD + t1, t2);
    HolesAppend(SHAPE_HEAD + t1 + t2, t3);
    HolesAppend(SHAPE_HEAD + t1 + t2 + t3, t3);
    HolesAppend(SHAPE_HEAD + t1 + t2 + t3 + t3, SHAPE_TAIL);
  }

  /** An `a->b(c)` capture: occupancy before, occupancy after, space. */
  datatype SizeTriple = SizeTriple(before: Size, after: Size, space: Size)

  /** The groups of a successful match that this model keeps apart. */
  datatype Captures = Captures(
    decorator: Decorator,
    gcNumber: Digits,
    parNew: SizeTriple,
    cms: SizeTriple,
    metaspace: SizeTriple,
    /** the combined-heap triple, e.g. "0M->0M(2M)" */
    combined: SizeTriple,
    duration: string,
    userTime: string,
    sysTime: string,
    realTime: string)

  function TripleFragments(t: SizeTriple): seq<Fragment> {
    [SizeText(t.before), SizeText(t.after), SizeText(t.space)]
  }

  /** The fragments that fill the holes of the shape for the given captures. */
  function Encode(c: Captures): (fs: seq<Fragment>)
    ensures Fits(SHAPE, fs)
  {
    ShapeHoles();
    [DecoratorText(c.decorator), GcNumber(c.gcNumber)]
    + TripleFragments(c.parNew) + TripleFragments(c.cms)
    + TripleFragments(c.metaspace) + TripleFragments(c.combined)
    + [DurationText(c.duration), TimesText(c.userTime, c.sysTime, c.realTime)]
  }

  /** Reads the groups back out of the fragments of a match. */
  function Decode(fs: seq<Fragment>): Captures
    requires Fits(SHAPE, fs)
  {
    ShapeHoles();
    assert fs[0].Kind() == DecoratorKind && fs[1].Kind() == GcNumberKind;
    assert forall i :: 2 <= i < 14 ==> fs[i].Kind() == SizeKind;
    assert fs[14].Kind() == DurationKind && fs[15].Kind() == TimesKind;
    Captures(
      fs[0].decorator, fs[1].number,
      SizeTriple(fs[2].size, fs[3].size, fs[4].size),
      SizeTriple(fs[5].size, fs[6].size, fs[7].size),
      SizeTriple(fs[8].size, fs[9].size, fs[10].size),
      SizeTriple(fs[11].size, fs[12].size, fs[13].size),
      fs[14].millis, fs[15].userTime, fs[15].sysTime, fs[15].realTime)
  }

  lemma EncodeDecode(fs: seq<Fragment>)
    requires Fits(SHAPE, fs)
    ensures Encode(Decode(fs)) == fs
  {
  }

  /** The canonical line of a set of captures: the shape filled in, without trailing blanks. */
  function Render(c: Captures): Line {
    Fill(SHAPE, Encode(c))
  }

  /**
   `matcher.matches()` on the whole line, with the groups read out. A result is
   always the rendering of what was captured, followed by blanks.
   */
  function MatchCaptures(line: Line): (r: Option<Captures>)
    ensures r.Some? ==> exists k: nat :: line == Render(r.value) + Spaces(k)
  {
    match Matches(REGEX_PREPROCESSED, line)
    case Some(fs) =>
      EncodeDecode(fs);
      Some(Decode(fs))
    case None => None
  }

  /**
   `UnifiedParNewEvent.match`: a matching line is always the canonical line of
   some captures followed by blanks (`MatchIff` gives the converse).
   */
  predicate Match(line: Line): (r: bool)
    ensures r ==> exists c, k: nat :: line == Render(c) + Spaces(k)
  {
    MatchCaptures(line).Some?
  }

  /** A rendered line, with any trailing blanks, matches and gives back its captures. */
  lemma MatchRendered(c: Captures, k: nat)
    ensures MatchCaptures(Render(c) + Spaces(k)) == Some(c)
  {
    MatchesFillSpaces(REGEX_PREPROCESSED, Encode(c), k);
    assert Decode(Encode(c)) == c;
  }

  /** `match` accepts exactly the rendered lines followed by blanks. */
  lemma MatchIff(line: Line)
    ensures Match(line) <==> exists c, k: nat :: line == Render(c) + Spaces(k)
  {
    if exists c, k: nat :: line == Render(c) + Spaces(k) {
      var c, k: nat :| line == Render(c) + Spaces(k);
      MatchRendered(c, k);
    }
  }

  /**
   `matcher.find()` with the groups read out: the captures of the leftmost
   suffix of the line that matches as a whole. A whole-line match is found as is.
   */
  function FindCaptures(line: Line): (r: Option<Captures>)
    ensures r.Some? ==> exists i :: 0 <= i <= |line| && MatchCaptures(line[i..]) == r
                                    && forall j :: 0 <= j < i ==> MatchCaptures(line[j..]).None?
    ensures r.None? ==> forall i :: 0 <= i <= |line| ==> MatchCaptures(line[i..]).None?
    ensures Match(line) ==> r == MatchCaptures(line)
  {
    match Find(REGEX_PREPROCESSED, line)
    case Some((i, fs)) =>
      assert MatchCaptures(line[i..]) == Some(Decode(fs));
      Some(Decode(fs))
    case None => None
  }

  /**
   The event. Sizes are in kilobytes, `duration` in microseconds, `timestamp` in
   milliseconds after JVM start, `timeUser` and `timeReal` in centiseconds. An
   unset `int` field is 0 and an unset `trigger` is None (Java's null).
   */
  datatype UnifiedParNewEvent = UnifiedParNewEvent(
    logEntry: Line,
    duration: int,
    timestamp: int,
    young: int,
    youngEnd: int,
    youngAvailable: int,
    oldGen: int,
    oldEnd: int,
    oldAllocation: int,
    permGen: int,
    permGenEnd: int,
    permGenAllocation: int,
    trigger: Option<string>,
    timeUser: int,
    timeReal: int)
  {
    function LogEntry(): Line { logEntry }
    function Duration(): int { duration }
    function Timestamp(): int { timestamp }
    function YoungOccupancyInit(): int { young }
    function YoungOccupancyEnd(): int { youngEnd }
    function YoungSpace(): int { youngAvailable }
    function OldOccupancyInit(): int { oldGen }
    function OldOccupancyEnd(): int { oldEnd }
    function OldSpace(): int { oldAllocation }
    /** The three `PermData` getters: metaspace occupancy before and after, and space. */
    function PermOccupancyInit(): int { permGen }
    function PermOccupancyEnd(): int { permGenEnd }
    function PermSpace(): int { permGenAllocation }
    function Trigger(): Option<string> { trigger }
    function TimeUser(): int { timeUser }
    function TimeReal(): int { timeReal }
    /** `getParallelism`: computed from the User and Real times, never stored. */
    function Parallelism(m: JdkMath): (p: int)
      ensures p == m.calcParallelism(TimeUser(), TimeReal())
    {
      m.calcParallelism(timeUser, timeReal)
    }

    /** `getName`: the event type tag, whatever the line. */
    function Name(): (name: string)
      ensures name == "UNIFIED_PAR_NEW"
    {
      "UNIFIED_PAR_NEW"
    }
  }

  /** An event that only knows its log entry: every other field at its Java default. */
  function Unmatched(logEntry: Line): UnifiedParNewEvent {
    UnifiedParNewEvent(logEntry, 0, 0, 0, 0, 0, 0, 0, 0, 0, 0, 0, None, 0, 0)
  }

  /**
   A size capture in kilobytes: the number whose decimal text the magnitude is
   (`Integer.parseInt`), converted with the capture's unit character.
   */
  function Kilobytes(m: JdkMath, s: Size): (kb: int)
    ensures forall n: nat :: Show(n) == s.magnitude ==> kb == m.calcKilobytes(n, s.unit)
  {
    ReadShown(s.magnitude);
    m.calcKilobytes(Value(s.magnitude), s.unit)
  }

  /**
   Which capture feeds which field, stated through the getters: the uptime
   decides the timestamp (milliseconds read as an integer, seconds converted),
   the ParNew, CMS and Metaspace triples give the young, old and perm sizes in
   that order, and duration and times are converted from their texts.
   */
  ghost predicate Populated(m: JdkMath, e: UnifiedParNewEvent, c: Captures) {
    && e.Timestamp() == (match c.decorator.uptime
                          case UptimeMillis(ms) => Value(ms)
                          case UptimeSeconds(secs) => m.convertSecsToMillis(secs))
    && e.Trigger() == Some(TRIGGER_ALLOCATION_FAILURE)
    && e.YoungOccupancyInit() == Kilobytes(m, c.parNew.before)
    && e.YoungOccupancyEnd() == Kilobytes(m, c.parNew.after)
    && e.YoungSpace() == Kilobytes(m, c.parNew.space)
    && e.OldOccupancyInit() == Kilobytes(m, c.cms.before)
    && e.OldOccupancyEnd() == Kilobytes(m, c.cms.after)
    && e.OldSpace() == Kilobytes(m, c.cms.space)
    && e.PermOccupancyInit() == Kilobytes(m, c.metaspace.before)
    && e.PermOccupancyEnd() == Kilobytes(m, c.metaspace.after)
    && e.PermSpace() == Kilobytes(m, c.metaspace.space)
    && e.Duration() == m.convertMillisToMicros(c.duration)
    && e.TimeUser() == m.convertSecsToCentis(c.userTime)
    && e.TimeReal() == m.convertSecsToCentis(c.realTime)
  }

  /**
   `new UnifiedParNewEvent(logEntry)`: the entry is kept verbatim; when
   `matcher.find()` succeeds every field comes from the captures found,
   otherwise every other field keeps its default.
   */
  function FromLogEntry(m: JdkMath, logEntry: Line): (e: UnifiedParNewEvent)
    ensures e.LogEntry() == logEntry
    ensures FindCaptures(logEntry).None? ==> e == Unmatched(logEntry)
    ensures FindCaptures(logEntry).Some? ==> Populated(m, e, FindCaptures(logEntry).value)
  {
    match FindCaptures(logEntry)
    case None => Unmatched(logEntry)
    case Some(c) =>
      UnifiedParNewEvent(
        logEntry,
        m.convertMillisToMicros(c.duration),
        UnifiedLogging.Timestamp(m, c.decorator),
        Kilobytes(m, c.parNew.before), Kilobytes(m, c.parNew.after), Kilobytes(m, c.parNew.space),
        Kilobytes(m, c.cms.before), Kilobytes(m, c.cms.after), Kilobytes(m, c.cms.space),
        Kilobytes(m, c.metaspace.before), Kilobytes(m, c.metaspace.after), Kilobytes(m, c.metaspace.space),
        Some(TRIGGER_ALLOCATION_FAILURE),
        m.convertSecsToCentis(c.userTime),
        m.convertSecsToCentis(c.realTime))
  }

  /** The alternate constructor: log entry, timestamp and duration only; all else default. */
  function FromValues(logEntry: Line, timestamp: int, duration: int): (e: UnifiedParNewEvent)
    ensures e.LogEntry() == logEntry && e.Timestamp() == timestamp && e.Duration() == duration
    ensures e.(timestamp := 0, duration := 0) == Unmatched(logEntry)
  {
    UnifiedParNewEvent(logEntry, duration, timestamp, 0, 0, 0, 0, 0, 0, 0, 0, 0, None, 0, 0)
  }

  /** `setPermOccupancyInit`: only the initial perm occupancy changes. */
  function SetPermOccupancyInit(e: UnifiedParNewEvent, permGen: int): (r: UnifiedParNewEvent)
    ensures r.PermOccupancyInit() == permGen
    ensures r.(permGen := e.permGen) == e
  {
    e.(permGen := permGen)
  }

  /** `setPermOccupancyEnd`: only the final perm occupancy changes. */
  function SetPermOccupancyEnd(e: UnifiedParNewEvent, permGenEnd: int): (r: UnifiedParNewEvent)
    ensures r.PermOccupancyEnd() == permGenEnd
    ensures r.(permGenEnd := e.permGenEnd) == e
  {
    e.(permGenEnd := permGenEnd)
  }

  /** `setPermSpace`: only the perm space changes. */
  function SetPermSpace(e: UnifiedParNewEvent, permGenAllocation: int): (r: UnifiedParNewEvent)
    ensures r.PermSpace() == permGenAllocation
    ensures r.(permGenAllocation := e.permGenAllocation) == e
  {
    e.(permGenAllocation := permGenAllocation)
  }

  /** `setTrigger`: only the trigger changes (None is Java's null). */
  function SetTrigger(e: UnifiedParNewEvent, trigger: Option<string>): (r: UnifiedParNewEvent)
    ensures r.Trigger() == trigger
    ensures r.(trigger := e.trigger) == e
  {
    e.(trigger := trigger)
  }

  /**
   A line of the canonical shape, with any trailing blanks, matches, and the
   event built from it takes every field from its captures; parallelism is
   computed from the converted User and Real times.
   */
  lemma RenderedLine(m: JdkMath, c: Captures, k: nat)
    ensures Match(Render(c) + Spaces(k))
    ensures Populated(m, FromLogEntry(m, Render(c) + Spaces(k)), c)
    ensures FromLogEntry(m, Render(c) + Spaces(k)).Parallelism(m)
            == m.calcParallelism(m.convertSecsToCentis(c.userTime), m.convertSecsToCentis(c.realTime))
  {
    MatchRendered(c, k);
  }

  /** Whatever follows it, leading plain text yields no match at any of its own positions. */
  lemma TextPrefixNoMatch(text: string, rest: Line)
    ensures forall j :: 0 <= j < |text| ==> Matches(REGEX_PREPROCESSED, (Chars(text) + rest)[j..]).None?
  {
    var line := Chars(text) + rest;
    assert SHAPE[0] == Hole(DecoratorKind);
    forall j | 0 <= j < |text|
      ensures Matches(REGEX_PREPROCESSED, line[j..]).None?
    {
      assert line[j..][0] == Ch(text[j]);
      TextFirstNoMatch(REGEX_PREPROCESSED, line[j..]);
    }
  }

  /**
   The constructor searches (`find`) while `match` insists on the whole line:
   plain text in front of a canonical line makes `match` fail, yet the event is
   still filled from the captures that follow it. The text is given as plain
   characters, so it is text that cannot belong to the decorator.
   */
  lemma LeadingText(m: JdkMath, text: string, c: Captures, k: nat)
    requires |text| > 0
    ensures !Match(Chars(text) + (Render(c) + Spaces(k)))
    ensures Populated(m, FromLogEntry(m, Chars(text) + (Render(c) + Spaces(k))), c)
  {
    var rest := Render(c) + Spaces(k);
    var line := Chars(text) + rest;
    TextPrefixNoMatch(text, rest);
    assert line[0..] == line;
    assert line[|text|..] == rest;
    MatchesFillSpaces(REGEX_PREPROCESSED, Encode(c), k);
    FindAt(REGEX_PREPROCESSED, line, |text|);
    assert Decode(Encode(c)) == c;
    assert FindCaptures(line) == Some(c);
  }

  /**
   No field is derived from the GC number, the decorator's date-time, the
   combined-heap triple or the Sys time: two lines whose captures differ only
   there give events that differ only in their log entry.
   */
  lemma IgnoredCaptures(m: JdkMath, c1: Captures, c2: Captures, k1: nat, k2: nat)
    requires c1.decorator.uptime == c2.decorator.uptime
    requires c1.parNew == c2.parNew && c1.cms == c2.cms && c1.metaspace == c2.metaspace
    requires c1.duration == c2.duration && c1.userTime == c2.userTime && c1.realTime == c2.realTime
    ensures FromLogEntry(m, Render(c1) + Spaces(k1)).(logEntry := [])
            == FromLogEntry(m, Render(c2) + Spaces(k2)).(logEntry := [])
  {
    RenderedLine(m, c1, k1);
    RenderedLine(m, c2, k2);
  }

  /**
   The combined-heap triple is required: a matching line carries sixteen
   fragments, twelve of them sizes, so a line with only the ParNew, CMS and
   Metaspace triples does not match.
   */
  lemma MatchNeedsFourTriples(line: Line)
    requires Match(line)
    ensures |Fragments(line)| == 16 && SizeCount(Fragments(line)) == 12
  {
    var fs := Matches(REGEX_PREPROCESSED, line).value;
    var k: nat :| line == Fill(SHAPE, fs) + Spaces(k);
    assert Fragments(line) == fs by {
      FragmentsAppend(Fill(SHAPE, fs), Spaces(k));
      FragmentsOfText(Spaces(k));
      FillFragments(SHAPE, fs);
    }
    assert |fs| == 16 && SizeCount(fs) == 12 by {
      EncodeDecode(fs);
      EncodeSizes(Decode(fs));
    }
  }

  lemma EncodeSizes(c: Captures)
    ensures |Encode(c)| == 16 && SizeCount(Encode(c)) == 12
  {
    var head: seq<Fragment> := [DecoratorText(c.decorator), GcNumber(c.gcNumber)];
    var tail: seq<Fragment> := [DurationText(c.duration), TimesText(c.userTime, c.sysTime, c.realTime)];
    var t1, t2 := TripleFragments(c.parNew), TripleFragments(c.cms);
    var t3, t4 := TripleFragments(c.metaspace), TripleFragments(c.combined);
    assert SizeCount(head) == 0 by {
      assert head[1..][1..] == [];
      assert SizeCount(head[1..]) == 0;
    }
    assert SizeCount(tail) == 0 by {
      assert tail[1..][1..] == [];
      assert SizeCount(tail[1..]) == 0;
    }
    forall t: SizeTriple
      ensures SizeCount(TripleFragments(t)) == 3
    {
      var ts := TripleFragments(t);
      assert ts[1..][1..][1..] == [];
      assert SizeCount(ts[1..][1..]) == 1;
      assert SizeCount(ts[1..]) == 2;
    }
    SizeCountAppend(head, t1);
    SizeCountAppend(head + t1, t2);
    SizeCountAppend(head + t1 + t2, t3);
    SizeCountAppend(head + t1 + t2 + t3, t4);
    SizeCountAppend(head + t1 + t2 + t3 + t4, tail);
  }

  /**
   The captures of the documented example line
   "[0.049s][info][gc,start     ] GC(0) Pause Young (Allocation Failure) ParNew: 974K->128K(1152K)
   CMS: 0K->518K(960K) Metaspace: 250K->250K(1056768K) 0M->0M(2M) 3.544ms User=0.01s Sys=0.01s Real=0.01s".
   */
  const EXAMPLE: Captures := Captures(
    Decorator(None, UptimeSeconds("0.049")), "0",
    SizeTriple(Size("974", 'K'), Size("128", 'K'), Size("1152", 'K')),
    SizeTriple(Size("0", 'K'), Size("518", 'K'), Size("960", 'K')),
    SizeTriple(Size("250", 'K'), Size("250", 'K'), Size("1056768", 'K')),
    SizeTriple(Size("0", 'M'), Size("0", 'M'), Size("2", 'M')),
    "3.544", "0.01", "0.01", "0.01")

  /** The size texts of the example are the decimal texts of their numbers. */
  lemma ExampleDigits()
    ensures Show(0) == "0" && Show(2) == "2" && Show(128) == "128" && Show(250) == "250"
    ensures Show(518) == "518" && Show(960) == "960" && Show(974) == "974"
    ensures Show(1152) == "1152" && Show(1056768) == "1056768"
  {
  }

  /** The documented example: each size is the kilobyte conversion of the number shown. */
  lemma DocumentedExample(m: JdkMath)
    ensures Match(Render(EXAMPLE))
    ensures var e := FromLogEntry(m, Render(EXAMPLE));
      && e.Timestamp() == m.convertSecsToMillis("0.049")
      && e.Trigger() == Some("Allocation Failure")
      && e.YoungOccupancyInit() == m.calcKilobytes(974, 'K')
      && e.YoungOccupancyEnd() == m.calcKilobytes(128, 'K')
      && e.YoungSpace() == m.calcKilobytes(1152, 'K')
      && e.OldOccupancyInit() == m.calcKilobytes(0, 'K')
      && e.OldOccupancyEnd() == m.calcKilobytes(518, 'K')
      && e.OldSpace() == m.calcKilobytes(960, 'K')
      && e.PermOccupancyInit() == m.calcKilobytes(250, 'K')
      && e.PermOccupancyEnd() == m.calcKilobytes(250, 'K')
      && e.PermSpace() == m.calcKilobytes(1056768, 'K')
      && e.Duration() == m.convertMillisToMicros("3.544")
      && e.TimeUser() == m.convertSecsToCentis("0.01")
      && e.TimeReal() == m.convertSecsToCentis("0.01")
  {
    RenderedLine(m, EXAMPLE, 0);
    assert Render(EXAMPLE) + Spaces(0) == Render(EXAMPLE);
    ExampleDigits();
  }
}
