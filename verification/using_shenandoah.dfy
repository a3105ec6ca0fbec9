/**
 USING_SHENANDOAH: the banner a JVM running the Shenandoah collector logs at
 start, e.g. "[0.006s][info][gc] Using Shenandoah" or
 "[2019-02-05T14:47:31.092-0200][4ms] Using Shenandoah". The event keeps the
 line and the time taken from its decorator.
 */
module UsingShenandoah {
  import opened Wrappers
  import opened Decimal
  import opened Conversions
  import opened UnifiedLogging
  import opened LogLine
  import opened LinePattern

  /** `REGEX`: "^" DECORATOR " Using Shenandoah[ ]*$". */
  const SHAPE: seq<Slot> := [Hole(DecoratorKind), Lit(" Using Shenandoah")]

  const REGEX: Pattern := Pattern(true, SHAPE)

  datatype UsingShenandoahEvent = UsingShenandoahEvent(logEntry: Line, timestamp: int) {
    function LogEntry(): Line { logEntry }
    function Timestamp(): int { timestamp }

    /** `getName`: the event type tag, whatever the line. */
    function Name(): (name: string)
      ensures name == "USING_SHENANDOAH"
    {
      "USING_SHENANDOAH"
    }
  }

  lemma ShapeHoles()
    ensures Holes(SHAPE) == [DecoratorKind]
  {
    assert SHAPE[1..][1..] == [];
    assert Holes(SHAPE[1..]) == [];
  }

  /** The banner line for a decorator, without trailing blanks. */
  function Render(d: Decorator): Line {
    ShapeHoles();
    Fill(SHAPE, [DecoratorText(d)])
  }

  /** `matches()` on the whole line, with the decorator it opens with. */
  function MatchDecorator(line: Line): (r: Option<Decorator>)
    ensures r.Some? ==> exists k: nat :: line == Render(r.value) + Spaces(k)
  {
    match Matches(REGEX, line)
    case Some(fs) =>
      ShapeHoles();
      assert fs == [DecoratorText(fs[0].decorator)];
      Some(fs[0].decorator)
    case None => None
  }

  /**
   `UsingShenandoahEvent.match`: a matching line is always the banner of some
   decorator followed by blanks (`MatchIff` gives the converse).
   */
  predicate Match(line: Line): (r: bool)
    ensures r ==> exists d, k: nat :: line == Render(d) + Spaces(k)
  {
    MatchDecorator(line).Some?
  }

  /** A banner with any trailing blanks matches, with its own decorator. */
  lemma MatchRendered(d: Decorator, k: nat)
    ensures MatchDecorator(Render(d) + Spaces(k)) == Some(d)
  {
    ShapeHoles();
    MatchesFillSpaces(REGEX, [DecoratorText(d)], k);
  }

  /** `match` accepts exactly a decorator, " Using Shenandoah" and blanks: nothing before, nothing else after. */
  lemma MatchIff(line: Line)
    ensures Match(line) <==> exists d, k: nat :: line == Render(d) + Spaces(k)
  {
    if exists d, k: nat :: line == Render(d) + Spaces(k) {
      var d, k: nat :| line == Render(d) + Spaces(k);
      MatchRendered(d, k);
    }
  }

  /**
   `new UsingShenandoahEvent(logEntry)`: the entry is kept verbatim; the
   timestamp comes from the decorator when the whole line matches (then the
   anchored `find` succeeds at the start) and stays 0 otherwise.
   */
  function FromLogEntry(m: JdkMath, logEntry: Line): (e: UsingShenandoahEvent)
    ensures e.LogEntry() == logEntry
    ensures MatchDecorator(logEntry).None? ==> e.Timestamp() == 0
    ensures MatchDecorator(logEntry).Some? ==>
      e.Timestamp() == (match MatchDecorator(logEntry).value.uptime
                        case UptimeMillis(ms) => Value(ms)
                        case UptimeSeconds(secs) => m.convertSecsToMillis(secs))
  {
    var timestamp :=
      if Matches(REGEX, logEntry).Some? then
        match Find(REGEX, logEntry)
        case Some((_, fs)) =>
          ShapeHoles();
          UnifiedLogging.Timestamp(m, fs[0].decorator)
        case None => 0
      else 0;
    UsingShenandoahEvent(logEntry, timestamp)
  }

  /** A banner line, with any trailing blanks, is timed by its decorator's uptime. */
  lemma RenderedBanner(m: JdkMath, d: Decorator, k: nat)
    ensures Match(Render(d) + Spaces(k))
    ensures FromLogEntry(m, Render(d) + Spaces(k)).Timestamp() == UnifiedLogging.Timestamp(m, d)
  {
    MatchRendered(d, k);
  }

  /**
   The pattern is anchored: plain text in front of a banner makes `match` fail
   and leaves the timestamp at 0, while the log entry is still kept. The text is
   given as plain characters, so it is text that cannot belong to the decorator.
   */
  lemma LeadingText(m: JdkMath, text: string, d: Decorator, k: nat)
    requires |text| > 0
    ensures !Match(Chars(text) + (Render(d) + Spaces(k)))
    ensures FromLogEntry(m, Chars(text) + (Render(d) + Spaces(k))).Timestamp() == 0
  {
    var line := Chars(text) + (Render(d) + Spaces(k));
    assert line[0] == Ch(text[0]);
    TextFirstNoMatch(REGEX, line);
  }

  /** With an uptime in milliseconds the timestamp is that number, whatever the conversions. */
  lemma MillisBanner(m: JdkMath, datetime: Option<string>, n: nat, k: nat)
    ensures FromLogEntry(m, Render(Decorator(datetime, UptimeMillis(Show(n)))) + Spaces(k)).Timestamp() == n
  {
    RenderedBanner(m, Decorator(datetime, UptimeMillis(Show(n))), k);
    ValueOfShow(n);
  }

  /** The documented examples "[0.006s][info][gc] Using Shenandoah" and "[2019-02-05T14:47:31.092-0200][4ms] Using Shenandoah". */
  lemma DocumentedExamples(m: JdkMath)
    ensures FromLogEntry(m, Render(Decorator(None, UptimeSeconds("0.006")))).Timestamp()
            == m.convertSecsToMillis("0.006")
    ensures FromLogEntry(m, Render(Decorator(Some("2019-02-05T14:47:31.092-0200"), UptimeMillis(Show(4))))).Timestamp()
            == 4
  {
    assert Render(Decorator(None, UptimeSeconds("0.006"))) + Spaces(0) == Render(Decorator(None, UptimeSeconds("0.006")));
    RenderedBanner(m, Decorator(None, UptimeSeconds("0.006")), 0);
    var d := Decorator(Some("2019-02-05T14:47:31.092-0200"), UptimeMillis(Show(4)));
    assert Render(d) + Spaces(0) == Render(d);
    MillisBanner(m, Some("2019-02-05T14:47:31.092-0200"), 4, 0);
  }
}
