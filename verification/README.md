# garbagecat unified-logging events in Dafny

This project models how garbagecat turns one preprocessed unified-logging (JDK 9+)
garbage-collection line into a typed event. It covers two event classes:

- **UNIFIED_PAR_NEW** (`UnifiedParNewEvent`). This is a ParNew young collection line with a
  decorator, a GC number, `Pause Young (Allocation Failure)`, four `a->b(c)` size triples
  (ParNew, CMS, Metaspace, combined heap), a `ms` duration and User/Sys/Real times.
  The event record holds young, old and perm/metaspace occupancies and spaces, the trigger,
  the duration and the user and real times.
- **USING_SHENANDOAH** (`UsingShenandoahEvent`). This is the one-line `Using Shenandoah` banner.
  The event holds the log entry and a timestamp taken from the decorator.

Layout, one module per file:

| file | module | what it holds |
|---|---|---|
| `wrappers.dfy` | `Wrappers` | `Option`, used for Java `null` and for failed matches |
| `decimal.dfy` | `Decimal` | digit strings and their value (`Long.parseLong` / `Integer.parseInt` on digits) |
| `conversions.dfy` | `Conversions` | `JdkMath`, a record of the conversion helpers, passed as a parameter |
| `unified_logging.dfy` | `UnifiedLogging` | the decorator (optional date-time, uptime in ms or s) and the timestamp rule |
| `log_line.dfy` | `LogLine` | a line as characters and recognised fragments; trailing-blank stripping |
| `line_pattern.dfy` | `LinePattern` | line shapes, `Matcher.matches()` and `Matcher.find()` |
| `unified_par_new.dfy` | `UnifiedParNew` | the UNIFIED_PAR_NEW pattern, captures, event record, constructors, setters |
| `using_shenandoah.dfy` | `UsingShenandoah` | the USING_SHENANDOAH pattern, event and constructor |

How the model works:

- **Lines.** Several regular-expression fragments are defined outside the modelled files:
  `UnifiedLogging.DECORATOR`, `JdkRegEx.GC_EVENT_NUMBER`, `JdkRegEx.SIZE`,
  `JdkRegEx.DURATION_JDK9` and `TimesData.REGEX_JDK9`. So a line is a sequence of pieces.
  A piece is either a plain character or an already-recognised fragment that carries the
  groups the events read.
- **Patterns.** A pattern is a sequence of literal texts and fragment holes, with an optional
  leading `^`. Every pattern ends in `[ ]*$`.
  - `matches()` accepts a line when the line, minus its trailing blanks, is the shape with its
    holes filled.
  - `find()` returns the leftmost start position from which the rest of the line matches.
    An anchored pattern is tried only at position 0.
- **Conversions.** The events call `JdkMath.calcKilobytes`, `convertSecsToMillis`,
  `convertMillisToMicros`, `convertSecsToCentis` and `calcParallelism`. Their definitions are not
  part of this model. They are the fields of a `JdkMath` record of total functions, and every
  result holds for every choice of them.
- **Immutable events.** The Java events are mutable. Here each event is an immutable datatype,
  and each protected setter is a function that returns an updated record.

Classification by `match` needs the entire line to conform to the pattern. The
`UnifiedParNewEvent(String)` constructor is laxer: it uses `find()` (UnifiedParNewEvent.java:156),
so it also fills the event from a line with extra text before the canonical part
(`UnifiedParNew.LeadingText`). The model follows the code here.

## Model

| member | source | states |
|---|---|---|
| `Decimal.Value` | src/main/java/org/eclipselabs/garbagecat/domain/jdk/unified/UnifiedParNewEvent.java:158 | the number a digit string denotes, as `parseLong` reads it (leading zeros allowed); a string of n digits denotes less than 10^n |
| `Decimal.ValueOfShow` | src/main/java/org/eclipselabs/garbagecat/domain/jdk/unified/UnifiedParNewEvent.java:158 | reading the decimal text of n gives n back |
| `Decimal.ShowOfValue` | src/main/java/org/eclipselabs/garbagecat/domain/jdk/unified/UnifiedParNewEvent.java:158 | a digit string without leading zeros is the decimal text of the number it reads as |
| `LogLine.StripTrailingSpaces` | src/main/java/org/eclipselabs/garbagecat/domain/jdk/unified/UnifiedParNewEvent.java:144 | the result is a prefix of the line, only blanks follow it, and it does not end in a blank |
| `LogLine.StripAppendedSpaces` | src/main/java/org/eclipselabs/garbagecat/domain/jdk/unified/UnifiedParNewEvent.java:144 | blanks appended to a line are stripped again, and nothing else is |
| `UnifiedLogging.Timestamp` | src/main/java/org/eclipselabs/garbagecat/domain/jdk/unified/UnifiedParNewEvent.java:157-161 | the timestamp rule shared with UsingShenandoahEvent.java:93-97: a millisecond uptime gives the number whose decimal text it is, non-negative and below 10^(digits); a seconds uptime goes through convertSecsToMillis; the date-time is never read |
| `LinePattern.MatchShape` | src/main/java/org/eclipselabs/garbagecat/domain/jdk/unified/UnifiedParNewEvent.java:139-143 | on an exact match, the captured fragments fit the shape's holes in kind and order, and filling the shape with them gives the line back |
| `LinePattern.MatchShapeFill` | src/main/java/org/eclipselabs/garbagecat/domain/jdk/unified/UnifiedParNewEvent.java:139-143 | every filled shape matches exactly and captures the fragments it was filled with |
| `LinePattern.FillFragments` | src/main/java/org/eclipselabs/garbagecat/domain/jdk/unified/UnifiedParNewEvent.java:139-143 | a filled line contains exactly the given fragments, in order |
| `LinePattern.Matches` | src/main/java/org/eclipselabs/garbagecat/domain/jdk/unified/UnifiedParNewEvent.java:285-287 | a whole-line match means the line is the filled shape followed by some number of blanks |
| `LinePattern.MatchesFillSpaces` | src/main/java/org/eclipselabs/garbagecat/domain/jdk/unified/UnifiedParNewEvent.java:144 | a filled shape followed by any number of blanks matches as a whole line, with its own fragments |
| `LinePattern.TextFirstNoMatch` | src/main/java/org/eclipselabs/garbagecat/domain/jdk/unified/UnifiedParNewEvent.java:139 | a line that starts with plain text never matches a pattern that starts with the decorator |
| `LinePattern.FindFrom` | src/main/java/org/eclipselabs/garbagecat/domain/jdk/unified/UnifiedParNewEvent.java:156 | the search from position i returns the first position at or after i where the rest matches, or says no such position exists |
| `LinePattern.Find` | src/main/java/org/eclipselabs/garbagecat/domain/jdk/unified/UnifiedParNewEvent.java:155-156 | find returns the leftmost position where the rest of the line matches, only position 0 for an anchored pattern, and position 0 whenever the whole line matches |
| `LinePattern.FindAt` | src/main/java/org/eclipselabs/garbagecat/domain/jdk/unified/UnifiedParNewEvent.java:156 | if the rest matches at i and nowhere before i, find reports i and the fragments captured there |
| `UnifiedParNew.ShapeHoles` | src/main/java/org/eclipselabs/garbagecat/domain/jdk/unified/UnifiedParNewEvent.java:139-143 | the UNIFIED_PAR_NEW line shape captures a decorator, a GC number, twelve sizes, a duration and the times, in that order |
| `UnifiedParNew.MatchCaptures` | src/main/java/org/eclipselabs/garbagecat/domain/jdk/unified/UnifiedParNewEvent.java:285-287 | a whole-line match yields captures whose canonical line, followed by blanks, is the input |
| `UnifiedParNew.Match` | src/main/java/org/eclipselabs/garbagecat/domain/jdk/unified/UnifiedParNewEvent.java:285-287 | `match` accepts only a canonical line of some captures followed by blanks (`MatchIff` gives the converse) |
| `UnifiedParNew.MatchRendered` | src/main/java/org/eclipselabs/garbagecat/domain/jdk/unified/UnifiedParNewEvent.java:139-144 | the canonical line of any captures, with trailing blanks, matches and yields those same captures |
| `UnifiedParNew.MatchIff` | src/main/java/org/eclipselabs/garbagecat/domain/jdk/unified/UnifiedParNewEvent.java:285-287 | match holds exactly for the canonical lines followed by blanks; the trigger must be Allocation Failure and nothing may come before the decorator |
| `UnifiedParNew.FindCaptures` | src/main/java/org/eclipselabs/garbagecat/domain/jdk/unified/UnifiedParNewEvent.java:155-156 | find yields the captures of the leftmost suffix that matches as a whole, or none when no suffix matches; a whole-line match is found unchanged |
| `UnifiedParNew.FromLogEntry` | src/main/java/org/eclipselabs/garbagecat/domain/jdk/unified/UnifiedParNewEvent.java:153-176 | the log entry is kept verbatim. When find locates no matching suffix, every other field keeps its default. When find succeeds: the millis uptime, read as an integer, wins the timestamp, else the converted seconds; ParNew, CMS and Metaspace triples feed young, old and perm in that order; duration, user and real come from their captures |
| `UnifiedParNew.Kilobytes` | src/main/java/org/eclipselabs/garbagecat/domain/jdk/unified/UnifiedParNewEvent.java:163-171 | a size capture becomes calcKilobytes of the number whose decimal text its magnitude is, with its own unit character |
| `UnifiedParNew.FromValues` | src/main/java/org/eclipselabs/garbagecat/domain/jdk/unified/UnifiedParNewEvent.java:188-192 | the alternate constructor sets log entry, timestamp and duration, and every other field keeps its default |
| `UnifiedParNew.SetPermOccupancyInit` | src/main/java/org/eclipselabs/garbagecat/domain/jdk/unified/UnifiedParNewEvent.java:230-236 | getPermOccupancyInit returns the new value and no other field changes |
| `UnifiedParNew.SetPermOccupancyEnd` | src/main/java/org/eclipselabs/garbagecat/domain/jdk/unified/UnifiedParNewEvent.java:238-244 | getPermOccupancyEnd returns the new value and no other field changes |
| `UnifiedParNew.SetPermSpace` | src/main/java/org/eclipselabs/garbagecat/domain/jdk/unified/UnifiedParNewEvent.java:246-252 | getPermSpace returns the new value and no other field changes |
| `UnifiedParNew.SetTrigger` | src/main/java/org/eclipselabs/garbagecat/domain/jdk/unified/UnifiedParNewEvent.java:258-264 | getTrigger returns the new value and no other field changes |
| `UnifiedParNew.UnifiedParNewEvent.Parallelism` | src/main/java/org/eclipselabs/garbagecat/domain/jdk/unified/UnifiedParNewEvent.java:274-276 | parallelism is never stored: it is calcParallelism of the event's User and Real times (`RenderedLine` ties it to the captured texts) |
| `UnifiedParNew.UnifiedParNewEvent.Name` | src/main/java/org/eclipselabs/garbagecat/domain/jdk/unified/UnifiedParNewEvent.java:254-256 | the name is UNIFIED_PAR_NEW for every event |
| `UnifiedParNew.RenderedLine` | src/main/java/org/eclipselabs/garbagecat/domain/jdk/unified/UnifiedParNewEvent.java:274-276 | a canonical line with trailing blanks matches, fills every field from its captures, and its parallelism is calcParallelism of the converted User and Real times |
| `UnifiedParNew.LeadingText` | src/main/java/org/eclipselabs/garbagecat/domain/jdk/unified/UnifiedParNewEvent.java:155-156 | with text that cannot belong to the decorator before a canonical line, match fails, yet the constructor (find) still fills every field from the captures that follow |
| `UnifiedParNew.IgnoredCaptures` | src/main/java/org/eclipselabs/garbagecat/domain/jdk/unified/UnifiedParNewEvent.java:163-174 | the combined-heap triple, the Sys time, the GC number and the date-time feed no field: lines differing only there give events differing only in the log entry |
| `UnifiedParNew.MatchNeedsFourTriples` | src/main/java/org/eclipselabs/garbagecat/domain/jdk/unified/UnifiedParNewEvent.java:142-143 | a matching line carries sixteen fragments, twelve of them sizes, so the combined-heap triple must be present |
| `UnifiedParNew.DocumentedExample` | src/main/java/org/eclipselabs/garbagecat/domain/jdk/unified/UnifiedParNewEvent.java:47 | the documented line matches; young 974/128/1152, old 0/518/960 and perm 250/250/1056768 K go through calcKilobytes, with duration from "3.544" and timestamp from "0.049" s |
| `UsingShenandoah.UsingShenandoahEvent.Name` | src/main/java/org/eclipselabs/garbagecat/domain/jdk/unified/UsingShenandoahEvent.java:107-109 | the name is USING_SHENANDOAH for every event |
| `UsingShenandoah.ShapeHoles` | src/main/java/org/eclipselabs/garbagecat/domain/jdk/unified/UsingShenandoahEvent.java:66 | the banner shape captures exactly one fragment, the decorator |
| `UsingShenandoah.MatchDecorator` | src/main/java/org/eclipselabs/garbagecat/domain/jdk/unified/UsingShenandoahEvent.java:122-124 | a whole-line match yields a decorator whose banner line, followed by blanks, is the input |
| `UsingShenandoah.Match` | src/main/java/org/eclipselabs/garbagecat/domain/jdk/unified/UsingShenandoahEvent.java:122-124 | `match` accepts only the banner of some decorator followed by blanks (`MatchIff` gives the converse) |
| `UsingShenandoah.MatchRendered` | src/main/java/org/eclipselabs/garbagecat/domain/jdk/unified/UsingShenandoahEvent.java:66 | a banner with any trailing blanks matches and yields its own decorator |
| `UsingShenandoah.MatchIff` | src/main/java/org/eclipselabs/garbagecat/domain/jdk/unified/UsingShenandoahEvent.java:66 | match holds exactly for a decorator, " Using Shenandoah" and blanks, with nothing before or after |
| `UsingShenandoah.FromLogEntry` | src/main/java/org/eclipselabs/garbagecat/domain/jdk/unified/UsingShenandoahEvent.java:86-101 | the log entry is kept verbatim; without a whole-line match the timestamp is 0, otherwise the millis uptime read as an integer, else the converted seconds |
| `UsingShenandoah.RenderedBanner` | src/main/java/org/eclipselabs/garbagecat/domain/jdk/unified/UsingShenandoahEvent.java:89-98 | a banner line with trailing blanks matches and is timed by its decorator's uptime |
| `UsingShenandoah.LeadingText` | src/main/java/org/eclipselabs/garbagecat/domain/jdk/unified/UsingShenandoahEvent.java:89 | with text that cannot belong to the decorator in front of the banner, match fails and the timestamp stays 0 |
| `UsingShenandoah.MillisBanner` | src/main/java/org/eclipselabs/garbagecat/domain/jdk/unified/UsingShenandoahEvent.java:93-95 | with an uptime of n ms the timestamp is n, whatever the conversions and the date-time |
| `UsingShenandoah.DocumentedExamples` | src/main/java/org/eclipselabs/garbagecat/domain/jdk/unified/UsingShenandoahEvent.java:39-55 | "[0.006s]" gives convertSecsToMillis("0.006"); "[2019-02-05T14:47:31.092-0200][4ms]" gives 4 |

## Left out

- Regular-expression fragments are not modelled. `UnifiedLogging.DECORATOR`, `JdkRegEx.GC_EVENT_NUMBER`, `JdkRegEx.SIZE`, `JdkRegEx.DURATION_JDK9`, `JdkRegEx.TIMESTAMP_MILLIS` and `TimesData.REGEX_JDK9` are opaque, already-recognised fragments. So a match or search cannot start or end inside a fragment's text.
- The split of a line into plain characters and fragments is given, not computed. A log line is a sequence of characters and already-recognised fragments, and the model takes that split as its input; it does not decide which characters a fragment's regular expression would claim.
- UnifiedParNew.LeadingText: a plain-text prefix is never read as part of the decorator. In Java the decorator can absorb leading text such as a `[date-time]` bracket, so the lemma speaks only of text that cannot belong to the decorator.
- UsingShenandoah.LeadingText: a plain-text prefix is never read as part of the decorator. Split as plain `[2019-02-05T14:47:31.092-0200]` text before a `[4ms]` decorator, the documented banner gets timestamp 0 here, while Java reads the bracket as part of the decorator and returns 4 (`DocumentedExamples`).
- The decorator's log level and tags (`[info][gc,start ]`) are not modelled. No field is read from them.
- Group layout is assumed, not checked. Groups 60 and 61 are taken to be the User= and Real= values, as the field names say. The group order inside `TimesData.REGEX_JDK9` is not part of this model.
- Group 23 and the other middle group of each `SIZE` capture are not modelled. The events never read them.
- The trigger is the literal text `Allocation Failure`. `JdkRegEx.TRIGGER_ALLOCATION_FAILURE` is not part of this model; the text comes from the documented example line (UnifiedParNewEvent.java:47). Group 21 therefore always captures exactly this text.
- The `JdkMath` conversions and `calcParallelism` are parameters, not definitions. Their decimal and floating-point arithmetic is outside the model. The truncation by `longValue()` / `intValue()` is part of each parameter.
- Java integer widths are not modelled. `Long.parseLong` and `Integer.parseInt` are applied only to digit strings, so there is no sign. Overflow and `NumberFormatException` are not modelled. The alternate constructor's `long` / `int` arguments are unbounded integers.
- Java's `$` also matches just before a final line terminator. This is not modelled, because a preprocessed line has no terminator.
- A Java field is renamed. Its field `old` is `oldGen` here, because `old` is a Dafny keyword. The getter `OldOccupancyInit` reads it.
- Getters that only return their field (`getLogEntry`, `getDuration`, `getYoungSpace`, ...) are datatype members without contracts of their own. The constructor contracts are stated through them.
- Collector base classes and marker interfaces are not modelled: `ParallelCollector`, `ShenandoahCollector`, `UnifiedLogging`, `BlockingEvent`, `YoungCollection`, `ParallelEvent`, `YoungData`, `OldData`, `TriggerData`, `TimesData`. They carry no logic here. The `PermData` getter contract is mirrored by `PermOccupancyInit`, `PermOccupancyEnd` and `PermSpace` of the ParNew event.
