/**
 A preprocessed log line. The regular-expression fragments the events build on
 (`UnifiedLogging.DECORATOR`, `JdkRegEx.GC_EVENT_NUMBER`, `JdkRegEx.SIZE`,
 `JdkRegEx.DURATION_JDK9`, `TimesData.REGEX_JDK9`) are not part of this model, so
 a line is a sequence of pieces: plain characters, which the literal parts of a
 pattern compare one by one, and already-recognised fragments carrying the
 groups the events read from them.
 */
module LogLine {
  import opened Decimal
  import opened UnifiedLogging

  /** A `JdkRegEx.SIZE` capture such as "974K": the integer magnitude and the unit character. */
  datatype Size = Size(magnitude: Digits, unit: char)

  datatype FragmentKind = DecoratorKind | GcNumberKind | SizeKind | DurationKind | TimesKind

  datatype Fragment =
    | DecoratorText(decorator: Decorator)
      /** "GC(0)" */
    | GcNumber(number: Digits)
    | SizeText(size: Size)
      /** "3.544ms": the text before "ms" */
    | DurationText(millis: string)
      /** " User=0.01s Sys=0.01s Real=0.01s": the three second values */
    | TimesText(userTime: string, sysTime: string, realTime: string)
  {
    function Kind(): FragmentKind {
      match this
      case DecoratorText(_) => DecoratorKind
      case GcNumber(_) => GcNumberKind
      case SizeText(_) => SizeKind
      case DurationText(_) => DurationKind
      case TimesText(_, _, _) => TimesKind
    }
  }

  datatype Piece = Ch(c: char) | Frag(f: Fragment)

  type Line = seq<Piece>

  /** Plain text as a line. */
  function Chars(text: string): (r: Line)
    ensures |r| == |text|
    ensures forall i :: 0 <= i < |text| ==> r[i] == Ch(text[i])
  {
    seq(|text|, i requires 0 <= i < |text| => Ch(text[i]))
  }

  /** k blanks, what `[ ]*` consumes. */
  function Spaces(k: nat): (r: Line)
    ensures |r| == k
    ensures forall i :: 0 <= i < k ==> r[i] == Ch(' ')
  {
    seq(k, i => Ch(' '))
  }

  /**
   The line without its trailing blanks: the longest prefix that does not end in
   a blank, everything after it being blanks.
   */
  function StripTrailingSpaces(s: Line): (r: Line)
    ensures r <= s
    ensures forall i :: |r| <= i < |s| ==> s[i] == Ch(' ')
    ensures |r| == 0 || r[|r| - 1] != Ch(' ')
    decreases |s|
  {
    if |s| > 0 && s[|s| - 1] == Ch(' ') then StripTrailingSpaces(s[..|s| - 1]) else s
  }

  /** The three properties above determine the stripped line. */
  lemma StripTrailingSpacesUnique(s: Line, r: Line)
    requires r <= s
    requires forall i :: |r| <= i < |s| ==> s[i] == Ch(' ')
    requires |r| == 0 || r[|r| - 1] != Ch(' ')
    ensures r == StripTrailingSpaces(s)
  {
  }

  /** Blanks appended to a line are all stripped again, and nothing else is. */
  lemma StripAppendedSpaces(t: Line, k: nat)
    ensures StripTrailingSpaces(t + Spaces(k)) == StripTrailingSpaces(t)
  {
    var r := StripTrailingSpaces(t);
    var s := t + Spaces(k);
    forall i | |r| <= i < |s|
      ensures s[i] == Ch(' ')
    {
      if i < |t| {
        assert s[i] == t[i];
      }
    }
    StripTrailingSpacesUnique(s, r);
  }

  /** The fragments of a line, in order, without its plain text. */
  function Fragments(s: Line): seq<Fragment>
    decreases |s|
  {
    if |s| == 0 then []
    else (if s[0].Frag? then [s[0].f] else []) + Fragments(s[1..])
  }

  lemma {:induction false} FragmentsAppend(a: Line, b: Line)
    ensures Fragments(a + b) == Fragments(a) + Fragments(b)
    decreases |a|
  {
    if |a| > 0 {
      assert (a + b)[1..] == a[1..] + b;
      FragmentsAppend(a[1..], b);
    } else {
      assert a + b == b;
    }
  }

  /** Plain text holds no fragments. */
  lemma {:induction false} FragmentsOfText(s: Line)
    requires forall i :: 0 <= i < |s| ==> s[i].Ch?
    ensures Fragments(s) == []
    decreases |s|
  {
    if |s| > 0 {
      FragmentsOfText(s[1..]);
    }
  }

  /** How many of the fragments are sizes. */
  function SizeCount(fs: seq<Fragment>): nat
    decreases |fs|
  {
    if |fs| == 0 then 0 else (if fs[0].SizeText? then 1 else 0) + SizeCount(fs[1..])
  }

  lemma {:induction false} SizeCountAppend(a: seq<Fragment>, b: seq<Fragment>)
    ensures SizeCount(a + b) == SizeCount(a) + SizeCount(b)
    decreases |a|
  {
    if |a| > 0 {
      assert (a + b)[1..] == a[1..] + b;
      SizeCountAppend(a[1..], b);
    } else {
      assert a + b == b;
    }
  }
}
