/**
 The part of `java.util.regex` the events rely on, for patterns of the form
 `[^] F1 lit F2 lit ... Fn [ ]*$`: a fixed sequence of literal texts and
 fragments, optionally anchored at the start, with trailing blanks allowed.
 `Matches` is `Matcher.matches()` (the whole line) and `Find` is
 `Matcher.find()` (the leftmost start from which the rest of the line matches;
 every pattern here ends in `$`).
 */
module LinePattern {
  import opened Wrappers
  import opened LogLine

  /** One element of a line shape: literal text, or a fragment of the given kind. */
  datatype Slot = Lit(text: string) | Hole(kind: FragmentKind)

  /** The kinds of the fragments a shape captures, in order. */
  function Holes(shape: seq<Slot>): seq<FragmentKind>
    decreases |shape|
  {
    if |shape| == 0 then []
    else match shape[0]
      case Lit(_) => Holes(shape[1..])
      case Hole(k) => [k] + Holes(shape[1..])
  }

  /** The holes of two shapes side by side are the holes of each, in order. */
  lemma {:induction false} HolesAppend(a: seq<Slot>, b: seq<Slot>)
    ensures Holes(a + b) == Holes(a) + Holes(b)
    decreases |a|
  {
    if |a| > 0 {
      assert (a + b)[1..] == a[1..] + b;
      HolesAppend(a[1..], b);
    } else {
      assert a + b == b;
    }
  }

  /** The fragments fs fill the holes of shape, one each and of the right kind. */
  predicate Fits(shape: seq<Slot>, fs: seq<Fragment>) {
    |fs| == |Holes(shape)| && forall i :: 0 <= i < |fs| ==> fs[i].Kind() == Holes(shape)[i]
  }

  lemma FitsTail(shape: seq<Slot>, fs: seq<Fragment>)
    requires |shape| > 0 && shape[0].Hole? && Fits(shape, fs)
    ensures |fs| > 0 && fs[0].Kind() == shape[0].kind && Fits(shape[1..], fs[1..])
  {
    assert Holes(shape) == [shape[0].kind] + Holes(shape[1..]);
    assert fs[0].Kind() == Holes(shape)[0];
    forall i | 0 <= i < |fs| - 1
      ensures fs[1..][i].Kind() == Holes(shape[1..])[i]
    {
      assert fs[1..][i] == fs[i + 1];
      assert Holes(shape)[i + 1] == Holes(shape[1..])[i];
    }
  }

  /** The line a shape denotes once its holes are filled with fs. */
  function Fill(shape: seq<Slot>, fs: seq<Fragment>): Line
    requires Fits(shape, fs)
    decreases |shape|
  {
    if |shape| == 0 then []
    else match shape[0]
      case Lit(text) => Chars(text) + Fill(shape[1..], fs)
      case Hole(k) =>
        FitsTail(shape, fs);
        [Frag(fs[0])] + Fill(shape[1..], fs[1..])
  }

  /**
   Matching a line against a shape exactly: when it succeeds, the captured
   fragments fit the shape and filling the shape with them gives the line back.
   */
  function MatchShape(shape: seq<Slot>, s: Line): (r: Option<seq<Fragment>>)
    ensures r.Some? ==> Fits(shape, r.value) && s == Fill(shape, r.value)
    decreases |shape|
  {
    if |shape| == 0 then
      if |s| == 0 then Some([]) else None
    else match shape[0]
      case Lit(text) =>
        if |text| <= |s| && s[..|text|] == Chars(text) then
          var r := MatchShape(shape[1..], s[|text|..]);
          assert r.Some? ==> s == Chars(text) + s[|text|..];
          r
        else None
      case Hole(k) =>
        if |s| > 0 && s[0].Frag? && s[0].f.Kind() == k then
          match MatchShape(shape[1..], s[1..])
          case Some(fs) =>
            var all := [s[0].f] + fs;
            assert all[1..] == fs;
            assert Holes(shape) == [k] + Holes(shape[1..]);
            assert Fits(shape, all) by {
              forall i | 0 <= i < |all|
                ensures all[i].Kind() == Holes(shape)[i]
              {
                if i > 0 {
                  assert all[i] == fs[i - 1];
                }
              }
            }
            assert s == [s[0]] + s[1..];
            Some(all)
          case None => None
        else None
  }

  /** A shape matches exactly the lines obtained by filling it. */
  lemma {:induction false} MatchShapeFill(shape: seq<Slot>, fs: seq<Fragment>)
    requires Fits(shape, fs)
    ensures MatchShape(shape, Fill(shape, fs)) == Some(fs)
    decreases |shape|
  {
    if |shape| > 0 {
      var s := Fill(shape, fs);
      match shape[0]
      case Lit(text) =>
        assert s[..|text|] == Chars(text);
        assert s[|text|..] == Fill(shape[1..], fs);
        MatchShapeFill(shape[1..], fs);
      case Hole(k) =>
        FitsTail(shape, fs);
        assert s[1..] == Fill(shape[1..], fs[1..]);
        MatchShapeFill(shape[1..], fs[1..]);
        assert [fs[0]] + fs[1..] == fs;
    }
  }

  /** Filling a shape places exactly the given fragments in the line, in order. */
  lemma {:induction false} FillFragments(shape: seq<Slot>, fs: seq<Fragment>)
    requires Fits(shape, fs)
    ensures Fragments(Fill(shape, fs)) == fs
    decreases |shape|
  {
    if |shape| > 0 {
      match shape[0]
      case Lit(text) =>
        FragmentsOfText(Chars(text));
        FragmentsAppend(Chars(text), Fill(shape[1..], fs));
        FillFragments(shape[1..], fs);
      case Hole(k) =>
        FitsTail(shape, fs);
        FragmentsAppend([Frag(fs[0])], Fill(shape[1..], fs[1..]));
        FillFragments(shape[1..], fs[1..]);
        assert Fragments([Frag(fs[0])]) == [fs[0]];
        assert [fs[0]] + fs[1..] == fs;
    }
  }

  /** The shape ends in a fragment or in literal text whose last character is not a blank. */
  predicate EndsWithoutBlank(shape: seq<Slot>) {
    |shape| > 0 &&
    match shape[|shape| - 1]
    case Hole(_) => true
    case Lit(t) => |t| > 0 && t[|t| - 1] != ' '
  }

  /** A line filled from such a shape does not end in a blank. */
  lemma {:induction false} FillEndsWithoutBlank(shape: seq<Slot>, fs: seq<Fragment>)
    requires Fits(shape, fs) && EndsWithoutBlank(shape)
    ensures |Fill(shape, fs)| > 0 && Fill(shape, fs)[|Fill(shape, fs)| - 1] != Ch(' ')
    decreases |shape|
  {
    var s := Fill(shape, fs);
    if |shape| > 1 {
      assert shape[1..][|shape[1..]| - 1] == shape[|shape| - 1];
      match shape[0]
      case Lit(text) =>
        FillEndsWithoutBlank(shape[1..], fs);
      case Hole(k) =>
        FitsTail(shape, fs);
        FillEndsWithoutBlank(shape[1..], fs[1..]);
    } else {
      assert shape[1..] == [];
      match shape[0]
      case Lit(text) =>
        assert s == Chars(text) + [];
      case Hole(k) =>
        FitsTail(shape, fs);
    }
  }

  /** A compiled pattern: `anchored` is a leading `^`; every pattern ends in `[ ]*$`. */
  datatype Pattern = Pattern(anchored: bool, shape: seq<Slot>)

  /**
   `Matcher.matches()`: the whole line, up to trailing blanks, has the shape;
   the result is the captured fragments.
   */
  function Matches(p: Pattern, s: Line): (r: Option<seq<Fragment>>)
    ensures r.Some? ==> Fits(p.shape, r.value)
    ensures r.Some? ==> exists k: nat :: s == Fill(p.shape, r.value) + Spaces(k)
  {
    var t := StripTrailingSpaces(s);
    var r := MatchShape(p.shape, t);
    assert s == t + Spaces(|s| - |t|);
    r
  }

  /** Every filled shape followed by any number of blanks matches, with its own fragments. */
  lemma MatchesFillSpaces(p: Pattern, fs: seq<Fragment>, k: nat)
    requires EndsWithoutBlank(p.shape) && Fits(p.shape, fs)
    ensures Matches(p, Fill(p.shape, fs) + Spaces(k)) == Some(fs)
  {
    var t := Fill(p.shape, fs);
    FillEndsWithoutBlank(p.shape, fs);
    StripTrailingSpacesUnique(t, t);
    StripAppendedSpaces(t, k);
    MatchShapeFill(p.shape, fs);
  }

  /** A line whose first piece is plain text never matches a shape that opens with a fragment. */
  lemma TextFirstNoMatch(p: Pattern, s: Line)
    requires |p.shape| > 0 && p.shape[0].Hole? && |s| > 0 && s[0].Ch?
    ensures Matches(p, s).None?
  {
    var t := StripTrailingSpaces(s);
    if |t| > 0 {
      assert t[0] == s[0];
    }
  }

  /** Leftmost start at or after i from which the rest of the line matches. */
  function FindFrom(p: Pattern, s: Line, i: nat): (r: Option<(nat, seq<Fragment>)>)
    requires i <= |s|
    ensures r.Some? ==> i <= r.value.0 <= |s| && Matches(p, s[r.value.0..]) == Some(r.value.1)
    ensures r.Some? ==> forall j :: i <= j < r.value.0 ==> Matches(p, s[j..]).None?
    ensures r.None? ==> forall j :: i <= j <= |s| ==> Matches(p, s[j..]).None?
    decreases |s| - i
  {
    match Matches(p, s[i..])
    case Some(fs) => Some((i, fs))
    case None => if i == |s| then None else FindFrom(p, s, i + 1)
  }

  /**
   `Matcher.find()`: the leftmost start position from which the rest of the line
   matches, with the fragments captured there. An anchored pattern is tried at
   the start of the line only. A line that matches as a whole is found at 0.
   */
  function Find(p: Pattern, s: Line): (r: Option<(nat, seq<Fragment>)>)
    ensures r.Some? ==> r.value.0 <= |s| && Matches(p, s[r.value.0..]) == Some(r.value.1)
    ensures r.Some? ==> forall j :: 0 <= j < r.value.0 ==> Matches(p, s[j..]).None?
    ensures r.Some? && p.anchored ==> r.value.0 == 0
    ensures r.None? ==> forall j :: 0 <= j <= |s| && (j == 0 || !p.anchored) ==> Matches(p, s[j..]).None?
    ensures Matches(p, s).Some? ==> r == Some((0, Matches(p, s).value))
  {
    assert s[0..] == s;
    if p.anchored then
      match Matches(p, s)
      case Some(fs) => Some((0, fs))
      case None => None
    else
      FindFrom(p, s, 0)
  }

  /** `find` reports the first position from which the rest of the line matches. */
  lemma FindAt(p: Pattern, s: Line, i: nat)
    requires i <= |s| && Matches(p, s[i..]).Some? && (i == 0 || !p.anchored)
    requires forall j :: 0 <= j < i ==> Matches(p, s[j..]).None?
    ensures Find(p, s) == Some((i, Matches(p, s[i..]).value))
  {
  }
}
