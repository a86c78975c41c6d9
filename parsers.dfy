/** The command-line readers of `chromatic.cpp`: a note from its name, a
    chord from a note name and a chord suffix, and a scale from a note name
    with an optional minor mark. */
module Parsers {
  import opened Text
  import opened Types
  import opened Chords
  import opened Scales

  /** `s` is the sharp or the flat name of note i, ignoring case. */
  predicate NameMatches(s: string, i: Note)
  {
    IEquals(s, SharpNames[i]) || IEquals(s, FlatNames[i])
  }

  /** The first note from i on whose name `s` matches, or C when none does. */
  function FirstMatch(s: string, i: nat): (n: Note)
    requires i <= 12
    ensures (i <= n && NameMatches(s, n) && forall j: Note :: i <= j < n ==> !NameMatches(s, j)) ||
            (n == NoteC && forall j: Note :: i <= j ==> !NameMatches(s, j))
    decreases 12 - i
  {
    if i == 12 then NoteC
    else if NameMatches(s, i) then i
    else FirstMatch(s, i + 1)
  }

  /** noteFromString: the first note (in the order of the Note enumeration)
      whose sharp or flat name equals `s` up to case; C when there is none. */
  function ParseNote(s: string): (n: Note)
    ensures (NameMatches(s, n) && forall j: Note :: j < n ==> !NameMatches(s, j)) ||
            (n == NoteC && forall j: Note :: !NameMatches(s, j))
  {
    FirstMatch(s, 0)
  }

  /** No text is the name of two notes, whatever the case and the tables. */
  lemma OneNoteMatches(s: string, a: Note, b: Note)
    requires NameMatches(s, a) && NameMatches(s, b)
    ensures a == b
  {
    if a != b {
      var x := if IEquals(s, SharpNames[a]) then SharpNames[a] else FlatNames[a];
      var y := if IEquals(s, SharpNames[b]) then SharpNames[b] else FlatNames[b];
      IEqualsSymmetric(s, x);
      IEqualsTransitive(x, s, y);
      IEqualsSymmetric(x, y);
      // the two names are alike, which the name tables rule out
      NameTables();
    }
  }

  /** A text that names note n, in either spelling and any case, reads as n:
      the order of the search never matters. */
  lemma ParseNoteExact(s: string, n: Note)
    requires NameMatches(s, n)
    ensures ParseNote(s) == n
  {
    OneNoteMatches(s, ParseNote(s), n);
  }

  /** Every name in both tables reads back as its note. */
  lemma NoteRoundTrip(n: Note)
    ensures ParseNote(SharpNames[n]) == n && ParseNote(FlatNames[n]) == n
  {
    IEqualsReflexive(SharpNames[n]);
    IEqualsReflexive(FlatNames[n]);
    ParseNoteExact(SharpNames[n], n);
    ParseNoteExact(FlatNames[n], n);
  }

  /** For example, case is ignored. */
  lemma NoteExamples()
    ensures ParseNote("c#") == NoteCs && ParseNote("EB") == NoteEf && ParseNote("g") == NoteG
  {
    assert NameMatches("c#", NoteCs) && NameMatches("EB", NoteEf) && NameMatches("g", NoteG);
    ParseNoteExact("c#", NoteCs);
    ParseNoteExact("EB", NoteEf);
    ParseNoteExact("g", NoteG);
  }

  /** A text longer than every note name names no note and reads as C. */
  lemma LongTextIsC(s: string)
    requires |s| > 2
    ensures ParseNote(s) == NoteC
  {
    NameShape(ParseNote(s));
  }

  /** The empty text names no note and reads as C. */
  lemma EmptyTextIsC()
    ensures ParseNote("") == NoteC
  {
    NameShape(ParseNote(""));
  }

  /** "Cb", though it could spell a note, is in neither table and reads as C. */
  lemma CFlatIsC()
    ensures ParseNote("Cb") == NoteC
  {
    NameShape(ParseNote("Cb"));
  }

  /** Nor is "E#" in either table. */
  lemma ESharpIsC()
    ensures ParseNote("E#") == NoteC
  {
    NameShape(ParseNote("E#"));
  }

  /** noteFromString's loop over the twelve notes, returning at the first
      match. */
  method NoteFromString(s: string) returns (n: Note)
    ensures n == ParseNote(s)
  {
    for i := 0 to 12
      invariant forall j: Note :: j < i ==> !NameMatches(s, j)
    {
      if IEquals(s, SharpNames[i]) || IEquals(s, FlatNames[i]) {
        ParseNoteExact(s, i);
        return i;
      }
    }
    n := NoteC;
  }

  /** A chord text cut in two: the chord type its suffix gives, and the
      text that is left for the root. */
  datatype SplitChord = SplitChord(kind: ChordType, rest: string)

  /** The suffix test of chordFromString. A text longer than four characters
      is examined only for the "sus4" and "sus2" endings; one of two to four
      characters only for a last character "m", "a" or "o"; a text of one
      character or none is Major. The matched suffix is cut off. */
  function ChordSplit(s: string): (r: SplitChord)
    ensures |r.rest| <= |s| && r.rest == s[..|r.rest|]
    ensures IEquals(s[|r.rest|..], ChordSuffixes[ChordIndex(r.kind)])
    ensures |s| <= 1 ==> r == SplitChord(Major, s)
    ensures |s| > 4 ==> r.kind in {Major, SuspendedFourth, SuspendedSecond}
    ensures 1 < |s| <= 4 ==> r.kind in {Major, Minor, Augmented, Diminished}
  {
    if |s| > 1 then
      if |s| > 4 then
        var suf := s[|s| - 4..];
        if IEquals(suf, "sus4") then SplitChord(SuspendedFourth, s[..|s| - 4])
        else if IEquals(suf, "sus2") then SplitChord(SuspendedSecond, s[..|s| - 4])
        else SplitChord(Major, s)
      else
        var suf := s[|s| - 1..];
        if IEquals(suf, "m") then SplitChord(Minor, s[..|s| - 1])
        else if IEquals(suf, "a") then SplitChord(Augmented, s[..|s| - 1])
        else if IEquals(suf, "o") then SplitChord(Diminished, s[..|s| - 1])
        else SplitChord(Major, s)
    else SplitChord(Major, s)
  }

  /** A suffix the test looks for is found: it gives its chord type and is
      cut off. */
  lemma ChordSplitFindsSuffix(s: string, k: ChordType)
    ensures (|s| > 4 && (k == SuspendedFourth || k == SuspendedSecond) &&
             IEquals(s[|s| - 4..], ChordSuffixes[ChordIndex(k)])) ==>
      ChordSplit(s) == SplitChord(k, s[..|s| - 4])
    ensures (1 < |s| <= 4 && (k == Minor || k == Augmented || k == Diminished) &&
             IEquals(s[|s| - 1..], ChordSuffixes[ChordIndex(k)])) ==>
      ChordSplit(s) == SplitChord(k, s[..|s| - 1])
  {
    if |s| > 4 && (k == SuspendedFourth || k == SuspendedSecond) &&
       IEquals(s[|s| - 4..], ChordSuffixes[ChordIndex(k)]) {
      var suf := s[|s| - 4..];
      if k == SuspendedSecond && IEquals(suf, "sus4") {
        IEqualsSymmetric(suf, "sus4");
        IEqualsTransitive("sus4", suf, "sus2");
      }
    }
    if 1 < |s| <= 4 && (k == Minor || k == Augmented || k == Diminished) &&
       IEquals(s[|s| - 1..], ChordSuffixes[ChordIndex(k)]) {
      // a one-character suffix matches at most one of "m", "a" and "o"
    }
  }

  /** chordFromString as a value: the triad on the note the rest names, of
      the type the suffix gives. */
  function ParseChord(s: string): (r: Triad)
    ensures r == MakeTriad(r.first, r.kind)
    ensures |ChordSuffixes[ChordIndex(r.kind)]| <= |s|
    ensures IEquals(s[|s| - |ChordSuffixes[ChordIndex(r.kind)]|..], ChordSuffixes[ChordIndex(r.kind)])
    ensures r.first == ParseNote(s[..|s| - |ChordSuffixes[ChordIndex(r.kind)]|])
    ensures |s| <= 1 ==> r == MakeTriad(ParseNote(s), Major)
  {
    var split := ChordSplit(s);
    MakeTriad(ParseNote(split.rest), split.kind)
  }

  /** A note name and a chord suffix don't run into each other: no name is
      longer than two characters, and a two-character name ends in '#' or
      'b', which is no chord suffix. */
  lemma NameShape(n: Note)
    ensures 1 <= |SharpNames[n]| <= 2 && 1 <= |FlatNames[n]| <= 2
    ensures |SharpNames[n]| == 2 ==> SharpNames[n][1] == '#'
    ensures |FlatNames[n]| == 2 ==> FlatNames[n][1] == 'b'
  {
  }

  /** A root text of one or two characters, the second of which is no chord
      suffix, followed by a chord type's suffix, splits back into the two. */
  lemma ChordSplitOfNamed(name: string, k: ChordType)
    requires 1 <= |name| <= 2 && (|name| == 2 ==> name[1] == '#' || name[1] == 'b')
    ensures ChordSplit(name + ChordSuffixes[ChordIndex(k)]) == SplitChord(k, name)
  {
    var suf := ChordSuffixes[ChordIndex(k)];
    if k == Major {
      BareNameSplit(name);
    } else if k == SuspendedFourth || k == SuspendedSecond {
      FoundSuffixSplit(name, suf, k);
    } else {
      FoundSuffixSplit(name, suf, k);
    }
  }

  /** A bare root text has no suffix to cut. */
  lemma BareNameSplit(name: string)
    requires 1 <= |name| <= 2 && (|name| == 2 ==> name[1] == '#' || name[1] == 'b')
    ensures ChordSplit(name + ChordSuffixes[ChordIndex(Major)]) == SplitChord(Major, name)
  {
    assert name + ChordSuffixes[ChordIndex(Major)] == name;
    if |name| == 2 {
      assert name[|name| - 1..] == [name[1]];
    }
  }

  /** A root text with a non-empty suffix gives the suffix's chord type. */
  lemma FoundSuffixSplit(name: string, suf: string, k: ChordType)
    requires 1 <= |name| <= 2 && k != Major && suf == ChordSuffixes[ChordIndex(k)]
    ensures ChordSplit(name + suf) == SplitChord(k, name)
  {
    var s := name + suf;
    IEqualsReflexive(suf);
    if k == SuspendedFourth || k == SuspendedSecond {
      assert s[|s| - 4..] == suf && s[..|s| - 4] == name;
    } else {
      assert s[|s| - 1..] == suf && s[..|s| - 1] == name;
    }
    ChordSplitFindsSuffix(s, k);
  }

  /** A note name followed by a chord type's suffix gives that chord. */
  lemma ChordRoundTrip(n: Note, k: ChordType, name: string)
    requires name == SharpNames[n] || name == FlatNames[n]
    ensures ParseChord(name + ChordSuffixes[ChordIndex(k)]) == MakeTriad(n, k)
  {
    NameShape(n);
    ChordSplitOfNamed(name, k);
    NoteRoundTrip(n);
  }

  /** For example, "Cm" is C minor. */
  lemma CMinorText()
    ensures ParseChord("Cm") == MakeTriad(NoteC, Minor)
  {
    calc {
      ParseChord("Cm");
      { assert "Cm" == SharpNames[NoteC] + ChordSuffixes[ChordIndex(Minor)]; }
      ParseChord(SharpNames[NoteC] + ChordSuffixes[ChordIndex(Minor)]);
      { ChordRoundTrip(NoteC, Minor, SharpNames[NoteC]); }
      MakeTriad(NoteC, Minor);
    }
  }

  /** "Gsus4" is G suspended fourth. */
  lemma GSuspendedFourthText()
    ensures ParseChord("Gsus4") == MakeTriad(NoteG, SuspendedFourth)
  {
    calc {
      ParseChord("Gsus4");
      { assert "Gsus4" == SharpNames[NoteG] + ChordSuffixes[ChordIndex(SuspendedFourth)]; }
      ParseChord(SharpNames[NoteG] + ChordSuffixes[ChordIndex(SuspendedFourth)]);
      { ChordRoundTrip(NoteG, SuspendedFourth, SharpNames[NoteG]); }
      MakeTriad(NoteG, SuspendedFourth);
    }
  }

  /** "f#o", in lower case, is F-sharp diminished. */
  lemma FSharpDiminishedText()
    ensures ParseChord("f#o") == MakeTriad(NoteFs, Diminished)
  {
    calc {
      ParseChord("f#o");
      { assert "f#o" == "f#" + ChordSuffixes[ChordIndex(Diminished)]; ChordSplitOfNamed("f#", Diminished); }
      MakeTriad(ParseNote("f#"), Diminished);
      { assert NameMatches("f#", NoteFs); ParseNoteExact("f#", NoteFs); }
      MakeTriad(NoteFs, Diminished);
    }
  }

  /** The naive suffix test reads "sus4" (four characters, and not a note
      name) as C major, and "Cmaj" as C major too, its last character being
      no suffix. */
  lemma ChordQuirks()
    ensures ParseChord("sus4") == MakeTriad(NoteC, Major)
    ensures ParseChord("Cmaj") == MakeTriad(NoteC, Major)
  {
    assert ChordSplit("sus4") == SplitChord(Major, "sus4");
    LongTextIsC("sus4");
    assert ChordSplit("Cmaj") == SplitChord(Major, "Cmaj");
    LongTextIsC("Cmaj");
  }

  /** A text of one character has no suffix: "m" alone is C major. */
  lemma LoneMarkIsMajor()
    ensures ParseChord("m") == MakeTriad(NoteC, Major)
  {
    NameShape(ParseNote("m"));
  }

  /** chordFromString: cuts the suffix off a working copy of the text and
      reads the root from what is left. */
  method ChordFromString(s: string) returns (t: Triad)
    ensures t == ParseChord(s)
  {
    var str := s;
    var kind := Major;
    if |str| > 1 {
      var suf := str[|str| - 1..];
      if |str| > 4 {
        suf := str[|str| - 4..];
        if IEquals(suf, "sus4") {
          kind := SuspendedFourth;
          str := str[..|str| - 4];
        } else if IEquals(suf, "sus2") {
          kind := SuspendedSecond;
          str := str[..|str| - 4];
        }
      } else if IEquals(suf, "m") {
        kind := Minor;
        str := str[..|str| - 1];
      } else if IEquals(suf, "a") {
        kind := Augmented;
        str := str[..|str| - 1];
      } else if IEquals(suf, "o") {
        kind := Diminished;
        str := str[..|str| - 1];
      }
    }
    var root := NoteFromString(str);
    t := MakeTriad(root, kind);
  }

  /** A computation that returns a value or throws std::out_of_range. */
  datatype Result<T> = Success(value: T) | OutOfRange

  /** What a scale text asks for: a root and a mode. */
  datatype ScaleSpec = ScaleSpec(root: Note, mode: ScaleMode)

  /** scaleFromString as a value. Taking the last character of an empty text
      throws; a last character "m" or "M" asks for the minor mode and is cut
      off; the rest names the root. */
  function ParseScale(s: string): (r: Result<ScaleSpec>)
    ensures r.OutOfRange? <==> s == ""
    ensures r.Success? ==> (r.value.mode == MinorMode <==> Lower(s[|s| - 1]) == 'm')
    ensures r.Success? && r.value.mode == MinorMode ==> r.value.root == ParseNote(s[..|s| - 1])
    ensures r.Success? && r.value.mode == MajorMode ==> r.value.root == ParseNote(s)
  {
    if s == "" then OutOfRange
    else
      IEqualsSingle(s[|s| - 1..], 'm');
      if IEquals(s[|s| - 1..], "m") then Success(ScaleSpec(ParseNote(s[..|s| - 1]), MinorMode))
      else Success(ScaleSpec(ParseNote(s), MajorMode))
  }

  /** A text ending in "m" asks for the minor scale on what comes before. */
  lemma MinorMarkRead(name: string)
    ensures ParseScale(name + "m") == Success(ScaleSpec(ParseNote(name), MinorMode))
  {
    var s := name + "m";
    assert s[|s| - 1] == 'm';
    assert s[..|s| - 1] == name;
  }

  /** No note name ends in "m" or "M". */
  lemma NamesUnmarked(n: Note)
    ensures Lower(SharpNames[n][|SharpNames[n]| - 1]) != 'm'
    ensures Lower(FlatNames[n][|FlatNames[n]| - 1]) != 'm'
  {
  }

  /** A note name alone gives its major scale, and followed by "m" its
      minor scale. */
  lemma ScaleRoundTrip(n: Note, name: string)
    requires name == SharpNames[n] || name == FlatNames[n]
    ensures ParseScale(name) == Success(ScaleSpec(n, MajorMode))
    ensures ParseScale(name + "m") == Success(ScaleSpec(n, MinorMode))
  {
    NameShape(n);
    NamesUnmarked(n);
    NoteRoundTrip(n);
    MinorMarkRead(name);
  }

  /** For example, "Am" is A minor. */
  lemma AMinorText()
    ensures ParseScale("Am") == Success(ScaleSpec(NoteA, MinorMode))
  {
    calc {
      ParseScale("Am");
      { assert "Am" == SharpNames[NoteA] + "m"; }
      ParseScale(SharpNames[NoteA] + "m");
      { ScaleRoundTrip(NoteA, SharpNames[NoteA]); }
      Success(ScaleSpec(NoteA, MinorMode));
    }
  }

  /** "Bb" is B-flat major. */
  lemma BFlatMajorText()
    ensures ParseScale("Bb") == Success(ScaleSpec(NoteBf, MajorMode))
  {
    calc {
      ParseScale("Bb");
      { assert "Bb" == FlatNames[NoteBf]; }
      ParseScale(FlatNames[NoteBf]);
      { ScaleRoundTrip(NoteBf, FlatNames[NoteBf]); }
      Success(ScaleSpec(NoteBf, MajorMode));
    }
  }

  /** The minor mark is read without case, so "CM" is C minor too, and "m"
      alone is C minor; the empty text throws. */
  lemma ScaleMarkQuirks()
    ensures ParseScale("CM") == Success(ScaleSpec(NoteC, MinorMode))
    ensures ParseScale("m") == Success(ScaleSpec(NoteC, MinorMode))
    ensures ParseScale("") == OutOfRange
  {
    assert "CM"[..1] == SharpNames[NoteC];
    NoteRoundTrip(NoteC);
    assert "m"[..0] == "";
    EmptyTextIsC();
  }

  /** scaleFromString: builds the scale the text asks for, or throws on the
      empty text. */
  method ScaleFromString(s: string) returns (r: Result<DiatonicScale>)
    ensures r.OutOfRange? <==> s == ""
    ensures r.Success? ==> r.value.Valid()
    ensures r.Success? ==> ParseScale(s) == Success(ScaleSpec(r.value.notes[0], r.value.mode))
  {
    if |s| == 0 {
      return OutOfRange;
    }
    var str := s;
    var mode := MajorMode;
    if IEquals(str[|str| - 1..], "m") {
      mode := MinorMode;
      str := str[..|str| - 1];
    }
    var note := NoteFromString(str);
    var scale := new DiatonicScale(note, mode);
    r := Success(scale);
  }
}
