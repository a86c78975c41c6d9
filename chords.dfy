/** Triads: a root and a chord type, with the two notes above the root that
    the type fixes, and the lazily cached display texts of `chromaticChords.h`. */
module Chords {
  import opened Text
  import opened Types

  datatype ChordType = Major | Minor | Augmented | Diminished | SuspendedFourth | SuspendedSecond

  /** The value of the ChordType enumeration, an index into the name tables. */
  function ChordIndex(t: ChordType): (k: nat)
    ensures k < 6
  {
    match t
    case Major => 0
    case Minor => 1
    case Augmented => 2
    case Diminished => 3
    case SuspendedFourth => 4
    case SuspendedSecond => 5
  }

  /** g_chordsFullStr */
  const ChordFullNames: seq<string> :=
    ["Major", "Minor", "Augmented", "Diminished", "Suspended Fourth", "Suspended Second"]

  /** g_chordsSuffixStr: the shorthand suffix of each chord type. */
  const ChordSuffixes: seq<string> := ["", "m", "a", "o", "sus4", "sus2"]

  /** The chord type a value of the enumeration stands for. */
  lemma ChordIndexInjective(s: ChordType, t: ChordType)
    requires ChordIndex(s) == ChordIndex(t)
    ensures s == t
  {
  }

  /** A three-note chord. `first` is the root; `second` and `third` are the
      notes the constructor puts over it. */
  datatype Triad = Triad(first: Note, second: Note, third: Note, kind: ChordType)

  /** How far above the root a chord type puts its second note, in semitones. */
  function SecondOffset(t: ChordType): Semitones
  {
    match t
    case Major => IntervalThirdMajor
    case Augmented => IntervalThirdMajor
    case Minor => IntervalThirdMinor
    case Diminished => IntervalThirdMinor
    case SuspendedFourth => IntervalFourth
    case SuspendedSecond => IntervalSecondMajor
  }

  /** How far above the root a chord type puts its third note: a perfect
      fifth, raised by a semitone for augmented and lowered for diminished. */
  function ThirdOffset(t: ChordType): Semitones
  {
    match t
    case Augmented => IntervalFifth + 1
    case Diminished => IntervalFifth - 1
    case _ => IntervalFifth
  }

  /** The Triad constructor: the switch over the chord type, built from the
      note operators exactly as the source composes them. */
  function MakeTriad(root: Note, t: ChordType): (r: Triad)
    ensures r.first == root && r.kind == t
    ensures r.second == (root + SecondOffset(t)) % 12
    ensures r.third == (root + ThirdOffset(t)) % 12
  {
    match t
    case Major => Triad(root, Plus(root, IntervalThirdMajor), Plus(root, IntervalFifth), t)
    case Minor => Triad(root, Plus(root, IntervalThirdMinor), Plus(root, IntervalFifth), t)
    case Augmented =>
      Triad(root, Plus(root, IntervalThirdMajor), Plus(Plus(root, IntervalFifth), 1), t)
    case Diminished =>
      var fifth := Plus(root, IntervalFifth);
      MinusIsModular(fifth, 1);
      ModularShift(root + IntervalFifth, -1);
      Triad(root, Plus(root, IntervalThirdMinor), Minus(fifth, 1), t)
    case SuspendedFourth => Triad(root, Plus(root, IntervalFourth), Plus(root, IntervalFifth), t)
    case SuspendedSecond => Triad(root, Plus(root, IntervalSecondMajor), Plus(root, IntervalFifth), t)
  }

  /** Triad::makeMajor: the root, its major third and its fifth. */
  function MakeMajor(root: Note): (r: Triad)
    ensures r == Triad(root, (root + 4) % 12, (root + 7) % 12, Major)
  {
    MakeTriad(root, Major)
  }

  /** Triad::makeMinor: the root, its minor third and its fifth. */
  function MakeMinor(root: Note): (r: Triad)
    ensures r == Triad(root, (root + 3) % 12, (root + 7) % 12, Minor)
  {
    MakeTriad(root, Minor)
  }

  /** Triad::makeAugmented: the root, its major third and its raised fifth. */
  function MakeAugmented(root: Note): (r: Triad)
    ensures r == Triad(root, (root + 4) % 12, (root + 8) % 12, Augmented)
  {
    MakeTriad(root, Augmented)
  }

  /** Triad::makeDiminished: the root, its minor third and its lowered fifth. */
  function MakeDiminished(root: Note): (r: Triad)
    ensures r == Triad(root, (root + 3) % 12, (root + 6) % 12, Diminished)
  {
    MakeTriad(root, Diminished)
  }

  /** Triad::makeSuspendedFourth: the root, its fourth and its fifth. */
  function MakeSuspendedFourth(root: Note): (r: Triad)
    ensures r == Triad(root, (root + 5) % 12, (root + 7) % 12, SuspendedFourth)
  {
    MakeTriad(root, SuspendedFourth)
  }

  /** Triad::makeSuspendedSecond: the root, its major second and its fifth. */
  function MakeSuspendedSecond(root: Note): (r: Triad)
    ensures r == Triad(root, (root + 2) % 12, (root + 7) % 12, SuspendedSecond)
  {
    MakeTriad(root, SuspendedSecond)
  }

  /** The six triads on C. */
  lemma TriadsOnC()
    ensures MakeTriad(NoteC, Major) == Triad(NoteC, NoteE, NoteG, Major)
    ensures MakeTriad(NoteC, Minor) == Triad(NoteC, NoteDs, NoteG, Minor)
    ensures MakeTriad(NoteC, Augmented) == Triad(NoteC, NoteE, NoteGs, Augmented)
    ensures MakeTriad(NoteC, Diminished) == Triad(NoteC, NoteDs, NoteFs, Diminished)
    ensures MakeTriad(NoteC, SuspendedFourth) == Triad(NoteC, NoteF, NoteG, SuspendedFourth)
    ensures MakeTriad(NoteC, SuspendedSecond) == Triad(NoteC, NoteD, NoteG, SuspendedSecond)
  {
  }

  /** The text getName produces: the sharp name of the root, a space and the
      full name of the chord type. */
  function TriadName(t: Triad): (r: string)
    ensures FirstDelim(r, " ") == |SharpNames[t.first]| < |r|
    ensures r[..FirstDelim(r, " ")] == SharpNames[t.first]
    ensures r[FirstDelim(r, " ") + 1..] == ChordFullNames[ChordIndex(t.kind)]
  {
    NamesAreTokens();
    FirstDelimAppend(SharpNames[t.first], ' ', ChordFullNames[ChordIndex(t.kind)], " ");
    FirstDelimFinds(SharpNames[t.first], " ");
    SharpNames[t.first] + " " + ChordFullNames[ChordIndex(t.kind)]
  }

  /** The text getString produces: the sharp names of the three notes joined
      by '-'. */
  function TriadString(t: Triad): (r: string)
    ensures Tokenize(r, "-") == [SharpNames[t.first], SharpNames[t.second], SharpNames[t.third]]
  {
    NamesAreTokens();
    TokenizeJoin([SharpNames[t.first], SharpNames[t.second], SharpNames[t.third]], '-', "-");
    Join([SharpNames[t.first], SharpNames[t.second], SharpNames[t.third]], "-")
  }

  /** The name tells the root and the chord type apart: two triads with the
      same name have the same root and the same type. */
  lemma TriadNameDetermines(s: Triad, t: Triad)
    requires TriadName(s) == TriadName(t)
    ensures s.first == t.first && s.kind == t.kind
  {
    NamesAreTokens();
    SplitAtSpace(SharpNames[s.first], ChordFullNames[ChordIndex(s.kind)],
                 SharpNames[t.first], ChordFullNames[ChordIndex(t.kind)]);
    SharpNamesInjective(s.first, t.first);
    FullNamesInjective(s.kind, t.kind);
  }

  lemma SharpNamesInjective(i: Note, j: Note)
    requires SharpNames[i] == SharpNames[j]
    ensures i == j
  {
  }

  lemma FullNamesInjective(s: ChordType, t: ChordType)
    requires ChordFullNames[ChordIndex(s)] == ChordFullNames[ChordIndex(t)]
    ensures s == t
  {
  }

  lemma {:induction false} SplitAtSpace(a: string, b: string, c: string, d: string)
    requires ' ' !in a && ' ' !in c
    requires a + " " + b == c + " " + d
    ensures a == c && b == d
    decreases |a|
  {
    // the joined texts start with the space exactly when a, resp. c, is empty
    assert |a| > 0 ==> (a + " " + b)[0] == a[0] != ' ';
    assert |c| > 0 ==> (c + " " + d)[0] == c[0] != ' ';
    assert |a| == 0 <==> |c| == 0;
    if |a| == 0 {
      assert b == (a + " " + b)[1..];
      assert d == (c + " " + d)[1..];
    } else {
      assert (a + " " + b)[0] == a[0] && (c + " " + d)[0] == c[0];
      assert (a + " " + b)[1..] == a[1..] + " " + b;
      assert (c + " " + d)[1..] == c[1..] + " " + d;
      SplitAtSpace(a[1..], b, c[1..], d);
      assert a == [a[0]] + a[1..];
      assert c == [c[0]] + c[1..];
    }
  }

  /** For example, the suspended-fourth triad on G. */
  lemma GSuspendedFourthName()
    ensures TriadName(MakeTriad(NoteG, SuspendedFourth)) == "G Suspended Fourth"
    ensures TriadString(MakeTriad(NoteG, SuspendedFourth)) == "G-C-D"
  {
    GSuspendedFourthNotes();
    GSuspendedFourthNameText(MakeTriad(NoteG, SuspendedFourth));
    GSuspendedFourthNotesText(MakeTriad(NoteG, SuspendedFourth));
  }

  lemma GSuspendedFourthNotes()
    ensures MakeTriad(NoteG, SuspendedFourth) == Triad(NoteG, NoteC, NoteD, SuspendedFourth)
  {
  }

  lemma GSuspendedFourthNameText(t: Triad)
    requires t == Triad(NoteG, NoteC, NoteD, SuspendedFourth)
    ensures TriadName(t) == "G Suspended Fourth"
  {
    assert TriadName(t) == "G" + " " + "Suspended Fourth";
  }

  lemma GSuspendedFourthNotesText(t: Triad)
    requires t == Triad(NoteG, NoteC, NoteD, SuspendedFourth)
    ensures TriadString(t) == "G-C-D"
  {
    JoinThree("G", "C", "D", "-");
  }

  /** A triad and the `_name`/`_str` caches of its Chord base. A cache holds
      either nothing yet or the full text it stands for. */
  class CachedTriad {
    const triad: Triad
    var name: string
    var str: string

    ghost predicate Valid()
      reads this
    {
      (name == "" || name == TriadName(triad)) && (str == "" || str == TriadString(triad))
    }

    /** Triad(root, type), with both caches empty. */
    constructor (root: Note, t: ChordType)
      ensures Valid() && triad == MakeTriad(root, t) && name == "" && str == ""
    {
      triad := MakeTriad(root, t);
      name, str := "", "";
    }

    /** getName: fills the name cache on the first call; every call returns
        the same text. */
    method GetName() returns (r: string)
      requires Valid()
      modifies this`name
      ensures Valid() && r == name && r == TriadName(triad)
    {
      if name == "" {
        name := SharpNames[triad.first];
        name := name + " ";
        name := name + ChordFullNames[ChordIndex(triad.kind)];
      }
      r := name;
    }

    /** getString: fills the notes cache on the first call; every call returns
        the same text. */
    method GetString() returns (r: string)
      requires Valid()
      modifies this`str
      ensures Valid() && r == str && r == TriadString(triad)
    {
      if str == "" {
        str := SharpNames[triad.first] + "-" + SharpNames[triad.second] + "-" + SharpNames[triad.third];
        JoinThree(SharpNames[triad.first], SharpNames[triad.second], SharpNames[triad.third], "-");
      }
      r := str;
    }
  }
}
