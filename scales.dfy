/** Diatonic scales of `chromaticScales.h`: seven notes built from a step
    table, and per degree a roman-numeral label and a triad whose quality a
    second table fixes. */
module Scales {
  import opened Text
  import opened Types
  import opened Chords

  /** DiatonicScaleMode, whose values are Minor = 0 and Major = 1. */
  datatype ScaleMode = MinorMode | MajorMode

  /** The value of the DiatonicScaleMode enumeration. */
  function ModeIndex(m: ScaleMode): (k: nat)
    ensures k < 2
  {
    match m
    case MinorMode => 0
    case MajorMode => 1
  }

  /** g_scaleModesStr, indexed by ModeIndex. */
  const ScaleModeNames: seq<string> := ["Minor", "Major"]

  /** A scale degree: a position 0..6 in the scale. */
  type Degree = d: int | 0 <= d < 7

  const Tonic: Degree := 0
  const Supertonic: Degree := 1
  const Mediant: Degree := 2
  const Subdominant: Degree := 3
  const Dominant: Degree := 4
  const Submediant: Degree := 5
  const Subsemitone: Degree := 6

  /** The lower-case roman numerals of the seven degrees. */
  const RomanNumerals: seq<string> := ["i", "ii", "iii", "iv", "v", "vi", "vii"]

  /** g_diatonicScaleDefMajor: whole, whole, half, whole, whole, whole, half. */
  const MajorSteps: seq<Semitones> := [2, 2, 1, 2, 2, 2, 1]
  /** g_diatonicScaleChordsMajor */
  const MajorChords: seq<ChordType> := [Major, Minor, Minor, Major, Major, Minor, Diminished]
  /** g_DiatonicScaleDegreesMajor */
  const MajorDegrees: seq<string> := ["I", "ii", "iii", "IV", "V", "vi", "vii"]

  /** g_diatonicScaleDefMinor: whole, half, whole, whole, half, whole, whole. */
  const MinorSteps: seq<Semitones> := [2, 1, 2, 2, 1, 2, 2]
  /** g_diatonicScaleChordsMinor */
  const MinorChords: seq<ChordType> := [Minor, Diminished, Major, Minor, Minor, Major, Major]
  /** g_DiatonicScaleDegreesMinor */
  const MinorDegrees: seq<string> := ["i", "ii", "III", "iv", "v", "VI", "VII"]

  function StepTable(m: ScaleMode): seq<Semitones>
  {
    match m
    case MajorMode => MajorSteps
    case MinorMode => MinorSteps
  }

  function ChordTable(m: ScaleMode): seq<ChordType>
  {
    match m
    case MajorMode => MajorChords
    case MinorMode => MinorChords
  }

  /** How many semitones each degree of a mode lies above its tonic, with the
      octave as an eighth entry: the major scale and the natural minor. */
  const MajorIntervals: seq<Semitones> := [0, 2, 4, 5, 7, 9, 11, 12]
  const MinorIntervals: seq<Semitones> := [0, 2, 3, 5, 7, 8, 10, 12]

  function DegreeOffset(m: ScaleMode, d: nat): Semitones
    requires d <= 7
  {
    match m
    case MajorMode => MajorIntervals[d]
    case MinorMode => MinorIntervals[d]
  }

  /** The step tables are the differences of the intervals: each degree lies
      one step above the one before it, and the seven steps make an octave. */
  lemma OffsetsSumSteps(m: ScaleMode, d: nat)
    requires 1 <= d <= 7
    ensures |StepTable(m)| == 7
    ensures DegreeOffset(m, d) == DegreeOffset(m, d - 1) + StepTable(m)[d - 1]
  {
  }

  /** Every step is a half or a whole tone. */
  lemma StepBounds(m: ScaleMode, k: nat)
    requires k < 7
    ensures 1 <= StepTable(m)[k] <= 2
  {
  }

  /** Higher degrees lie strictly higher: the offsets climb from the unison
      to the octave. */
  lemma {:induction false} OffsetsOrdered(m: ScaleMode, d: nat, e: nat)
    requires d < e <= 7
    ensures DegreeOffset(m, d) < DegreeOffset(m, e)
    decreases e - d
  {
    OffsetsSumSteps(m, d + 1);
    StepBounds(m, d);
    if d + 1 < e {
      OffsetsOrdered(m, d + 1, e);
    }
  }

  /** The seven notes of the scale on `root`: each degree its offset above
      the root, within the octave. */
  function ScaleNotes(root: Note, m: ScaleMode): (r: seq<Note>)
    ensures |r| == 7 && r[0] == root
  {
    seq(7, d requires 0 <= d < 7 => (root + DegreeOffset(m, d)) % 12)
  }

  /** Each degree lies its offset above the root. */
  lemma ScaleNoteIsOffset(root: Note, m: ScaleMode, d: Degree)
    ensures ScaleNotes(root, m)[d] == (root + DegreeOffset(m, d)) % 12
  {
  }

  /** The constructor's recurrence: each note of the scale is the one before
      it `+` the step between them. */
  lemma ScaleNotesStep(root: Note, m: ScaleMode, i: nat)
    requires 1 <= i < 7
    ensures ScaleNotes(root, m)[i] == Plus(ScaleNotes(root, m)[i - 1], StepTable(m)[i - 1])
  {
    var x := root + DegreeOffset(m, i - 1);
    var step := StepTable(m)[i - 1];
    var prev := ScaleNotes(root, m)[i - 1];
    calc {
      Plus(prev, step);
      { StepBounds(m, i - 1); PlusIsModular(prev, step); }
      (prev + step) % 12;
      { ScaleNoteIsOffset(root, m, i - 1); }
      (x % 12 + step) % 12;
      { ModularShift(x, step); }
      (x + step) % 12;
      { OffsetsSumSteps(m, i); }
      (root + DegreeOffset(m, i)) % 12;
      { ScaleNoteIsOffset(root, m, i); }
      ScaleNotes(root, m)[i];
    }
  }

  /** The last step of the table, which the constructor never takes, leads
      from the seventh note back to the root. */
  lemma LastStepReturnsToRoot(root: Note, m: ScaleMode)
    ensures Plus(ScaleNotes(root, m)[6], StepTable(m)[6]) == root
  {
    var x := root + DegreeOffset(m, 6);
    var step := StepTable(m)[6];
    StepBounds(m, 6);
    OffsetsSumSteps(m, 7);
    ScaleNoteIsOffset(root, m, 6);
    PlusIsModular(ScaleNotes(root, m)[6], step);
    ModularShift(x, step);
    AboveOctave(root);
  }

  /** The seven notes of a scale are pairwise distinct. */
  lemma ScaleNotesDistinct(root: Note, m: ScaleMode)
    ensures forall i, j :: 0 <= i < j < 7 ==> ScaleNotes(root, m)[i] != ScaleNotes(root, m)[j]
  {
    forall i, j | 0 <= i < j < 7
      ensures ScaleNotes(root, m)[i] != ScaleNotes(root, m)[j]
    {
      if i > 0 {
        OffsetsOrdered(m, 0, i);
      }
      OffsetsOrdered(m, i, j);
      OffsetsOrdered(m, j, 7);
      ScaleNoteIsOffset(root, m, i);
      ScaleNoteIsOffset(root, m, j);
      OffsetsApart(root, DegreeOffset(m, i), DegreeOffset(m, j));
    }
  }

  lemma OffsetsApart(root: Note, a: int, b: int)
    requires 0 <= a < b < 12
    ensures (root + a) % 12 != (root + b) % 12
  {
    var x, y := root + a, root + b;
    assert x / 12 == 0 || x / 12 == 1;
    assert y / 12 == 0 || y / 12 == 1;
  }

  /** C major is C D E F G A B; A minor is A B C D E F G. */
  lemma ScaleExamples()
    ensures ScaleNotes(NoteC, MajorMode) == [NoteC, NoteD, NoteE, NoteF, NoteG, NoteA, NoteB]
    ensures ScaleNotes(NoteA, MinorMode) == [NoteA, NoteB, NoteC, NoteD, NoteE, NoteF, NoteG]
  {
  }

  /** On every degree the quality table puts a triad whose notes are the
      degree, the degree two above it and the degree four above it: the
      triads stack thirds inside the scale. */
  lemma StackedThirds(root: Note, m: ScaleMode, d: Degree)
    ensures (ScaleNotes(root, m)[d] + SecondOffset(ChordTable(m)[d])) % 12 == ScaleNotes(root, m)[(d + 2) % 7]
    ensures (ScaleNotes(root, m)[d] + ThirdOffset(ChordTable(m)[d])) % 12 == ScaleNotes(root, m)[(d + 4) % 7]
  {
    var q := ChordTable(m)[d];
    var w2, w4 := ThirdsInOffsets(m, d);
    SteppedUp(root, m, d, (d + 2) % 7, SecondOffset(q), w2);
    SteppedUp(root, m, d, (d + 4) % 7, ThirdOffset(q), w4);
  }

  /** The triad the quality table puts on degree d, built on the scale's
      note there, consists of that degree and the degrees two and four up. */
  lemma TriadOnDegree(root: Note, m: ScaleMode, d: Degree)
    ensures MakeTriad(ScaleNotes(root, m)[d], ChordTable(m)[d]) ==
      Triad(ScaleNotes(root, m)[d], ScaleNotes(root, m)[(d + 2) % 7], ScaleNotes(root, m)[(d + 4) % 7],
            ChordTable(m)[d])
  {
    StackedThirds(root, m, d);
  }

  /** A note of the scale moved up by k semitones lands on degree e when the
      offsets say so. */
  lemma SteppedUp(root: Note, m: ScaleMode, d: Degree, e: Degree, k: Semitones, w: Semitones)
    requires DegreeOffset(m, d) + k == DegreeOffset(m, e) + w
    requires w == 0 || w == IntervalOctave
    ensures (ScaleNotes(root, m)[d] + k) % 12 == ScaleNotes(root, m)[e]
  {
    ScaleNoteIsOffset(root, m, d);
    ScaleNoteIsOffset(root, m, e);
    ShiftedResidue(ScaleNotes(root, m)[d], root, DegreeOffset(m, d), k,
                   ScaleNotes(root, m)[e], DegreeOffset(m, e), w);
  }

  /** Residues modulo 12 of two numbers w apart, for w zero or an octave. */
  lemma ShiftedResidue(a: int, root: int, x: int, k: int, b: int, y: int, w: int)
    requires a == (root + x) % 12 && b == (root + y) % 12
    requires x + k == y + w && (w == 0 || w == IntervalOctave)
    ensures (a + k) % 12 == b
  {
    ModularShift(root + x, k);
    AboveOctave(root + y);
  }

  /** In offsets from the tonic: the triad's second note is two degrees up
      and its third note four degrees up, an octave higher once past the
      seventh degree. */
  lemma ThirdsInOffsets(m: ScaleMode, d: Degree) returns (w2: Semitones, w4: Semitones)
    ensures w2 == (if d + 2 >= 7 then IntervalOctave else 0)
    ensures w4 == (if d + 4 >= 7 then IntervalOctave else 0)
    ensures DegreeOffset(m, d) + SecondOffset(ChordTable(m)[d]) == DegreeOffset(m, (d + 2) % 7) + w2
    ensures DegreeOffset(m, d) + ThirdOffset(ChordTable(m)[d]) == DegreeOffset(m, (d + 4) % 7) + w4
  {
    w2 := if d + 2 >= 7 then IntervalOctave else 0;
    w4 := if d + 4 >= 7 then IntervalOctave else 0;
    if d == 0 {
    } else if d == 1 {
    } else if d == 2 {
    } else if d == 3 {
    } else if d == 4 {
    } else if d == 5 {
    } else {
    }
  }

  lemma AboveOctave(x: int)
    ensures (x + 12) % 12 == x % 12
  {
  }

  /** The text getName produces: the sharp name of the root, a space and the
      mode's name. */
  function ScaleName(root: Note, m: ScaleMode): (r: string)
    ensures FirstDelim(r, " ") == |SharpNames[root]| < |r|
    ensures r[..FirstDelim(r, " ")] == SharpNames[root]
    ensures r[FirstDelim(r, " ") + 1..] == ScaleModeNames[ModeIndex(m)]
  {
    NamesAreTokens();
    FirstDelimAppend(SharpNames[root], ' ', ScaleModeNames[ModeIndex(m)], " ");
    FirstDelimFinds(SharpNames[root], " ");
    SharpNames[root] + " " + ScaleModeNames[ModeIndex(m)]
  }

  /** The sharp name of each note, in order. */
  function NoteNames(notes: seq<Note>): (r: seq<string>)
    ensures |r| == |notes| && forall k :: 0 <= k < |notes| ==> r[k] == SharpNames[notes[k]]
  {
    seq(|notes|, k requires 0 <= k < |notes| => SharpNames[notes[k]])
  }

  /** The text getString produces: the sharp names of the notes joined by '-'. */
  function ScaleString(notes: seq<Note>): (r: string)
    ensures Tokenize(r, "-") == NoteNames(notes)
  {
    NamesAreTokens();
    TokenizeJoin(NoteNames(notes), '-', "-");
    Join(NoteNames(notes), "-")
  }

  /** Seven notes joined: their names with a '-' between neighbours. */
  lemma ScaleStringOfSeven(ns: seq<Note>)
    requires |ns| == 7
    ensures ScaleString(ns) == SharpNames[ns[0]] + "-" + SharpNames[ns[1]] + "-" + SharpNames[ns[2]] + "-" +
      SharpNames[ns[3]] + "-" + SharpNames[ns[4]] + "-" + SharpNames[ns[5]] + "-" + SharpNames[ns[6]]
  {
    var names := NoteNames(ns);
    calc {
      ScaleString(ns);
      Join(names, "-");
      { PrefixWhole(names); }
      Join(names[..7], "-");
      { JoinPrefix(names, 6, "-"); }
      Join(names[..6], "-") + "-" + names[6];
      { JoinPrefix(names, 5, "-"); }
      Join(names[..5], "-") + "-" + names[5] + "-" + names[6];
      { JoinPrefix(names, 4, "-"); }
      Join(names[..4], "-") + "-" + names[4] + "-" + names[5] + "-" + names[6];
      { JoinPrefix(names, 3, "-"); }
      Join(names[..3], "-") + "-" + names[3] + "-" + names[4] + "-" + names[5] + "-" + names[6];
      { JoinPrefix(names, 2, "-"); }
      Join(names[..2], "-") + "-" + names[2] + "-" + names[3] + "-" + names[4] + "-" + names[5] +
        "-" + names[6];
      { JoinPrefix(names, 1, "-"); }
      Join(names[..1], "-") + "-" + names[1] + "-" + names[2] + "-" + names[3] + "-" + names[4] +
        "-" + names[5] + "-" + names[6];
      names[0] + "-" + names[1] + "-" + names[2] + "-" + names[3] + "-" + names[4] + "-" + names[5] +
        "-" + names[6];
    }
  }

  lemma ScaleTextExamples()
    ensures ScaleName(NoteC, MajorMode) == "C Major"
    ensures ScaleName(NoteA, MinorMode) == "A Minor"
  {
  }

  /** A diatonic scale: its mode, its seven notes and the `_name`/`_str`
      caches of its Scale base. */
  class DiatonicScale {
    const mode: ScaleMode
    const notes: array<Note>
    var name: string
    var str: string

    /** Seven notes, built from the first by the mode's step table. */
    ghost predicate Valid()
      reads notes
    {
      notes.Length == 7 && notes[..] == ScaleNotes(notes[0], mode)
    }

    /** Each cache holds nothing yet or the text it stands for. */
    ghost predicate CachesValid()
      requires Valid()
      reads this, notes
    {
      (name == "" || name == ScaleName(notes[0], mode)) && (str == "" || str == ScaleString(notes[..]))
    }

    /** DiatonicScale(root, mode): the notes are filled in a loop, each one
        the previous note `+` the next step. */
    constructor (root: Note, m: ScaleMode)
      ensures Valid() && CachesValid()
      ensures mode == m && notes[0] == root && fresh(notes)
      ensures name == "" && str == ""
    {
      mode := m;
      var a := new Note[7];
      var steps := StepTable(m);
      ghost var spec := ScaleNotes(root, m);
      a[0] := root;
      for i := 1 to 7
        invariant forall k :: 0 <= k < i ==> a[k] == spec[k]
      {
        ScaleNotesStep(root, m, i);
        var next := Add(a[i - 1], steps[i - 1]);
        a[i] := next;
      }
      assert a[..] == spec;
      notes := a;
      name, str := "", "";
    }

    /** getDegree: the label of a degree in this mode. A label is the
        degree's roman numeral, written in capitals when the degree's triad
        is major and in small letters otherwise. */
    function GetDegree(d: Degree): (r: string)
      ensures IEquals(r, RomanNumerals[d])
      ensures if ChordTable(mode)[d] == Major then AllUpper(r) else AllLower(r)
    {
      match mode
      case MajorMode => MajorDegrees[d]
      case MinorMode => MinorDegrees[d]
    }

    /** getTriad: the triad on a degree, of the quality the mode's table
        gives; its other two notes are the scale's notes two and four degrees
        up. */
    function GetTriad(d: Degree): (r: Triad)
      requires Valid()
      reads notes
      ensures r.first == notes[d] && r.kind == ChordTable(mode)[d]
      ensures r.second == notes[(d + 2) % 7] && r.third == notes[(d + 4) % 7]
    {
      assert notes[..][d] == notes[d] && notes[..][(d + 2) % 7] == notes[(d + 2) % 7];
      assert notes[..][(d + 4) % 7] == notes[(d + 4) % 7];
      TriadOnDegree(notes[0], mode, d);
      MakeTriad(notes[d], ChordTable(mode)[d])
    }

    /** getName: fills the name cache on the first call; every call returns
        the same text. */
    method GetName() returns (r: string)
      requires Valid() && CachesValid()
      modifies this`name
      ensures CachesValid() && r == name && r == ScaleName(notes[0], mode)
    {
      if name == "" {
        name := SharpNames[notes[0]] + " " + ScaleModeNames[ModeIndex(mode)];
      }
      r := name;
    }

    /** getString: fills the notes cache on the first call; every call
        returns the same text. */
    method GetString() returns (r: string)
      requires Valid() && CachesValid()
      modifies this`str
      ensures CachesValid() && r == str && r == ScaleString(notes[..])
    {
      if str == "" {
        str := SharpNames[notes[0]] + "-" + SharpNames[notes[1]] + "-" + SharpNames[notes[2]] + "-" +
               SharpNames[notes[3]] + "-" + SharpNames[notes[4]] + "-" + SharpNames[notes[5]] + "-" +
               SharpNames[notes[6]];
        ScaleStringOfSeven(notes[..]);
      }
      r := str;
    }
  }

  /** The fifth degree of C major carries G major, labelled "V". */
  lemma DominantOfCMajor(s: DiatonicScale)
    requires s.Valid() && s.mode == MajorMode && s.notes[0] == NoteC
    ensures s.GetTriad(Dominant) == MakeTriad(NoteG, Major)
    ensures s.GetDegree(Dominant) == "V"
  {
    ScaleExamples();
  }
}
