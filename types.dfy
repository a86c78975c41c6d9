/** Pitch classes, intervals and the note operators of `chromaticTypes.h`.
    A note is an integer with C = 0; `+` and `-` bring a sum back into an
    octave by adding or subtracting 12 in a loop. */
module Types {
  import opened Text

  type Semitones = int

  // The Interval enumeration: semitone counts, numbered up from the unison.
  const IntervalFirst: Semitones := 0
  const IntervalSecondMinor: Semitones := 1
  const IntervalSecondMajor: Semitones := 2
  const IntervalThirdMinor: Semitones := 3
  const IntervalThirdMajor: Semitones := 4
  const IntervalFourth: Semitones := 5
  const IntervalFourthMajor: Semitones := 6
  const IntervalFifth: Semitones := 7
  const IntervalSixthMinor: Semitones := 8
  const IntervalSixthMajor: Semitones := 9
  const IntervalSeventhMinor: Semitones := 10
  const IntervalSeventhMajor: Semitones := 11
  const IntervalOctave: Semitones := 12

  /** A pitch class: one of the twelve values of the Note enumeration. */
  type Note = n: int | 0 <= n < 12

  // The Note enumeration; sharps and flats share a value.
  const NoteC: Note := 0
  const NoteCs: Note := 1
  const NoteDf: Note := 1
  const NoteD: Note := 2
  const NoteDs: Note := 3
  const NoteEf: Note := 3
  const NoteE: Note := 4
  const NoteF: Note := 5
  const NoteFs: Note := 6
  const NoteGf: Note := 6
  const NoteG: Note := 7
  const NoteGs: Note := 8
  const NoteAf: Note := 8
  const NoteA: Note := 9
  const NoteAs: Note := 10
  const NoteBf: Note := 10
  const NoteB: Note := 11

  /** g_notesSharpStr: the names used for display. */
  const SharpNames: seq<string> :=
    ["C", "C#", "D", "D#", "E", "F", "F#", "G", "G#", "A", "A#", "B"]

  /** g_notesFlatStr: the flat spellings, accepted on input. */
  const FlatNames: seq<string> :=
    ["C", "Db", "D", "Eb", "E", "F", "Gb", "G", "Ab", "A", "Bb", "B"]

  /** The natural notes, spelt alike in both tables. */
  const Naturals: set<Note> := {NoteC, NoteD, NoteE, NoteF, NoteG, NoteA, NoteB}

  /** Both tables name twelve notes, no two of them alike even when case is
      ignored, not even across the tables; sharps and flats differ exactly on
      the five black keys. */
  lemma NameTables()
    ensures |SharpNames| == 12 && |FlatNames| == 12
    ensures forall i: Note, j: Note :: i != j ==>
      !IEquals(SharpNames[i], SharpNames[j]) && !IEquals(FlatNames[i], FlatNames[j]) &&
      !IEquals(SharpNames[i], FlatNames[j])
    ensures forall i: Note :: (SharpNames[i] == FlatNames[i]) <==> i in Naturals
  {
    SharpNamesApart();
    FlatNamesApart();
    CrossNamesApart();
  }

  lemma SharpNamesApart()
    ensures forall i: Note, j: Note :: i != j ==> !IEquals(SharpNames[i], SharpNames[j])
  {
  }

  lemma FlatNamesApart()
    ensures forall i: Note, j: Note :: i != j ==> !IEquals(FlatNames[i], FlatNames[j])
  {
  }

  lemma CrossNamesApart()
    ensures forall i: Note, j: Note :: i != j ==> !IEquals(SharpNames[i], FlatNames[j])
  {
  }

  /** Every note name is a non-empty text without '-' or ' ', so it survives
      being joined into a display string and split out again. */
  lemma NamesAreTokens()
    ensures forall i: Note :: IsToken(SharpNames[i], "- ") && IsToken(FlatNames[i], "- ")
    ensures forall i: Note :: IsToken(SharpNames[i], "-") && IsToken(SharpNames[i], " ")
  {
  }

  /** The value of `n + i`: the sum, lowered by an octave while it is above B.
      A sum below C is left as it is: the loop only ever subtracts. */
  function Plus(n: int, i: Semitones): (r: int)
    ensures n + i <= NoteB ==> r == n + i
    ensures n + i > NoteB ==> 0 <= r <= NoteB && r == (n + i) % 12
    decreases n + i
  {
    if n + i > NoteB then Plus(n, i - IntervalOctave) else n + i
  }

  /** The value of `n - i`: the difference, raised by an octave while it is
      below C. A difference above B is left as it is. */
  function Minus(n: int, i: Semitones): (r: int)
    ensures n - i >= NoteC ==> r == n - i
    ensures n - i < NoteC ==> 0 <= r <= NoteB && r == (n - i) % 12
    decreases i - n
  {
    if n - i < NoteC then Minus(n, i - IntervalOctave) else n - i
  }

  /** For a note and any shift that does not go below C, `+` is addition
      modulo 12 and stays a note. */
  lemma PlusIsModular(n: Note, i: Semitones)
    requires n + i >= 0
    ensures 0 <= Plus(n, i) < 12 && Plus(n, i) == (n + i) % 12
  {
  }

  /** For a note and any shift that does not go above B, `-` is subtraction
      modulo 12 and stays a note. */
  lemma MinusIsModular(n: Note, i: Semitones)
    requires n - i <= NoteB
    ensures 0 <= Minus(n, i) < 12 && Minus(n, i) == (n - i) % 12
  {
  }

  /** Going down by i semitones and back up by i returns to the note. */
  lemma MinusThenPlus(n: Note, i: Semitones)
    requires i >= 0
    ensures Plus(Minus(n, i), i) == n
  {
    var m := Minus(n, i);
    ModularShift(n - i, i);
    assert m + i >= 0;
  }

  /** Going up by i semitones and back down by i returns to the note. */
  lemma PlusThenMinus(n: Note, i: Semitones)
    requires i >= 0
    ensures Minus(Plus(n, i), i) == n
  {
    var m := Plus(n, i);
    ModularShift(n + i, -i);
    assert m - i <= NoteB;
  }

  lemma ModularShift(x: int, i: int)
    ensures (x % 12 + i) % 12 == (x + i) % 12
  {
    var q := x / 12;
    assert x == 12 * q + x % 12;
    assert x + i == 12 * q + (x % 12 + i);
  }

  /** `++` moves B to C and any other note one semitone up; `--` moves C to B
      and any other note one semitone down. */
  lemma StepWraps(n: Note)
    ensures Plus(n, 1) == if n == NoteB then NoteC else n + 1
    ensures Minus(n, 1) == if n == NoteC then NoteB else n - 1
  {
  }

  /** operator +: a loop that lowers the sum by octaves. */
  method Add(n: int, i: Semitones) returns (r: int)
    ensures r == Plus(n, i)
  {
    var t := n + i;
    while t > NoteB
      invariant Plus(n, t - n) == Plus(n, i)
      decreases t
    {
      t := t - IntervalOctave;
    }
    r := t;
  }

  /** operator -: a loop that raises the difference by octaves. */
  method Subtract(n: int, i: Semitones) returns (r: int)
    ensures r == Minus(n, i)
  {
    var t := n - i;
    while t < NoteC
      invariant Minus(n, n - t) == Minus(n, i)
      decreases -t
    {
      t := t + IntervalOctave;
    }
    r := t;
  }

  /** A `Note&` that the compound operators `+=`, `-=`, `++` and `--`
      overwrite in place; each also returns the note it leaves behind. */
  class NoteRef {
    var value: int

    constructor (n: int)
      ensures value == n
    {
      value := n;
    }

    /** operator +=: the note becomes what `+` gives. */
    method AddAssign(i: Semitones) returns (r: int)
      modifies this
      ensures value == Plus(old(value), i) && r == value
    {
      var t := value + i;
      while t > NoteB
        invariant Plus(value, t - value) == Plus(value, i)
        decreases t
      {
        t := t - IntervalOctave;
      }
      value := t;
      r := value;
    }

    /** operator -=: the note becomes what `-` gives. */
    method SubtractAssign(i: Semitones) returns (r: int)
      modifies this
      ensures value == Minus(old(value), i) && r == value
    {
      var t := value - i;
      while t < NoteC
        invariant Minus(value, value - t) == Minus(value, i)
        decreases -t
      {
        t := t + IntervalOctave;
      }
      value := t;
      r := value;
    }

    /** operator ++: one semitone up, B wrapping to C (see StepWraps). */
    method Increment() returns (r: int)
      modifies this
      ensures value == Plus(old(value), 1) && r == value
    {
      var t := value;
      t := t + 1;
      while t > NoteB
        invariant Plus(old(value), t - old(value)) == Plus(old(value), 1)
        decreases t
      {
        t := t - IntervalOctave;
      }
      value := t;
      r := value;
    }

    /** operator --: one semitone down, C wrapping to B (see StepWraps). */
    method Decrement() returns (r: int)
      modifies this
      ensures value == Minus(old(value), 1) && r == value
    {
      var t := value;
      t := t - 1;
      while t < NoteC
        invariant Minus(old(value), old(value) - t) == Minus(old(value), 1)
        decreases -t
      {
        t := t + IntervalOctave;
      }
      value := t;
      r := value;
    }
  }
}
