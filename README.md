# chromatic, modelled in Dafny

`chromatic` is a small music-theory calculator. It reads a chord (`Cm`,
`Gsus4`), a scale (`Am`, `Bb`) or a progression of roman numerals over a
scale (`i-iv-v` in C) and prints the notes involved. This project models its
music-theory core and proves properties of the model:

- pitch classes and the wrapping note operators `+`, `-`, `+=`, `-=`, `++`,
  `--`;
- the name tables;
- triads, with their lazily cached name and note texts;
- diatonic scales, built note by note from a step table, with each degree's
  label and triad;
- chord progressions, split on `-` and read token by token;
- the three text parsers `noteFromString`, `chordFromString` and
  `scaleFromString`.

Modules, one per file:

- `text.dfy` (`Text`) has the library behaviour the code leans on:
  - ASCII case-insensitive comparison, for `_wcsicmp` and `boost::iequals`;
  - the `boost::char_separator` tokenizer, which splits on a set of
    delimiter characters and drops empty pieces;
  - joining with a separator, as `implode` and the `swprintf_s` formats do.
- `types.dfy` (`Types`) holds the `Interval` and `Note` enumerations, both name
  tables and the note operators. Each operator loop is a method proved
  against a function. The compound operators are methods of a `NoteRef`
  class, which stands for the `Note&` they overwrite.
- `chords.dfy` (`Chords`):
  - `ChordType` and its two name tables;
  - `Triad` as a value, with the constructor's switch and the six `make*`
    factories;
  - `CachedTriad`: a triad plus the `_name`/`_str` caches that `getName` and
    `getString` fill on first use.
- `scales.dfy` (`Scales`):
  - the step, quality and label tables of both modes;
  - the `DiatonicScale` class, whose constructor fills a seven-element array
    in a loop;
  - its `getDegree`, `getTriad`, `getName` and `getString`.
- `progressions.dfy` (`Progressions`):
  - `ChordProgressionStep` (the `ProgressionStep` datatype), `explode`,
    `implode` and the `ChordProgression` constructor;
  - the steps a text gives, as a function over the table of the scale's
    seven steps.

  `chromaticChordProgression.h` is a copy of `chromaticScales.h` lines
  161-236. Both files' progression code is modelled once. The duplicate's
  lines are 19-24 for the step, 32-40 for `explode`, 42-52 for `implode` and
  69-92 for the constructor.
- `parsers.dfy` (`Parsers`) holds the three parsers of `chromatic.cpp`. Each is
  a function stating what the parser computes and a method following the
  code's own loop and string mutations, proved equal to that function.

The main properties proved:

- **Note arithmetic.** `+` and `-` are addition and subtraction modulo 12 on
  notes, and each undoes the other. The name tables are unambiguous even when
  case is ignored.
- **Scales.** A scale's seven notes are distinct. The constructor's step
  recurrence agrees with the interval offsets, and the unused last step leads
  back to the root. On every degree, the quality table's triad stacks thirds
  inside the scale: its notes are that degree and the degrees two and four
  above it.
- **Parsers.** Every note name, in either spelling and any case, parses back
  to its note. Every note name followed by any chord suffix parses back to
  that triad. Every note name, bare or followed by `m`, parses back to its
  major or minor scale.
- **Progressions.** A token that names no degree is passed over, wherever it
  stands. Printing a progression and reading the printed text again gives the
  same progression.

## Model

| member | source | states |
|---|---|---|
| `Types.NameTables` | chromatic/chromaticTypes.h:68-74 | Both tables name twelve notes. No two names are alike even when case is ignored, within a table or across the two. A note's sharp and flat names agree exactly when it is one of the seven naturals. |
| `Types.NamesAreTokens` | chromatic/chromaticTypes.h:68-74 | Every note name is non-empty and contains neither `-` nor a space, so it survives being joined into a display text. |
| `Types.Plus` | chromatic/chromaticTypes.h:76-82 | `n + i` keeps a sum that is not above B. A sum above B is brought to `(n + i) mod 12`, which lies in C..B. |
| `Types.Minus` | chromatic/chromaticTypes.h:84-90 | `n - i` keeps a difference that is not below C. A difference below C is brought to `(n - i) mod 12`, which lies in C..B. |
| `Types.PlusIsModular` | chromatic/chromaticTypes.h:76-82 | For a note and any shift (an unbounded integer; see Left out) that does not take the sum below C, `+` gives a note, and that note is `(n + i) mod 12`. |
| `Types.MinusIsModular` | chromatic/chromaticTypes.h:84-90 | For a note and any shift (an unbounded integer; see Left out) that does not take the difference above B, `-` gives a note, and that note is `(n - i) mod 12`. |
| `Types.MinusThenPlus` | chromatic/chromaticTypes.h:76-90 | For a non-negative shift, going down by `i` and back up by `i` returns the note. |
| `Types.PlusThenMinus` | chromatic/chromaticTypes.h:76-90 | For a non-negative shift, going up by `i` and back down by `i` returns the note. |
| `Types.StepWraps` | chromatic/chromaticTypes.h:110-128 | One semitone up moves B to C and any other note up by one. One semitone down moves C to B and any other note down by one. |
| `Types.Add` | chromatic/chromaticTypes.h:76-82 | The loop of `operator +` returns the value `Plus` specifies. |
| `Types.Subtract` | chromatic/chromaticTypes.h:84-90 | The loop of `operator -` returns the value `Minus` specifies. |
| `Types.NoteRef.AddAssign` | chromatic/chromaticTypes.h:92-99 | `+=` overwrites the note with its value `+ i` and returns the new note. |
| `Types.NoteRef.SubtractAssign` | chromatic/chromaticTypes.h:101-108 | `-=` overwrites the note with its value `- i` and returns the new note. |
| `Types.NoteRef.Increment` | chromatic/chromaticTypes.h:110-118 | `++` overwrites the note with its value `+ 1` (B wraps to C) and returns it. |
| `Types.NoteRef.Decrement` | chromatic/chromaticTypes.h:120-128 | `--` overwrites the note with its value `- 1` (C wraps to B) and returns it. |
| `Chords.ChordIndex` | chromatic/chromaticChords.h:17-24 | A chord type's enumeration value is an index below six into both chord name tables. |
| `Chords.ChordIndexInjective` | chromatic/chromaticChords.h:17-24 | Different chord types have different enumeration values. |
| `Chords.MakeTriad` | chromatic/chromaticChords.h:52-80 | The constructor keeps the root and the type. The second note lies the type's third (or fourth, or second) above the root, modulo 12. The third note lies its fifth (raised for augmented, lowered for diminished) above the root. |
| `Chords.MakeMajor` | chromatic/chromaticChords.h:107-109 | `makeMajor(r)` is r, r + 4 and r + 7 semitones, modulo 12, of type Major. |
| `Chords.MakeMinor` | chromatic/chromaticChords.h:110-112 | `makeMinor(r)` is r, r + 3 and r + 7 semitones, modulo 12, of type Minor. |
| `Chords.MakeAugmented` | chromatic/chromaticChords.h:113-115 | `makeAugmented(r)` is r, r + 4 and r + 8 semitones, modulo 12, of type Augmented. |
| `Chords.MakeDiminished` | chromatic/chromaticChords.h:116-118 | `makeDiminished(r)` is r, r + 3 and r + 6 semitones, modulo 12, of type Diminished. |
| `Chords.MakeSuspendedFourth` | chromatic/chromaticChords.h:119-121 | `makeSuspendedFourth(r)` is r, r + 5 and r + 7 semitones, modulo 12. |
| `Chords.MakeSuspendedSecond` | chromatic/chromaticChords.h:122-124 | `makeSuspendedSecond(r)` is r, r + 2 and r + 7 semitones, modulo 12. |
| `Chords.TriadsOnC` | chromatic/chromaticChords.h:52-80 | The six triads on C are C-E-G, C-D#-G, C-E-G#, C-D#-F#, C-F-G and C-D-G. |
| `Chords.TriadName` | chromatic/chromaticChords.h:86-95 | The text `getName` caches: the part before its first space is the root's sharp name, and the part after that space is the chord type's full name. |
| `Chords.TriadString` | chromatic/chromaticChords.h:96-106 | The text `getString` caches splits on `-` into exactly the sharp names of the root, the second note and the third note. |
| `Chords.TriadNameDetermines` | chromatic/chromaticChords.h:86-95 | Two triads with the same `getName` text have the same root and the same chord type. |
| `Chords.GSuspendedFourthName` | chromatic/chromaticChords.h:86-106 | The suspended-fourth triad on G is named "G Suspended Fourth" and spelt "G-C-D". |
| `Chords.CachedTriad.constructor` | chromatic/chromaticChords.h:52-80 | A new triad holds the constructor's notes, and both caches are empty. |
| `Chords.CachedTriad.GetName` | chromatic/chromaticChords.h:86-95 | `getName` fills an empty name cache. Every call returns the cache, which is the root's sharp name, a space and the type's full name. |
| `Chords.CachedTriad.GetString` | chromatic/chromaticChords.h:96-106 | `getString` fills an empty notes cache. Every call returns the three sharp names joined by `-`. |
| `Scales.ModeIndex` | chromatic/chromaticScales.h:57-64 | A mode's enumeration value (Minor 0, Major 1) indexes the mode name table. |
| `Scales.ScaleNotes` | chromatic/chromaticScales.h:80-94 | The seven notes the constructor stores, starting with the root (their step recurrence, distinctness and triads are the lemmas below). |
| `Scales.OffsetsSumSteps` | chromatic/chromaticScales.h:21-41 | Each step table has seven entries. Each degree lies one table step above the degree before it, counting from the tonic, and the seven steps make an octave. |
| `Scales.StepBounds` | chromatic/chromaticScales.h:21-41 | Every step in both tables is a half tone or a whole tone. |
| `Scales.OffsetsOrdered` | chromatic/chromaticScales.h:21-41 | Higher degrees lie strictly higher above the tonic, up to the octave. |
| `Scales.ScaleNotesStep` | chromatic/chromaticScales.h:80-94 | Each note of the scale is the note before it `+` the step between them: the constructor's recurrence. |
| `Scales.LastStepReturnsToRoot` | chromatic/chromaticScales.h:21-41 | The seventh step, which the constructor never takes, leads from the last note back to the root. |
| `Scales.ScaleNotesDistinct` | chromatic/chromaticScales.h:80-94 | The seven notes of any scale are pairwise distinct. |
| `Scales.ScaleExamples` | chromatic/chromaticScales.h:80-94 | C major is C D E F G A B. A minor is A B C D E F G. |
| `Scales.StackedThirds` | chromatic/chromaticScales.h:25-51 | On every degree, the quality table's second-note offset lands on the note two degrees up. Its third-note offset lands on the note four degrees up. |
| `Scales.TriadOnDegree` | chromatic/chromaticScales.h:116-128 | The triad the quality table puts on a degree consists of that degree's note and the notes two and four degrees up. |
| `Scales.ScaleStringOfSeven` | chromatic/chromaticScales.h:140-158 | A scale's text is its seven sharp names with `-` between neighbours, the shape of the `%s-%s-%s-%s-%s-%s-%s` format. |
| `Scales.ScaleName` | chromatic/chromaticScales.h:129-139 | The text `getName` caches splits on spaces into exactly the root's sharp name and the mode's name. |
| `Scales.ScaleString` | chromatic/chromaticScales.h:140-158 | The text `getString` caches splits on `-` into exactly the sharp names of the notes, in order. |
| `Scales.ScaleTextExamples` | chromatic/chromaticScales.h:129-139 | The scales on C major and A minor are named "C Major" and "A Minor". |
| `Scales.DiatonicScale.constructor` | chromatic/chromaticScales.h:80-94 | The constructor's loop fills a fresh seven-note array with exactly the scale on the root in the given mode. The caches start empty. |
| `Scales.DiatonicScale.GetDegree` | chromatic/chromaticScales.h:103-115 | A degree's label is its roman numeral up to case. It is in capitals when that degree's triad is major and in small letters otherwise. |
| `Scales.DiatonicScale.GetTriad` | chromatic/chromaticScales.h:116-128 | A degree's triad has the degree's note as root and the mode's quality for that degree. Its other notes are the scale's notes two and four degrees up. |
| `Scales.DiatonicScale.GetName` | chromatic/chromaticScales.h:129-139 | `getName` fills an empty name cache. It returns the root's sharp name, a space and the mode's name. |
| `Scales.DiatonicScale.GetString` | chromatic/chromaticScales.h:140-158 | `getString` fills an empty notes cache. It returns the seven sharp names joined by `-`. |
| `Scales.DominantOfCMajor` | chromatic/chromaticScales.h:103-128 | The fifth degree of C major is labelled "V" and carries G major. |
| `Progressions.Explode` | chromatic/chromaticScales.h:175-183 | `explode` appends to the vector, in order, exactly the non-empty pieces of the text between delimiters. |
| `Progressions.Implode` | chromatic/chromaticScales.h:185-195 | `implode` returns the step labels with the separator between neighbours, and nothing before the first or after the last. |
| `Progressions.TokenDegreeMeaning` | chromatic/chromaticScales.h:212-235 | The if-chain takes a token to degree d exactly when the token is d's numeral, ignoring case. It takes the token to nothing exactly when it is no numeral. |
| `Progressions.NumeralsApart` | chromatic/chromaticScales.h:218-231 | No two of the seven numerals the chain tests are alike when case is ignored, so the order of the tests does not matter. |
| `Progressions.TokenDegree` | chromatic/chromaticScales.h:219-233 | The degree the if-chain picks for a token is one whose numeral the token equals, ignoring case. When it picks none, the token equals no numeral. |
| `Progressions.StepFor` | chromatic/chromaticScales.h:219-233 | A token adds no step exactly when it equals no numeral. A token equal to d's numeral, ignoring case, adds exactly d's step. |
| `Progressions.StepsOf` | chromatic/chromaticScales.h:217-234 | The steps the loop collects: never more than there are tokens, and each one taken from the scale's seven steps. |
| `Progressions.StepOf` | chromatic/chromaticScales.h:219-232 | The step pushed for degree d: its label is a token without `-` that the progression reader takes back to d, and its triad has d's note as root, the mode's quality for d, and the scale's notes two and four degrees up. |
| `Progressions.DegreeSteps` | chromatic/chromaticScales.h:212-235 | A scale's table has seven entries, and entry d is degree d's step. |
| `Progressions.DegreeStepsLabelled` | chromatic/chromaticScales.h:103-115 | In every scale's table, each label is a token that the progression reader takes back to its own degree. |
| `Progressions.NumeralNamesDegree` | chromatic/chromaticScales.h:218-231 | Each lower-case numeral is read as its own degree. |
| `Progressions.LabelNamesDegree` | chromatic/chromaticScales.h:103-115 | The label a scale shows for a degree, capitalised or not, is read as that degree again. |
| `Progressions.LabelIsToken` | chromatic/chromaticScales.h:103-115 | Every degree label is non-empty and contains no `-`. |
| `Progressions.StepsOfAppend` | chromatic/chromaticScales.h:212-235 | The steps of two token lists side by side are the steps of the first followed by the steps of the second. |
| `Progressions.StepsOfLength` | chromatic/chromaticScales.h:212-235 | A progression has exactly as many steps as tokens when every token is a numeral. |
| `Progressions.StepsOfSkips` | chromatic/chromaticScales.h:217-234 | A token that names no degree adds nothing, wherever it stands among the others. |
| `Progressions.StepsOfNumerals` | chromatic/chromaticScales.h:212-235 | A text of numerals for degrees ds gives, step by step, the steps of ds in the same order. |
| `Progressions.StepsOfLabels` | chromatic/chromaticScales.h:212-235 | Reading the labels of a progression as tokens gives back the same progression. |
| `Progressions.LabelsAreTokens` | chromatic/chromaticScales.h:185-195 | Every label in a progression is non-empty and contains no `-`. |
| `Progressions.ImplodeThenParse` | chromatic/chromaticScales.h:185-235 | Printing a progression (labels joined by `-`) and building a progression from that text again gives the same steps. |
| `Progressions.PushStep` | chromatic/chromaticScales.h:218-231 | One pass of the constructor's if-chain appends the step of the degree the token names, or nothing for any other token. |
| `Progressions.ReadSteps` | chromatic/chromaticScales.h:216-232 | The constructor's loop over the tokens produces the steps of the tokens that name a degree, in token order. |
| `Progressions.ChordProgression.constructor` | chromatic/chromaticScales.h:212-235 | The constructor keeps the scale. Its progression is exactly the steps of the `-`-separated tokens of the text that name a degree, in order. |
| `Progressions.SplitOneFourFive` | chromatic/chromaticScales.h:175-183 | "i-iv-v" splits into "i", "iv" and "v". |
| `Progressions.CMajorPrimarySteps` | chromatic/chromaticScales.h:103-128 | In C major, degrees I, IV and V are labelled "I", "IV" and "V" and carry C major, F major and G major. |
| `Progressions.OneFourFiveInCMajor` | chromatic/chromaticScales.h:212-235 | In C major, "i-iv-v" gives the steps I, IV and V with C, F and G major. |
| `Progressions.OneFourFiveShown` | chromatic/chromaticScales.h:185-195 | That progression prints as "I-IV-V". |
| `Progressions.UnknownTokenSkipped` | chromatic/chromaticScales.h:212-235 | "i-xyz-v" gives exactly two steps, those of degrees I and V. |
| `Text.IEquals` | chromatic/chromatic.cpp:18 | Two texts are alike exactly when they have the same length and agree character by character once ASCII letters are lower-cased. |
| `Text.IEqualsReflexive` | chromatic/chromatic.cpp:18 | Every text equals itself when case is ignored. |
| `Text.IEqualsSymmetric` | chromatic/chromatic.cpp:18 | Case-insensitive equality is symmetric. |
| `Text.IEqualsTransitive` | chromatic/chromatic.cpp:18 | Case-insensitive equality is transitive. |
| `Text.IEqualsSingle` | chromatic/chromatic.cpp:57 | Two one-character texts are alike exactly when their characters are, ignoring case. |
| `Text.Tokenize` | chromatic/chromaticScales.h:175-183 | Every piece the tokenizer produces is non-empty and holds no delimiter. |
| `Text.TokenizeNoDelimiter` | chromatic/chromaticScales.h:175-183 | A text without delimiters is one piece, or no piece when it is empty. |
| `Text.TokenizeAppend` | chromatic/chromaticScales.h:175-183 | Splitting two texts joined by a delimiter gives the pieces of the first followed by the pieces of the second. |
| `Text.Join` | chromatic/chromaticScales.h:185-195 | No items give the empty text, one item gives itself, and otherwise the text starts with the first item. TokenizeJoin shows that splitting undoes it. |
| `Text.TokenizeJoin` | chromatic/chromaticScales.h:175-195 | Joining tokens with a delimiter and splitting the result again gives back exactly those tokens. |
| `Parsers.FirstMatch` | chromatic/chromatic.cpp:16-21 | The search from note i finds the first note from i on whose sharp or flat name matches the text, ignoring case. When no such note exists it gives C. |
| `Parsers.ParseNote` | chromatic/chromatic.cpp:14-22 | `noteFromString` gives the first note whose name matches the text, ignoring case. It gives C when no name matches. |
| `Parsers.OneNoteMatches` | chromatic/chromatic.cpp:18 | No text matches the names of two different notes, whichever tables and case are used. |
| `Parsers.ParseNoteExact` | chromatic/chromatic.cpp:14-22 | A text that matches a name of note n, in either table and any case, reads as n. |
| `Parsers.NoteRoundTrip` | chromatic/chromatic.cpp:14-22 | Every sharp name and every flat name reads back as its own note. |
| `Parsers.NoteExamples` | chromatic/chromatic.cpp:14-22 | "c#" reads as C#, "EB" as Eb and "g" as G. |
| `Parsers.LongTextIsC` | chromatic/chromatic.cpp:14-22 | A text longer than two characters matches no name and reads as C. |
| `Parsers.EmptyTextIsC` | chromatic/chromatic.cpp:14-22 | The empty text reads as C. |
| `Parsers.CFlatIsC` | chromatic/chromatic.cpp:14-22 | "Cb" is in neither table and reads as C, not as B. |
| `Parsers.ESharpIsC` | chromatic/chromatic.cpp:14-22 | "E#" is in neither table and reads as C, not as F. |
| `Parsers.NoteFromString` | chromatic/chromatic.cpp:14-22 | The loop over the twelve notes, returning at the first match, returns the note `ParseNote` specifies. |
| `Parsers.ChordSplit` | chromatic/chromatic.cpp:27-50 | The kept text is a prefix of the input, and the cut-off rest is the suffix of the chosen type up to case. A text of at most one character is Major and kept whole. A longer text than four characters can only become Major, Sus4 or Sus2. A text of two to four characters can only become Major, Minor, Augmented or Diminished. |
| `Parsers.ChordSplitFindsSuffix` | chromatic/chromatic.cpp:28-49 | A text longer than four characters ending in `sus4` or `sus2` (any case) gets that type. A text of two to four characters ending in `m`, `a` or `o` gets Minor, Augmented or Diminished. Either way the suffix is cut off. |
| `Parsers.NameShape` | chromatic/chromaticTypes.h:68-74 | Every note name has one or two characters. A second character is `#` in the sharp table and `b` in the flat table, so no name ends in a chord suffix. |
| `Parsers.ChordSplitOfNamed` | chromatic/chromatic.cpp:27-50 | A note name followed by a chord type's suffix splits into exactly that type and that name. |
| `Parsers.ParseChord` | chromatic/chromatic.cpp:24-52 | The result is a well-formed triad. The input ends, up to case, in the suffix of its type, and the root is what `noteFromString` reads from the text before that suffix. A text of at most one character gives the major triad on its note. |
| `Parsers.ChordRoundTrip` | chromatic/chromatic.cpp:24-52 | Any sharp or flat note name followed by any chord type's suffix parses as that triad. |
| `Parsers.CMinorText` | chromatic/chromatic.cpp:24-52 | "Cm" parses as C minor. |
| `Parsers.GSuspendedFourthText` | chromatic/chromatic.cpp:24-52 | "Gsus4" parses as G suspended fourth. |
| `Parsers.FSharpDiminishedText` | chromatic/chromatic.cpp:24-52 | "f#o" parses as F# diminished. |
| `Parsers.ChordQuirks` | chromatic/chromatic.cpp:24-52 | In the code as written, "sus4" (only four characters) and "Cmaj" both parse as C major. |
| `Parsers.LoneMarkIsMajor` | chromatic/chromatic.cpp:27-29 | A one-character text keeps its suffix, so "m" parses as C major. |
| `Parsers.ChordFromString` | chromatic/chromatic.cpp:24-52 | The code's mutations of a working copy, then `Triad(noteFromString(str), type)`, give the triad `ParseChord` specifies. |
| `Parsers.ParseScale` | chromatic/chromatic.cpp:54-63 | The empty text throws out-of-range, and only the empty text does. Otherwise the scale is minor exactly when the last character is `m` or `M`. A minor scale's root is what precedes the mark; a major scale's root is the whole text. |
| `Parsers.MinorMarkRead` | chromatic/chromatic.cpp:57-60 | Any text followed by "m" asks for the minor scale on what precedes the mark. |
| `Parsers.NamesUnmarked` | chromatic/chromaticTypes.h:68-74 | No note name ends in `m` or `M`. |
| `Parsers.ScaleRoundTrip` | chromatic/chromatic.cpp:54-63 | Every note name alone gives its major scale. Followed by "m", it gives its minor scale. |
| `Parsers.AMinorText` | chromatic/chromatic.cpp:54-63 | "Am" is A minor. |
| `Parsers.BFlatMajorText` | chromatic/chromatic.cpp:54-63 | "Bb" is Bb major. |
| `Parsers.ScaleMarkQuirks` | chromatic/chromatic.cpp:54-63 | "CM" is C minor, "m" is C minor and "" throws. |
| `Parsers.ScaleFromString` | chromatic/chromatic.cpp:54-63 | It throws exactly on the empty text. Otherwise it builds a well-formed scale whose root and mode are what `ParseScale` reads from the text. |

## Left out

- **Integer width.** In the source `Semitones` is a 32-bit `int`. For a
  shift within 11 of the `int` limits, `(int)n + i` or `(int)n - i` overflows,
  which is undefined behaviour. The model takes every shift as an unbounded
  integer and computes the mathematical value there. Every shift the core
  itself passes is a table entry between 0 and 12. The members this affects
  follow.
- Types.Plus: the sum is not wrapped at 32 bits.
- Types.Minus: the difference is not wrapped at 32 bits.
- Types.PlusIsModular: "any shift" means any mathematical integer, not only
  those for which the source's sum is defined.
- Types.MinusIsModular: the same holds for the difference.
- Types.Add: it inherits this from Plus.
- Types.Subtract: it inherits this from Minus.
- **Program entry and printing.** `wmain` only dispatches arguments. The
  `print` members of `Triad`, `DiatonicScale` and `ChordProgression` only
  write to the console.
- **Fixed-size buffers.** `Triad::getString` and `DiatonicScale::getName`/
  `getString` write through `swprintf_s` into a string resized to 16 or 32
  characters. `reserve` does not shrink it, so the cached string keeps
  trailing NUL characters. The model caches the text up to the first NUL,
  which is what `c_str()` shows. Every text the tables can produce fits in
  those buffers.
- **Abstract bases.** `Chord` and `Scale` contribute only the two cache
  fields, which sit in `CachedTriad` and `DiatonicScale`.
- **Degree increment.** `Degree` `++`/`--` is used only by the printing
  loop.
- **Case folding** is ASCII only. `_wcsicmp` and `boost::iequals` fold by the
  locale, which is left out. Neither does the model see an embedded NUL that
  cuts a `c_str()` comparison short.
- **The tokenizer** is modelled by what it yields: the non-empty pieces
  between delimiter characters, in order. Its iterator mechanics are left out.
- **The progression's scale** is copied by value in the source. The model
  keeps a reference to the `DiatonicScale` instead. It does not capture what
  would set the two apart: a later write to the original scale's note array,
  which the copy would not see.
- **The progression constructor** pushes steps onto its own vector. The model
  builds the vector in `ReadSteps` and `PushStep` and then stores it, with the
  same result.
- **Where the code departs from a plain reading of its own intent, the model
  follows the code:**
  - a chord text longer than four characters is only examined for `sus4` and
    `sus2`, never for a one-letter mark;
  - a chord text of at most one character is always Major, so "m" gives C
    major;
  - the scale test for `m` ignores case, so "CM" is C minor;
  - `scaleFromString("")` throws rather than falling back.
