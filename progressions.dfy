/** Chord progressions of `chromaticScales.h` (and of its duplicate
    `chromaticChordProgression.h`): a text of roman numerals separated by '-'
    is split into tokens, and every token that names a degree of the scale
    becomes a step carrying that degree's label and triad. */
module Progressions {
  import opened Text
  import opened Types
  import opened Chords
  import opened Scales

  datatype Option<T> = None | Some(value: T)

  /** ChordProgressionStep: the label shown for a degree and its triad. */
  datatype ProgressionStep = ProgressionStep(str: string, chord: Triad)

  /** A StringVector, which explode appends to through a reference. */
  class StringVector {
    var items: seq<string>

    constructor ()
      ensures items == []
    {
      items := [];
    }
  }

  /** explode: appends to `v`, in order, the pieces of `str` between the
      delimiter characters, leaving out the empty ones. */
  method Explode(str: string, delims: string, v: StringVector)
    modifies v
    ensures v.items == old(v.items) + Tokenize(str, delims)
  {
    var tokens := Tokenize(str, delims);
    for i := 0 to |tokens|
      invariant v.items == old(v.items) + tokens[..i]
    {
      PrefixSnoc(tokens, i);
      v.items := v.items + [tokens[i]];
    }
    PrefixWhole(tokens);
  }

  /** The labels of the steps, in order. */
  function Labels(v: seq<ProgressionStep>): (r: seq<string>)
    ensures |r| == |v| && forall k :: 0 <= k < |v| ==> r[k] == v[k].str
  {
    seq(|v|, k requires 0 <= k < |v| => v[k].str)
  }

  /** implode: the labels of the steps with `delim` between neighbours. */
  method Implode(v: seq<ProgressionStep>, delim: string) returns (r: string)
    ensures r == Join(Labels(v), delim)
  {
    r := "";
    for i := 0 to |v|
      invariant r == Join(Labels(v[..i]), delim)
    {
      if i != 0 {
        r := r + delim;
      }
      r := r + v[i].str;
      PrefixSnoc(v, i);
      assert Labels(v[..i + 1]) == Labels(v[..i]) + [v[i].str];
      if i != 0 {
        JoinSnoc(Labels(v[..i]), v[i].str, delim);
      }
    }
    PrefixWhole(v);
  }

  /** The degree a token names: the first of "i" .. "vii" it equals when case
      is ignored, or nothing. */
  function TokenDegree(t: string): (r: Option<Degree>)
    ensures r.Some? ==> IEquals(t, RomanNumerals[r.value])
    ensures r.None? ==> forall d: Degree :: !IEquals(t, RomanNumerals[d])
  {
    if IEquals(t, "i") then Some(Tonic)
    else if IEquals(t, "ii") then Some(Supertonic)
    else if IEquals(t, "iii") then Some(Mediant)
    else if IEquals(t, "iv") then Some(Subdominant)
    else if IEquals(t, "v") then Some(Dominant)
    else if IEquals(t, "vi") then Some(Submediant)
    else if IEquals(t, "vii") then Some(Subsemitone)
    else None
  }

  /** No two roman numerals are alike, whatever their case. */
  lemma NumeralsApart()
    ensures forall d: Degree, e: Degree :: d != e ==> !IEquals(RomanNumerals[d], RomanNumerals[e])
  {
  }

  /** A token names degree d exactly when it is d's numeral up to case, and
      names nothing exactly when it is none of them. */
  lemma TokenDegreeMeaning(t: string)
    ensures forall d: Degree :: TokenDegree(t) == Some(d) <==> IEquals(t, RomanNumerals[d])
    ensures TokenDegree(t) == None <==> forall d: Degree :: !IEquals(t, RomanNumerals[d])
  {
    NumeralsApart();
    forall d: Degree, e: Degree | IEquals(t, RomanNumerals[d]) && IEquals(t, RomanNumerals[e])
      ensures d == e
    {
      IEqualsSymmetric(t, RomanNumerals[d]);
      IEqualsTransitive(RomanNumerals[d], t, RomanNumerals[e]);
    }
  }

  /** The step for degree d: its label is a token the progression reader takes
      back to d, and its triad is the one the scale's quality table puts on
      d's note. */
  function StepOf(scale: DiatonicScale, d: Degree): (r: ProgressionStep)
    requires scale.Valid()
    reads scale.notes
    ensures TokenDegree(r.str) == Some(d) && IsToken(r.str, "-")
    ensures r.chord.first == scale.notes[d] && r.chord.kind == ChordTable(scale.mode)[d]
    ensures r.chord.second == scale.notes[(d + 2) % 7] && r.chord.third == scale.notes[(d + 4) % 7]
  {
    LabelNamesDegree(scale, d);
    LabelIsToken(scale, d);
    ProgressionStep(scale.GetDegree(d), scale.GetTriad(d))
  }

  /** The steps a scale offers, one per degree, in degree order. */
  function DegreeSteps(scale: DiatonicScale): (r: seq<ProgressionStep>)
    requires scale.Valid()
    reads scale.notes
    ensures |r| == 7 && forall d: Degree :: r[d] == StepOf(scale, d)
  {
    FirstSteps(scale, 7)
  }

  /** The steps of the first n degrees. */
  function FirstSteps(scale: DiatonicScale, n: nat): (r: seq<ProgressionStep>)
    requires scale.Valid() && n <= 7
    reads scale.notes
    ensures |r| == n && forall d: Degree :: d < n ==> r[d] == StepOf(scale, d)
  {
    if n == 0 then [] else FirstSteps(scale, n - 1) + [StepOf(scale, n - 1)]
  }

  /** The table's entry for d is the scale's label and triad for d. */
  lemma TableStep(scale: DiatonicScale, d: Degree)
    requires scale.Valid()
    ensures DegreeSteps(scale)[d] == ProgressionStep(scale.GetDegree(d), scale.GetTriad(d))
  {
  }

  /** A table of seven steps whose labels are tokens naming their own degrees,
      as every scale's table is (see DegreeStepsLabelled). */
  predicate Labelled(steps: seq<ProgressionStep>)
  {
    |steps| == 7 &&
    forall d: Degree :: TokenDegree(steps[d].str) == Some(d) && IsToken(steps[d].str, "-")
  }

  /** The step a single token gives: its degree's step, or none. */
  function StepFor(steps: seq<ProgressionStep>, t: string): (r: seq<ProgressionStep>)
    requires |steps| == 7
    ensures r == [] <==> forall d: Degree :: !IEquals(t, RomanNumerals[d])
    ensures forall d: Degree :: IEquals(t, RomanNumerals[d]) ==> r == [steps[d]]
  {
    TokenDegreeMeaning(t);
    match TokenDegree(t)
    case Some(d) => [steps[d]]
    case None => []
  }

  /** The steps of the tokens that name a degree, in order; the other tokens
      are passed over. */
  function StepsOf(steps: seq<ProgressionStep>, tokens: seq<string>): (r: seq<ProgressionStep>)
    requires |steps| == 7
    ensures |r| <= |tokens|
    ensures forall k :: 0 <= k < |r| ==> r[k] in steps
    decreases |tokens|
  {
    if |tokens| == 0 then []
    else StepsOf(steps, tokens[..|tokens| - 1]) + StepFor(steps, tokens[|tokens| - 1])
  }

  /** One more token adds the step it gives, if any. */
  lemma StepsOfSnoc(steps: seq<ProgressionStep>, tokens: seq<string>, t: string)
    requires |steps| == 7
    ensures StepsOf(steps, tokens + [t]) == StepsOf(steps, tokens) + StepFor(steps, t)
  {
    assert (tokens + [t])[..|tokens|] == tokens;
  }

  /** Steps of a prefix of the tokens, one token longer. */
  lemma StepsOfPrefix(steps: seq<ProgressionStep>, tokens: seq<string>, i: nat)
    requires |steps| == 7 && i < |tokens|
    ensures StepsOf(steps, tokens[..i + 1]) == StepsOf(steps, tokens[..i]) + StepFor(steps, tokens[i])
  {
    PrefixSnoc(tokens, i);
    StepsOfSnoc(steps, tokens[..i], tokens[i]);
  }

  /** The steps of two texts side by side are the steps of each. */
  lemma {:induction false} StepsOfAppend(steps: seq<ProgressionStep>, a: seq<string>, b: seq<string>)
    requires |steps| == 7
    ensures StepsOf(steps, a + b) == StepsOf(steps, a) + StepsOf(steps, b)
    decreases |b|
  {
    if |b| == 0 {
      assert a + b == a;
    } else {
      var b', t := b[..|b| - 1], b[|b| - 1];
      SplitLast(b);
      AppendSnoc(a, b', t);
      calc {
        StepsOf(steps, a + b);
        { StepsOfSnoc(steps, a + b', t); }
        StepsOf(steps, a + b') + StepFor(steps, t);
        { StepsOfAppend(steps, a, b'); }
        StepsOf(steps, a) + StepsOf(steps, b') + StepFor(steps, t);
        { StepsOfSnoc(steps, b', t); }
        StepsOf(steps, a) + StepsOf(steps, b);
      }
    }
  }

  /** A progression has exactly as many steps as its text has tokens when
      every token is a numeral. */
  lemma {:induction false} StepsOfLength(steps: seq<ProgressionStep>, tokens: seq<string>)
    requires |steps| == 7
    ensures (forall k :: 0 <= k < |tokens| ==> TokenDegree(tokens[k]).Some?) ==>
      |StepsOf(steps, tokens)| == |tokens|
    decreases |tokens|
  {
    if |tokens| > 0 {
      var init := tokens[..|tokens| - 1];
      StepsOfLength(steps, init);
      assert forall k :: 0 <= k < |init| ==> init[k] == tokens[k];
    }
  }

  /** A token that names no degree is passed over: it adds no step, wherever
      it stands. */
  lemma StepsOfSkips(steps: seq<ProgressionStep>, a: seq<string>, t: string, b: seq<string>)
    requires |steps| == 7 && TokenDegree(t) == None
    ensures StepsOf(steps, a + [t] + b) == StepsOf(steps, a + b)
  {
    calc {
      StepsOf(steps, a + [t] + b);
      { StepsOfAppend(steps, a + [t], b); }
      StepsOf(steps, a + [t]) + StepsOf(steps, b);
      { StepsOfSnoc(steps, a, t); }
      StepsOf(steps, a) + StepsOf(steps, b);
      { StepsOfAppend(steps, a, b); }
      StepsOf(steps, a + b);
    }
  }

  /** The numerals of the degrees ds, in order. */
  function Numerals(ds: seq<Degree>): (r: seq<string>)
    ensures |r| == |ds| && forall k :: 0 <= k < |ds| ==> r[k] == RomanNumerals[ds[k]]
  {
    seq(|ds|, k requires 0 <= k < |ds| => RomanNumerals[ds[k]])
  }

  /** A numeral names its own degree. */
  lemma NumeralNamesDegree(d: Degree)
    ensures TokenDegree(RomanNumerals[d]) == Some(d)
  {
    IEqualsReflexive(RomanNumerals[d]);
    TokenDegreeMeaning(RomanNumerals[d]);
  }

  /** The steps of degrees ds, in order. */
  function StepsAt(steps: seq<ProgressionStep>, ds: seq<Degree>): (r: seq<ProgressionStep>)
    requires |steps| == 7
    ensures |r| == |ds|
    decreases |ds|
  {
    if |ds| == 0 then [] else StepsAt(steps, ds[..|ds| - 1]) + [steps[ds[|ds| - 1]]]
  }

  /** A text of numerals gives, step for step, the degrees it names. */
  lemma {:induction false} StepsOfNumerals(steps: seq<ProgressionStep>, ds: seq<Degree>)
    requires |steps| == 7
    ensures StepsOf(steps, Numerals(ds)) == StepsAt(steps, ds)
    decreases |ds|
  {
    if |ds| > 0 {
      var init, last := ds[..|ds| - 1], ds[|ds| - 1];
      calc {
        StepsOf(steps, Numerals(ds));
        { NumeralsSnoc(ds); }
        StepsOf(steps, Numerals(init) + [RomanNumerals[last]]);
        { StepsOfSnoc(steps, Numerals(init), RomanNumerals[last]); }
        StepsOf(steps, Numerals(init)) + StepFor(steps, RomanNumerals[last]);
        { StepsOfNumerals(steps, init); NumeralNamesDegree(last); }
        StepsAt(steps, init) + [steps[last]];
        StepsAt(steps, ds);
      }
    }
  }

  lemma NumeralsSnoc(ds: seq<Degree>)
    requires |ds| > 0
    ensures Numerals(ds) == Numerals(ds[..|ds| - 1]) + [RomanNumerals[ds[|ds| - 1]]]
  {
    var a, b := Numerals(ds), Numerals(ds[..|ds| - 1]) + [RomanNumerals[ds[|ds| - 1]]];
    assert |a| == |b|;
    forall k | 0 <= k < |a|
      ensures a[k] == b[k]
    {
      if k < |ds| - 1 {
        assert b[k] == Numerals(ds[..|ds| - 1])[k];
      }
    }
  }

  /** A label the scale shows for degree d names d again. */
  lemma LabelNamesDegree(scale: DiatonicScale, d: Degree)
    ensures TokenDegree(scale.GetDegree(d)) == Some(d)
  {
    IEqualsSymmetric(scale.GetDegree(d), RomanNumerals[d]);
    TokenDegreeMeaning(scale.GetDegree(d));
  }

  /** Every label is a token: non-empty and free of '-'. */
  lemma LabelIsToken(scale: DiatonicScale, d: Degree)
    ensures IsToken(scale.GetDegree(d), "-")
  {
  }

  /** Every scale's table is labelled: each label is a token naming its degree. */
  lemma DegreeStepsLabelled(scale: DiatonicScale)
    requires scale.Valid()
    ensures Labelled(DegreeSteps(scale))
  {
    forall d: Degree
      ensures TokenDegree(DegreeSteps(scale)[d].str) == Some(d) && IsToken(DegreeSteps(scale)[d].str, "-")
    {
      LabelNamesDegree(scale, d);
      LabelIsToken(scale, d);
    }
  }

  /** The labels of one token's step, read as a text, give that step again. */
  lemma StepForLabels(steps: seq<ProgressionStep>, t: string)
    requires Labelled(steps)
    ensures StepsOf(steps, Labels(StepFor(steps, t))) == StepFor(steps, t)
  {
    match TokenDegree(t)
    case Some(d) =>
      assert Labels(StepFor(steps, t)) == [] + [steps[d].str];
      StepsOfSnoc(steps, [], steps[d].str);
    case None =>
      assert Labels(StepFor(steps, t)) == [];
  }

  /** Reading the labels of a progression as a text gives the same progression. */
  lemma {:induction false} StepsOfLabels(steps: seq<ProgressionStep>, tokens: seq<string>)
    requires Labelled(steps)
    ensures StepsOf(steps, Labels(StepsOf(steps, tokens))) == StepsOf(steps, tokens)
    decreases |tokens|
  {
    if |tokens| > 0 {
      var init, t := tokens[..|tokens| - 1], tokens[|tokens| - 1];
      var p, tail := StepsOf(steps, init), StepFor(steps, t);
      assert Labels(p + tail) == Labels(p) + Labels(tail);
      calc {
        StepsOf(steps, Labels(StepsOf(steps, tokens)));
        StepsOf(steps, Labels(p) + Labels(tail));
        { StepsOfAppend(steps, Labels(p), Labels(tail)); }
        StepsOf(steps, Labels(p)) + StepsOf(steps, Labels(tail));
        { StepsOfLabels(steps, init); StepForLabels(steps, t); }
        p + tail;
      }
    }
  }

  /** Every label in a progression is a token. */
  lemma {:induction false} LabelsAreTokens(steps: seq<ProgressionStep>, tokens: seq<string>)
    requires Labelled(steps)
    ensures forall k :: 0 <= k < |StepsOf(steps, tokens)| ==> IsToken(StepsOf(steps, tokens)[k].str, "-")
    decreases |tokens|
  {
    if |tokens| > 0 {
      var init := tokens[..|tokens| - 1];
      LabelsAreTokens(steps, init);
    }
  }

  /** The text print shows for a progression (its labels joined by '-'),
      parsed again, gives back the same progression. */
  lemma ImplodeThenParse(steps: seq<ProgressionStep>, text: string)
    requires Labelled(steps)
    ensures StepsOf(steps, Tokenize(Join(Labels(StepsOf(steps, Tokenize(text, "-"))), "-"), "-")) ==
      StepsOf(steps, Tokenize(text, "-"))
  {
    var p := StepsOf(steps, Tokenize(text, "-"));
    LabelsAreTokens(steps, Tokenize(text, "-"));
    TokenizeJoin(Labels(p), '-', "-");
    StepsOfLabels(steps, Tokenize(text, "-"));
  }

  /** One pass of the constructor's loop: the step of the degree the token
      names, pushed after the steps before it; a token naming no degree adds
      nothing. */
  method PushStep(s: DiatonicScale, steps: seq<ProgressionStep>, t: string) returns (r: seq<ProgressionStep>)
    requires s.Valid()
    ensures r == steps + StepFor(DegreeSteps(s), t)
  {
    r := steps;
    if IEquals(t, "i") {
      r := r + [ProgressionStep(s.GetDegree(Tonic), s.GetTriad(Tonic))];
      TableStep(s, Tonic);
      assert TokenDegree(t) == Some(Tonic);
    } else if IEquals(t, "ii") {
      r := r + [ProgressionStep(s.GetDegree(Supertonic), s.GetTriad(Supertonic))];
      TableStep(s, Supertonic);
      assert TokenDegree(t) == Some(Supertonic);
    } else if IEquals(t, "iii") {
      r := r + [ProgressionStep(s.GetDegree(Mediant), s.GetTriad(Mediant))];
      TableStep(s, Mediant);
      assert TokenDegree(t) == Some(Mediant);
    } else if IEquals(t, "iv") {
      r := r + [ProgressionStep(s.GetDegree(Subdominant), s.GetTriad(Subdominant))];
      TableStep(s, Subdominant);
      assert TokenDegree(t) == Some(Subdominant);
    } else if IEquals(t, "v") {
      r := r + [ProgressionStep(s.GetDegree(Dominant), s.GetTriad(Dominant))];
      TableStep(s, Dominant);
      assert TokenDegree(t) == Some(Dominant);
    } else if IEquals(t, "vi") {
      r := r + [ProgressionStep(s.GetDegree(Submediant), s.GetTriad(Submediant))];
      TableStep(s, Submediant);
      assert TokenDegree(t) == Some(Submediant);
    } else if IEquals(t, "vii") {
      r := r + [ProgressionStep(s.GetDegree(Subsemitone), s.GetTriad(Subsemitone))];
      TableStep(s, Subsemitone);
      assert TokenDegree(t) == Some(Subsemitone);
    } else {
      assert TokenDegree(t) == None;
    }
  }

  /** The constructor's loop: the steps of the tokens, pushed one token at a
      time. */
  method ReadSteps(s: DiatonicScale, tokens: seq<string>) returns (steps: seq<ProgressionStep>)
    requires s.Valid()
    ensures steps == StepsOf(DegreeSteps(s), tokens)
  {
    ghost var table := DegreeSteps(s);
    steps := [];
    for i := 0 to |tokens|
      invariant steps == StepsOf(table, tokens[..i])
    {
      StepsOfPrefix(table, tokens, i);
      steps := PushStep(s, steps, tokens[i]);
    }
    PrefixWhole(tokens);
  }

  /** A chord progression over a scale, and the steps its text gives. */
  class ChordProgression {
    var progression: seq<ProgressionStep>
    const scale: DiatonicScale

    /** ChordProgression(scale, text): splits the text on '-' and appends,
        for every token naming a degree, that degree's step. */
    constructor (s: DiatonicScale, text: string)
      requires s.Valid()
      ensures scale == s && progression == StepsOf(DegreeSteps(s), Tokenize(text, "-"))
    {
      scale := s;
      var chordTypes := new StringVector();
      Explode(text, "-", chordTypes);
      var tokens := chordTypes.items;
      assert tokens == Tokenize(text, "-");
      var steps := ReadSteps(s, tokens);
      progression := steps;
    }
  }

  /** "i-iv-v" splits into its three numerals. */
  lemma SplitOneFourFive()
    ensures Tokenize("i-iv-v", "-") == ["i", "iv", "v"]
  {
    calc {
      Join(["i", "iv", "v"], "-");
      { JoinThree("i", "iv", "v", "-"); }
      "i" + "-" + "iv" + "-" + "v";
      "i-iv-v";
    }
    TokenizeJoin(["i", "iv", "v"], '-', "-");
  }

  /** In C major, degrees I, IV and V carry the major triads on C, F and G. */
  lemma CMajorPrimarySteps(s: DiatonicScale)
    requires s.Valid() && s.mode == MajorMode && s.notes[0] == NoteC
    ensures DegreeSteps(s)[Tonic] == ProgressionStep("I", MakeTriad(NoteC, Major))
    ensures DegreeSteps(s)[Subdominant] == ProgressionStep("IV", MakeTriad(NoteF, Major))
    ensures DegreeSteps(s)[Dominant] == ProgressionStep("V", MakeTriad(NoteG, Major))
  {
    ScaleExamples();
    assert s.notes[..] == [NoteC, NoteD, NoteE, NoteF, NoteG, NoteA, NoteB];
    assert s.notes[3] == NoteF && s.notes[4] == NoteG;
  }

  /** Three tokens give the steps each of them gives, in order. */
  lemma ThreeTokens(steps: seq<ProgressionStep>, ts: seq<string>)
    requires |steps| == 7 && |ts| == 3
    ensures StepsOf(steps, ts) == StepFor(steps, ts[0]) + StepFor(steps, ts[1]) + StepFor(steps, ts[2])
  {
    StepsOfPrefix(steps, ts, 0);
    StepsOfPrefix(steps, ts, 1);
    StepsOfPrefix(steps, ts, 2);
    PrefixWhole(ts);
  }

  /** The numerals "i", "iv" and "v" give the steps of degrees I, IV and V. */
  lemma OneFourFiveNumerals(steps: seq<ProgressionStep>)
    requires |steps| == 7
    ensures StepsOf(steps, ["i", "iv", "v"]) == [steps[Tonic], steps[Subdominant], steps[Dominant]]
  {
    ThreeTokens(steps, ["i", "iv", "v"]);
    assert RomanNumerals[Tonic] == "i" && RomanNumerals[Subdominant] == "iv" && RomanNumerals[Dominant] == "v";
    NumeralNamesDegree(Tonic);
    NumeralNamesDegree(Subdominant);
    NumeralNamesDegree(Dominant);
  }

  /** In C major, "i-iv-v" is I IV V: C major, F major and G major. */
  lemma OneFourFiveInCMajor(s: DiatonicScale)
    requires s.Valid() && s.mode == MajorMode && s.notes[0] == NoteC
    ensures StepsOf(DegreeSteps(s), Tokenize("i-iv-v", "-")) ==
      [ProgressionStep("I", MakeTriad(NoteC, Major)),
       ProgressionStep("IV", MakeTriad(NoteF, Major)),
       ProgressionStep("V", MakeTriad(NoteG, Major))]
  {
    var steps := DegreeSteps(s);
    calc {
      StepsOf(steps, Tokenize("i-iv-v", "-"));
      { SplitOneFourFive(); }
      StepsOf(steps, ["i", "iv", "v"]);
      { OneFourFiveNumerals(steps); }
      [steps[Tonic], steps[Subdominant], steps[Dominant]];
      { CMajorPrimarySteps(s); }
      [ProgressionStep("I", MakeTriad(NoteC, Major)),
       ProgressionStep("IV", MakeTriad(NoteF, Major)),
       ProgressionStep("V", MakeTriad(NoteG, Major))];
    }
  }

  /** "i-xyz-v" splits into "i", "xyz" and "v". */
  lemma SplitWithUnknown()
    ensures Tokenize("i-xyz-v", "-") == ["i", "xyz", "v"]
  {
    calc {
      Join(["i", "xyz", "v"], "-");
      { JoinThree("i", "xyz", "v", "-"); }
      "i" + "-" + "xyz" + "-" + "v";
      "i-xyz-v";
    }
    TokenizeJoin(["i", "xyz", "v"], '-', "-");
  }

  /** "xyz" names no degree. */
  lemma XyzNamesNothing()
    ensures TokenDegree("xyz") == None
  {
  }

  /** "i" and "v" give the steps of I and V; "xyz" gives none. */
  lemma WithUnknownTokens(steps: seq<ProgressionStep>)
    requires |steps| == 7
    ensures StepsOf(steps, ["i", "xyz", "v"]) == [steps[Tonic], steps[Dominant]]
  {
    ThreeTokens(steps, ["i", "xyz", "v"]);
    assert RomanNumerals[Tonic] == "i" && RomanNumerals[Dominant] == "v";
    NumeralNamesDegree(Tonic);
    NumeralNamesDegree(Dominant);
    XyzNamesNothing();
  }

  /** "i-xyz-v" is three tokens, but "xyz" names no degree: the progression
      has the two steps of degrees I and V. */
  lemma UnknownTokenSkipped(steps: seq<ProgressionStep>)
    requires |steps| == 7
    ensures StepsOf(steps, Tokenize("i-xyz-v", "-")) == [steps[Tonic], steps[Dominant]]
  {
    SplitWithUnknown();
    WithUnknownTokens(steps);
  }

  /** Three steps show as their labels joined by '-'. */
  lemma ThreeLabelsJoined(a: ProgressionStep, b: ProgressionStep, c: ProgressionStep)
    ensures Join(Labels([a, b, c]), "-") == a.str + "-" + b.str + "-" + c.str
  {
    assert Labels([a, b, c]) == [a.str, b.str, c.str];
    JoinThree(a.str, b.str, c.str, "-");
  }

  /** Printed, that progression reads "I-IV-V". */
  lemma OneFourFiveShown(s: DiatonicScale)
    requires s.Valid() && s.mode == MajorMode && s.notes[0] == NoteC
    ensures Join(Labels(StepsOf(DegreeSteps(s), Tokenize("i-iv-v", "-"))), "-") == "I-IV-V"
  {
    var a, b, c := ProgressionStep("I", MakeTriad(NoteC, Major)),
      ProgressionStep("IV", MakeTriad(NoteF, Major)), ProgressionStep("V", MakeTriad(NoteG, Major));
    calc {
      Join(Labels(StepsOf(DegreeSteps(s), Tokenize("i-iv-v", "-"))), "-");
      { OneFourFiveInCMajor(s); }
      Join(Labels([a, b, c]), "-");
      { ThreeLabelsJoined(a, b, c); }
      "I" + "-" + "IV" + "-" + "V";
      "I-IV-V";
    }
  }
}
