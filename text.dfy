/** Text helpers the calculator relies on: ASCII case-insensitive comparison
    (the role of `_wcsicmp` and `boost::iequals`), splitting on delimiter
    characters with empty pieces dropped (a `boost::char_separator` tokenizer)
    and joining with a separator (`implode`'s stream loop). */
module Text {

  /** The ASCII lower-case form of a character; other characters are kept. */
  function Lower(c: char): char
  {
    if 'A' <= c <= 'Z' then (c as int + 32) as char else c
  }

  /** `a` and `b` are equal once ASCII letters are compared without case. */
  predicate IEquals(a: string, b: string)
    ensures IEquals(a, b) <==> |a| == |b| && forall j :: 0 <= j < |a| ==> Lower(a[j]) == Lower(b[j])
    decreases |a|
  {
    |a| == |b| && (|a| == 0 || (Lower(a[0]) == Lower(b[0]) && IEquals(a[1..], b[1..])))
  }

  lemma {:induction false} IEqualsReflexive(a: string)
    ensures IEquals(a, a)
    decreases |a|
  {
    if |a| > 0 {
      IEqualsReflexive(a[1..]);
    }
  }

  lemma {:induction false} IEqualsSymmetric(a: string, b: string)
    requires IEquals(a, b)
    ensures IEquals(b, a)
    decreases |a|
  {
    if |a| > 0 {
      IEqualsSymmetric(a[1..], b[1..]);
    }
  }

  lemma {:induction false} IEqualsTransitive(a: string, b: string, c: string)
    requires IEquals(a, b) && IEquals(b, c)
    ensures IEquals(a, c)
    decreases |a|
  {
    if |a| > 0 {
      IEqualsTransitive(a[1..], b[1..], c[1..]);
    }
  }

  /** Two one-character texts are alike when their characters are. */
  lemma IEqualsSingle(s: string, c: char)
    requires |s| == 1
    ensures IEquals(s, [c]) <==> Lower(s[0]) == Lower(c)
  {
    assert IEquals(s[1..], []);
  }

  /** Every character is an ASCII capital letter. */
  predicate AllUpper(s: string)
  {
    forall j :: 0 <= j < |s| ==> 'A' <= s[j] <= 'Z'
  }

  /** Every character is an ASCII small letter. */
  predicate AllLower(s: string)
  {
    forall j :: 0 <= j < |s| ==> 'a' <= s[j] <= 'z'
  }

  /** A piece the tokenizer can produce: non-empty and free of delimiters. */
  predicate IsToken(t: string, delims: string)
  {
    t != [] && forall j :: 0 <= j < |t| ==> t[j] !in delims
  }

  /** The position of the first delimiter in `s`, or `|s|` when there is none. */
  function FirstDelim(s: string, delims: string): (k: nat)
    ensures k <= |s|
    decreases |s|
  {
    if s == [] || s[0] in delims then 0 else 1 + FirstDelim(s[1..], delims)
  }

  /** No delimiter comes before the first one, and it is a delimiter. */
  lemma {:induction false} FirstDelimFinds(s: string, delims: string)
    ensures forall j :: 0 <= j < FirstDelim(s, delims) ==> s[j] !in delims
    ensures FirstDelim(s, delims) < |s| ==> s[FirstDelim(s, delims)] in delims
    decreases |s|
  {
    if s != [] && s[0] !in delims {
      FirstDelimFinds(s[1..], delims);
    }
  }

  /** The pieces of `s` between delimiter characters, in order, with the empty
      pieces (leading, trailing or repeated delimiters) dropped. */
  function Tokenize(s: string, delims: string): (r: seq<string>)
    ensures forall k :: 0 <= k < |r| ==> IsToken(r[k], delims)
    decreases |s|
  {
    var k := FirstDelim(s, delims);
    FirstDelimFinds(s, delims);
    Piece(s, k) + (if k == |s| then [] else Tokenize(s[k + 1..], delims))
  }

  /** A delimiter-free text is one token, or none when it is empty. */
  lemma TokenizeNoDelimiter(s: string, delims: string)
    requires forall j :: 0 <= j < |s| ==> s[j] !in delims
    ensures Tokenize(s, delims) == if s == [] then [] else [s]
  {
    FirstDelimFinds(s, delims);
    assert FirstDelim(s, delims) == |s|;
    assert s[..|s|] == s;
  }

  /** Splitting is compositional: a delimiter separates the tokens on its left
      from those on its right, and never merges or loses any. */
  lemma {:induction false} TokenizeAppend(a: string, d: char, b: string, delims: string)
    requires d in delims
    ensures Tokenize(a + [d] + b, delims) == Tokenize(a, delims) + Tokenize(b, delims)
    decreases |a|
  {
    var k := FirstDelim(a, delims);
    if k < |a| {
      var rest := a[k + 1..];
      calc {
        Tokenize(a + [d] + b, delims);
        { TokenizeBeforeAppended(a, d, b, delims, k); }
        Piece(a, k) + Tokenize(rest + [d] + b, delims);
        { TokenizeAppend(rest, d, b, delims); }
        Piece(a, k) + (Tokenize(rest, delims) + Tokenize(b, delims));
        (Piece(a, k) + Tokenize(rest, delims)) + Tokenize(b, delims);
        { TokenizeAtFirstDelim(a, delims); }
        Tokenize(a, delims) + Tokenize(b, delims);
      }
    } else {
      TokenizeAppendAt(a, d, b, delims);
    }
  }

  /** When `a` has a delimiter of its own, splitting `a + [d] + b` first cuts
      off the same piece as splitting `a`. */
  lemma TokenizeBeforeAppended(a: string, d: char, b: string, delims: string, k: nat)
    requires d in delims && k == FirstDelim(a, delims) && k < |a|
    ensures Tokenize(a + [d] + b, delims) == Piece(a, k) + Tokenize(a[k + 1..] + [d] + b, delims)
  {
    var s := a + [d] + b;
    calc {
      Tokenize(s, delims);
      { AppendedShape(a, d, b, delims, k); TokenizeAtFirstDelim(s, delims); }
      Piece(s, k) + Tokenize(s[k + 1..], delims);
      { AppendedShape(a, d, b, delims, k); }
      Piece(a, k) + Tokenize(a[k + 1..] + [d] + b, delims);
    }
  }

  /** The first delimiter of `a + [d] + b`, and what lies on either side. */
  lemma AppendedShape(a: string, d: char, b: string, delims: string, k: nat)
    requires d in delims && k == FirstDelim(a, delims) && k < |a|
    ensures FirstDelim(a + [d] + b, delims) == k
    ensures Piece(a + [d] + b, k) == Piece(a, k)
    ensures (a + [d] + b)[k + 1..] == a[k + 1..] + [d] + b
  {
    FirstDelimAppend(a, d, b, delims);
    TakeAppend(a + [d], b, k);
    TakeAppend(a, [d], k);
    DropAppend(a + [d], b, k + 1);
    DropAppend(a, [d], k + 1);
  }

  /** The base step of TokenizeAppend: `a` has no delimiter, so the added one
      ends the first piece. */
  lemma TokenizeAppendAt(a: string, d: char, b: string, delims: string)
    requires d in delims && FirstDelim(a, delims) == |a|
    ensures Tokenize(a + [d] + b, delims) == Tokenize(a, delims) + Tokenize(b, delims)
  {
    var s := a + [d] + b;
    var k := |a|;
    assert FirstDelim(s, delims) == k by {
      FirstDelimAppend(a, d, b, delims);
    }
    assert Piece(s, k) == Piece(a, k) by {
      TakeAppend(a + [d], b, k);
      TakeAppend(a, [d], k);
    }
    assert s[k + 1..] == b by {
      DropAppend(a + [d], b, k + 1);
    }
    calc {
      Tokenize(s, delims);
      { TokenizeAtFirstDelim(s, delims); }
      Piece(a, k) + Tokenize(b, delims);
      { TokenizeAtFirstDelim(a, delims); }
      Tokenize(a, delims) + Tokenize(b, delims);
    }
  }

  /** The first step of splitting: the piece before the first delimiter, then
      the pieces of the rest. */
  lemma TokenizeAtFirstDelim(s: string, delims: string)
    ensures FirstDelim(s, delims) < |s| ==>
      Tokenize(s, delims) == Piece(s, FirstDelim(s, delims)) + Tokenize(s[FirstDelim(s, delims) + 1..], delims)
    ensures FirstDelim(s, delims) == |s| ==> Tokenize(s, delims) == Piece(s, |s|)
  {
  }

  /** The piece before position k, dropped when it is empty. */
  function Piece(s: string, k: nat): seq<string>
    requires k <= |s|
  {
    if k == 0 then [] else [s[..k]]
  }

  lemma {:induction false} FirstDelimAppend(a: string, d: char, b: string, delims: string)
    requires d in delims
    ensures FirstDelim(a + [d] + b, delims) == FirstDelim(a, delims)
    decreases |a|
  {
    if a != [] && a[0] !in delims {
      DropAppend(a + [d], b, 1);
      DropAppend(a, [d], 1);
      FirstDelimAppend(a[1..], d, b, delims);
    }
  }

  /** Dropping a part of the left operand of a concatenation. */
  lemma DropAppend<T>(a: seq<T>, x: seq<T>, i: nat)
    requires i <= |a|
    ensures (a + x)[i..] == a[i..] + x
  {
  }

  /** Taking a part of the left operand of a concatenation. */
  lemma TakeAppend<T>(a: seq<T>, x: seq<T>, i: nat)
    requires i <= |a|
    ensures (a + x)[..i] == a[..i]
  {
  }

  /** A non-empty sequence is its front and its last item. */
  lemma SplitLast<T>(b: seq<T>)
    requires |b| > 0
    ensures b == b[..|b| - 1] + [b[|b| - 1]]
  {
  }

  /** Appending a sequence that ends in t is appending its front, then t. */
  lemma AppendSnoc<T>(a: seq<T>, b: seq<T>, t: T)
    ensures a + (b + [t]) == (a + b) + [t]
  {
  }

  /** A prefix one longer is the prefix and the next item. */
  lemma PrefixSnoc<T>(xs: seq<T>, i: nat)
    requires i < |xs|
    ensures xs[..i + 1] == xs[..i] + [xs[i]]
  {
  }

  /** The prefix as long as the sequence is the sequence. */
  lemma PrefixWhole<T>(xs: seq<T>)
    ensures xs[..|xs|] == xs
  {
  }

  /** `xs` joined with `sep` between consecutive items, and nothing before the
      first or after the last. */
  function Join(xs: seq<string>, sep: string): (r: string)
    ensures |xs| == 0 ==> r == ""
    ensures |xs| == 1 ==> r == xs[0]
    ensures |xs| > 0 ==> xs[0] <= r
    decreases |xs|
  {
    if |xs| == 0 then ""
    else if |xs| == 1 then xs[0]
    else Join(xs[..|xs| - 1], sep) + sep + xs[|xs| - 1]
  }

  /** Appending an item to a non-empty list appends the separator and the item. */
  lemma JoinSnoc(xs: seq<string>, x: string, sep: string)
    requires |xs| >= 1
    ensures Join(xs + [x], sep) == Join(xs, sep) + sep + x
  {
    assert (xs + [x])[..|xs|] == xs;
  }

  /** Joining one more item of a list onto the join of the items before it. */
  lemma JoinPrefix(xs: seq<string>, k: nat, sep: string)
    requires 1 <= k < |xs|
    ensures Join(xs[..k + 1], sep) == Join(xs[..k], sep) + sep + xs[k]
  {
    assert xs[..k + 1][..k] == xs[..k];
  }

  /** Three items joined: the separator goes between each neighbouring pair. */
  lemma JoinThree(a: string, b: string, c: string, sep: string)
    ensures Join([a, b, c], sep) == a + sep + b + sep + c
  {
    assert [a, b, c][..2] == [a, b];
    assert [a, b][..1] == [a];
  }

  /** Joining with a delimiter and splitting on it again gives back the items,
      provided each is a token (non-empty, no delimiter inside). */
  lemma {:induction false} TokenizeJoin(xs: seq<string>, d: char, delims: string)
    requires d in delims
    requires forall k :: 0 <= k < |xs| ==> IsToken(xs[k], delims)
    ensures Tokenize(Join(xs, [d]), delims) == xs
    decreases |xs|
  {
    if |xs| == 0 {
      assert Tokenize("", delims) == [];
    } else if |xs| == 1 {
      TokenizeNoDelimiter(xs[0], delims);
    } else {
      var init, last := xs[..|xs| - 1], xs[|xs| - 1];
      assert xs == init + [last];
      calc {
        Tokenize(Join(xs, [d]), delims);
        Tokenize(Join(init, [d]) + [d] + last, delims);
        { TokenizeAppend(Join(init, [d]), d, last, delims); }
        Tokenize(Join(init, [d]), delims) + Tokenize(last, delims);
        { TokenizeJoin(init, d, delims); TokenizeNoDelimiter(last, delims); }
        init + [last];
      }
    }
  }
}
