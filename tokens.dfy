/** Rendering the fitted expression as text.

    `generateOutputExpr` splits the function text with
    `re.split('([^A-Za-z0-9.])', text)`: the pattern matches one character
    outside letters, digits and `.`, and because the group captures, each
    such delimiter is kept as a part of its own.  The parts alternate: even
    positions hold runs of word characters (possibly empty), odd positions
    hold single delimiters.  Parts that are keys of the substitution map are
    then overwritten in place and the parts joined back together. */
module Tokens {

  /** A character of the class `[A-Za-z0-9.]`. */
  predicate IsWordChar(c: char)
  {
    ('A' <= c <= 'Z') || ('a' <= c <= 'z') || ('0' <= c <= '9') || c == '.'
  }

  /** Number of characters of `s` outside `[A-Za-z0-9.]`. */
  function DelimCount(s: string): nat
  {
    if s == [] then 0 else (if IsWordChar(s[0]) then 0 else 1) + DelimCount(s[1..])
  }

  /** `re.split('([^A-Za-z0-9.])', s)`. */
  function Split(s: string): (parts: seq<string>)
    ensures |parts| == 2 * DelimCount(s) + 1
  {
    if s == [] then [""]
    else
      var rest := Split(s[1..]);
      if IsWordChar(s[0]) then [[s[0]] + rest[0]] + rest[1..]
      else ["", [s[0]]] + rest
  }

  /** `''.join(parts)`. */
  function Join(parts: seq<string>): string
  {
    if parts == [] then "" else parts[0] + Join(parts[1..])
  }

  predicate AllWordChars(w: string)
  {
    forall k :: 0 <= k < |w| ==> IsWordChar(w[k])
  }

  /** The shape `re.split` with one capturing group produces: an odd number of
      parts, runs of word characters at even positions and single delimiters
      at odd positions. */
  predicate WellSplit(parts: seq<string>)
  {
    && |parts| % 2 == 1
    && (forall i :: 0 <= i < |parts| && i % 2 == 0 ==> AllWordChars(parts[i]))
    && (forall i :: 0 <= i < |parts| && i % 2 == 1 ==> |parts[i]| == 1 && !IsWordChar(parts[i][0]))
  }

  /** Concatenating the parts gives back the original text. */
  lemma {:induction false} SplitJoin(s: string)
    ensures Join(Split(s)) == s
    decreases |s|
  {
    if s != [] {
      var rest := Split(s[1..]);
      SplitJoin(s[1..]);
      if IsWordChar(s[0]) {
        assert rest == [rest[0]] + rest[1..];
        assert Join(rest) == rest[0] + Join(rest[1..]);
        var parts := [[s[0]] + rest[0]] + rest[1..];
        assert parts[1..] == rest[1..];
        assert Join(parts) == ([s[0]] + rest[0]) + Join(rest[1..]);
        assert s == [s[0]] + s[1..];
      } else {
        var parts := ["", [s[0]]] + rest;
        assert parts[1..] == [[s[0]]] + rest;
        assert parts[1..][1..] == rest;
        assert Join(parts) == "" + ([s[0]] + Join(rest));
        assert s == [s[0]] + s[1..];
      }
    }
  }

  /** The parts of a split have the alternating shape. */
  lemma {:induction false} SplitShape(s: string)
    ensures WellSplit(Split(s))
    decreases |s|
  {
    if s != [] {
      var rest := Split(s[1..]);
      SplitShape(s[1..]);
      var parts := Split(s);
      if IsWordChar(s[0]) {
        assert parts == [[s[0]] + rest[0]] + rest[1..];
        forall i | 0 <= i < |parts| && i % 2 == 0 ensures AllWordChars(parts[i]) {
          if i > 0 { assert parts[i] == rest[i]; }
        }
        forall i | 0 <= i < |parts| && i % 2 == 1
          ensures |parts[i]| == 1 && !IsWordChar(parts[i][0])
        {
          assert parts[i] == rest[i];
        }
      } else {
        assert parts == ["", [s[0]]] + rest;
        forall i | 0 <= i < |parts| && i % 2 == 0 ensures AllWordChars(parts[i]) {
          if i > 0 { assert parts[i] == rest[i - 2]; }
        }
        forall i | 0 <= i < |parts| && i % 2 == 1
          ensures |parts[i]| == 1 && !IsWordChar(parts[i][0])
        {
          if i > 1 { assert parts[i] == rest[i - 2]; }
        }
      }
    }
  }

  /** Splitting a word-character run followed by more text glues the run to
      the first part of the rest. */
  lemma {:induction false} SplitWordPrefix(w: string, t: string)
    requires AllWordChars(w)
    ensures Split(w + t) == [w + Split(t)[0]] + Split(t)[1..]
    decreases |w|
  {
    if w != [] {
      var w' := w[1..];
      assert (w + t)[1..] == w' + t;
      assert (w + t)[0] == w[0];
      SplitWordPrefix(w', t);
      var r := Split(w' + t);
      assert r[0] == w' + Split(t)[0] && r[1..] == Split(t)[1..];
      assert Split(w + t) == [[w[0]] + r[0]] + r[1..];
      assert w == [w[0]] + w';
      assert [w[0]] + (w' + Split(t)[0]) == w + Split(t)[0];
    } else {
      assert w + t == t && w + Split(t)[0] == Split(t)[0];
      assert Split(t) == [Split(t)[0]] + Split(t)[1..];
    }
  }

  /** Conversely, every sequence of parts of the alternating shape is the split
      of its own concatenation: the split is the only such decomposition. */
  lemma {:induction false} JoinSplit(parts: seq<string>)
    requires WellSplit(parts)
    ensures Split(Join(parts)) == parts
    decreases |parts|
  {
    var w := parts[0];
    assert AllWordChars(w);
    if |parts| == 1 {
      assert parts[1..] == [];
      assert Join(parts) == w + "";
      assert w + "" == w;
      SplitWordPrefix(w, "");
    } else {
      var d := parts[1];
      var rest := parts[2..];
      assert WellSplit(rest) by {
        forall i | 0 <= i < |rest| && i % 2 == 0 ensures AllWordChars(rest[i]) {
          assert rest[i] == parts[i + 2];
        }
        forall i | 0 <= i < |rest| && i % 2 == 1
          ensures |rest[i]| == 1 && !IsWordChar(rest[i][0])
        {
          assert rest[i] == parts[i + 2];
        }
      }
      JoinSplit(rest);
      assert parts[1..][1..] == rest;
      assert Join(parts) == w + (d + Join(rest));
      var t := d + Join(rest);
      assert d == [d[0]];
      assert t[0] == d[0] && t[1..] == Join(rest);
      assert Split(t) == ["", d] + parts[2..];
      SplitWordPrefix(w, t);
      assert w + "" == w;
      assert parts == [w] + [d] + rest;
    }
  }

  /** One part after substitution: replaced when it is a key of the map. */
  function SubstPart(p: string, subst: map<string, string>): string
  {
    if p in subst then subst[p] else p
  }

  /** The parts after the replacement loop of `generateOutputExpr`. */
  function Substitute(parts: seq<string>, subst: map<string, string>): seq<string>
  {
    seq(|parts|, i requires 0 <= i < |parts| => SubstPart(parts[i], subst))
  }

  /** The replacement loop: overwrites, in place, every part that is a key of
      the map with its image, and leaves every other part as it was. */
  method SubstituteParts(parts: array<string>, subst: map<string, string>)
    modifies parts
    ensures parts[..] == Substitute(old(parts[..]), subst)
  {
    var i := 0;
    while i < parts.Length
      invariant 0 <= i <= parts.Length
      invariant forall k :: 0 <= k < i ==> parts[k] == SubstPart(old(parts[k]), subst)
      invariant forall k :: i <= k < parts.Length ==> parts[k] == old(parts[k])
    {
      if parts[i] in subst {
        parts[i] := subst[parts[i]];
      }
      i := i + 1;
    }
  }

  /** The text `generateOutputExpr` produces from the function text. */
  function Render(text: string, subst: map<string, string>): string
  {
    Join(Substitute(Split(text), subst))
  }

  /** A map none of whose keys occurs as a part leaves the text as it was:
      rendering is pure token substitution, so operators, literals and
      unknown names pass through verbatim. */
  lemma RenderUntouched(text: string, subst: map<string, string>)
    requires forall i :: 0 <= i < |Split(text)| ==> Split(text)[i] !in subst
    ensures Render(text, subst) == text
  {
    assert Substitute(Split(text), subst) == Split(text);
    SplitJoin(text);
  }

  /** When no key is a lone delimiter, substitution keeps every delimiter at its
      odd position and rewrites only the word runs. */
  lemma SubstituteKeepsDelims(text: string, subst: map<string, string>)
    requires forall k :: k in subst ==> |k| != 1 || IsWordChar(k[0])
    ensures |Substitute(Split(text), subst)| == |Split(text)|
    ensures forall i :: 0 <= i < |Split(text)| && i % 2 == 1 ==>
              Substitute(Split(text), subst)[i] == Split(text)[i]
  {
    SplitShape(text);
  }

  /** `re.split` of the default function text `a + b*x`. */
  lemma SplitExample()
    ensures Split("a + b*x") == ["a", " ", "", "+", "", " ", "b", "*", "x"]
  {
    var parts := ["a", " ", "", "+", "", " ", "b", "*", "x"];
    ExampleShape(parts);
    ExampleJoin(parts);
    JoinSplit(parts);
  }

  lemma ExampleShape(parts: seq<string>)
    requires parts == ["a", " ", "", "+", "", " ", "b", "*", "x"]
    ensures WellSplit(parts)
  {
    assert IsWordChar('a') && IsWordChar('b') && IsWordChar('x');
    assert !IsWordChar(' ') && !IsWordChar('+') && !IsWordChar('*');
  }

  lemma ExampleJoin(parts: seq<string>)
    requires parts == ["a", " ", "", "+", "", " ", "b", "*", "x"]
    ensures Join(parts) == "a + b*x"
  {
    var tail := parts[5..];
    assert Join(tail[3..]) == "x" by { assert tail[3..][1..] == []; }
    assert Join(tail[2..]) == "*x" by { assert tail[2..][1..] == tail[3..]; }
    assert Join(tail[1..]) == "b*x" by { assert tail[1..][1..] == tail[2..]; }
    assert Join(tail) == " b*x";
    JoinHead(parts, tail);
  }

  lemma JoinHead(parts: seq<string>, tail: seq<string>)
    requires parts == ["a", " ", "", "+", ""] + tail
    requires Join(tail) == " b*x"
    ensures Join(parts) == "a + b*x"
  {
    assert parts[4..] == [""] + tail && parts[4..][1..] == tail;
    assert Join(parts[4..]) == " b*x";
    assert parts[3..][1..] == parts[4..];
    assert Join(parts[3..]) == "+ b*x";
    assert parts[2..][1..] == parts[3..];
    assert Join(parts[2..]) == "+ b*x";
    assert parts[1..][1..] == parts[2..];
    assert Join(parts[1..]) == " + b*x";
  }
}
