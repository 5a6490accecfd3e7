/** `format_name`: an identifier made of the word runs of a display name. */
module NameFormatter {
  import opened Strings

  /** `[word for word in RE_WORD.findall(name) if word]`: the maximal non-empty
      runs of `[A-Za-z0-9_]` of `s`, in order. */
  function Words(s: string): (ws: seq<string>)
    ensures forall i :: 0 <= i < |ws| ==> ws[i] != [] && All(IsWordChar, ws[i])
    decreases |s|
  {
    if s == [] then []
    else
      var n := Span(IsWordChar, s);
      if n == 0 then Words(s[1..]) else [s[..n]] + Words(s[n..])
  }

  /** `sep.join(ws)` */
  function Join(ws: seq<string>, sep: string): (s: string)
    ensures ws != [] ==> |s| == |Concat(ws)| + (|ws| - 1) * |sep|
  {
    if ws == [] then "" else if |ws| == 1 then ws[0] else ws[0] + sep + Join(ws[1..], sep)
  }

  /** The result is made of `[A-Za-z0-9_]` only, and is empty exactly when the
      name has no word character. */
  function FormatName(name: string): (s: string)
    ensures All(IsWordChar, s)
    ensures s == "" <==> Words(name) == []
  {
    JoinWordChars(Words(name));
    Join(Words(name), "_")
  }

  /** The characters of `s` that are word characters, in order. */
  function WordChars(s: string): string {
    if s == [] then [] else (if IsWordChar(s[0]) then [s[0]] else []) + WordChars(s[1..])
  }

  function Concat(ws: seq<string>): string {
    if ws == [] then [] else ws[0] + Concat(ws[1..])
  }

  lemma {:induction false} WordCharsAppend(a: string, b: string)
    ensures WordChars(a + b) == WordChars(a) + WordChars(b)
    decreases |a|
  {
    if a == [] {
      assert a + b == b;
    } else {
      var head := if IsWordChar(a[0]) then [a[0]] else [];
      assert (a + b)[0] == a[0] && (a + b)[1..] == a[1..] + b;
      assert WordChars(a + b) == head + WordChars(a[1..] + b);
      WordCharsAppend(a[1..], b);
      assert WordChars(a) == head + WordChars(a[1..]);
      assert head + (WordChars(a[1..]) + WordChars(b)) == (head + WordChars(a[1..])) + WordChars(b);
    }
  }

  lemma {:induction false} WordCharsOfWord(a: string)
    requires All(IsWordChar, a)
    ensures WordChars(a) == a
    decreases |a|
  {
    if a != [] {
      WordCharsOfWord(a[1..]);
    }
  }

  /** Nothing but the separators is lost: the words, concatenated, are exactly
      the word characters of the input. */
  lemma {:induction false} WordsKeepWordChars(s: string)
    ensures Concat(Words(s)) == WordChars(s)
    decreases |s|
  {
    if s != [] {
      var n := Span(IsWordChar, s);
      if n == 0 {
        assert !IsWordChar(s[0]);
        WordsKeepWordChars(s[1..]);
        assert Words(s) == Words(s[1..]);
        assert WordChars(s) == WordChars(s[1..]);
      } else {
        var w, rest := s[..n], s[n..];
        WordsKeepWordChars(rest);
        assert Words(s) == [w] + Words(rest);
        assert s == w + rest;
        WordCharsAppend(w, rest);
        WordCharsOfWord(w);
        ConcatCons(w, Words(rest));
      }
    }
  }

  lemma ConcatCons(w: string, ws: seq<string>)
    ensures Concat([w] + ws) == w + Concat(ws)
  {
    assert ([w] + ws)[0] == w && ([w] + ws)[1..] == ws;
  }

  lemma {:induction false} JoinWordChars(ws: seq<string>)
    requires forall i :: 0 <= i < |ws| ==> All(IsWordChar, ws[i])
    ensures All(IsWordChar, Join(ws, "_"))
    decreases |ws|
  {
    if |ws| > 1 {
      JoinWordChars(ws[1..]);
      var t := Join(ws[1..], "_");
      assert Join(ws, "_") == ws[0] + "_" + t;
      forall i | 0 <= i < |ws[0] + "_" + t|
        ensures IsWordChar((ws[0] + "_" + t)[i])
      {
        if i < |ws[0]| {
          assert (ws[0] + "_" + t)[i] == ws[0][i];
        } else if i > |ws[0]| {
          assert (ws[0] + "_" + t)[i] == t[i - |ws[0]| - 1];
        }
      }
    }
  }

  /** A run of word characters is its own only word. */
  lemma WordsOfWord(t: string)
    requires All(IsWordChar, t)
    ensures Words(t) == if t == [] then [] else [t]
  {
    if t != [] {
      SpanOf(IsWordChar, t, []);
      assert t + [] == t;
      assert t[|t|..] == [];
    }
  }

  /** Formatting an already formatted name changes nothing. */
  lemma FormatNameIdempotent(name: string)
    ensures FormatName(FormatName(name)) == FormatName(name)
  {
    var t := FormatName(name);
    WordsOfWord(t);
  }

  /** A word run followed by a separator contributes exactly that word. */
  lemma WordsStep(w: string, c: char, rest: string)
    requires w != [] && All(IsWordChar, w) && !IsWordChar(c)
    ensures Words(w + [c] + rest) == [w] + Words(rest)
  {
    var s := w + [c] + rest;
    assert s == w + ([c] + rest);
    SpanOf(IsWordChar, w, [c] + rest);
    assert s[..|w|] == w;
    assert s[|w|..] == [c] + rest;
    assert ([c] + rest)[1..] == rest;
  }

  /** A separator before anything else contributes nothing. With `WordsStep`
      and `WordsOfWord` this fixes the words of every input. */
  lemma WordsSkip(c: char, rest: string)
    requires !IsWordChar(c)
    ensures Words([c] + rest) == Words(rest)
  {
    assert ([c] + rest)[0] == c && ([c] + rest)[1..] == rest;
  }

  /** A word followed by two separators contributes that word only. */
  lemma WordsStepTwo(w: string, c1: char, c2: char, rest: string)
    requires w != [] && All(IsWordChar, w) && !IsWordChar(c1) && !IsWordChar(c2)
    ensures Words(w + [c1, c2] + rest) == [w] + Words(rest)
  {
    WordsStep(w, c1, [c2] + rest);
    WordsSkip(c2, rest);
    assert w + [c1, c2] + rest == w + [c1] + ([c2] + rest);
  }

  /** Two adjacent separators split like one: `"a  b c"` has the words a, b, c. */
  lemma AdjacentSeparators(a: string, b: string, c: string, s1: char, s2: char, s3: char)
    requires a != [] && b != [] && c != []
    requires All(IsWordChar, a) && All(IsWordChar, b) && All(IsWordChar, c)
    requires !IsWordChar(s1) && !IsWordChar(s2) && !IsWordChar(s3)
    ensures Words(a + [s1, s2] + b + [s3] + c) == [a, b, c]
  {
    var tail := b + [s3] + c;
    WordsOfWord(c);
    WordsStep(b, s3, c);
    WordsStepTwo(a, s1, s2, tail);
    assert a + [s1, s2] + b + [s3] + c == a + [s1, s2] + tail;
  }

  lemma ExampleWords(name: string)
    requires name == "Comm Object 1!"
    ensures Words(name) == ["Comm", "Object", "1"]
  {
    var a, b, c := "Comm", "Object", "1";
    var tail := c + ['!'] + "";
    var mid := b + [' '] + tail;
    assert name == a + [' '] + mid;
    assert All(IsWordChar, a) && All(IsWordChar, b) && All(IsWordChar, c);
    ThreeWords(a, b, c, ' ', ' ', '!');
  }

  lemma ThreeWords(a: string, b: string, c: string, s1: char, s2: char, s3: char)
    requires a != [] && b != [] && c != []
    requires All(IsWordChar, a) && All(IsWordChar, b) && All(IsWordChar, c)
    requires !IsWordChar(s1) && !IsWordChar(s2) && !IsWordChar(s3)
    ensures Words(a + [s1] + (b + [s2] + (c + [s3] + ""))) == [a, b, c]
  {
    WordsStep(c, s3, "");
    assert Words("") == [];
    WordsStep(b, s2, c + [s3] + "");
    WordsStep(a, s1, b + [s2] + (c + [s3] + ""));
  }

  /** A space becomes the separator and a trailing `!` is dropped. */
  lemma FormatNameExample(name: string)
    requires name == "Comm Object 1!"
    ensures FormatName(name) == "Comm_Object_1"
  {
    var a, b, c := "Comm", "Object", "1";
    ExampleWords(name);
    assert Join([c], "_") == c;
    assert [b, c][1..] == [c];
    assert Join([b, c], "_") == b + "_" + c;
    assert [a, b, c][1..] == [b, c];
    assert Join([a, b, c], "_") == a + "_" + (b + "_" + c);
  }
}
