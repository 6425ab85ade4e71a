/**
 What is narrated, said in words: each line of the text is read word by word, a
 word that ends in sentence punctuation ends its sentence, and each sentence,
 its words one space apart, is a segment.
 */
module Sentences {
  import opened Text
  import opened Narration

  /** The longest stretches without white space. */
  function Words(s: string): (words: seq<string>)
    ensures s != "" && !IsSpace(s[0]) ==> words != []
    ensures forall i :: 0 <= i < |words| ==> words[i] != ""
  {
    if s == "" then []
    else if IsSpace(s[0]) then Words(s[1..])
    else if |s| == 1 || IsSpace(s[1]) then [[s[0]]] + Words(s[1..])
    else
      var rest := Words(s[1..]);
      [[s[0]] + rest[0]] + rest[1..]
  }

  /** The words, one space apart. */
  function Join(words: seq<string>): string {
    if words == [] then "" else if |words| == 1 then words[0] else words[0] + " " + Join(words[1..])
  }

  predicate Stops(word: string) {
    word != "" && IsPunctuation(word[|word| - 1])
  }

  /** The number of words up to the first one that stops. */
  function FirstStop(words: seq<string>): (n: nat)
    ensures n <= |words| && (words != [] ==> n > 0)
  {
    if words == [] then 0 else if Stops(words[0]) then 1 else 1 + FirstStop(words[1..])
  }

  /** Sentence by sentence; one that is punctuation and nothing else is left out. */
  function Spoken(words: seq<string>): seq<string>
    decreases |words|
  {
    if words == [] then []
    else
      var n := FirstStop(words);
      (if n == 1 && OnlyPunctuation(words[0]) then [] else [Join(words[..n])]) + Spoken(words[n..])
  }

  /** The text cut at its line feeds. */
  function LinesOf(text: string): (lines: seq<string>)
    ensures lines != []
  {
    if text == "" then [""]
    else
      var rest := LinesOf(text[1..]);
      if text[0] == '\n' then [""] + rest else [[text[0]] + rest[0]] + rest[1..]
  }

  function SpokenLines(lines: seq<string>): seq<string> {
    if lines == [] then [] else Spoken(Words(lines[0])) + SpokenLines(lines[1..])
  }

  // Words

  lemma {:induction false} WordsAppend(a: string, b: string)
    requires b == "" || IsSpace(b[0])
    ensures Words(a + b) == Words(a) + Words(b)
  {
    hide IsSpace;
    if a == "" {
      assert a + b == b;
    } else {
      assert (a + b)[0] == a[0] && (a + b)[1..] == a[1..] + b;
      WordsAppend(a[1..], b);
    }
  }

  lemma {:induction false} NoWords(s: string)
    requires forall i :: 0 <= i < |s| ==> IsSpace(s[i])
    ensures Words(s) == []
  {
    hide IsSpace;
    if s != "" {
      assert forall i :: 0 <= i < |s[1..]| ==> s[1..][i] == s[i + 1];
      NoWords(s[1..]);
    }
  }

  lemma {:induction false} WordsTrimStart(s: string)
    ensures Words(TrimStart(s)) == Words(s)
  {
    if s != "" && IsSpace(s[0]) {
      WordsTrimStart(s[1..]);
    }
  }

  lemma WordsTrim(s: string)
    ensures Words(Trim(s)) == Words(s)
  {
    hide IsSpace, TrimStart, TrimEnd, Words;
    WordsTrimStart(s);
    var t := TrimStart(s);
    var u := TrimEnd(t);
    var tail := t[|u|..];
    assert t == u + tail;
    WordsAppend(u, tail);
    NoWords(tail);
  }

  lemma JoinGrows(c: char, words: seq<string>)
    requires words != []
    ensures Join([[c] + words[0]] + words[1..]) == [c] + Join(words)
  {
    var grown := [[c] + words[0]] + words[1..];
    assert grown[1..] == words[1..];
    if |words| > 1 {
      assert [c] + words[0] + " " + Join(words[1..]) == [c] + (words[0] + " " + Join(words[1..]));
    }
  }

  lemma JoinMore(word: string, words: seq<string>)
    requires words != []
    ensures Join([word] + words) == word + " " + Join(words)
  {
    assert ([word] + words)[1..] == words;
  }

  lemma {:induction false} SomeWord(s: string)
    requires s != "" && !IsSpace(s[|s| - 1])
    ensures Words(s) != []
  {
    hide IsSpace;
    if IsSpace(s[0]) {
      assert s[1..][|s[1..]| - 1] == s[|s| - 1];
      SomeWord(s[1..]);
    }
  }

  lemma {:induction false} SqueezeJoins(s: string)
    requires s == "" || !IsSpace(s[|s| - 1])
    ensures Squeeze(s) == (if s != "" && IsSpace(s[0]) then " " else "") + Join(Words(s))
    decreases |s|
  {
    hide IsSpace;
    if |s| > 1 {
      assert s[1..][|s[1..]| - 1] == s[|s| - 1] && s[1..][0] == s[1];
      SqueezeJoins(s[1..]);
      SomeWord(s[1..]);
      SqueezeStep(s, Words(s[1..]));
    } else if |s| == 1 {
      assert s[1..] == "" && [s[0]] == s;
    }
  }

  lemma SqueezeStep(s: string, words: seq<string>)
    requires |s| > 1 && words == Words(s[1..]) != []
    requires Squeeze(s[1..]) == (if IsSpace(s[1]) then " " else "") + Join(words)
    ensures Squeeze(s) == (if IsSpace(s[0]) then " " else "") + Join(Words(s))
  {
    hide IsSpace, Join;
    if !IsSpace(s[0]) {
      if IsSpace(s[1]) {
        JoinMore([s[0]], words);
        assert [s[0]] + (" " + Join(words)) == [s[0]] + " " + Join(words);
      } else {
        JoinGrows(s[0], words);
      }
    }
  }

  // A slice without a sentence end inside

  lemma {:induction false} WordsStop(s: string)
    requires NoInnerBreak(s)
    ensures forall i :: 0 <= i < |Words(s)| - 1 ==> !Stops(Words(s)[i])
    ensures s != "" && IsPunctuation(s[|s| - 1]) ==> Words(s) != [] && Stops(Words(s)[|Words(s)| - 1])
  {
    hide IsSpace;
    PunctuationIsNoSpace();
    if |s| > 1 {
      assert forall i :: 0 <= i < |s[1..]| ==> s[1..][i] == s[i + 1];
      WordsStop(s[1..]);
    } else if |s| == 1 {
      assert s[1..] == "";
    }
  }

  lemma PunctuationIsNoSpace()
    ensures forall c :: IsPunctuation(c) ==> !IsSpace(c)
  {
  }

  lemma {:induction false} OneSentence(words: seq<string>, more: seq<string>)
    requires forall i :: 0 <= i < |words| - 1 ==> !Stops(words[i])
    requires more == [] || (words != [] && Stops(words[|words| - 1]))
    ensures words != [] ==> FirstStop(words + more) == |words|
  {
    if words != [] {
      var rest := words[1..];
      assert (words + more)[1..] == rest + more;
      assert forall i :: 0 <= i < |rest| ==> rest[i] == words[i + 1];
      OneSentence(rest, if rest == [] then [] else more);
    }
  }

  lemma {:induction false} JoinHasSpace(words: seq<string>)
    requires |words| > 1
    ensures !OnlyPunctuation(Join(words)) && Join(words) != ""
  {
    var s := Join(words);
    assert s[|words[0]|] == ' ';
  }

  lemma FirstSpoken(words: seq<string>, more: seq<string>)
    requires words != [] && FirstStop(words + more) == |words|
    ensures Spoken(words + more) ==
      (if |words| == 1 && OnlyPunctuation(words[0]) then [] else [Join(words)]) + Spoken(more)
  {
    hide Join, FirstStop, OnlyPunctuation;
    assert (words + more)[..|words|] == words && (words + more)[|words|..] == more;
  }

  /** What is kept of a slice is its words. */
  lemma KeepIsJoined(slice: string)
    ensures var words := Words(slice);
      Keep(slice) == if words == [] || (|words| == 1 && OnlyPunctuation(words[0])) then [] else [Join(words)]
  {
    hide Trim, Squeeze, Words, IsPunctuation, IsSpace, OnlyPunctuation;
    hide Join;
    var words := Words(slice);
    WordsTrim(slice);
    SqueezeJoins(Trim(slice));
    NothingJoined();
    OneJoined(words);
    assert Squeeze(Trim(slice)) == Join(words) by {
      assert "" + Join(words) == Join(words);
    }
    if |words| > 1 {
      JoinHasSpace(words);
    }
  }

  lemma KeepIsSpoken(slice: string, more: seq<string>)
    requires NoInnerBreak(slice)
    requires more == [] || (slice != "" && IsPunctuation(slice[|slice| - 1]))
    ensures Spoken(Words(slice) + more) == Keep(slice) + Spoken(more)
  {
    hide Keep, Words, Join, FirstStop, IsPunctuation, NoInnerBreak, Spoken, OnlyPunctuation, Stops;
    var words := Words(slice);
    KeepIsJoined(slice);
    WordsStop(slice);
    if words == [] {
      assert words + more == more;
    } else {
      OneSentence(words, more);
      FirstSpoken(words, more);
    }
  }

  lemma NothingJoined()
    ensures Join([]) == ""
  {
  }

  lemma OneJoined(words: seq<string>)
    ensures |words| == 1 ==> Join(words) == words[0]
  {
  }

  // The scan

  lemma {:induction false} SegmentsAreSpoken(value: string, start: nat, index: nat)
    requires start <= index <= |value| && Unbroken(value, start, index)
    ensures SegmentsFrom(value, start, index) == Spoken(Words(value[start..]))
    decreases |value| - index
  {
    hide Keep, Words, Spoken, IsSpace, IsPunctuation;
    PunctuationIsNoSpace();
    if index == |value| {
      KeepIsSpoken(value[start..], []);
      assert Words(value[start..]) + [] == Words(value[start..]) && Spoken([]) == [] by {
        NothingSpoken();
      }
      ScanEnd(value, start);
    } else if !IsPunctuation(value[index]) {
      SegmentsAreSpoken(value, start, index + 1);
    } else {
      var e := PunctuationEnd(value, index + 1);
      assert IsPunctuation(value[e - 1]);
      if Breaks(value, e) {
        SegmentsAreSpoken(value, e, e);
        assert value[start..] == value[start..e] + value[e..];
        WordsAppend(value[start..e], value[e..]);
        KeepIsSpoken(value[start..e], Words(value[e..]));
      } else {
        SegmentsAreSpoken(value, start, e);
      }
    }
  }

  lemma NothingSpoken()
    ensures Spoken([]) == []
  {
  }

  lemma LineIsSpoken(line: string)
    ensures SegmentLine(line) == Spoken(Words(line))
  {
    hide Words, Spoken, SegmentsFrom, Trim;
    SegmentsAreSpoken(Trim(line), 0, 0);
    assert Trim(line)[0..] == Trim(line);
    WordsTrim(line);
  }

  lemma {:induction false} SplitIsSpoken(text: string, line: string)
    ensures SegmentLines(SplitLines(text, line)) ==
      SpokenLines([line + LinesOf(text)[0]] + LinesOf(text)[1..])
    decreases |text|
  {
    hide SegmentLine, Words, Spoken, LinesOf;
    FeedsCut(text);
    if text == "" {
      OneLine(line);
      LineIsSpoken(line);
      assert line + "" == line && [line] + [] == [line] && [line][1..] == [];
    } else {
      SplitStep(text, line);
      if text[0] == '\n' {
        SplitIsSpoken(text[1..], "");
        LineThen(line, text[1..], SplitLines(text[1..], ""));
        assert line + "" == line;
      } else if |text| > 1 && text[0] == '\r' && text[1] == '\n' {
        assert text[1..][1..] == text[2..];
        SplitIsSpoken(text[2..], "");
        LineThen(line, text[2..], SplitLines(text[2..], ""));
        ReturnIsNoWord(line);
      } else {
        SplitIsSpoken(text[1..], line + [text[0]]);
        var rest := LinesOf(text[1..]);
        assert line + [text[0]] + rest[0] == line + ([text[0]] + rest[0]);
      }
    }
  }

  lemma FeedsCut(text: string)
    ensures LinesOf("") == [""]
    ensures text != "" && text[0] == '\n' ==> LinesOf(text) == [""] + LinesOf(text[1..])
    ensures |text| > 1 && text[0] == '\r' && text[1] == '\n' ==> LinesOf(text) == ["\r"] + LinesOf(text[2..])
    ensures text != "" && text[0] != '\n' ==>
      LinesOf(text) == [[text[0]] + LinesOf(text[1..])[0]] + LinesOf(text[1..])[1..]
  {
    if |text| > 1 && text[0] == '\r' && text[1] == '\n' {
      assert text[1..][1..] == text[2..] && text[1..][0] == text[1];
      assert ['\r'] + "" == "\r";
    }
  }

  lemma ReturnIsNoWord(line: string)
    ensures Words(line + "\r") == Words(line)
  {
    WordsAppend(line, "\r");
    NoWords("\r");
  }

  lemma LineThen(line: string, text: string, split: seq<string>)
    requires SegmentLines(split) == SpokenLines(["" + LinesOf(text)[0]] + LinesOf(text)[1..])
    ensures SegmentLines([line] + split) == Spoken(Words(line)) + SpokenLines(LinesOf(text))
  {
    hide SegmentLine, Words, Spoken;
    LineIsSpoken(line);
    assert ([line] + split)[1..] == split;
    assert "" + LinesOf(text)[0] == LinesOf(text)[0];
    assert [LinesOf(text)[0]] + LinesOf(text)[1..] == LinesOf(text);
  }

  /** What is narrated of a text, in words. */
  lemma SegmentsAreSentencesOfWords(text: string)
    ensures NarrationSegments(text) == SpokenLines(LinesOf(text))
  {
    hide SegmentLines, SpokenLines, SplitLines;
    SplitIsSpoken(text, "");
    assert "" + LinesOf(text)[0] == LinesOf(text)[0];
    assert [LinesOf(text)[0]] + LinesOf(text)[1..] == LinesOf(text);
  }
}
