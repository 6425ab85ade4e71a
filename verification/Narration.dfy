/** How a text is cut into the sentences that are narrated one by one. */
module Narration {
  import opened Text

  predicate IsPunctuation(c: char) {
    c == '.' || c == '!' || c == '?'
  }

  /** Neither white space nor sentence punctuation. */
  predicate IsLetter(c: char) {
    !IsSpace(c) && !IsPunctuation(c)
  }

  /** What is left of a text without white space and sentence punctuation. */
  function Letters(s: string): string {
    if s == "" then "" else (if IsLetter(s[0]) then [s[0]] else "") + Letters(s[1..])
  }

  /** Every run of white space becomes one space. */
  function Squeeze(s: string): string
    decreases |s|
  {
    if s == "" then ""
    else if !IsSpace(s[0]) then [s[0]] + Squeeze(s[1..])
    else if |s| > 1 && IsSpace(s[1]) then Squeeze(s[1..])
    else " " + Squeeze(s[1..])
  }

  predicate SingleSpaced(s: string) {
    forall i :: 0 <= i < |s| && IsSpace(s[i]) ==> s[i] == ' ' && (i + 1 < |s| ==> !IsSpace(s[i + 1]))
  }

  predicate OnlyPunctuation(s: string) {
    forall i :: 0 <= i < |s| ==> IsPunctuation(s[i])
  }

  /** The segment that a slice makes, if it makes one. */
  function Keep(slice: string): seq<string> {
    var segment := Squeeze(Trim(slice));
    if segment != "" && !OnlyPunctuation(segment) then [segment] else []
  }

  function PunctuationEnd(value: string, index: nat): (e: nat)
    requires index <= |value|
    ensures index <= e <= |value|
    ensures forall i :: index <= i < e ==> IsPunctuation(value[i])
    ensures e < |value| ==> !IsPunctuation(value[e])
    decreases |value| - index
  {
    if index < |value| && IsPunctuation(value[index]) then PunctuationEnd(value, index + 1) else index
  }

  predicate Breaks(value: string, e: nat)
    requires e <= |value|
  {
    e == |value| || IsSpace(value[e])
  }

  function SegmentsFrom(value: string, start: nat, index: nat): seq<string>
    requires start <= index <= |value|
    decreases |value| - index
  {
    if index == |value| then Keep(value[start..])
    else if !IsPunctuation(value[index]) then SegmentsFrom(value, start, index + 1)
    else
      var e := PunctuationEnd(value, index + 1);
      if Breaks(value, e) then Keep(value[start..e]) + SegmentsFrom(value, e, e)
      else SegmentsFrom(value, start, e)
  }

  function SegmentLine(line: string): seq<string> {
    SegmentsFrom(Trim(line), 0, 0)
  }

  /** Splits at line feeds, each with the carriage return in front of it. */
  function SplitLines(text: string, line: string): seq<string>
    decreases |text|
  {
    if text == "" then [line]
    else if text[0] == '\n' then [line] + SplitLines(text[1..], "")
    else if |text| > 1 && text[0] == '\r' && text[1] == '\n' then [line] + SplitLines(text[2..], "")
    else SplitLines(text[1..], line + [text[0]])
  }

  function SegmentLines(lines: seq<string>): seq<string> {
    if lines == [] then [] else SegmentLine(lines[0]) + SegmentLines(lines[1..])
  }

  function NarrationSegments(text: string): seq<string> {
    SegmentLines(SplitLines(text, ""))
  }

  function Concat(ss: seq<string>): string {
    if ss == [] then "" else ss[0] + Concat(ss[1..])
  }

  // The scan, as it runs

  method AppendNarrationSegment(segments: seq<string>, value: string) returns (r: seq<string>)
    ensures r == segments + Keep(value)
  {
    var segment := Squeeze(Trim(value));
    r := segments;
    if segment != "" && !OnlyPunctuation(segment) {
      r := r + [segment];
    }
  }

  lemma ScanStep(value: string, start: nat, index: nat)
    requires start <= index < |value|
    ensures SegmentsFrom(value, start, index) ==
      if !IsPunctuation(value[index]) then SegmentsFrom(value, start, index + 1)
      else
        var e := PunctuationEnd(value, index + 1);
        if Breaks(value, e) then Keep(value[start..e]) + SegmentsFrom(value, e, e) else SegmentsFrom(value, start, e)
  {
    hide Keep;
  }

  lemma ScanEnd(value: string, start: nat)
    requires start <= |value|
    ensures SegmentsFrom(value, start, |value|) == Keep(value[start..])
  {
    hide Keep;
  }

  method SegmentNarrationLine(line: string) returns (segments: seq<string>)
    ensures segments == SegmentLine(line)
  {
    hide Keep, SegmentsFrom, PunctuationEnd, Trim;
    var value := Trim(line);
    segments := [];
    var segmentStart: nat, index: nat := 0, 0;
    while index < |value|
      invariant 0 <= segmentStart <= index <= |value|
      invariant SegmentLine(line) == segments + SegmentsFrom(value, segmentStart, index)
    {
      ScanStep(value, segmentStart, index);
      if !IsPunctuation(value[index]) {
        index := index + 1;
        continue;
      }
      var punctuationEnd: nat := index + 1;
      while punctuationEnd < |value| && IsPunctuation(value[punctuationEnd])
        invariant index + 1 <= punctuationEnd <= |value|
        invariant PunctuationEnd(value, punctuationEnd) == PunctuationEnd(value, index + 1)
      {
        punctuationEnd := punctuationEnd + 1;
      }
      if punctuationEnd == |value| || IsSpace(value[punctuationEnd]) {
        segments := AppendNarrationSegment(segments, value[segmentStart..punctuationEnd]);
        segmentStart := punctuationEnd;
      }
      index := punctuationEnd;
    }
    ScanEnd(value, segmentStart);
    segments := AppendNarrationSegment(segments, value[segmentStart..]);
  }

  // Letters are conserved

  lemma {:induction false} LettersAppend(s: string, t: string)
    ensures Letters(s + t) == Letters(s) + Letters(t)
  {
    if s == "" {
      assert s + t == t;
    } else {
      assert (s + t)[1..] == s[1..] + t && (s + t)[0] == s[0];
      LettersAppend(s[1..], t);
      hide Letters;
      LettersHead(s);
      LettersHead(s + t);
    }
  }

  lemma {:induction false} NoLetters(s: string)
    requires forall i :: 0 <= i < |s| ==> !IsLetter(s[i])
    ensures Letters(s) == ""
  {
    if s != "" {
      assert forall i :: 0 <= i < |s[1..]| ==> s[1..][i] == s[i + 1];
      NoLetters(s[1..]);
    }
  }

  lemma TrimKeepsLetters(s: string)
    ensures Letters(Trim(s)) == Letters(s)
  {
    hide Letters, TrimStart, TrimEnd;
    var t := TrimStart(s);
    var head := s[..|s| - |t|];
    assert s == head + t;
    LettersAppend(head, t);
    NoLetters(head);
    var u := TrimEnd(t);
    var tail := t[|u|..];
    assert t == u + tail;
    LettersAppend(u, tail);
    NoLetters(tail);
  }

  lemma {:induction false} SqueezeKeepsLetters(s: string)
    ensures Letters(Squeeze(s)) == Letters(s)
    decreases |s|
  {
    if s != "" {
      SqueezeKeepsLetters(s[1..]);
      var t := Squeeze(s[1..]);
      assert ([s[0]] + t)[1..] == t && (" " + t)[1..] == t;
    }
  }

  lemma KeepKeepsLetters(slice: string)
    ensures Letters(Concat(Keep(slice))) == Letters(slice)
  {
    hide Letters, Trim, Squeeze;
    var segment := Squeeze(Trim(slice));
    TrimKeepsLetters(slice);
    SqueezeKeepsLetters(Trim(slice));
    if Keep(slice) == [] {
      NoLetters(segment);
      NoLetters("");
    } else {
      assert Concat([segment]) == segment + "" == segment;
    }
  }

  lemma {:induction false} ConcatAppend(a: seq<string>, b: seq<string>)
    ensures Concat(a + b) == Concat(a) + Concat(b)
  {
    if a == [] {
      assert a + b == b;
    } else {
      assert (a + b)[1..] == a[1..] + b;
      ConcatAppend(a[1..], b);
    }
  }

  lemma {:induction false} SegmentsKeepLetters(value: string, start: nat, index: nat)
    requires start <= index <= |value|
    ensures Letters(Concat(SegmentsFrom(value, start, index))) == Letters(value[start..])
    decreases |value| - index
  {
    hide Keep, Letters, Concat;
    if index == |value| {
      KeepKeepsLetters(value[start..]);
    } else if !IsPunctuation(value[index]) {
      SegmentsKeepLetters(value, start, index + 1);
    } else {
      var e := PunctuationEnd(value, index + 1);
      if Breaks(value, e) {
        KeepKeepsLetters(value[start..e]);
        SegmentsKeepLetters(value, e, e);
        ConcatAppend(Keep(value[start..e]), SegmentsFrom(value, e, e));
        LettersAppend(Concat(Keep(value[start..e])), Concat(SegmentsFrom(value, e, e)));
        LettersAppend(value[start..e], value[e..]);
        assert value[start..] == value[start..e] + value[e..];
      } else {
        SegmentsKeepLetters(value, start, e);
      }
    }
  }

  lemma LineKeepsLetters(line: string)
    ensures Letters(Concat(SegmentLine(line))) == Letters(line)
  {
    hide Letters, Concat;
    SegmentsKeepLetters(Trim(line), 0, 0);
    TrimKeepsLetters(line);
    assert Trim(line)[0..] == Trim(line);
  }

  lemma {:induction false} LinesKeepLetters(lines: seq<string>)
    ensures Letters(Concat(SegmentLines(lines))) == Letters(Concat(lines))
  {
    hide Letters, SegmentLine;
    if lines != [] {
      LineKeepsLetters(lines[0]);
      LinesKeepLetters(lines[1..]);
      ConcatAppend(SegmentLine(lines[0]), SegmentLines(lines[1..]));
      LettersAppend(Concat(SegmentLine(lines[0])), Concat(SegmentLines(lines[1..])));
      LettersAppend(lines[0], Concat(lines[1..]));
    }
  }

  /** The letters stay the same when the line takes over the first character of the text. */
  lemma TakeOver(line: string, text: string)
    requires text != ""
    ensures Letters(line + [text[0]]) + Letters(text[1..]) == Letters(line) + Letters(text)
  {
    hide Letters;
    LettersAppend(line + [text[0]], text[1..]);
    LettersAppend(line, text);
    assert (line + [text[0]]) + text[1..] == line + text;
  }

  lemma SplitStep(text: string, line: string)
    requires text != ""
    ensures SplitLines(text, line) ==
      if text[0] == '\n' then [line] + SplitLines(text[1..], "")
      else if |text| > 1 && text[0] == '\r' && text[1] == '\n' then [line] + SplitLines(text[2..], "")
      else SplitLines(text[1..], line + [text[0]])
  {
  }

  lemma {:induction false} SplitKeepsLetters(text: string, line: string)
    ensures Letters(Concat(SplitLines(text, line))) == Letters(line) + Letters(text)
    decreases |text|
  {
    assert Concat([]) == "" && Letters("") == "" && SplitLines("", line) == [line];
    hide Letters, Concat, IsLetter, SplitLines;
    if text == "" {
      assert [line] + [] == [line];
      FirstLine(line, []);
    } else {
      SplitStep(text, line);
      LettersHead(text);
      LineBreaks();
      if text[0] == '\n' {
        SplitKeepsLetters(text[1..], "");
        FirstLine(line, SplitLines(text[1..], ""));
      } else if |text| > 1 && text[0] == '\r' && text[1] == '\n' {
        LettersHead(text[1..]);
        assert text[1..][1..] == text[2..];
        SplitKeepsLetters(text[2..], "");
        FirstLine(line, SplitLines(text[2..], ""));
      } else {
        SplitKeepsLetters(text[1..], line + [text[0]]);
        TakeOver(line, text);
      }
    }
  }

  lemma LineBreaks()
    ensures !IsLetter('\n') && !IsLetter('\r')
  {
  }

  lemma FirstLine(line: string, lines: seq<string>)
    ensures Letters(Concat([line] + lines)) == Letters(line) + Letters(Concat(lines))
  {
    hide Letters;
    assert ([line] + lines)[1..] == lines;
    LettersAppend(line, Concat(lines));
  }

  lemma LettersHead(s: string)
    requires s != ""
    ensures Letters(s) == (if IsLetter(s[0]) then [s[0]] else "") + Letters(s[1..])
  {
  }

  /** Segmentation conserves the text: apart from white space and sentence punctuation, nothing is lost or moved. */
  lemma SegmentsConserve(text: string)
    ensures Letters(Concat(NarrationSegments(text))) == Letters(text)
  {
    hide Letters, SegmentLines;
    LinesKeepLetters(SplitLines(text, ""));
    SplitKeepsLetters(text, "");
    assert Letters("") == "" by {
      NoLetters("");
    }
  }

  // The shape of a segment

  /** No sentence ends inside. */
  predicate NoInnerBreak(s: string) {
    forall i :: 0 <= i < |s| - 1 && IsPunctuation(s[i]) ==> !IsSpace(s[i + 1])
  }

  /** Trimmed, single-spaced, one sentence at most, and more than punctuation. */
  ghost predicate IsSegment(s: string) {
    Trimmed(s) && SingleSpaced(s) && NoInnerBreak(s) && exists i :: 0 <= i < |s| && IsLetter(s[i])
  }

  /** No sentence ended between `start` and `index`. */
  predicate Unbroken(value: string, start: nat, index: nat) {
    forall i :: start <= i < index && i + 1 < |value| && IsPunctuation(value[i]) ==> !IsSpace(value[i + 1])
  }

  lemma {:induction false} SqueezeShape(s: string)
    requires NoInnerBreak(s)
    ensures SingleSpaced(Squeeze(s)) && NoInnerBreak(Squeeze(s))
    ensures s == "" <==> Squeeze(s) == ""
    ensures s != "" ==> Squeeze(s)[0] == if IsSpace(s[0]) then ' ' else s[0]
    ensures s != "" && !IsSpace(s[|s| - 1]) ==> Squeeze(s)[|Squeeze(s)| - 1] == s[|s| - 1]
    decreases |s|
  {
    if |s| > 1 {
      assert forall i :: 0 <= i < |s[1..]| ==> s[1..][i] == s[i + 1];
      SqueezeShape(s[1..]);
    } else if |s| == 1 {
      assert s[1..] == "";
    }
  }

  lemma TrimNoInnerBreak(s: string)
    requires NoInnerBreak(s)
    ensures NoInnerBreak(Trim(s))
  {
    hide TrimStart, TrimEnd, IsSpace;
    var t := TrimStart(s);
    var u := Trim(s);
    forall i | 0 <= i < |u| - 1 && IsPunctuation(u[i])
      ensures !IsSpace(u[i + 1])
    {
      assert u[i] == t[i] == s[|s| - |t| + i] && u[i + 1] == t[i + 1] == s[|s| - |t| + i + 1];
    }
  }

  lemma KeepShape(slice: string)
    requires NoInnerBreak(slice)
    ensures forall k :: 0 <= k < |Keep(slice)| ==> IsSegment(Keep(slice)[k])
  {
    hide Trim, Squeeze;
    TrimNoInnerBreak(slice);
    SqueezeShape(Trim(slice));
    var segment := Squeeze(Trim(slice));
    if segment != "" && !OnlyPunctuation(segment) {
      var i :| 0 <= i < |segment| && !IsPunctuation(segment[i]);
      if IsSpace(segment[i]) {
        assert IsLetter(segment[i - 1]);
      } else {
        assert IsLetter(segment[i]);
      }
    }
  }

  lemma {:induction false} SegmentsShape(value: string, start: nat, index: nat)
    requires start <= index <= |value| && Unbroken(value, start, index)
    ensures forall k :: 0 <= k < |SegmentsFrom(value, start, index)| ==> IsSegment(SegmentsFrom(value, start, index)[k])
    decreases |value| - index
  {
    hide Keep, IsSegment;
    if index == |value| {
      KeepShape(value[start..]);
    } else if !IsPunctuation(value[index]) {
      SegmentsShape(value, start, index + 1);
    } else {
      var e := PunctuationEnd(value, index + 1);
      if Breaks(value, e) {
        KeepShape(value[start..e]);
        SegmentsShape(value, e, e);
      } else {
        SegmentsShape(value, start, e);
      }
    }
  }

  lemma {:induction false} LinesShape(lines: seq<string>)
    ensures forall k :: 0 <= k < |SegmentLines(lines)| ==> IsSegment(SegmentLines(lines)[k])
  {
    hide IsSegment, SegmentsFrom, Trim;
    if lines != [] {
      SegmentsShape(Trim(lines[0]), 0, 0);
      LinesShape(lines[1..]);
    }
  }

  // Segmenting a segment

  lemma {:induction false} SqueezeSingleSpaced(s: string)
    requires SingleSpaced(s)
    ensures Squeeze(s) == s
    decreases |s|
  {
    if s != "" {
      assert forall i :: 0 <= i < |s[1..]| ==> s[1..][i] == s[i + 1];
      SqueezeSingleSpaced(s[1..]);
      assert [s[0]] + s[1..] == s;
    }
  }

  lemma KeepsItself(s: string)
    requires IsSegment(s)
    ensures Keep(s) == [s]
  {
    TrimTrimmed(s);
    SqueezeSingleSpaced(s);
  }

  lemma {:induction false} ScansWhole(value: string, index: nat)
    requires index <= |value| && NoInnerBreak(value)
    ensures SegmentsFrom(value, 0, index) == Keep(value)
    decreases |value| - index
  {
    hide Keep;
    if index == |value| {
      assert value[0..] == value;
    } else if !IsPunctuation(value[index]) {
      ScansWhole(value, index + 1);
    } else {
      var e := PunctuationEnd(value, index + 1);
      assert IsPunctuation(value[e - 1]);
      if e == |value| {
        assert value[0..e] == value && value[e..] == "";
        KeepNothing();
      } else {
        ScansWhole(value, e);
      }
    }
  }

  lemma KeepNothing()
    ensures Keep("") == []
  {
  }

  lemma {:induction false} NoLineFeed(text: string, line: string)
    requires forall i :: 0 <= i < |text| ==> text[i] != '\n'
    ensures SplitLines(text, line) == [line + text]
    decreases |text|
  {
    if text == "" {
      assert line + text == line;
    } else {
      assert forall i :: 0 <= i < |text[1..]| ==> text[1..][i] == text[i + 1];
      NoLineFeed(text[1..], line + [text[0]]);
      assert line + [text[0]] + text[1..] == line + text;
    }
  }

  lemma SegmentLineIsItsOwn(s: string)
    requires IsSegment(s)
    ensures SegmentLine(s) == [s]
  {
    hide Keep, SegmentsFrom, Trim;
    TrimTrimmed(s);
    ScansWhole(s, 0);
    KeepsItself(s);
  }

  lemma OneLine(line: string)
    ensures SegmentLines([line]) == SegmentLine(line)
  {
    hide SegmentLine;
    assert [line][1..] == [];
    assert SegmentLines([]) == [];
    assert SegmentLine(line) + [] == SegmentLine(line);
  }

  lemma SegmentIsItsOwn(s: string)
    requires IsSegment(s)
    ensures NarrationSegments(s) == [s]
  {
    hide SegmentLine, SegmentLines, SplitLines, Trimmed, NoInnerBreak;
    NoLineFeed(s, "");
    assert "" + s == s;
    OneLine(s);
    SegmentLineIsItsOwn(s);
  }

  /**
   Every segment is trimmed and single-spaced, holds more than punctuation, has no sentence end inside, and is left as
   it is by another segmentation.
   */
  lemma SegmentsAreSentences(text: string, k: nat)
    requires k < |NarrationSegments(text)|
    ensures IsSegment(NarrationSegments(text)[k])
    ensures NarrationSegments(NarrationSegments(text)[k]) == [NarrationSegments(text)[k]]
  {
    hide SegmentLines, SplitLines, IsSegment;
    LinesShape(SplitLines(text, ""));
    SegmentIsItsOwn(NarrationSegments(text)[k]);
  }
}
