/** The context-free part of command validation, and the normal form it produces. */
module CanonicalCommand {
  import opened Wrappers
  import opened Text
  import Utf8

  const MAX_LENGTH: nat := 160

  predicate IsBlank(c: char) {
    c == ' ' || c == '\t'
  }

  /** Replaces every run of blanks by one space. */
  function Collapse(s: string): (t: string)
    ensures s == "" <==> t == ""
    decreases |s|
  {
    if s == "" then ""
    else if !IsBlank(s[0]) then [s[0]] + Collapse(s[1..])
    else if |s| > 1 && IsBlank(s[1]) then Collapse(s[1..])
    else " " + Collapse(s[1..])
  }

  predicate IsLetter(c: char, lower: char, upper: char) {
    c == lower || c == upper
  }

  /** The word "then", in any case, stands at position `i` between spaces or ends. */
  predicate ThenAt(s: string, i: int) {
    && 0 <= i <= |s| - 4
    && IsLetter(s[i], 't', 'T') && IsLetter(s[i + 1], 'h', 'H')
    && IsLetter(s[i + 2], 'e', 'E') && IsLetter(s[i + 3], 'n', 'N')
    && (i == 0 || IsSpace(s[i - 1]))
    && (i + 4 == |s| || IsSpace(s[i + 4]))
  }

  predicate HasSeparator(s: string) {
    || (exists i :: 0 <= i < |s| && (s[i] == '.' || s[i] == ';'))
    || (exists i :: 0 <= i < |s| && ThenAt(s, i))
  }

  /** `None` stands for the thrown command error. */
  function Canonicalize(input: string): Option<string> {
    if HasControl(input) then None
    else
      var normalized := Collapse(Trim(input));
      if normalized == "" || Utf8.Utf16Length(normalized) > MAX_LENGTH || HasSeparator(normalized) then None
      else Some(normalized)
  }

  predicate IsCanonical(s: string) {
    Canonicalize(s) == Some(s)
  }

  /** No two neighbouring blanks, and no blank but the space. */
  predicate SingleSpaced(s: string) {
    forall i :: 0 <= i < |s| && IsBlank(s[i]) ==> s[i] == ' ' && (i + 1 < |s| ==> !IsBlank(s[i + 1]))
  }

  lemma {:induction false} CollapseShape(s: string)
    ensures SingleSpaced(Collapse(s))
    ensures s != "" ==> (IsBlank(Collapse(s)[0]) <==> IsBlank(s[0]))
    ensures s != "" && !IsBlank(s[0]) ==> Collapse(s)[0] == s[0]
    ensures s != "" && !IsBlank(s[|s| - 1]) ==> Collapse(s)[|Collapse(s)| - 1] == s[|s| - 1]
    ensures forall c :: c in Collapse(s) ==> c == ' ' || c in s
    decreases |s|
  {
    if |s| > 1 {
      CollapseShape(s[1..]);
      assert s[1..][|s| - 2] == s[|s| - 1];
      var t := Collapse(s[1..]);
      var r := Collapse(s);
      assert (IsBlank(s[0]) && IsBlank(s[1])) || r == [if IsBlank(s[0]) then ' ' else s[0]] + t;
    } else if |s| == 1 {
      assert s[1..] == "";
    }
  }

  lemma {:induction false} CollapseSingleSpaced(s: string)
    requires SingleSpaced(s)
    ensures Collapse(s) == s
    decreases |s|
  {
    if s != "" {
      assert forall i :: 0 <= i < |s[1..]| ==> s[1..][i] == s[i + 1];
      CollapseSingleSpaced(s[1..]);
      assert [s[0]] + s[1..] == s;
    }
  }

  lemma CollapseTrimmed(t: string)
    requires Trimmed(t)
    ensures Trimmed(Collapse(t))
  {
    hide Collapse, SingleSpaced;
    CollapseShape(t);
  }

  lemma NoControlLeft(input: string)
    requires !HasControl(input)
    ensures !HasControl(Collapse(Trim(input)))
  {
    hide Collapse, Trim, SingleSpaced;
    var t := Trim(input);
    var n := Collapse(t);
    CollapseShape(t);
    forall i | 0 <= i < |n|
      ensures !IsControl(n[i])
    {
      assert n[i] in n;
      if n[i] != ' ' {
        var j :| 0 <= j < |t| && t[j] == n[i];
        TrimKeeps(input, j);
      }
    }
  }

  /** Canonicalizing is idempotent: whatever it returns is its own canonical form. */
  lemma CanonicalizeIdempotent(input: string)
    requires Canonicalize(input).Some?
    ensures IsCanonical(Canonicalize(input).value)
  {
    hide Collapse, Trim, Trimmed, SingleSpaced, HasControl, HasSeparator, Utf8.Utf16Length;
    var n := Collapse(Trim(input));
    NoControlLeft(input);
    CollapseTrimmed(Trim(input));
    CollapseShape(Trim(input));
    TrimTrimmed(n);
    CollapseSingleSpaced(n);
  }

  lemma TrimKeeps(s: string, j: nat)
    requires j < |Trim(s)|
    ensures Trim(s)[j] in s
  {
    var t := TrimStart(s);
    assert Trim(s)[j] == t[j] == s[|s| - |t| + j];
  }

  /** What a canonical command is, said without the function that makes it. */
  lemma CanonicalShape(s: string)
    ensures IsCanonical(s) <==>
      && s != "" && Utf8.Utf16Length(s) <= MAX_LENGTH
      && Trimmed(s) && SingleSpaced(s) && !HasControl(s) && !HasSeparator(s)
  {
    if IsCanonical(s) {
      CanonicalizeIdempotent(s);
      CollapseShape(Trim(s));
      assert Trimmed(Collapse(Trim(s)));
    } else if Trimmed(s) && SingleSpaced(s) {
      TrimTrimmed(s);
      CollapseSingleSpaced(s);
    }
  }

  /** "then", in whatever case. */
  predicate Then(word: string) {
    && |word| == 4 && word[0] in ['t', 'T'] && word[1] in ['h', 'H'] && word[2] in ['e', 'E'] && word[3] in ['n', 'N']
  }

  /** It stands as a word of its own behind `before`, with nothing or white space around it. */
  predicate StandsIn(s: string, before: string, word: string, after: string) {
    && s == before + word + after && Then(word)
    && (before == "" || IsSpace(before[|before| - 1])) && (after == "" || IsSpace(after[0]))
  }

  /** A command is refused as more than one for a full stop, a semicolon, or "then" as a word of its own. */
  lemma SeparatorIff(s: string)
    ensures HasSeparator(s) <==>
      || '.' in s || ';' in s || exists before, word, after :: StandsIn(s, before, word, after)
  {
    hide IsSpace;
    if i :| 0 <= i < |s| && ThenAt(s, i) {
      assert s == s[..i] + s[i..i + 4] + s[i + 4..];
      assert StandsIn(s, s[..i], s[i..i + 4], s[i + 4..]);
    }
    forall before, word, after | StandsIn(s, before, word, after)
      ensures ThenAt(s, |before|)
    {
      var i := |before|;
      assert s[i] == word[0] && s[i + 1] == word[1] && s[i + 2] == word[2] && s[i + 3] == word[3];
      assert i > 0 ==> s[i - 1] == before[i - 1];
      assert after != "" ==> s[i + 4] == after[0];
    }
  }

  /** A canonical command fits the 640 bytes and the two length bytes its record has for it. */
  lemma CanonicalBytes(s: string)
    requires IsCanonical(s)
    ensures 0 < |Utf8.Encode(s)| <= 3 * MAX_LENGTH
  {
    Utf8.Utf16NeverLonger(s);
  }
}
