/**
 * The few string operations the application relies on: Python's substring
 * test `pat in s`, ASCII lower-casing (`str.lower`), whitespace splitting
 * (`str.split()` with no argument), JavaScript's `Array.join` and the
 * `trim() === ''` blank test. Strings are sequences of characters.
 */
module Strings {

  /** `pat` occurs in `s` starting at index `i`. */
  predicate OccursAt(s: string, pat: string, i: int) {
    0 <= i <= |s| - |pat| && s[i..i + |pat|] == pat
  }

  /** Python's `pat in s` on strings: `pat` occurs as a contiguous slice of `s`. */
  predicate Contains(s: string, pat: string) {
    exists i | 0 <= i <= |s| - |pat| :: OccursAt(s, pat, i)
  }

  /** Every string contains itself, so each exact keyword also passes its own substring test. */
  lemma ContainsSelf(s: string)
    ensures Contains(s, s)
  {
    assert OccursAt(s, s, 0);
  }

  /** A string lacking some character of `pat` cannot contain `pat`. */
  lemma MissingCharRulesOut(s: string, pat: string, c: char)
    requires c in pat && c !in s
    ensures !Contains(s, pat)
  {
    var j :| 0 <= j < |pat| && pat[j] == c;
    forall i | 0 <= i <= |s| - |pat|
      ensures !OccursAt(s, pat, i)
    {
      assert s[i..i + |pat|][j] == s[i + j] != c;
    }
  }

  /** ASCII whitespace as recognised by `str.split()` and `String.prototype.trim`. */
  predicate IsSpace(c: char) {
    c == ' ' || c == '\t' || c == '\n' || c == '\r' || c == '\U{0B}' || c == '\U{0C}'
  }

  /** `str.lower` on one character (ASCII letters only). */
  function LowerChar(c: char): char {
    if 'A' <= c <= 'Z' then (c as int + 32) as char else c
  }

  /** `str.lower` (ASCII letters only). */
  function Lower(s: string): (r: string)
    ensures |r| == |s|
    ensures forall i | 0 <= i < |s| :: r[i] == LowerChar(s[i])
  {
    seq(|s|, i requires 0 <= i < |s| => LowerChar(s[i]))
  }

  /** The string with its leading whitespace removed. */
  function DropSpaces(s: string): (t: string)
    ensures |t| <= |s| && t == s[|s| - |t|..]
    ensures t == [] || !IsSpace(t[0])
    ensures forall i | 0 <= i < |s| - |t| :: IsSpace(s[i])
    decreases |s|
  {
    if s != [] && IsSpace(s[0]) then DropSpaces(s[1..]) else s
  }

  /** The longest prefix of `s` holding no whitespace. */
  function TakeWord(s: string): (w: string)
    ensures |w| <= |s| && w == s[..|w|]
    ensures forall i | 0 <= i < |w| :: !IsSpace(w[i])
    ensures |w| < |s| ==> IsSpace(s[|w|])
    decreases |s|
  {
    if s == [] || IsSpace(s[0]) then [] else [s[0]] + TakeWord(s[1..])
  }

  /** Python's `s.split()`: the maximal runs of non-whitespace characters, in order. */
  function Words(s: string): (ws: seq<string>)
    ensures forall k | 0 <= k < |ws| :: ws[k] != [] && forall i | 0 <= i < |ws[k]| :: !IsSpace(ws[k][i])
    decreases |s|
  {
    var t := DropSpaces(s);
    if t == [] then []
    else
      var w := TakeWord(t);
      assert w != [];
      var rest := Words(t[|w|..]);
      assert forall k | 0 < k <= |rest| :: ([w] + rest)[k] == rest[k - 1];
      [w] + rest
  }

  /** A string splits into no words exactly when it is empty or all whitespace. */
  lemma {:induction false} WordsEmptyIffBlank(s: string)
    ensures Words(s) == [] <==> IsBlank(s)
  {
    var t := DropSpaces(s);
    if t != [] {
      assert !IsSpace(s[|s| - |t|]);
    }
  }

  /** JavaScript's `str.trim() === ''`: nothing but whitespace. */
  predicate IsBlank(s: string) {
    forall i | 0 <= i < |s| :: IsSpace(s[i])
  }

  /** Lower-casing touches only letters, so it keeps a string blank or non-blank. */
  lemma LowerKeepsBlank(s: string)
    ensures IsBlank(Lower(s)) <==> IsBlank(s)
  {
    forall i | 0 <= i < |s| ensures IsSpace(Lower(s)[i]) == IsSpace(s[i]) {
      assert Lower(s)[i] == LowerChar(s[i]);
    }
  }

  /** Lower-casing works character by character, so it distributes over concatenation. */
  lemma LowerAppend(a: string, b: string)
    ensures Lower(a + b) == Lower(a) + Lower(b)
  {
    var l := Lower(a + b);
    forall i | 0 <= i < |a + b| ensures l[i] == (Lower(a) + Lower(b))[i] {
      if i < |a| {
        assert (a + b)[i] == a[i];
      } else {
        assert (a + b)[i] == b[i - |a|];
      }
    }
  }

  /** A string that starts with whitespace is blank exactly when the rest of it is. */
  lemma BlankTail(a: string)
    requires a != [] && IsSpace(a[0])
    ensures IsBlank(a) <==> IsBlank(a[1..])
  {
    if IsBlank(a[1..]) {
      forall i | 0 < i < |a| ensures IsSpace(a[i]) {
        assert a[i] == a[1..][i - 1];
      }
    }
  }

  /** Leading whitespace is skipped across a concatenation: a blank prefix vanishes entirely. */
  lemma {:induction false} DropSpacesAppend(a: string, b: string)
    ensures IsBlank(a) ==> DropSpaces(a + b) == DropSpaces(b)
    ensures !IsBlank(a) ==> DropSpaces(a + b) == DropSpaces(a) + b
    decreases |a|
  {
    if a == [] {
      assert a + b == b;
    } else {
      var ab := a + b;
      assert ab[0] == a[0] && ab[1..] == a[1..] + b;
      if IsSpace(a[0]) {
        DropSpacesAppend(a[1..], b);
        BlankTail(a);
        assert DropSpaces(ab) == DropSpaces(a[1..] + b);
        assert DropSpaces(a) == DropSpaces(a[1..]);
      } else {
        assert DropSpaces(ab) == ab;
        assert DropSpaces(a) == a;
      }
    }
  }

  /** A word cannot run on past a whitespace character that follows it. */
  lemma {:induction false} TakeWordAppend(a: string, b: string)
    requires b == [] || IsSpace(b[0])
    ensures TakeWord(a + b) == TakeWord(a)
    decreases |a|
  {
    if a != [] {
      assert (a + b)[0] == a[0] && (a + b)[1..] == a[1..] + b;
      TakeWordAppend(a[1..], b);
    } else {
      assert a + b == b;
    }
  }

  /** Splitting before a whitespace character: the words of the part before it, then those of the part from it on. */
  lemma {:induction false} WordsAppend(a: string, b: string)
    requires b == [] || IsSpace(b[0])
    ensures Words(a + b) == Words(a) + Words(b)
    decreases |a|
  {
    DropSpacesAppend(a, b);
    if IsBlank(a) {
      BlankAddsNoWords(a, b);
    } else {
      NonBlankStart(a);
      var t := DropSpaces(a);
      var w := TakeWord(t);
      TakeWordAppend(t, b);
      SliceAppend(t, b, |w|);
      WordsAppend(t[|w|..], b);
      assert Words(a) == [w] + Words(t[|w|..]);
      assert Words(a + b) == [w] + Words(t[|w|..] + b);
      ConsAppend(w, Words(t[|w|..]), Words(b));
    }
  }

  /** A blank prefix contributes no words. */
  lemma BlankAddsNoWords(a: string, b: string)
    requires IsBlank(a)
    ensures Words(a + b) == Words(a) + Words(b)
  {
    DropSpacesAppend(a, b);
    WordsEmptyIffBlank(a);
    SameStart(a + b, b);
  }

  /** A string that is not blank keeps something after its leading whitespace. */
  lemma NonBlankStart(a: string)
    requires !IsBlank(a)
    ensures DropSpaces(a) != []
  {
    var i :| 0 <= i < |a| && !IsSpace(a[i]);
  }

  lemma ConsAppend(w: string, x: seq<string>, y: seq<string>)
    ensures [w] + (x + y) == ([w] + x) + y
  {
  }

  /** Two strings that agree from their first non-space character on have the same words. */
  lemma SameStart(s: string, u: string)
    requires DropSpaces(s) == DropSpaces(u)
    ensures Words(s) == Words(u)
  {
  }

  lemma SliceAppend(t: string, b: string, n: nat)
    requires n <= |t|
    ensures (t + b)[n..] == t[n..] + b
  {
  }

  /** Whitespace in front of a string adds no words. */
  lemma WordsAfterSpace(sp: char, b: string)
    requires IsSpace(sp)
    ensures Words([sp] + b) == Words(b)
  {
    assert IsBlank([sp]);
    DropSpacesAppend([sp], b);
  }

  /** JavaScript's `parts.join(sep)`. */
  function Join(parts: seq<string>, sep: string): (r: string)
    ensures parts == [] ==> r == []
    ensures |parts| == 1 ==> r == parts[0]
    ensures |parts| > 0 ==> |parts[0]| <= |r| && r[..|parts[0]|] == parts[0]
    decreases |parts|
  {
    if parts == [] then ""
    else if |parts| == 1 then parts[0]
    else parts[0] + sep + Join(parts[1..], sep)
  }

  /** The joined string is exactly as long as the parts plus one separator between each neighbouring pair. */
  lemma {:induction false} JoinLength(parts: seq<string>, sep: string)
    requires parts != []
    ensures |Join(parts, sep)| == TotalLength(parts) + (|parts| - 1) * |sep|
    decreases |parts|
  {
    if |parts| > 1 {
      JoinLength(parts[1..], sep);
    }
  }

  /** The sum of the lengths of `parts`. */
  function TotalLength(parts: seq<string>): nat
    decreases |parts|
  {
    if parts == [] then 0 else |parts[0]| + TotalLength(parts[1..])
  }
}
