/**
 * The two Python string operations the prediction route applies to a form
 * field name before showing it to the user: `str.replace('_', ' ')` and
 * `str.title()`.  Only the ASCII letters are cased characters here.
 */
module PyStrings {

  predicate IsUpper(c: char) { 'A' <= c <= 'Z' }

  predicate IsLower(c: char) { 'a' <= c <= 'z' }

  /** A cased character in the sense of `str.title()`. */
  predicate IsCased(c: char) { IsUpper(c) || IsLower(c) }

  function ToUpper(c: char): (u: char)
    ensures IsCased(u) == IsCased(c)
    ensures IsCased(c) ==> IsUpper(u)
    ensures !IsCased(c) ==> u == c
  {
    if IsLower(c) then (c as int - 'a' as int + 'A' as int) as char else c
  }

  function ToLower(c: char): (l: char)
    ensures IsCased(l) == IsCased(c)
    ensures IsCased(c) ==> IsLower(l)
    ensures !IsCased(c) ==> l == c
  {
    if IsUpper(c) then (c as int - 'A' as int + 'a' as int) as char else c
  }

  /** `s.replace(target, replacement)` for single characters. */
  function ReplaceChar(s: string, target: char, replacement: char): (r: string)
    ensures |r| == |s|
  {
    if s == [] then []
    else [if s[0] == target then replacement else s[0]] + ReplaceChar(s[1..], target, replacement)
  }

  /** Every occurrence of the target is replaced and every other character kept. */
  lemma {:induction false} ReplaceCharAt(s: string, target: char, replacement: char)
    ensures forall i :: 0 <= i < |s| ==>
      ReplaceChar(s, target, replacement)[i] == (if s[i] == target then replacement else s[i])
  {
    if s != [] {
      ReplaceCharAt(s[1..], target, replacement);
    }
  }

  /** Whether position i of s begins a word: a cased character not preceded by one. */
  predicate StartsWord(s: string, i: nat)
    requires i < |s|
  {
    IsCased(s[i]) && (i == 0 || !IsCased(s[i - 1]))
  }

  /**
   * `str.title()` as a left-to-right scan that remembers whether the previous
   * character was cased: a cased character after an uncased one (or at the
   * start) is upper-cased, a cased character after a cased one is lower-cased,
   * and every other character is kept.
   */
  function TitleFrom(s: string, previousCased: bool): (r: string)
    ensures |r| == |s|
  {
    if s == [] then []
    else
      var c := if previousCased then ToLower(s[0]) else ToUpper(s[0]);
      [c] + TitleFrom(s[1..], IsCased(c))
  }

  /** What the scan leaves at each position, given the casedness before the first. */
  lemma {:induction false} TitleFromAt(s: string, previousCased: bool)
    ensures forall i :: 0 <= i < |s| && !IsCased(s[i]) ==> TitleFrom(s, previousCased)[i] == s[i]
    ensures forall i :: 0 <= i < |s| && IsCased(s[i]) ==>
      TitleFrom(s, previousCased)[i] ==
        (if (if i == 0 then previousCased else IsCased(s[i - 1])) then ToLower(s[i]) else ToUpper(s[i]))
  {
    if s != [] {
      var c := if previousCased then ToLower(s[0]) else ToUpper(s[0]);
      assert IsCased(c) == IsCased(s[0]);
      TitleFromAt(s[1..], IsCased(c));
      var r, rest := TitleFrom(s, previousCased), TitleFrom(s[1..], IsCased(c));
      forall i | 0 <= i < |s| && IsCased(s[i])
        ensures r[i] == (if (if i == 0 then previousCased else IsCased(s[i - 1])) then ToLower(s[i]) else ToUpper(s[i]))
      {
        if i > 0 {
          assert s[1..][i - 1] == s[i] && r[i] == rest[i - 1];
          if i > 1 { assert s[1..][i - 2] == s[i - 1]; }
        }
      }
      forall i | 0 <= i < |s| && !IsCased(s[i]) ensures r[i] == s[i] {
        if i > 0 { assert s[1..][i - 1] == s[i] && r[i] == rest[i - 1]; }
      }
    }
  }

  /**
   * `str.title()`: the first letter of every word is upper case and every
   * other letter lower case; non-letters are unchanged.
   */
  function Title(s: string): (r: string)
    ensures |r| == |s|
    ensures forall i :: 0 <= i < |s| ==>
      (if !IsCased(s[i]) then r[i] == s[i]
       else if StartsWord(s, i) then r[i] == ToUpper(s[i])
       else r[i] == ToLower(s[i]))
  {
    TitleFromAt(s, false);
    TitleFrom(s, false)
  }

  // ------------------------------------------------ snake_case field names

  /** A non-empty word of lower-case letters. */
  predicate LowerWord(w: string) {
    |w| > 0 && forall i :: 0 <= i < |w| ==> IsLower(w[i])
  }

  /** A word with its first letter upper-cased. */
  function Capitalized(w: string): (c: string)
    requires |w| > 0
    ensures |c| == |w|
  {
    [ToUpper(w[0])] + w[1..]
  }

  /** Every word capitalised. */
  function CapitalizeAll(words: seq<string>): (r: seq<string>)
    requires forall i :: 0 <= i < |words| ==> LowerWord(words[i])
    ensures |r| == |words|
  {
    if words == [] then []
    else
      assert LowerWord(words[0]);
      [Capitalized(words[0])] + CapitalizeAll(words[1..])
  }

  /** The words joined with a separator character between them. */
  function JoinWith(words: seq<string>, sep: char): string {
    if |words| == 0 then []
    else if |words| == 1 then words[0]
    else words[0] + [sep] + JoinWith(words[1..], sep)
  }

  /** Replacing characters distributes over concatenation. */
  lemma ReplaceCharAppend(a: string, b: string, target: char, replacement: char)
    ensures ReplaceChar(a + b, target, replacement) == ReplaceChar(a, target, replacement) + ReplaceChar(b, target, replacement)
  {
    ReplaceCharAt(a + b, target, replacement);
    ReplaceCharAt(a, target, replacement);
    ReplaceCharAt(b, target, replacement);
    var x, y, z := ReplaceChar(a + b, target, replacement), ReplaceChar(a, target, replacement), ReplaceChar(b, target, replacement);
    forall i | 0 <= i < |x| ensures x[i] == (y + z)[i] {
      if i < |a| { assert (a + b)[i] == a[i]; } else { assert (a + b)[i] == b[i - |a|]; }
    }
  }

  /**
   * Title casing works word by word: it can be split wherever an uncased
   * character ends the first part or starts the second.
   */
  lemma TitleAppend(a: string, b: string)
    requires (a != [] && !IsCased(a[|a| - 1])) || (b != [] && !IsCased(b[0]))
    ensures Title(a + b) == Title(a) + Title(b)
  {
    var x, y, z := Title(a + b), Title(a), Title(b);
    forall i | 0 <= i < |a + b| ensures x[i] == (y + z)[i] {
      if i < |a| {
        assert (a + b)[i] == a[i];
        if i > 0 { assert (a + b)[i - 1] == a[i - 1]; }
      } else {
        assert (a + b)[i] == b[i - |a|];
        if i > |a| { assert (a + b)[i - 1] == b[i - 1 - |a|]; }
        else if i > 0 { assert (a + b)[i - 1] == a[|a| - 1]; }
      }
    }
  }

  /** A lower-case word is title-cased by capitalising it. */
  lemma TitleOfLowerWord(w: string)
    requires LowerWord(w)
    ensures Title(w) == Capitalized(w)
  {
    var t := Title(w);
    forall i | 0 <= i < |w| ensures t[i] == Capitalized(w)[i] {
      if i > 0 { assert IsCased(w[i - 1]); }
    }
  }

  /** Underscores become spaces; a word without underscores is kept. */
  lemma ReplaceLeadingWord(w: string, rest: string)
    requires LowerWord(w)
    ensures ReplaceChar(w + ("_" + rest), '_', ' ') == w + (" " + ReplaceChar(rest, '_', ' '))
  {
    ReplaceCharAt(w, '_', ' ');
    assert ReplaceChar(w, '_', ' ') == w;
    ReplaceCharAppend(w, "_" + rest, '_', ' ');
    ReplaceCharAppend("_", rest, '_', ' ');
    assert ReplaceChar("_", '_', ' ') == " ";
  }

  /** A lower-case word followed by a space is capitalised; the rest is title-cased on its own. */
  lemma TitleOfLeadingWord(w: string, spaced: string)
    requires LowerWord(w)
    ensures Title(w + (" " + spaced)) == Capitalized(w) + (" " + Title(spaced))
  {
    TitleAppend(w, " " + spaced);
    TitleAppend(" ", spaced);
    assert Title(" ") == " ";
    TitleOfLowerWord(w);
  }

  /**
   * A snake_case name of lower-case words is shown as the capitalised words
   * separated by spaces: `free_sulfur_dioxide` becomes `Free Sulfur Dioxide`.
   */
  lemma {:induction false} TitleOfSnakeCase(words: seq<string>)
    requires |words| > 0 && forall i :: 0 <= i < |words| ==> LowerWord(words[i])
    ensures Title(ReplaceChar(JoinWith(words, '_'), '_', ' ')) == JoinWith(CapitalizeAll(words), ' ')
  {
    var w := words[0];
    if |words| == 1 {
      ReplaceCharAt(w, '_', ' ');
      assert ReplaceChar(w, '_', ' ') == w;
      TitleOfLowerWord(w);
    } else {
      var rest := JoinWith(words[1..], '_');
      assert JoinWith(words, '_') == w + ("_" + rest);
      ReplaceLeadingWord(w, rest);
      TitleOfLeadingWord(w, ReplaceChar(rest, '_', ' '));
      TitleOfSnakeCase(words[1..]);
      assert CapitalizeAll(words) == [Capitalized(w)] + CapitalizeAll(words[1..]);
    }
  }
}
