/**
 * The word splitter of the PBRT scene importer (importer/pbrt.cpp, getNextWord). It skips
 * leading separators, cuts one word at the next terminator, and leaves the input after
 * that terminator. A word that starts just after the line's first double quote runs to
 * the closing quote, spaces included.
 *
 * The source overwrites its string argument in place; here the new string is the second
 * result.
 */
module PbrtTokenizer {

  /** Characters skipped before a word. */
  const DELIMITERS_FRONT: set<char> := {' ', '\n', '\t', '"', '[', ']'}
  /** Characters that end a word. */
  const DELIMITERS_BACK: set<char> := {' ', '"', ']'}
  /** The same without the space, for a word that starts inside quotes. */
  const DELIMITERS_BACK_QUOTED: set<char> := {'"', ']'}

  /** The first position at or after `from` whose character is not in ds; |s| when there is none (npos). */
  function FirstNotIn(s: string, ds: set<char>, from: nat): (k: nat)
    requires from <= |s|
    ensures from <= k <= |s|
    ensures forall j :: from <= j < k ==> s[j] in ds
    ensures k < |s| ==> s[k] !in ds
    decreases |s| - from
  {
    if from == |s| || s[from] !in ds then from else FirstNotIn(s, ds, from + 1)
  }

  /** The first position at or after `from` whose character is in ds; |s| when there is none (npos). */
  function FirstIn(s: string, ds: set<char>, from: nat): (k: nat)
    requires from <= |s|
    ensures from <= k <= |s|
    ensures forall j :: from <= j < k ==> s[j] !in ds
    ensures k < |s| ==> s[k] in ds
    decreases |s| - from
  {
    if from == |s| || s[from] in ds then from else FirstIn(s, ds, from + 1)
  }

  /** std::string::find_first_not_of. */
  method FindFirstNotOf(s: string, ds: set<char>, from: nat) returns (k: nat)
    requires from <= |s|
    ensures k == FirstNotIn(s, ds, from)
  {
    k := from;
    while k < |s| && s[k] in ds
      invariant from <= k <= |s|
      invariant FirstNotIn(s, ds, from) == FirstNotIn(s, ds, k)
    {
      k := k + 1;
    }
  }

  /** std::string::find_first_of. */
  method FindFirstOf(s: string, ds: set<char>, from: nat) returns (k: nat)
    requires from <= |s|
    ensures k == FirstIn(s, ds, from)
  {
    k := from;
    while k < |s| && s[k] !in ds
      invariant from <= k <= |s|
      invariant FirstIn(s, ds, from) == FirstIn(s, ds, k)
    {
      k := k + 1;
    }
  }

  /** Whether the word starting at p1 follows the first double quote of the line directly. */
  predicate Quoted(s: string, p1: nat)
    requires p1 <= |s|
  {
    var q := FirstIn(s, {'"'}, 0);
    q < |s| && p1 == q + 1
  }

  /** The characters that end the word starting at p1. */
  function Terminators(s: string, p1: nat): set<char>
    requires p1 <= |s|
  {
    if Quoted(s, p1) then DELIMITERS_BACK_QUOTED else DELIMITERS_BACK
  }

  /** getNextWord as a function of the line: the word and what is left of the line. */
  function NextWord(s: string): (string, string)
  {
    var p1 := FirstNotIn(s, DELIMITERS_FRONT, 0);
    if p1 == |s| then ("", s)
    else
      var p2 := FirstIn(s, Terminators(s, p1), p1);
      (s[p1..p2], if p2 == |s| then "" else s[p2 + 1..])
  }

  /** getNextWord: the steps of the source, proved to compute NextWord. */
  method GetNextWord(s: string) returns (word: string, rest: string)
    ensures (word, rest) == NextWord(s)
  {
    var p1 := FindFirstNotOf(s, DELIMITERS_FRONT, 0);
    var temp := FindFirstOf(s, {'"'}, 0);
    var delimitersBack := DELIMITERS_BACK;
    if temp != |s| && p1 == temp + 1 {
      delimitersBack := DELIMITERS_BACK_QUOTED;
    }
    if p1 == |s| {
      return "", s;
    }
    assert delimitersBack == Terminators(s, p1);
    var p2 := FindFirstOf(s, delimitersBack, p1);
    word := s[p1..p2];
    if p2 == |s| {
      rest := "";
      return;
    }
    rest := s[p2 + 1..];
  }

  /**
   * getNextWord returns an empty word exactly when only separators remain, and then leaves
   * the line alone.
   */
  lemma NextWordEmpty(s: string)
    ensures NextWord(s).0 == "" <==> forall j :: 0 <= j < |s| ==> s[j] in DELIMITERS_FRONT
    ensures NextWord(s).0 == "" ==> NextWord(s).1 == s
  {
    var p1 := FirstNotIn(s, DELIMITERS_FRONT, 0);
    if p1 < |s| {
      var p2 := FirstIn(s, Terminators(s, p1), p1);
      assert s[p1] !in Terminators(s, p1);
      assert |NextWord(s).0| == p2 - p1 > 0;
    }
  }

  /**
   * A non-empty word is the part of the line after the leading separators up to a
   * terminator: it holds no terminator (no space unless it follows the line's first quote),
   * and the rest of the line is a strictly shorter suffix.
   */
  lemma NextWordToken(s: string)
    requires NextWord(s).0 != ""
    ensures var p1 := FirstNotIn(s, DELIMITERS_FRONT, 0); var word := NextWord(s).0;
            && (forall j :: 0 <= j < p1 ==> s[j] in DELIMITERS_FRONT)
            && word[0] !in DELIMITERS_FRONT
            && p1 + |word| <= |s| && word == s[p1..p1 + |word|]
            && (forall j :: 0 <= j < |word| ==> word[j] !in Terminators(s, p1))
            && (!Quoted(s, p1) ==> forall j :: 0 <= j < |word| ==> word[j] != ' ')
    ensures var rest := NextWord(s).1; |rest| < |s| && rest == s[|s| - |rest|..]
  {
    var p1 := FirstNotIn(s, DELIMITERS_FRONT, 0);
    var p2 := FirstIn(s, Terminators(s, p1), p1);
    var word := s[p1..p2];
    assert NextWord(s).0 == word;
    assert forall j :: 0 <= j < |word| ==> word[j] == s[p1 + j];
  }

  /** Repeated calls run out of words: the words of a line until the first empty one. */
  function Words(s: string): (ws: seq<string>)
    ensures forall i :: 0 <= i < |ws| ==> ws[i] != ""
    decreases |s|
  {
    var (word, rest) := NextWord(s);
    if word == "" then [] else (NextWordToken(s); [word] + Words(rest))
  }

  /** A quoted parameter name keeps its space; a word after it ends at the next space. */
  lemma QuotedWordKeepsSpace()
    ensures NextWord("\"a b\" c") == ("a b", " c")
    ensures NextWord(" c") == ("c", "")
  {
    var s := "\"a b\" c";
    assert s[0] == '"' && s[1] == 'a' && s[2] == ' ' && s[3] == 'b' && s[4] == '"';
    assert FirstNotIn(s, DELIMITERS_FRONT, 1) == 1;
    assert FirstIn(s, {'"'}, 0) == 0;
    assert FirstIn(s, DELIMITERS_BACK_QUOTED, 4) == 4;
    assert FirstIn(s, DELIMITERS_BACK_QUOTED, 3) == 4;
    assert FirstIn(s, DELIMITERS_BACK_QUOTED, 2) == 4;
    assert FirstIn(s, DELIMITERS_BACK_QUOTED, 1) == 4;
    assert FirstNotIn(s, DELIMITERS_FRONT, 0) == 1;
    assert Terminators(s, 1) == DELIMITERS_BACK_QUOTED;
    assert s[1..4] == "a b" && s[5..] == " c";
    var t := " c";
    assert t[0] == ' ' && t[1] == 'c';
    assert FirstNotIn(t, DELIMITERS_FRONT, 1) == 1;
    assert FirstIn(t, {'"'}, 2) == 2 && FirstIn(t, {'"'}, 1) == 2;
    assert FirstIn(t, DELIMITERS_BACK, 2) == 2;
    assert FirstIn(t, DELIMITERS_BACK, 1) == 2;
    assert FirstNotIn(t, DELIMITERS_FRONT, 0) == 1;
    assert Terminators(t, 1) == DELIMITERS_BACK;
    assert t[1..2] == "c";
  }
}
