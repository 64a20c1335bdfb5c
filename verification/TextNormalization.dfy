/**
 `normalize_text` and the word splitting that `word_error_rate` relies on.
 The lower-casing of a string and the Unicode categories P and S are parameters.
 */
module TextNormalization {

  /** The characters at which `str.split()` breaks. */
  predicate IsSpace(c: char) {
    var u := c as int;
    || 9 <= u <= 13 || 28 <= u <= 32 || u == 0x85 || u == 0xA0 || u == 0x1680
    || 0x2000 <= u <= 0x200A || u == 0x2028 || u == 0x2029 || u == 0x202F || u == 0x205F || u == 0x3000
  }

  function Split(s: string): seq<string> {
    SplitFrom("", s)
  }

  /** The words of `s` when the characters of `word` have already been read. */
  function SplitFrom(word: string, s: string): seq<string>
    decreases s
  {
    if s == [] then Flush(word)
    else if IsSpace(s[0]) then Flush(word) + SplitFrom("", s[1..])
    else SplitFrom(word + [s[0]], s[1..])
  }

  function Flush(word: string): seq<string> {
    if word == "" then [] else [word]
  }

  function Join(words: seq<string>): string {
    if words == [] then ""
    else if |words| == 1 then words[0]
    else words[0] + " " + Join(words[1..])
  }

  /** Punctuation and symbols become word boundaries. */
  function Blank(s: string, isMark: char -> bool): (r: string)
  {
    seq(|s|, i requires 0 <= i < |s| => if isMark(s[i]) then ' ' else s[i])
  }

  function Normalized(s: string, lower: string -> string, isMark: char -> bool): string {
    Join(Split(Blank(lower(s), isMark)))
  }

  method NormalizeText(s: string, lower: string -> string, isMark: char -> bool) returns (r: string)
    ensures r == Normalized(s, lower, isMark)
  {
    var t := lower(s);
    var outChars := [];
    for i := 0 to |t|
      invariant outChars == Blank(t[..i], isMark)
    {
      outChars := outChars + [if isMark(t[i]) then ' ' else t[i]];
    }
    assert t[..|t|] == t;
    r := Join(Split(outChars));
  }

  predicate IsWord(w: string) {
    w != "" && forall c :: c in w ==> !IsSpace(c)
  }

  lemma {:induction false} SplitFromGivesWords(word: string, s: string)
    requires word == "" || IsWord(word)
    ensures forall w :: w in SplitFrom(word, s) ==> IsWord(w) && forall c :: c in w ==> c in word || c in s
    decreases s
  {
    if s != [] {
      if IsSpace(s[0]) {
        SplitFromGivesWords("", s[1..]);
      } else {
        SplitFromGivesWords(word + [s[0]], s[1..]);
      }
    }
  }

  lemma {:induction false} SplitFromReadsWord(acc: string, w: string, s: string)
    requires forall c :: c in w ==> !IsSpace(c)
    ensures SplitFrom(acc, w + s) == SplitFrom(acc + w, s)
    decreases w
  {
    if w == [] {
      assert w + s == s && acc + w == acc;
    } else {
      assert (w + s)[1..] == w[1..] + s;
      SplitFromReadsWord(acc + [w[0]], w[1..], s);
      assert acc + [w[0]] + w[1..] == acc + w;
    }
  }

  /** Splitting undoes joining. */
  lemma {:induction false} SplitOfJoin(words: seq<string>)
    requires forall w :: w in words ==> IsWord(w)
    ensures Split(Join(words)) == words
  {
    if words != [] {
      var w := words[0];
      assert w in words && IsWord(w);
      if |words| == 1 {
        SplitFromReadsWord("", w, "");
        assert w + "" == w && "" + w == w;
      } else {
        var rest := " " + Join(words[1..]);
        SplitFromReadsWord("", w, rest);
        assert w + rest == Join(words) && "" + w == w;
        assert rest[1..] == Join(words[1..]);
        SplitOfJoin(words[1..]);
      }
    }
  }

  lemma {:induction false} CharsOfJoin(words: seq<string>, c: char)
    requires c in Join(words)
    ensures c == ' ' || exists w :: w in words && c in w
  {
    if |words| > 1 && c !in words[0] && c != ' ' {
      CharsOfJoin(words[1..], c);
    }
  }

  /**
   What the rate sees of a normalized text: exactly the words the marks and the
   white space cut out, none of them empty or containing a mark.
   */
  lemma NormalizedWords(s: string, lower: string -> string, isMark: char -> bool)
    ensures Split(Normalized(s, lower, isMark)) == Split(Blank(lower(s), isMark))
    ensures forall w :: w in Split(Normalized(s, lower, isMark)) ==>
              IsWord(w) && forall c :: c in w ==> c in lower(s) && !isMark(c)
  {
    var t := Blank(lower(s), isMark);
    SplitFromGivesWords("", t);
    SplitOfJoin(Split(t));
    forall w, c | w in Split(t) && c in w
      ensures c in lower(s) && !isMark(c)
    {
      assert c in t && IsWord(w);
      var i :| 0 <= i < |t| && t[i] == c;
    }
  }

  lemma {:induction false} SpaceCutsSplit(acc: string, u: string, c: char, v: string)
    requires IsSpace(c)
    ensures SplitFrom(acc, u + [c] + v) == SplitFrom(acc, u) + Split(v)
    decreases u
  {
    var s := u + [c] + v;
    if u == [] {
      assert s[0] == c && s[1..] == v;
    } else {
      assert s[1..] == u[1..] + [c] + v;
      if IsSpace(u[0]) {
        SpaceCutsSplit("", u[1..], c, v);
        assert Flush(acc) + (SplitFrom("", u[1..]) + Split(v)) == (Flush(acc) + SplitFrom("", u[1..])) + Split(v);
      } else {
        SpaceCutsSplit(acc + [u[0]], u[1..], c, v);
      }
    }
  }

  /** A mark inside a word makes two words of it, whatever surrounds it. */
  lemma MarkCutsWords(u: string, c: char, v: string, isMark: char -> bool)
    requires isMark(c)
    ensures Split(Blank(u + [c] + v, isMark)) == Split(Blank(u, isMark)) + Split(Blank(v, isMark))
  {
    assert Blank(u + [c] + v, isMark) == Blank(u, isMark) + [' '] + Blank(v, isMark);
    SpaceCutsSplit("", Blank(u, isMark), ' ', Blank(v, isMark));
  }

  /** Lower-casing yields characters it then leaves alone, the blank among them. */
  ghost predicate Settles(lower: string -> string, isLow: char -> bool) {
    && isLow(' ')
    && (forall t: string, c :: c in lower(t) ==> isLow(c))
    && (forall t: string :: (forall c :: c in t ==> isLow(c)) ==> lower(t) == t)
  }

  lemma NormalizeIsIdempotent(s: string, lower: string -> string, isMark: char -> bool, isLow: char -> bool)
    requires Settles(lower, isLow)
    ensures Normalized(Normalized(s, lower, isMark), lower, isMark) == Normalized(s, lower, isMark)
  {
    var n := Normalized(s, lower, isMark);
    NormalizedWords(s, lower, isMark);
    forall c | c in n
      ensures c == ' ' || (c in lower(s) && !isMark(c))
    {
      CharsOfJoin(Split(Blank(lower(s), isMark)), c);
    }
    assert lower(n) == n;
    assert Blank(n, isMark) == n;
  }

  // ---- What splitting and normalizing compute, character by character ----

  /** The characters Python's `split` breaks at, one by one. */
  const BREAKS: seq<char> := [
    '\t', '\n', '\U{000B}', '\U{000C}', '\r', '\U{001C}', '\U{001D}', '\U{001E}', '\U{001F}', ' ',
    '\U{0085}', '\U{00A0}', '\U{1680}',
    '\U{2000}', '\U{2001}', '\U{2002}', '\U{2003}', '\U{2004}', '\U{2005}', '\U{2006}', '\U{2007}',
    '\U{2008}', '\U{2009}', '\U{200A}', '\U{2028}', '\U{2029}', '\U{202F}', '\U{205F}', '\U{3000}']

  lemma BreaksAreSpaces(c: char)
    ensures c in BREAKS <==> IsSpace(c)
  {
    if IsSpace(c) {
      var u := c as int;
      assert c == BREAKS[
        if u <= 13 then u - 9 else if u <= 32 then u - 23 else if u == 0x85 then 10 else if u == 0xA0 then 11
        else if u == 0x1680 then 12 else if u <= 0x200A then u - 0x2000 + 13 else if u == 0x2028 then 24
        else if u == 0x2029 then 25 else if u == 0x202F then 26 else if u == 0x205F then 27 else 28];
    }
  }

  /** A breaking character separates what is before it from what is behind it. */
  lemma BreakCutsSplit(u: string, c: char, v: string)
    requires c in BREAKS
    ensures Split(u + [c] + v) == Split(u) + Split(v)
  {
    BreaksAreSpaces(c);
    SpaceCutsSplit("", u, c, v);
  }

  /** A text without breaking characters is one word, or none when it is empty. */
  lemma UnbrokenIsOneWord(w: string)
    requires forall c :: c in w ==> c !in BREAKS
    ensures Split(w) == if w == "" then [] else [w]
  {
    forall c | c in w
      ensures !IsSpace(c)
    {
      BreaksAreSpaces(c);
    }
    SplitFromReadsWord("", w, "");
    assert w + "" == w && "" + w == w;
  }

  /** A word of unmarked characters comes through normalization. */
  lemma UnmarkedWordStays(s: string, lower: string -> string, isMark: char -> bool)
    requires lower(s) != "" && forall c :: c in lower(s) ==> c !in BREAKS && !isMark(c)
    ensures Normalized(s, lower, isMark) == lower(s)
  {
    assert Blank(lower(s), isMark) == lower(s);
    UnbrokenIsOneWord(lower(s));
  }

  /** Marks and breaking characters separate the normalized words, wherever they stand. */
  lemma NormalizedCutsAt(u: string, c: char, v: string, s: string, lower: string -> string, isMark: char -> bool)
    requires lower(s) == u + [c] + v && (c in BREAKS || isMark(c))
    ensures Split(Normalized(s, lower, isMark)) == Split(Blank(u, isMark)) + Split(Blank(v, isMark))
  {
    NormalizedWords(s, lower, isMark);
    if isMark(c) {
      MarkCutsWords(u, c, v, isMark);
    } else {
      assert Blank(u + [c] + v, isMark) == Blank(u, isMark) + [c] + Blank(v, isMark);
      BreakCutsSplit(Blank(u, isMark), c, Blank(v, isMark));
    }
  }

  /** Single blanks only between words: none at either end, no two together, no other breaking character. */
  ghost predicate Tidy(n: string) {
    && (forall c :: c in n && c in BREAKS ==> c == ' ')
    && (n != "" ==> n[0] != ' ' && n[|n| - 1] != ' ')
    && (forall i, j :: 0 <= i && j == i + 1 && j < |n| ==> n[i] != ' ' || n[j] != ' ')
  }

  lemma WordIsTidy(w: string)
    requires IsWord(w)
    ensures Tidy(w)
  {
    forall c | c in w
      ensures c !in BREAKS && c != ' '
    {
      BreaksAreSpaces(c);
    }
    assert w[0] in w && w[|w| - 1] in w;
    assert forall i :: 0 <= i < |w| ==> w[i] in w;
  }

  lemma {:induction false} JoinIsTidy(words: seq<string>)
    requires forall w :: w in words ==> IsWord(w)
    ensures Tidy(Join(words)) && (words != [] ==> Join(words) != "")
  {
    if words != [] {
      assert words[0] in words && IsWord(words[0]);
      WordIsTidy(words[0]);
      if |words| > 1 {
        JoinIsTidy(words[1..]);
        TidyTogether(words[0], Join(words[1..]));
      }
    }
  }

  lemma TidyTogether(a: string, b: string)
    requires Tidy(a) && Tidy(b) && a != "" && b != ""
    ensures Tidy(a + " " + b)
  {
    var n := a + " " + b;
    forall i, j | 0 <= i && j == i + 1 && j < |n|
      ensures n[i] != ' ' || n[j] != ' '
    {
      if i > |a| {
        var k, l := i - |a| - 1, j - |a| - 1;
        assert n[i] == b[k] && n[j] == b[l] && l == k + 1;
      }
    }
  }

  /** White space is collapsed and trimmed. */
  lemma NormalizedIsTidy(s: string, lower: string -> string, isMark: char -> bool)
    ensures Tidy(Normalized(s, lower, isMark))
  {
    SplitFromGivesWords("", Blank(lower(s), isMark));
    JoinIsTidy(Split(Blank(lower(s), isMark)));
  }
}
