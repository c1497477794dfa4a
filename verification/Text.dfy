/** The Rust string operations the modelled parsers and printers are written with. */
module Text {
  import opened Wrappers

  // ---- Characters -----------------------------------------------------------

  /** `char::is_whitespace`: the Unicode White_Space property. */
  predicate IsSpace(c: char) {
    || '\t' <= c <= '\r' || c == ' ' || c == '\U{0085}' || c == '\U{00A0}' || c == '\U{1680}'
    || '\U{2000}' <= c <= '\U{200A}' || c == '\U{2028}' || c == '\U{2029}' || c == '\U{202F}'
    || c == '\U{205F}' || c == '\U{3000}'
  }

  predicate IsLowerAscii(c: char) {
    'a' <= c <= 'z'
  }

  predicate IsUpperAscii(c: char) {
    'A' <= c <= 'Z'
  }

  predicate IsDigitAscii(c: char) {
    '0' <= c <= '9'
  }

  predicate IsAlnumAscii(c: char) {
    IsLowerAscii(c) || IsUpperAscii(c) || IsDigitAscii(c)
  }

  function LowerChar(c: char): char {
    if IsUpperAscii(c) then (c as int + 32) as char else c
  }

  /** `to_ascii_lowercase`. */
  function Lower(s: string): (r: string)
    ensures |r| == |s|
    ensures forall i | 0 <= i < |s| :: r[i] == LowerChar(s[i])
  {
    if s == "" then "" else [LowerChar(s[0])] + Lower(s[1..])
  }

  // ---- Trimming and splitting -----------------------------------------------

  function TrimStart(s: string): string {
    if s != "" && IsSpace(s[0]) then TrimStart(s[1..]) else s
  }

  function TrimEnd(s: string): string {
    if s != "" && IsSpace(s[|s| - 1]) then TrimEnd(s[..|s| - 1]) else s
  }

  function Trim(s: string): string {
    TrimStart(TrimEnd(s))
  }

  function StripPrefix(s: string, p: string): Option<string> {
    if p <= s then Some(s[|p|..]) else None
  }

  predicate Contains(s: string, part: string) {
    exists i | 0 <= i <= |s| :: part <= s[i..]
  }

  predicate EndsWith(s: string, c: char) {
    s != "" && s[|s| - 1] == c
  }

  function FirstBytes(s: string, n: nat): string {
    if n <= |s| then s[..n] else s
  }

  /** What stands between the brackets of a section header. */
  function Bracketed(t: string): Option<string> {
    if |t| >= 2 && t[0] == '[' && t[|t| - 1] == ']' then Some(t[1..|t| - 1]) else None
  }

  /** The position of the first `c`, or `|s|`. */
  function Find(s: string, c: char): (i: nat)
    ensures i <= |s|
    ensures i < |s| ==> s[i] == c
    ensures c !in s[..i]
  {
    if s == "" || s[0] == c then 0 else
      assert s[..1 + Find(s[1..], c)] == [s[0]] + s[1..][..Find(s[1..], c)];
      1 + Find(s[1..], c)
  }

  function SplitOnce(s: string, c: char): Option<(string, string)> {
    var i := Find(s, c);
    if i < |s| then Some((s[..i], s[i + 1..])) else None
  }

  /** `split(c)`: the pieces between the separators, empty ones included. */
  function Split(s: string, c: char): (r: seq<string>)
    ensures |r| > 0
  {
    var i := Find(s, c);
    if i < |s| then [s[..i]] + Split(s[i + 1..], c) else [s]
  }

  function Join(parts: seq<string>, sep: string): string {
    if parts == [] then ""
    else if |parts| == 1 then parts[0]
    else parts[0] + sep + Join(parts[1..], sep)
  }

  function NonEmpty(parts: seq<string>): (r: seq<string>)
    ensures "" !in parts ==> r == parts
  {
    if parts == [] then []
    else if parts[0] == "" then NonEmpty(parts[1..])
    else [parts[0]] + NonEmpty(parts[1..])
  }

  /** The position of the first white space, or `|s|`. */
  function FindSpace(s: string): (i: nat)
    ensures i <= |s|
    ensures i < |s| ==> IsSpace(s[i])
    ensures forall j | 0 <= j < i :: !IsSpace(s[j])
  {
    if s == "" || IsSpace(s[0]) then 0 else
      assert forall j | 0 < j <= FindSpace(s[1..]) :: s[j] == s[1..][j - 1];
      1 + FindSpace(s[1..])
  }

  lemma TrimStartShorter(s: string)
    ensures |TrimStart(s)| <= |s|
    ensures TrimStart(s) != "" ==> !IsSpace(TrimStart(s)[0])
  {}

  /** `split_whitespace`. */
  function Words(s: string): seq<string>
    decreases |s|
  {
    TrimStartShorter(s);
    var t := TrimStart(s);
    if t == "" then [] else [t[..FindSpace(t)]] + Words(t[FindSpace(t)..])
  }

  // ---- Lines ----------------------------------------------------------------

  function ChompCr(line: string): string {
    if EndsWith(line, '\r') then line[..|line| - 1] else line
  }

  /** `str::lines`: split at line feeds, dropping one carriage return before each. */
  function Lines(text: string): seq<string>
    decreases |text|
  {
    if text == "" then []
    else
      var i := Find(text, '\n');
      if i == |text| then [text] else [ChompCr(text[..i])] + Lines(text[i + 1..])
  }

  /** `lines.join("\n")` and a final line feed. */
  function Unlines(lines: seq<string>): string {
    Join(lines, "\n") + "\n"
  }

  function Chomped(lines: seq<string>): (r: seq<string>)
    ensures |r| == |lines|
    ensures forall i | 0 <= i < |r| :: r[i] == ChompCr(lines[i])
  {
    seq(|lines|, i requires 0 <= i < |lines| => ChompCr(lines[i]))
  }

  predicate OneLine(s: string) {
    '\n' !in s
  }

  // ---- Lemmas ---------------------------------------------------------------

  lemma Assoc<T>(a: seq<T>, b: seq<T>, c: seq<T>)
    ensures (a + b) + c == a + (b + c)
  {}

  lemma FindUnique(s: string, c: char, i: nat)
    requires i < |s| && s[i] == c && c !in s[..i]
    ensures Find(s, c) == i
  {
    var j := Find(s, c);
    assert forall k | 0 <= k < i :: s[..i][k] == s[k];
    assert forall k | 0 <= k < j :: s[..j][k] == s[k];
  }

  /** The first line of a text, and the rest. */
  lemma LinesFirst(text: string, i: nat)
    requires i < |text| && text[i] == '\n' && '\n' !in text[..i]
    ensures Lines(text) == [ChompCr(text[..i])] + Lines(text[i + 1..])
  {
    FindUnique(text, '\n', i);
    hide Find, ChompCr;
  }

  /** The characters Unicode counts as white space. */
  const WHITE_SPACE := "\t\n\U{000B}\U{000C}\r \U{0085}\U{00A0}\U{1680}\U{2000}\U{2001}\U{2002}\U{2003}\U{2004}\U{2005}"
                       + "\U{2006}\U{2007}\U{2008}\U{2009}\U{200A}\U{2028}\U{2029}\U{202F}\U{205F}\U{3000}"

  lemma SpaceIsWhite(c: char)
    ensures IsSpace(c) <==> c in WHITE_SPACE
  {
    SpacesListed();
    if IsSpace(c) { SpaceListed(c); }
  }

  lemma SpacesListed()
    ensures forall i | 0 <= i < |WHITE_SPACE| :: IsSpace(WHITE_SPACE[i])
  {}

  lemma SpaceListed(c: char)
    requires IsSpace(c)
    ensures c in WHITE_SPACE
  {
    var n := c as int;
    if n <= 13 {
      assert WHITE_SPACE[n - 9] == c;
    } else if 0x2000 <= n <= 0x200A {
      assert WHITE_SPACE[9 + n - 0x2000] == c;
    } else {
      assert WHITE_SPACE[5] == ' ' && WHITE_SPACE[6] == '\U{0085}' && WHITE_SPACE[7] == '\U{00A0}';
      assert WHITE_SPACE[8] == '\U{1680}' && WHITE_SPACE[20] == '\U{2028}' && WHITE_SPACE[21] == '\U{2029}';
      assert WHITE_SPACE[22] == '\U{202F}' && WHITE_SPACE[23] == '\U{205F}' && WHITE_SPACE[24] == '\U{3000}';
    }
  }

  const SMALL_LETTERS := "abcdefghijklmnopqrstuvwxyz"
  const CAPITAL_LETTERS := "ABCDEFGHIJKLMNOPQRSTUVWXYZ"
  const DIGITS := "0123456789"
  const LETTERS_AND_DIGITS := SMALL_LETTERS + CAPITAL_LETTERS + DIGITS

  lemma SmallLetterListed(c: char)
    ensures IsLowerAscii(c) <==> c in SMALL_LETTERS
  {
    assert forall i | 0 <= i < 26 :: IsLowerAscii(SMALL_LETTERS[i]);
    if IsLowerAscii(c) { assert SMALL_LETTERS[c as int - 97] == c; }
  }

  lemma CapitalLetterListed(c: char)
    ensures IsUpperAscii(c) <==> c in CAPITAL_LETTERS
  {
    assert forall i | 0 <= i < 26 :: IsUpperAscii(CAPITAL_LETTERS[i]);
    if IsUpperAscii(c) { assert CAPITAL_LETTERS[c as int - 65] == c; }
  }

  lemma DigitListed(c: char)
    ensures IsDigitAscii(c) <==> c in DIGITS
  {
    assert forall i | 0 <= i < 10 :: IsDigitAscii(DIGITS[i]);
    if IsDigitAscii(c) { assert DIGITS[c as int - 48] == c; }
  }

  lemma AlnumSpelled(c: char)
    ensures IsAlnumAscii(c) <==> c in LETTERS_AND_DIGITS
  {
    SmallLetterListed(c);
    CapitalLetterListed(c);
    DigitListed(c);
    InThree(c, SMALL_LETTERS, CAPITAL_LETTERS, DIGITS);
  }

  lemma InThree(c: char, x: string, y: string, z: string)
    ensures c in x + y + z <==> c in x || c in y || c in z
  {}

  predicate SameLetter(c: char, small: char) {
    c == small || ('A' <= c <= 'Z' && 'a' <= small <= 'z' && c as int - 'A' as int == small as int - 'a' as int)
  }

  /** `word`, in small letters, stands at `p` in any case. */
  predicate SpelledAt(value: string, p: nat, word: string) {
    p + |word| <= |value| && forall k | 0 <= k < |word| :: SameLetter(value[p + k], word[k])
  }

  predicate IsSmall(word: string) {
    forall k | 0 <= k < |word| :: 'a' <= word[k] <= 'z' || word[k] == '='
  }

  lemma LowerLetter(c: char, small: char)
    requires 'a' <= small <= 'z' || small == '='
    ensures LowerChar(c) == small <==> SameLetter(c, small)
  {}

  lemma LowerAt(value: string, p: nat, word: string)
    requires IsSmall(word)
    ensures StandsAt(Lower(value), p, word) <==> SpelledAt(value, p, word)
  {
    if p + |word| <= |value| {
      forall k | 0 <= k < |word| ensures Lower(value)[p + k] == word[k] <==> SameLetter(value[p + k], word[k]) {
        LowerLetter(value[p + k], word[k]);
      }
    }
  }

  predicate StandsAt(s: string, p: nat, part: string) {
    p + |part| <= |s| && forall k | 0 <= k < |part| :: s[p + k] == part[k]
  }

  lemma ContainsAt(s: string, part: string)
    ensures Contains(s, part) <==> exists p: nat :: StandsAt(s, p, part)
  {
    if Contains(s, part) {
      var i :| 0 <= i <= |s| && part <= s[i..];
      assert forall k | 0 <= k < |part| :: s[i..][k] == s[i + k] == part[k];
      assert StandsAt(s, i, part);
    }
    if p: nat :| StandsAt(s, p, part) {
      assert s[p..][..|part|] == part;
    }
  }

  lemma LinesNone()
    ensures Lines("") == []
  {}

  lemma FindAbsent(s: string, c: char)
    requires c !in s
    ensures Find(s, c) == |s|
  {}

  /** The first separator of `a + [c] + b` is the one put there, when `a` has none. */
  lemma SplitOnceJoined(a: string, c: char, b: string)
    requires c !in a
    ensures SplitOnce(a + [c] + b, c) == Some((a, b))
  {
    var s := a + [c] + b;
    assert s[..|a|] == a;
    FindUnique(s, c, |a|);
    assert s[|a| + 1..] == b;
  }

  lemma {:induction false} SplitJoin(parts: seq<string>, c: char)
    requires parts != [] && forall p | p in parts :: c !in p
    ensures Split(Join(parts, [c]), c) == parts
  {
    if |parts| == 1 {
      FindAbsent(parts[0], c);
    } else {
      var rest := Join(parts[1..], [c]);
      var s := parts[0] + [c] + rest;
      assert s[..|parts[0]|] == parts[0];
      FindUnique(s, c, |parts[0]|);
      assert s[|parts[0]| + 1..] == rest;
      SplitJoin(parts[1..], c);
    }
  }

  /** A token: not empty and without white space. */
  predicate IsWord(s: string) {
    s != "" && forall i | 0 <= i < |s| :: !IsSpace(s[i])
  }

  lemma WordsStep(w: string, rest: string)
    requires IsWord(w) && (rest == "" || IsSpace(rest[0]))
    ensures Words(w + rest) == [w] + Words(rest)
    ensures Words(" " + w + rest) == [w] + Words(rest)
  {
    var s := w + rest;
    FindSpaceAfter(w, rest);
    hide FindSpace;
    assert s[0] == w[0] && s[..|w|] == w && s[|w|..] == rest;
    assert (" " + w + rest)[1..] == s;
  }

  lemma FindSpaceAfter(w: string, rest: string)
    requires IsWord(w) && (rest == "" || IsSpace(rest[0]))
    ensures FindSpace(w + rest) == |w|
  {
    hide FindSpace, IsSpace;
    var s := w + rest;
    assert forall j | 0 <= j < |w| :: s[j] == w[j];
    assert rest != "" ==> s[|w|] == rest[0];
  }

  /** Words joined by single spaces, with or without a leading one, split back. */
  lemma {:induction false} WordsJoin(words: seq<string>)
    requires forall w | w in words :: IsWord(w)
    ensures Words(Join(words, " ")) == words
    ensures Words(" " + Join(words, " ")) == words
  {
    hide Words, IsSpace;
    if words == [] {
      NoWords();
      assert " " + Join(words, " ") == " ";
    } else {
      var rest := if |words| == 1 then "" else " " + Join(words[1..], " ");
      SpaceIsSpace();
      assert words[0] in words;
      assert Join(words, " ") == words[0] + rest && " " + Join(words, " ") == " " + words[0] + rest;
      WordsStep(words[0], rest);
      if |words| == 1 {
        NoWords();
      } else {
        WordsJoin(words[1..]);
      }
    }
  }

  lemma NoWords()
    ensures Words("") == [] && Words(" ") == []
  {}

  lemma SpaceIsSpace()
    ensures IsSpace(' ')
  {}

  lemma TrimKeepsSolid(s: string)
    requires s != "" && !IsSpace(s[0]) && !IsSpace(s[|s| - 1])
    ensures Trim(s) == s
  {}

  lemma {:induction false} TrimEndSpaces(s: string, w: string)
    requires forall i | 0 <= i < |w| :: IsSpace(w[i])
    ensures TrimEnd(s + w) == TrimEnd(s)
  {
    if w == "" {
      assert s + w == s;
    } else {
      assert (s + w)[..|s + w| - 1] == s + w[..|w| - 1];
      TrimEndSpaces(s, w[..|w| - 1]);
    }
  }

  lemma {:induction false} TrimLeadingSpace(c: char, s: string)
    requires IsSpace(c)
    ensures Trim([c] + s) == Trim(s)
  {
    if s == "" {
    } else if IsSpace(s[|s| - 1]) {
      assert ([c] + s)[..|s|] == [c] + s[..|s| - 1];
      TrimLeadingSpace(c, s[..|s| - 1]);
    } else {
      assert ([c] + s)[1..] == s;
    }
  }

  /** Carriage returns `lines` leaves or drops never matter to a trimmed line. */
  lemma TrimChompCr(line: string)
    ensures Trim(ChompCr(line)) == Trim(line)
  {
    if EndsWith(line, '\r') {
      assert line == line[..|line| - 1] + "\r";
      TrimEndSpaces(line[..|line| - 1], "\r");
    }
  }

  lemma {:induction false} LinesAreOneLine(text: string)
    ensures forall l | l in Lines(text) :: OneLine(l)
    decreases |text|
  {
    if text == "" {
    } else {
      var i := Find(text, '\n');
      if i == |text| {
        assert text[..i] == text;
      } else {
        LinesAreOneLine(text[i + 1..]);
      }
    }
  }

  /** Reading back written lines gives them, less one carriage return each. */
  lemma {:induction false} LinesUnlines(lines: seq<string>)
    requires lines != [] && forall l | l in lines :: OneLine(l)
    ensures Lines(Unlines(lines)) == Chomped(lines)
  {
    var text := Unlines(lines);
    var first := lines[0];
    if |lines| == 1 {
      assert text == first + "\n" + "";
    } else {
      assert text == first + "\n" + Unlines(lines[1..]);
      LinesUnlines(lines[1..]);
    }
    assert text[..|first|] == first && first in lines;
    FindUnique(text, '\n', |first|);
    assert Chomped(lines) == [ChompCr(first)] + Chomped(lines[1..]);
  }
}
