/** The string operations the dashboard relies on: `trim` (for the
    "is there anything to send" guards), ASCII `toLowerCase`/`toUpperCase`,
    `includes`, `split` with a one-character separator, and the
    `getInitials` avatar fallback of src/utils/messageUtils.ts. */
module Text {

  /** The characters ECMAScript's `String.prototype.trim` strips: the
      WhiteSpace set (tab, vertical tab, form feed, space, no-break space,
      byte-order mark and the Zs category) and the LineTerminator set. */
  predicate IsSpace(c: char) {
    var n := c as int;
    || n == 0x09 || n == 0x0A || n == 0x0B || n == 0x0C || n == 0x0D
    || n == 0x20 || n == 0xA0 || n == 0x1680
    || (0x2000 <= n <= 0x200A)
    || n == 0x2028 || n == 0x2029 || n == 0x202F || n == 0x205F
    || n == 0x3000 || n == 0xFEFF
  }

  function TrimStart(s: string): (r: string)
    ensures r == [] || !IsSpace(r[0])
    ensures |r| <= |s| && r == s[|s| - |r|..]
  {
    if s != [] && IsSpace(s[0]) then TrimStart(s[1..]) else s
  }

  function TrimEnd(s: string): (r: string)
    ensures r == [] || !IsSpace(r[|r| - 1])
    ensures |r| <= |s| && r == s[..|r|]
  {
    if s != [] && IsSpace(s[|s| - 1]) then TrimEnd(s[..|s| - 1]) else s
  }

  /** `s.trim()`: `s` without its leading and trailing whitespace. */
  function Trim(s: string): string {
    TrimStart(TrimEnd(s))
  }

  /** Every character of `s` is whitespace (vacuously so for ""). */
  predicate AllSpace(s: string) {
    forall i :: 0 <= i < |s| ==> IsSpace(s[i])
  }

  /** `!s.trim()`: the trimmed text is the empty, falsy string. */
  predicate IsBlank(s: string) {
    Trim(s) == ""
  }

  /** The trim is empty exactly when every character is whitespace. */
  lemma {:induction false} BlankIffAllSpace(s: string)
    ensures IsBlank(s) <==> AllSpace(s)
  {
    TrimEndAllSpace(s);
    TrimStartAllSpace(TrimEnd(s));
  }

  lemma {:induction false} TrimStartAllSpace(s: string)
    ensures TrimStart(s) == "" <==> AllSpace(s)
    decreases |s|
  {
    if s != [] && IsSpace(s[0]) {
      TrimStartAllSpace(s[1..]);
      if AllSpace(s[1..]) {
        forall i | 0 <= i < |s| ensures IsSpace(s[i]) {
          if i > 0 { assert s[i] == s[1..][i - 1]; }
        }
      }
      if AllSpace(s) {
        forall i | 0 <= i < |s[1..]| ensures IsSpace(s[1..][i]) {
          assert s[1..][i] == s[i + 1];
        }
      }
    } else if s != [] {
      assert !IsSpace(s[0]);
    }
  }

  lemma {:induction false} TrimEndAllSpace(s: string)
    ensures AllSpace(s) ==> TrimEnd(s) == ""
    ensures AllSpace(TrimEnd(s)) ==> AllSpace(s)
    decreases |s|
  {
    if s != [] && IsSpace(s[|s| - 1]) {
      var t := s[..|s| - 1];
      TrimEndAllSpace(t);
      if AllSpace(s) {
        forall i | 0 <= i < |t| ensures IsSpace(t[i]) {
          assert t[i] == s[i];
        }
      }
      if AllSpace(TrimEnd(s)) {
        assert AllSpace(t);
        forall i | 0 <= i < |s| ensures IsSpace(s[i]) {
          if i < |t| { assert s[i] == t[i]; }
        }
      }
    }
  }

  /** ASCII `toLowerCase` of one character. */
  function LowerChar(c: char): char {
    if 'A' <= c <= 'Z' then (c as int + 32) as char else c
  }

  /** ASCII `toUpperCase` of one character. */
  function UpperChar(c: char): char {
    if 'a' <= c <= 'z' then (c as int - 32) as char else c
  }

  function Lower(s: string): (r: string)
    ensures |r| == |s|
    ensures forall i :: 0 <= i < |s| ==> r[i] == LowerChar(s[i])
  {
    seq(|s|, i requires 0 <= i < |s| => LowerChar(s[i]))
  }

  function Upper(s: string): (r: string)
    ensures |r| == |s|
    ensures forall i :: 0 <= i < |s| ==> r[i] == UpperChar(s[i])
  {
    seq(|s|, i requires 0 <= i < |s| => UpperChar(s[i]))
  }

  /** Lower-casing is idempotent, so a lower-case query is its own folding. */
  lemma LowerIdempotent(s: string)
    ensures Lower(Lower(s)) == Lower(s)
  {
  }

  /** `needle` occurs in `hay` starting at index `i`. */
  ghost predicate OccursAt(hay: string, needle: string, i: int) {
    0 <= i && i + |needle| <= |hay| && hay[i..i + |needle|] == needle
  }

  /** `hay.includes(needle)`, computed by trying each start position. */
  function Contains(hay: string, needle: string): (r: bool)
    ensures r <==> exists i :: OccursAt(hay, needle, i)
    decreases |hay|
  {
    if |needle| > |hay| then
      assert forall i :: !OccursAt(hay, needle, i);
      false
    else if hay[..|needle|] == needle then
      assert OccursAt(hay, needle, 0);
      true
    else
      var r := Contains(hay[1..], needle);
      assert forall i :: OccursAt(hay[1..], needle, i) <==> OccursAt(hay, needle, i + 1) by {
        forall i
          ensures OccursAt(hay[1..], needle, i) <==> OccursAt(hay, needle, i + 1)
        {
          if 0 <= i && i + |needle| <= |hay[1..]| {
            assert hay[1..][i..i + |needle|] == hay[i + 1..i + 1 + |needle|];
          }
        }
      }
      assert !OccursAt(hay, needle, 0);
      assert r ==> exists i :: OccursAt(hay, needle, i) by {
        if r {
          var i :| OccursAt(hay[1..], needle, i);
          assert OccursAt(hay, needle, i + 1);
        }
      }
      assert (exists i :: OccursAt(hay, needle, i)) ==> r by {
        if exists i :: OccursAt(hay, needle, i) {
          var i :| OccursAt(hay, needle, i);
          assert i != 0;
          assert OccursAt(hay[1..], needle, i - 1);
        }
      }
      r
  }

  /** The empty string is contained in every string. */
  lemma ContainsEmpty(hay: string)
    ensures Contains(hay, "")
  {
    assert OccursAt(hay, "", 0);
  }

  /** `s.split(sep)`: the maximal runs between separators, always at least
      one (possibly empty) piece. */
  function Split(s: string, sep: char): (r: seq<string>)
    ensures |r| >= 1
    ensures forall k :: 0 <= k < |r| ==> sep !in r[k]
  {
    if s == [] then [""]
    else
      var rest := Split(s[1..], sep);
      if s[0] == sep then [""] + rest
      else [[s[0]] + rest[0]] + rest[1..]
  }

  /** `parts.join(sep)`. */
  function Join(parts: seq<string>, sep: char): string {
    if parts == [] then ""
    else if |parts| == 1 then parts[0]
    else parts[0] + [sep] + Join(parts[1..], sep)
  }

  /** Splitting loses nothing: joining the pieces back gives the input. */
  lemma {:induction false} JoinSplit(s: string, sep: char)
    ensures Join(Split(s, sep), sep) == s
  {
    if s != [] {
      var rest := Split(s[1..], sep);
      JoinSplit(s[1..], sep);
      if s[0] == sep {
        assert Split(s, sep)[1..] == rest;
      } else {
        var r := Split(s, sep);
        if |rest| == 1 {
          assert r == [[s[0]] + rest[0]];
        } else {
          assert r[1..] == rest[1..];
          assert Join(rest, sep) == rest[0] + [sep] + Join(rest[1..], sep);
        }
      }
    }
  }

  /** `s.split(sep)[0]`: the text before the first `sep`, or all of `s`. */
  function BeforeFirst(s: string, sep: char): (r: string)
    ensures |r| <= |s| && r == s[..|r|]
    ensures sep !in r
    ensures |r| < |s| ==> s[|r|] == sep
  {
    BeforeFirstIsPrefix(s, sep);
    Split(s, sep)[0]
  }

  lemma {:induction false} BeforeFirstIsPrefix(s: string, sep: char)
    ensures |Split(s, sep)[0]| <= |s|
    ensures Split(s, sep)[0] == s[..|Split(s, sep)[0]|]
    ensures |Split(s, sep)[0]| < |s| ==> s[|Split(s, sep)[0]|] == sep
  {
    if s != [] && s[0] != sep {
      BeforeFirstIsPrefix(s[1..], sep);
    }
  }

  /** The first character of every piece that has one, i.e.
      `parts.map(part => part[0]).join('')`: an empty piece yields
      `undefined`, which `join` renders as nothing. */
  function Heads(parts: seq<string>): string {
    if parts == [] then ""
    else (if parts[0] == "" then "" else [parts[0][0]]) + Heads(parts[1..])
  }

  /** `getInitials(name)`: the first character of every word, upper-cased,
      where words are separated by single spaces and the empty words
      between repeated spaces contribute nothing. */
  function GetInitials(name: string): (r: string)
    ensures r == Upper(WordStarts(name, true))
  {
    HeadsSplit(name);
    Upper(Heads(Split(name, ' ')))
  }

  /** Reference definition read straight off the characters: a character
      starts a word when it is not a space and it follows a space or the
      start of the text (`atStart`). */
  function WordStarts(s: string, atStart: bool): string {
    if s == [] then ""
    else (if s[0] != ' ' && atStart then [s[0]] else []) + WordStarts(s[1..], s[0] == ' ')
  }

  lemma {:induction false} HeadsSplit(s: string)
    ensures Heads(Split(s, ' ')) == WordStarts(s, true)
    ensures Heads(Split(s, ' ')[1..]) == WordStarts(s, false)
  {
    if s != [] {
      HeadsSplit(s[1..]);
      var rest := Split(s[1..], ' ');
      if s[0] == ' ' {
        assert Split(s, ' ') == [""] + rest;
        assert Split(s, ' ')[1..] == rest;
      } else {
        var r := Split(s, ' ');
        assert r[0] == [s[0]] + rest[0];
        assert r[1..] == rest[1..];
      }
    }
  }

  /** Inside a word no character starts a word. */
  lemma {:induction false} NoStartInsideWord(w: string, rest: string)
    requires ' ' !in w
    ensures WordStarts(w + rest, false) == WordStarts(rest, false)
  {
    if w == [] {
      assert w + rest == rest;
    } else {
      assert (w + rest)[1..] == w[1..] + rest;
      NoStartInsideWord(w[1..], rest);
    }
  }

  /** A name made of one word has its first letter, upper-cased, as initials. */
  lemma InitialsOfOneWord(w: string)
    requires w != [] && ' ' !in w
    ensures GetInitials(w) == [UpperChar(w[0])]
  {
    NoStartInsideWord(w[1..], "");
    assert w[1..] + "" == w[1..];
  }

  /** Two words separated by one space give the two first letters, upper-cased. */
  lemma InitialsOfTwoWords(first: string, last: string)
    requires first != [] && ' ' !in first
    requires last != [] && ' ' !in last
    ensures GetInitials(first + " " + last) == [UpperChar(first[0]), UpperChar(last[0])]
  {
    var name := first + " " + last;
    assert name[1..] == first[1..] + (" " + last);
    NoStartInsideWord(first[1..], " " + last);
    assert (" " + last)[1..] == last;
    NoStartInsideWord(last[1..], "");
    assert last[1..] + "" == last[1..];
  }

  lemma InitialsOfFullName()
    ensures GetInitials("John Doe") == "JD"
  {
    assert "John Doe" == "John" + " " + "Doe";
    InitialsOfTwoWords("John", "Doe");
  }

  lemma InitialsOfSingleName()
    ensures GetInitials("Madonna") == "M"
  {
    InitialsOfOneWord("Madonna");
  }

  /** A run of two spaces starts the same words as a single space. */
  lemma {:induction false} ExtraSpaceIgnored(x: string, y: string, atStart: bool)
    ensures WordStarts(x + "  " + y, atStart) == WordStarts(x + " " + y, atStart)
  {
    if x == [] {
      assert x + "  " + y == " " + (" " + y);
      assert x + " " + y == " " + y;
    } else {
      assert (x + "  " + y)[1..] == x[1..] + "  " + y;
      assert (x + " " + y)[1..] == x[1..] + " " + y;
      ExtraSpaceIgnored(x[1..], y, x[0] == ' ');
    }
  }

  /** Repeated spaces produce empty pieces, which contribute nothing. */
  lemma InitialsSkipEmptyWords(first: string, last: string)
    ensures GetInitials(first + "  " + last) == GetInitials(first + " " + last)
  {
    ExtraSpaceIgnored(first, last, true);
  }

  lemma InitialsOfSpacedName()
    ensures GetInitials("ann  lee") == "AL"
    ensures GetInitials("") == ""
  {
    assert "ann  lee" == "ann" + "  " + "lee";
    InitialsSkipEmptyWords("ann", "lee");
    InitialsOfTwoWords("ann", "lee");
  }
}
