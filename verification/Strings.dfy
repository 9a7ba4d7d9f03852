/** Results shared by every component: Go's (value, ok) and (value, error) pairs. */
module Wrappers {
  datatype Option<+T> = None | Some(value: T)

  /** How a database call goes wrong: not at all, before it has an effect, or after. */
  datatype Trouble = Fine | Before | After
}

/** The few operations of Go's `strings` package the modelled code relies on. */
module Strings {

  /** `p` occurs in `s` starting at index `i`. */
  predicate OccursAt(s: string, p: string, i: int) {
    0 <= i <= |s| && p <= s[i..]
  }

  ghost predicate Contains(s: string, p: string) {
    exists i :: OccursAt(s, p, i)
  }

  /** The first occurrence at or after `i`, or -1. */
  function IndexFrom(s: string, p: string, i: nat): (r: int)
    requires i <= |s|
    ensures r == -1 || (i <= r <= |s| && OccursAt(s, p, r))
    decreases |s| - i
  {
    if OccursAt(s, p, i) then i
    else if i == |s| then -1
    else IndexFrom(s, p, i + 1)
  }

  /** `strings.Index`. */
  function IndexOf(s: string, p: string): (r: int)
    ensures -1 <= r <= |s|
    ensures r >= 0 ==> OccursAt(s, p, r)
  {
    IndexFrom(s, p, 0)
  }

  lemma {:induction false} IndexFromIsFirst(s: string, p: string, from: nat, i: nat)
    requires from <= i && OccursAt(s, p, i)
    ensures from <= IndexFrom(s, p, from) <= i
    decreases i - from
  {
    if !OccursAt(s, p, from) {
      IndexFromIsFirst(s, p, from + 1, i);
    }
  }

  lemma IndexOfIsFirst(s: string, p: string, i: int)
    requires OccursAt(s, p, i)
    ensures 0 <= IndexOf(s, p) <= i
  {
    IndexFromIsFirst(s, p, 0, i);
  }

  lemma ContainsExactly(s: string, p: string)
    ensures Contains(s, p) <==> IndexOf(s, p) >= 0
  {
    if i :| OccursAt(s, p, i) {
      IndexOfIsFirst(s, p, i);
    }
  }

  /** `strings.Replace(s, old, repl, 1)` when `old` occurs in `s`. */
  function ReplaceFirst(s: string, old_: string, repl: string): string
    requires IndexOf(s, old_) >= 0
  {
    var i := IndexOf(s, old_);
    s[..i] + repl + s[i + |old_|..]
  }

  /** What replacing gives: the text around the first occurrence stays, the occurrence goes. */
  lemma ReplaceFirstExactly(pre: string, old_: string, post: string, repl: string)
    requires var s := pre + old_ + post; forall i :: 0 <= i < |pre| ==> !(old_ <= s[i..])
    ensures var s := pre + old_ + post;
      IndexOf(s, old_) == |pre| && ReplaceFirst(s, old_, repl) == pre + repl + post
  {
    var s := pre + old_ + post;
    assert s[|pre|..] == old_ + post && s[..|pre|] == pre && s[|pre| + |old_|..] == post;
    IndexOfIsFirst(s, old_, |pre|);
  }

  lemma NotContainedExactly(s: string, p: string)
    ensures IndexOf(s, p) < 0 <==> forall i :: 0 <= i <= |s| ==> !(p <= s[i..])
  {
    ContainsExactly(s, p);
    if i :| 0 <= i <= |s| && p <= s[i..] {
      assert OccursAt(s, p, i);
    }
  }

  predicate HasSuffix(s: string, p: string) {
    |p| <= |s| && s[|s| - |p|..] == p
  }

  /** `unicode.IsSpace`. */
  predicate IsSpace(c: char) {
    || '\t' <= c <= '\r' || c == ' ' || c == '\U{85}' || c == '\U{A0}'
    || c == '\U{1680}' || '\U{2000}' <= c <= '\U{200a}'
    || c == '\U{2028}' || c == '\U{2029}' || c == '\U{202f}' || c == '\U{205f}' || c == '\U{3000}'
  }

  function TrimLeft(s: string): string {
    if s != "" && IsSpace(s[0]) then TrimLeft(s[1..]) else s
  }

  function TrimRight(s: string): string {
    if s != "" && IsSpace(s[|s| - 1]) then TrimRight(s[..|s| - 1]) else s
  }

  function TrimSpace(s: string): string {
    TrimRight(TrimLeft(s))
  }

  predicate AllSpace(s: string) {
    forall i :: 0 <= i < |s| ==> IsSpace(s[i])
  }

  /** Text without white space at either end. */
  predicate IsTrimmed(s: string) {
    s == "" || (!IsSpace(s[0]) && !IsSpace(s[|s| - 1]))
  }

  /** Among the ASCII characters exactly these six are white space. */
  lemma AsciiSpaces(c: char)
    ensures c < 128 as char ==> (IsSpace(c) <==> c in " \t\n\r" || c == 11 as char || c == 12 as char)
  {
  }

  lemma {:induction false} TrimLeftExactly(left: string, rest: string)
    requires AllSpace(left) && (rest == "" || !IsSpace(rest[0]))
    ensures TrimLeft(left + rest) == rest
    decreases |left|
  {
    if left != "" {
      assert (left + rest)[1..] == left[1..] + rest;
      TrimLeftExactly(left[1..], rest);
    } else {
      assert left + rest == rest;
    }
  }

  lemma {:induction false} TrimRightExactly(rest: string, right: string)
    requires AllSpace(right) && (rest == "" || !IsSpace(rest[|rest| - 1]))
    ensures TrimRight(rest + right) == rest
    decreases |right|
  {
    if right != "" {
      var n := |right| - 1;
      assert (rest + right)[..|rest| + n] == rest + right[..n];
      TrimRightExactly(rest, right[..n]);
    } else {
      assert rest + right == rest;
    }
  }

  lemma {:induction false} TrimLeftSpaces(s: string)
    requires AllSpace(s)
    ensures TrimLeft(s) == ""
  {
    if s != "" {
      TrimLeftSpaces(s[1..]);
    }
  }

  /** Trimming takes the white space at both ends and nothing else. */
  lemma TrimSpaceExactly(left: string, core: string, right: string)
    requires AllSpace(left) && AllSpace(right) && IsTrimmed(core)
    ensures TrimSpace(left + core + right) == core
  {
    if core == "" {
      assert left + core + right == left + right;
      TrimLeftSpaces(left + right);
    } else {
      assert left + core + right == left + (core + right);
      TrimLeftExactly(left, core + right);
      TrimRightExactly(core, right);
    }
  }

  /** Every text is trimmed text between white space. */
  lemma {:induction false} TrimSpaceSplits(s: string) returns (left: string, right: string)
    ensures AllSpace(left) && AllSpace(right) && IsTrimmed(TrimSpace(s)) && s == left + TrimSpace(s) + right
  {
    var rest: string;
    left, rest := SplitLeft(s);
    right := SplitRight(rest);
    TrimLeftExactly(left, rest);
    assert s == left + (TrimRight(rest) + right);
  }

  lemma {:induction false} SplitLeft(s: string) returns (left: string, rest: string)
    ensures AllSpace(left) && s == left + rest && (rest == "" || !IsSpace(rest[0]))
  {
    if s == "" || !IsSpace(s[0]) {
      left, rest := "", s;
    } else {
      left, rest := SplitLeft(s[1..]);
      left := [s[0]] + left;
    }
  }

  lemma {:induction false} SplitRight(s: string) returns (right: string)
    requires s == "" || !IsSpace(s[0])
    ensures AllSpace(right) && s == TrimRight(s) + right && IsTrimmed(TrimRight(s))
  {
    if s == "" || !IsSpace(s[|s| - 1]) {
      right := "";
    } else {
      var n := |s| - 1;
      right := SplitRight(s[..n]);
      right := right + [s[n]];
    }
  }

  /** `unicode.ToLower`, exact wherever the result is an ASCII character. */
  function LowerChar(c: char): char {
    if 'A' <= c <= 'Z' then c + 32 as char
    else if c == '\U{130}' then 'i'
    else if c == '\U{212a}' then 'k'
    else c
  }

  function ToLower(s: string): (r: string)
    ensures |r| == |s| && forall i :: 0 <= i < |s| ==> r[i] == LowerChar(s[i])
  {
    if s == "" then "" else [LowerChar(s[0])] + ToLower(s[1..])
  }

  /** The small letter, its capital, or one of the two characters outside ASCII with an ASCII lower case. */
  predicate SpellsLetter(c: char, letter: char) {
    c == letter || (c < 'a' && c as int + 32 == letter as int)
    || (letter == 'i' && c == '\U{130}') || (letter == 'k' && c == '\U{212a}')
  }

  predicate Spells(s: string, word: string) {
    |s| == |word| && forall i :: 0 <= i < |s| ==> SpellsLetter(s[i], word[i])
  }

  /** Lower-casing gives a word of small letters exactly for its spellings. */
  lemma LowerWordExactly(s: string, word: string)
    requires forall i :: 0 <= i < |word| ==> 'a' <= word[i] <= 'z'
    ensures ToLower(s) == word <==> Spells(s, word)
  {
    if ToLower(s) == word {
      forall i | 0 <= i < |s| ensures SpellsLetter(s[i], word[i]) {
        assert ToLower(s)[i] == LowerChar(s[i]);
      }
    }
    if Spells(s, word) {
      forall i | 0 <= i < |s| ensures ToLower(s)[i] == word[i] {
        assert SpellsLetter(s[i], word[i]);
      }
    }
  }

  /** `strings.Join`. */
  function Join(parts: seq<string>, sep: string): string {
    if parts == [] then ""
    else if |parts| == 1 then parts[0]
    else parts[0] + sep + Join(parts[1..], sep)
  }

  /** Appending one more part to a join that already has some. */
  lemma {:induction false} JoinAppend(parts: seq<string>, sep: string, last: string)
    requires parts != []
    ensures Join(parts + [last], sep) == Join(parts, sep) + sep + last
  {
    assert (parts + [last])[1..] == parts[1..] + [last];
    if |parts| > 1 {
      JoinAppend(parts[1..], sep, last);
    } else {
      assert parts + [last] == [parts[0], last];
    }
  }

  /** The decimal rendering `%d` of a natural number. */
  function Decimal(n: nat): (s: string)
    ensures s != "" && forall i :: 0 <= i < |s| ==> '0' <= s[i] <= '9'
  {
    var digit := [(n % 10) as char + '0'];
    if n < 10 then digit else Decimal(n / 10) + digit
  }

  lemma {:induction false} DecimalInjective(m: nat, n: nat)
    requires Decimal(m) == Decimal(n)
    ensures m == n
  {
    var s, t := Decimal(m), Decimal(n);
    assert s[|s| - 1] == (m % 10) as char + '0' && t[|t| - 1] == (n % 10) as char + '0';
    if m >= 10 && n >= 10 {
      assert s[..|s| - 1] == Decimal(m / 10) && t[..|t| - 1] == Decimal(n / 10);
      DecimalInjective(m / 10, n / 10);
    }
  }

  /** Two strings cut at their first separator agree piecewise. */
  lemma SplitAtFirst(a: string, b: string, x: string, y: string, sep: char)
    requires sep !in a && sep !in b && a + [sep] + x == b + [sep] + y
    ensures a == b && x == y
  {
    var s, t := a + [sep] + x, b + [sep] + y;
    assert s[|a|] == sep && t[|b|] == sep;
    assert |a| == |b|;
    assert s[..|a|] == a && t[..|b|] == b && s[|a| + 1..] == x && t[|b| + 1..] == y;
  }

  /** Two strings cut at their last separator agree piecewise. */
  lemma SplitAtLast(a: string, b: string, x: string, y: string, sep: char)
    requires sep !in x && sep !in y && a + [sep] + x == b + [sep] + y
    ensures a == b && x == y
  {
    var s, t := a + [sep] + x, b + [sep] + y;
    assert s[|a|] == sep && t[|b|] == sep;
    assert |a| == |b|;
    assert s[..|a|] == a && t[..|b|] == b && s[|a| + 1..] == x && t[|b| + 1..] == y;
  }
}
