/**
 * Go's matching rules for the two block patterns of the edit parser. Both have the shape
 *
 *     (?s) tag ([^\n\r]+) opener (.*?) delim_0 (.*?) delim_1 ...
 *
 * A match is described by the text it consumes (`Render`), the choice between matches by
 * leftmost-first preference, and the scanner below is the single pass that computes it.
 */
module BlockRegex {
  import opened Wrappers
  import opened Strings

  datatype Pattern = Pattern(tag: string, opener: string, delims: seq<string>) {
    predicate Valid() {
      && tag != "" && opener != "" && opener[0] == '\n'
      && forall k :: 0 <= k < |delims| ==> delims[k] != ""
    }
  }

  type Grammar = g: Pattern | g.Valid() witness Pattern("t", "\n", [])

  /** The submatches: the header line's path and one field per delimiter. */
  datatype Block = Block(path: string, fields: seq<string>)

  predicate PathOk(path: string) {
    path != "" && '\n' !in path && '\r' !in path
  }

  function RenderFields(delims: seq<string>, fields: seq<string>): string
    requires |delims| == |fields|
  {
    if delims == [] then ""
    else fields[0] + delims[0] + RenderFields(delims[1..], fields[1..])
  }

  /** The text a match with these submatches consumes. */
  function Render(g: Grammar, b: Block): (text: string)
    requires |b.fields| == |g.delims|
    ensures |text| > 0
  {
    g.tag + b.path + g.opener + RenderFields(g.delims, b.fields)
  }

  /** The pattern matches at the very start of `s` with submatches `b`. */
  ghost predicate MatchesAt(g: Grammar, s: string, b: Block) {
    |b.fields| == |g.delims| && PathOk(b.path) && Render(g, b) <= s
  }

  /** Lazy quantifiers prefer the shorter text, earlier fields first. */
  ghost predicate AtLeastAsLazy(f: seq<string>, f': seq<string>)
    decreases |f|
  {
    |f| == |f'|
    && (f == []
        || |f[0]| < |f'[0]|
        || (f[0] == f'[0] && AtLeastAsLazy(f[1..], f'[1..])))
  }

  /** `b` is the match a leftmost-first engine reports at the start of `s`. */
  ghost predicate Preferred(g: Grammar, s: string, b: Block) {
    && MatchesAt(g, s, b)
    && forall b' :: MatchesAt(g, s, b') ==> b'.path == b.path && AtLeastAsLazy(b.fields, b'.fields)
  }

  /**
   * `FindAll`: at the leftmost position that has a match take the preferred one and resume after
   * it; the result ends when no position is left.
   */
  ghost predicate IsFindAll(g: Grammar, s: string, bs: seq<Block>)
    decreases |s|
  {
    if exists b :: MatchesAt(g, s, b) then
      bs != [] && Preferred(g, s, bs[0]) && IsFindAll(g, s[|Render(g, bs[0])|..], bs[1..])
    else if s == "" then bs == []
    else IsFindAll(g, s[1..], bs)
  }

  // ----- the single pass -----

  /** Cut at the first occurrence of each delimiter in turn, never looking back. */
  function FirstFields(delims: seq<string>, s: string): (r: Option<seq<string>>)
    ensures r.Some? ==> |r.value| == |delims|
  {
    if delims == [] then Some([])
    else
      var i := IndexOf(s, delims[0]);
      if i < 0 then None
      else
        match FirstFields(delims[1..], s[i + |delims[0]|..])
        case None => None
        case Some(fs) => Some([s[..i]] + fs)
  }

  lemma {:induction false} FirstFieldsSound(delims: seq<string>, s: string)
    ensures FirstFields(delims, s).Some? ==> RenderFields(delims, FirstFields(delims, s).value) <= s
  {
    if FirstFields(delims, s).Some? && delims != [] {
      var i := IndexOf(s, delims[0]);
      var rest := s[i + |delims[0]|..];
      FirstFieldsSound(delims[1..], rest);
      FirstFieldsCons(delims, s, i);
      SoundCons(delims, s, i, FirstFields(delims[1..], rest).value);
    }
  }

  lemma SoundCons(delims: seq<string>, s: string, i: nat, rest: seq<string>)
    requires delims != [] && |rest| == |delims| - 1 && OccursAt(s, delims[0], i)
    requires RenderFields(delims[1..], rest) <= s[i + |delims[0]|..]
    ensures RenderFields(delims, [s[..i]] + rest) <= s
  {
    var n := i + |delims[0]|;
    assert ([s[..i]] + rest)[1..] == rest;
    PrefixBehind(s, 0, n, RenderFields(delims[1..], rest));
    assert s[0..n] == s[..i] + delims[0] && s[0..] == s;
  }

  /** Length of the header line: up to the first line break. */
  function LineLength(s: string): (n: nat)
    ensures n <= |s|
    ensures '\n' !in s[..n] && '\r' !in s[..n]
    ensures n < |s| ==> s[n] == '\n' || s[n] == '\r'
  {
    if s == "" || s[0] == '\n' || s[0] == '\r' then 0 else 1 + LineLength(s[1..])
  }

  /** The header line at the start of `s`: its path, and where the first field begins. */
  function Header(g: Grammar, s: string): (r: Option<(string, nat)>)
    ensures r.Some? ==> r.value.1 <= |s| && PathOk(r.value.0) && g.tag + r.value.0 + g.opener == s[..r.value.1]
  {
    if !(g.tag <= s) then None
    else
      var rest := s[|g.tag|..];
      var k := LineLength(rest);
      if k == 0 || !(g.opener <= rest[k..]) then None
      else
        Some((rest[..k], |g.tag| + k + |g.opener|))
  }

  function MatchHere(g: Grammar, s: string): Option<Block> {
    match Header(g, s)
    case None => None
    case Some(h) =>
      match FirstFields(g.delims, s[h.1..])
      case None => None
      case Some(fs) => Some(Block(h.0, fs))
  }

  lemma MatchHereSound(g: Grammar, s: string)
    requires MatchHere(g, s).Some?
    ensures MatchesAt(g, s, MatchHere(g, s).value)
  {
    var h := Header(g, s).value;
    FirstFieldsSound(g.delims, s[h.1..]);
    assert s == s[..h.1] + s[h.1..];
    PrefixBehind(s, 0, h.1, RenderFields(g.delims, MatchHere(g, s).value.fields));
    assert s[0..] == s && s[0..h.1] == s[..h.1];
  }

  function Scan(g: Grammar, s: string): (bs: seq<Block>)
    ensures forall k :: 0 <= k < |bs| ==> |bs[k].fields| == |g.delims| && PathOk(bs[k].path)
    decreases |s|
  {
    if s == "" then []
    else
      match MatchHere(g, s)
      case Some(b) =>
        MatchHereSound(g, s);
        [b] + Scan(g, s[|Render(g, b)|..])
      case None => Scan(g, s[1..])
  }

  // ----- the single pass computes what backtracking would find -----

  /** Choosing the first delimiter never loses a match, so backtracking is never needed. */
  lemma {:induction false} FirstFieldsLaziest(delims: seq<string>, s: string, fields: seq<string>)
    requires |fields| == |delims| && RenderFields(delims, fields) <= s
    ensures FirstFields(delims, s).Some?
    ensures AtLeastAsLazy(FirstFields(delims, s).value, fields)
    decreases |delims|, 2
  {
    if delims != [] {
      SplitFirstField(delims, s, fields);
      if IndexOf(s, delims[0]) == |fields[0]| {
        SameCut(delims, s, |fields[0]| + |delims[0]|, fields);
      } else {
        EarlierCut(delims, s, IndexOf(s, delims[0]), |fields[0]| + |delims[0]|, fields);
      }
    }
  }

  /** The first field ends in an occurrence of its delimiter; the first one may come earlier. */
  lemma SplitFirstField(delims: seq<string>, s: string, fields: seq<string>)
    requires |fields| == |delims| > 0 && RenderFields(delims, fields) <= s
    ensures var m := |fields[0]| + |delims[0]|; m <= |s| && RenderFields(delims[1..], fields[1..]) <= s[m..]
    ensures s[..|fields[0]|] == fields[0] && 0 <= IndexOf(s, delims[0]) <= |fields[0]|
  {
    SplitPrefix(fields[0], delims[0], RenderFields(delims[1..], fields[1..]), s);
    IndexOfIsFirst(s, delims[0], |fields[0]|);
  }

  lemma SplitPrefix(f: string, d: string, rest: string, s: string)
    requires f + d + rest <= s
    ensures |f| + |d| <= |s| && rest <= s[|f| + |d|..]
    ensures s[..|f|] == f && OccursAt(s, d, |f|)
  {
    var tail := s[|f| + |d| + |rest|..];
    assert s == f + d + rest + tail;
    assert s[|f| + |d|..] == rest + tail;
    assert s[|f|..] == d + (rest + tail);
  }

  lemma LazyCons(x: string, fs: seq<string>, fields: seq<string>)
    requires fields != []
    requires if |x| < |fields[0]| then |fs| + 1 == |fields| else x == fields[0] && AtLeastAsLazy(fs, fields[1..])
    ensures AtLeastAsLazy([x] + fs, fields)
  {
    assert ([x] + fs)[1..] == fs;
  }

  /** The case of a first delimiter right where this match ends its first field. */
  lemma {:induction false} SameCut(delims: seq<string>, s: string, m: nat, fields: seq<string>)
    requires |fields| == |delims| > 0 && IndexOf(s, delims[0]) == |fields[0]| && s[..|fields[0]|] == fields[0]
    requires m == |fields[0]| + |delims[0]| <= |s| && RenderFields(delims[1..], fields[1..]) <= s[m..]
    ensures FirstFields(delims, s).Some?
    ensures AtLeastAsLazy(FirstFields(delims, s).value, fields)
    decreases |delims|, 1
  {
    FirstFieldsLaziest(delims[1..], s[m..], fields[1..]);
    FirstFieldsCons(delims, s, |fields[0]|);
    LazyCons(fields[0], FirstFields(delims[1..], s[m..]).value, fields);
  }

  /** The case of a first delimiter that occurs before the one this match ends its first field with. */
  lemma {:induction false} EarlierCut(delims: seq<string>, s: string, i: nat, m: nat, fields: seq<string>)
    requires |fields| == |delims| > 0 && i == IndexOf(s, delims[0]) < |fields[0]|
    requires m == |fields[0]| + |delims[0]| <= |s| && RenderFields(delims[1..], fields[1..]) <= s[m..]
    ensures FirstFields(delims, s).Some?
    ensures AtLeastAsLazy(FirstFields(delims, s).value, fields)
    decreases |delims|, 1
  {
    TailStillFits(delims[1..], s, i + |delims[0]|, m, fields[1..]);
    FirstFieldsCons(delims, s, i);
    LazyCons(s[..i], FirstFields(delims[1..], s[i + |delims[0]|..]).value, fields);
  }

  /** A longer text before the remaining fields can be taken into the next one. */
  lemma {:induction false} TailStillFits(delims: seq<string>, s: string, n: nat, m: nat, fields: seq<string>)
    requires |fields| == |delims| && n <= m <= |s| && RenderFields(delims, fields) <= s[m..]
    ensures FirstFields(delims, s[n..]).Some?
    decreases |delims|, 3
  {
    if delims != [] {
      WidenedFits(delims, s, n, m, fields);
      FirstFieldsLaziest(delims, s[n..], [s[n..m] + fields[0]] + fields[1..]);
    }
  }

  lemma FirstFieldsCons(delims: seq<string>, s: string, i: nat)
    requires delims != [] && i + |delims[0]| <= |s| && i == IndexOf(s, delims[0])
    requires FirstFields(delims[1..], s[i + |delims[0]|..]).Some?
    ensures FirstFields(delims, s) == Some([s[..i]] + FirstFields(delims[1..], s[i + |delims[0]|..]).value)
  {
  }

  lemma WidenedFits(delims: seq<string>, s: string, n: nat, m: nat, fields: seq<string>)
    requires |fields| == |delims| > 0 && n <= m <= |s| && RenderFields(delims, fields) <= s[m..]
    ensures RenderFields(delims, [s[n..m] + fields[0]] + fields[1..]) <= s[n..]
  {
    PrefixBehind(s, n, m, RenderFields(delims, fields));
    Widen(delims, s[n..m], fields);
  }

  lemma PrefixBehind(s: string, n: nat, m: nat, text: string)
    requires n <= m <= |s| && text <= s[m..]
    ensures s[n..m] + text <= s[n..]
  {
    assert s[n..] == s[n..m] + s[m..];
  }

  lemma Widen(delims: seq<string>, skipped: string, fields: seq<string>)
    requires |fields| == |delims| > 0
    ensures RenderFields(delims, [skipped + fields[0]] + fields[1..]) == skipped + RenderFields(delims, fields)
  {
    var widened := [skipped + fields[0]] + fields[1..];
    assert widened[1..] == fields[1..];
  }

  /** The header line is determined by the text, whatever follows it. */
  lemma HeaderUnique(path: string, opener: string, after: string)
    requires PathOk(path) && opener != "" && opener[0] == '\n'
    ensures LineLength(path + opener + after) == |path|
    decreases |path|
  {
    var s := path + opener + after;
    if |path| > 1 {
      assert s[1..] == path[1..] + opener + after;
      HeaderUnique(path[1..], opener, after);
    } else {
      assert s[1..] == opener + after;
      assert LineLength(s[1..]) == 0;
    }
  }

  /** A match consists of the tag, the rest of its line, the opener and the delimited fields. */
  lemma MatchedHeader(g: Grammar, s: string, b: Block)
    requires MatchesAt(g, s, b)
    ensures Header(g, s).Some? && Header(g, s).value.0 == b.path
    ensures RenderFields(g.delims, b.fields) <= s[Header(g, s).value.1..]
  {
    var rest := s[|g.tag|..];
    var after := rest[|b.path| + |g.opener|..];
    assert rest == b.path + g.opener + after;
    HeaderUnique(b.path, g.opener, after);
  }

  lemma MatchHereLaziest(g: Grammar, s: string, b: Block)
    requires MatchesAt(g, s, b)
    ensures MatchHere(g, s).Some?
    ensures b.path == MatchHere(g, s).value.path && AtLeastAsLazy(MatchHere(g, s).value.fields, b.fields)
  {
    MatchedHeader(g, s, b);
    FirstFieldsLaziest(g.delims, s[Header(g, s).value.1..], b.fields);
  }

  /** The scanner finds a match exactly when one exists, and it is the preferred one. */
  lemma {:induction false} MatchHereIsPreferred(g: Grammar, s: string)
    ensures MatchHere(g, s).Some? <==> exists b :: MatchesAt(g, s, b)
    ensures MatchHere(g, s).Some? ==> Preferred(g, s, MatchHere(g, s).value)
  {
    if MatchHere(g, s).Some? {
      MatchHereSound(g, s);
    }
    forall b | MatchesAt(g, s, b)
      ensures MatchHere(g, s).Some?
      ensures b.path == MatchHere(g, s).value.path && AtLeastAsLazy(MatchHere(g, s).value.fields, b.fields)
    {
      MatchHereLaziest(g, s, b);
    }
  }

  lemma LazyAntisymmetric(f: seq<string>, f': seq<string>)
    requires AtLeastAsLazy(f, f') && AtLeastAsLazy(f', f)
    ensures f == f'
    decreases |f|
  {
    if f != [] {
      LazyAntisymmetric(f[1..], f'[1..]);
      assert f == [f[0]] + f[1..] && f' == [f'[0]] + f'[1..];
    }
  }

  lemma PreferredUnique(g: Grammar, s: string, b: Block, b': Block)
    requires Preferred(g, s, b) && Preferred(g, s, b')
    ensures b == b'
  {
    LazyAntisymmetric(b.fields, b'.fields);
  }

  /** `FindAll` has exactly one result on every input, and the single pass computes it. */
  lemma {:induction false} ScanIsFindAll(g: Grammar, s: string, bs: seq<Block>)
    ensures IsFindAll(g, s, bs) <==> bs == Scan(g, s)
    decreases |s|
  {
    MatchHereIsPreferred(g, s);
    match MatchHere(g, s)
    case Some(b) =>
      var rest := s[|Render(g, b)|..];
      if IsFindAll(g, s, bs) {
        PreferredUnique(g, s, bs[0], b);
        ScanIsFindAll(g, rest, bs[1..]);
      }
      ScanIsFindAll(g, rest, Scan(g, rest));
      assert ([b] + Scan(g, rest))[1..] == Scan(g, rest);
    case None =>
      if s != "" {
        ScanIsFindAll(g, s[1..], bs);
      }
  }

  // ----- printing a block and matching it again -----

  /** In each field, its own delimiter first occurs right after it. */
  predicate Tight(delims: seq<string>, fields: seq<string>)
    requires |delims| == |fields|
  {
    delims == []
    || (IndexOf(fields[0] + delims[0], delims[0]) == |fields[0]| && Tight(delims[1..], fields[1..]))
  }

  lemma OneField(d: string, f: string)
    ensures RenderFields([d], [f]) == f + d
    ensures Tight([d], [f]) <==> IndexOf(f + d, d) == |f|
  {
    assert RenderFields([d][1..], [f][1..]) == "";
  }

  lemma TwoFields(d: string, d': string, f: string, f': string)
    ensures RenderFields([d, d'], [f, f']) == f + d + (f' + d')
    ensures Tight([d, d'], [f, f']) <==> IndexOf(f + d, d) == |f| && IndexOf(f' + d', d') == |f'|
  {
    assert [d, d'][1..] == [d'] && [f, f'][1..] == [f'];
    OneField(d', f');
  }

  /** What follows the first delimiter does not change where it is found. */
  lemma IndexIgnoresRest(f: string, d: string, rest: string)
    requires d != ""
    ensures 0 <= IndexOf(f + d + rest, d) <= |f|
    ensures IndexOf(f + d + rest, d) == IndexOf(f + d, d)
  {
    var s := f + d + rest;
    forall k | 0 <= k <= |f| ensures OccursAt(s, d, k) <==> OccursAt(f + d, d, k) {
      assert s[k..] == (f + d)[k..] + rest;
    }
    assert OccursAt(f + d, d, |f|);
    IndexOfIsFirst(s, d, |f|);
    IndexOfIsFirst(f + d, d, |f|);
    IndexOfIsFirst(s, d, IndexOf(f + d, d));
    IndexOfIsFirst(f + d, d, IndexOf(s, d));
  }

  lemma {:induction false} FieldsRoundTrip(delims: seq<string>, fields: seq<string>, rest: string)
    requires |delims| == |fields| && forall k :: 0 <= k < |delims| ==> delims[k] != ""
    ensures FirstFields(delims, RenderFields(delims, fields) + rest) == Some(fields) <==> Tight(delims, fields)
    decreases |delims|
  {
    if delims != [] {
      var f, d, tail := fields[0], delims[0], RenderFields(delims[1..], fields[1..]) + rest;
      var s := RenderFields(delims, fields) + rest;
      assert s == f + d + tail;
      IndexIgnoresRest(f, d, tail);
      FieldsRoundTrip(delims[1..], fields[1..], rest);
      assert s[|f| + |d|..] == tail && s[..|f|] == f;
      assert fields == [f] + fields[1..];
      var i := IndexOf(s, d);
      assert FirstFields(delims, s) == Some(fields) ==> |s[..i]| == |f|;
    }
  }

  lemma HeaderOfRender(g: Grammar, b: Block, rest: string)
    requires PathOk(b.path) && |b.fields| == |g.delims|
    ensures Header(g, Render(g, b) + rest).Some?
    ensures Header(g, Render(g, b) + rest).value.0 == b.path
    ensures (Render(g, b) + rest)[Header(g, Render(g, b) + rest).value.1..] == RenderFields(g.delims, b.fields) + rest
  {
    var s, text := Render(g, b) + rest, RenderFields(g.delims, b.fields);
    var line := s[|g.tag|..];
    assert line == b.path + g.opener + (text + rest);
    HeaderUnique(b.path, g.opener, text + rest);
  }

  /** A rendered block is read back unchanged, whatever follows, exactly when it is tight. */
  lemma BlockRoundTrip(g: Grammar, b: Block, rest: string)
    requires PathOk(b.path) && |b.fields| == |g.delims|
    ensures MatchHere(g, Render(g, b) + rest) == Some(b) <==> Tight(g.delims, b.fields)
    ensures MatchHere(g, Render(g, b) + rest).Some?
    ensures MatchHere(g, Render(g, b) + rest).value.path == b.path
  {
    HeaderOfRender(g, b, rest);
    FirstFieldsLaziest(g.delims, RenderFields(g.delims, b.fields) + rest, b.fields);
    FieldsRoundTrip(g.delims, b.fields, rest);
  }

  /** Text in which the tag does not start is skipped. */
  lemma {:induction false} SkipQuiet(g: Grammar, x: string, y: string)
    requires forall j :: 0 <= j < |x| ==> !OccursAt(x + y, g.tag, j)
    ensures Scan(g, x + y) == Scan(g, y)
    decreases |x|
  {
    if x == "" {
      assert x + y == y;
    } else {
      var s := x + y;
      assert s[0..] == s && !OccursAt(s, g.tag, 0);
      assert s[1..] == x[1..] + y;
      forall j | 0 <= j < |x[1..]| ensures !OccursAt(x[1..] + y, g.tag, j) {
        assert s[1..][j..] == s[j + 1..];
        assert !OccursAt(s, g.tag, j + 1);
      }
      SkipQuiet(g, x[1..], y);
    }
  }

  lemma {:induction false} ScanShort(g: Grammar, x: string)
    requires |x| < |g.tag|
    ensures Scan(g, x) == []
    decreases |x|
  {
    if x != "" {
      ScanShort(g, x[1..]);
    }
  }
}
