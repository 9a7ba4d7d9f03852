/** `ParseProposedEdits`: the model's answer is read as search/replace blocks and file writes. */
module EditParser {
  import opened Strings
  import opened BlockRegex

  datatype Action = Edit | Write

  datatype ProposedEdit = ProposedEdit(filePath: string, oldText: string, newText: string, action: Action)

  const FENCE := "```"
  const EDIT_TAG := "```edit:"
  const WRITE_TAG := "```write:"
  const SEARCH_MARK := "\n<<<<<<< SEARCH\n"
  const DIVIDER := "\n=======\n"
  const END_MARK := "\n>>>>>>> REPLACE\n```"

  const EDIT_BLOCK: Grammar := Pattern(EDIT_TAG, SEARCH_MARK, [DIVIDER, END_MARK])
  const WRITE_BLOCK: Grammar := Pattern(WRITE_TAG, "\n", [FENCE])

  function Field(m: Block, k: nat): string {
    if k < |m.fields| then m.fields[k] else ""
  }

  /** The edit an edit block (two fields) or a write block (one field) stands for. */
  function ToEdit(action: Action, m: Block): ProposedEdit {
    match action
    case Edit => ProposedEdit(TrimSpace(m.path), Field(m, 0), Field(m, 1), Edit)
    case Write => ProposedEdit(TrimSpace(m.path), "", Field(m, 0), Write)
  }

  function ToEdits(action: Action, ms: seq<Block>): seq<ProposedEdit> {
    if ms == [] then [] else ToEdits(action, ms[..|ms| - 1]) + [ToEdit(action, ms[|ms| - 1])]
  }

  function PatternOf(action: Action): Grammar {
    if action.Edit? then EDIT_BLOCK else WRITE_BLOCK
  }

  /** Everything a response proposes: all edit blocks first, then all write blocks. */
  function Proposed(response: string): seq<ProposedEdit> {
    ToEdits(Edit, Scan(EDIT_BLOCK, response)) + ToEdits(Write, Scan(WRITE_BLOCK, response))
  }

  /** The response's edits are what the two regular expressions find, under the matching rules of `FindAll`. */
  lemma ProposedIsFindAll(response: string, ms: seq<Block>, ws: seq<Block>)
    requires IsFindAll(EDIT_BLOCK, response, ms) && IsFindAll(WRITE_BLOCK, response, ws)
    ensures Proposed(response) == ToEdits(Edit, ms) + ToEdits(Write, ws)
  {
    ScanIsFindAll(EDIT_BLOCK, response, ms);
    ScanIsFindAll(WRITE_BLOCK, response, ws);
  }

  method ParseProposedEdits(response: string) returns (edits: seq<ProposedEdit>)
    ensures edits == Proposed(response)
  {
    edits := [];
    var editMatches := Scan(EDIT_BLOCK, response);
    for i := 0 to |editMatches|
      invariant edits == ToEdits(Edit, editMatches[..i])
    {
      var m := editMatches[i];
      edits := edits + [ProposedEdit(TrimSpace(m.path), m.fields[0], m.fields[1], Edit)];
      assert editMatches[..i + 1][..i] == editMatches[..i];
    }
    assert editMatches[..|editMatches|] == editMatches;
    var writeMatches := Scan(WRITE_BLOCK, response);
    for i := 0 to |writeMatches|
      invariant edits == ToEdits(Edit, editMatches) + ToEdits(Write, writeMatches[..i])
    {
      var m := writeMatches[i];
      edits := edits + [ProposedEdit(TrimSpace(m.path), "", m.fields[0], Write)];
      assert writeMatches[..i + 1][..i] == writeMatches[..i];
    }
    assert writeMatches[..|writeMatches|] == writeMatches;
  }

  // ----- documents and the round trip -----

  /** A block as the system prompt asks the model to print it. */
  datatype Part =
    | EditPart(path: string, old_: string, new_: string)
    | WritePart(path: string, content: string)
  {
    function Action(): Action {
      if EditPart? then Edit else Write
    }

    function Kind(): Grammar {
      PatternOf(Action())
    }

    function OtherTag(): string {
      if EditPart? then WRITE_TAG else EDIT_TAG
    }

    function AsBlock(): (b: Block)
      ensures |b.fields| == |Kind().delims|
    {
      match this
      case EditPart(p, o, n) => Block(p, [o, n])
      case WritePart(p, c) => Block(p, [c])
    }

    function Text(): string {
      Render(Kind(), AsBlock())
    }

    /** The text up to the closing fence. */
    function Body(): string {
      match this
      case EditPart(p, o, n) => EDIT_TAG + p + SEARCH_MARK + o + DIVIDER + n + "\n>>>>>>> REPLACE\n"
      case WritePart(p, c) => WRITE_TAG + p + "\n" + c
    }

    /** The texts a block can carry without its delimiters being found too early. */
    ghost predicate TextOk() {
      match this
      case EditPart(_, o, n) => !Contains(o, DIVIDER) && !HasSuffix(o, "\n=======") && !Contains(n, END_MARK)
      case WritePart(_, c) => !Contains(c, FENCE) && !HasSuffix(c, "`")
    }

    function Intended(): ProposedEdit {
      match this
      case EditPart(p, o, n) => ProposedEdit(TrimSpace(p), o, n, Edit)
      case WritePart(p, c) => ProposedEdit(TrimSpace(p), "", c, Write)
    }
  }

  /** A block and the prose after it. */
  datatype Segment = Segment(part: Part, prose: string)

  datatype Document = Document(lead: string, segments: seq<Segment>)

  function RenderSegments(segments: seq<Segment>): string {
    if segments == [] then ""
    else segments[0].part.Text() + segments[0].prose + RenderSegments(segments[1..])
  }

  function RenderDocument(d: Document): string {
    d.lead + RenderSegments(d.segments)
  }

  function PartsOf(segments: seq<Segment>, action: Action): seq<ProposedEdit> {
    if segments == [] then []
    else
      (if segments[0].part.Action() == action then [segments[0].part.Intended()] else [])
      + PartsOf(segments[1..], action)
  }

  /**
   * A block hides no block of the other kind, and the prose after it opens no block, also not
   * together with the closing fence.
   */
  ghost predicate SegmentQuiet(seg: Segment) {
    && PathOk(seg.part.path)
    && !Contains(seg.part.Body(), seg.part.OtherTag())
    && !Contains(FENCE + seg.prose, seg.part.OtherTag())
    && !Contains(seg.prose, seg.part.Kind().tag)
  }

  /** No tag hides anywhere but in front of the blocks. */
  ghost predicate DocumentQuiet(d: Document) {
    && !Contains(d.lead, EDIT_TAG) && !Contains(d.lead, WRITE_TAG)
    && forall k :: 0 <= k < |d.segments| ==> SegmentQuiet(d.segments[k])
  }

  ghost predicate DocumentOk(d: Document) {
    DocumentQuiet(d) && forall k :: 0 <= k < |d.segments| ==> d.segments[k].part.TextOk()
  }

  /** `d` can follow its own first `l` characters: its rest from `l` on is a prefix of it. */
  ghost predicate SelfOverlap(d: string, l: int) {
    0 < l < |d| && d[l..] <= d
  }

  /** A delimiter found inside `f + d` straddles the end of `f` by a self-overlap. */
  lemma StraddleIsOverlap(f: string, d: string, j: nat)
    requires j < |f| < j + |d|
    ensures OccursAt(f + d, d, j) <==> SelfOverlap(d, |f| - j) && f[j..] == d[..|f| - j]
  {
    var l := |f| - j;
    assert (f + d)[j..] == f[j..] + d;
    assert d == d[..l] + d[l..];
    if OccursAt(f + d, d, j) {
      assert d[..l] == (f[j..] + d)[..l] == f[j..];
      assert d[l..] == (f[j..] + d)[l..][..|d| - l] == d[..|d| - l];
    }
  }

  ghost predicate EndsInOverlap(f: string, d: string, l: int) {
    0 <= l <= |d| && HasSuffix(f, d[..l])
  }

  lemma FoundEarlyWhere(f: string, d: string, i: nat)
    requires i < |f| && OccursAt(f + d, d, i)
    ensures Contains(f, d) || exists l :: SelfOverlap(d, l) && EndsInOverlap(f, d, l)
  {
    if i + |d| > |f| {
      StraddleIsOverlap(f, d, i);
      assert SelfOverlap(d, |f| - i) && EndsInOverlap(f, d, |f| - i);
    } else {
      InsideField(f, d, i);
    }
  }

  lemma InsideField(f: string, d: string, j: nat)
    requires j + |d| <= |f|
    ensures OccursAt(f + d, d, j) <==> OccursAt(f, d, j)
  {
    assert (f + d)[j..] == f[j..] + d;
  }

  lemma FoundEarlyIf(f: string, d: string, l: int)
    requires d != "" && (Contains(f, d) || (SelfOverlap(d, l) && EndsInOverlap(f, d, l)))
    ensures IndexOf(f + d, d) < |f|
  {
    if Contains(f, d) {
      var j :| OccursAt(f, d, j);
      InsideField(f, d, j);
      IndexOfIsFirst(f + d, d, j);
    } else {
      StraddleIsOverlap(f, d, |f| - l);
      IndexOfIsFirst(f + d, d, |f| - l);
    }
  }

  /**
   * A delimiter is first found right after a field exactly when the field does not contain it and
   * does not end in one of its self-overlaps.
   */
  lemma FoundOnTime(f: string, d: string, overlaps: set<int>)
    requires d != "" && forall l :: SelfOverlap(d, l) <==> l in overlaps
    ensures IndexOf(f + d, d) == |f| <==> !Contains(f, d) && forall l :: l in overlaps ==> !EndsInOverlap(f, d, l)
  {
    assert OccursAt(f + d, d, |f|);
    IndexOfIsFirst(f + d, d, |f|);
    if IndexOf(f + d, d) < |f| {
      FoundEarlyWhere(f, d, IndexOf(f + d, d));
    } else if Contains(f, d) {
      FoundEarlyIf(f, d, 0);
    } else {
      forall l | l in overlaps ensures !EndsInOverlap(f, d, l) {
        if EndsInOverlap(f, d, l) {
          FoundEarlyIf(f, d, l);
        }
      }
    }
  }

  lemma FoundOnTimeSingle(f: string, d: string, l: nat, tail: string)
    requires l < |d| && d[..l] == tail && forall k :: SelfOverlap(d, k) <==> k == l
    ensures IndexOf(f + d, d) == |f| <==> !Contains(f, d) && !HasSuffix(f, tail)
  {
    FoundOnTime(f, d, {l});
  }

  lemma DividerOverlap(l: int)
    ensures SelfOverlap(DIVIDER, l) <==> l == 8
    ensures DIVIDER[..8] == "\n======="
  {
    if 0 < l < |DIVIDER| {
      assert DIVIDER[l..][0] == DIVIDER[l] && DIVIDER[..|DIVIDER| - l][0] == DIVIDER[0];
    }
    assert DIVIDER[8..] == "\n";
  }

  lemma DividerShape()
    ensures 8 < |DIVIDER| && DIVIDER[..8] == "\n======="
    ensures forall l :: SelfOverlap(DIVIDER, l) <==> l == 8
  {
    DividerOverlap(8);
    forall l ensures SelfOverlap(DIVIDER, l) <==> l == 8 {
      DividerOverlap(l);
    }
  }

  lemma EndMarkOverlap(l: int)
    ensures !SelfOverlap(END_MARK, l)
  {
    if 0 < l < |END_MARK| {
      assert END_MARK[l..][0] == END_MARK[l] && END_MARK[..|END_MARK| - l][0] == END_MARK[0];
    }
    if l == 16 {
      assert END_MARK[l..][1] == END_MARK[17] && END_MARK[..|END_MARK| - l][1] == END_MARK[1];
    }
  }

  lemma FenceOverlap(l: int)
    ensures SelfOverlap(FENCE, l) <==> l == 1 || l == 2
    ensures FENCE[..1] == "`" && FENCE[..2] == "``"
  {
  }

  /** `\n=======\n` overlaps itself in one line break, so a field may not end in the rest of it. */
  lemma DividerEarly(f: string)
    ensures IndexOf(f + DIVIDER, DIVIDER) == |f| <==> !Contains(f, DIVIDER) && !HasSuffix(f, "\n=======")
  {
    DividerShape();
    FoundOnTimeSingle(f, DIVIDER, 8, "\n=======");
  }

  /** The closing line of an edit block cannot overlap itself. */
  lemma EndMarkEarly(f: string)
    ensures IndexOf(f + END_MARK, END_MARK) == |f| <==> !Contains(f, END_MARK)
  {
    forall l ensures !SelfOverlap(END_MARK, l) {
      EndMarkOverlap(l);
    }
    FoundOnTime(f, END_MARK, {});
  }

  /** A closing fence overlaps itself in one or two backticks. */
  lemma FenceEarly(f: string)
    ensures IndexOf(f + FENCE, FENCE) == |f| <==> !Contains(f, FENCE) && !HasSuffix(f, "`")
  {
    forall l ensures SelfOverlap(FENCE, l) <==> l in {1, 2} {
      FenceOverlap(l);
    }
    FenceOverlap(1);
    FoundOnTime(f, FENCE, {1, 2});
    assert HasSuffix(f, "``") ==> f[|f| - 2..][1..] == f[|f| - 1..];
  }

  lemma TextOkIsTight(p: Part)
    ensures Tight(p.Kind().delims, p.AsBlock().fields) <==> p.TextOk()
  {
    match p
    case EditPart(_, o, n) =>
      DividerEarly(o);
      EndMarkEarly(n);
      TwoFields(DIVIDER, END_MARK, o, n);
    case WritePart(_, c) =>
      FenceEarly(c);
      OneField(FENCE, c);
  }

  /** The backticks that open a tag are its only ones. */
  lemma TagTicks(tag: string, p: int)
    requires tag == EDIT_TAG || tag == WRITE_TAG
    ensures 3 <= p < |tag| ==> tag[p] != '`'
    ensures |tag| > 3
  {
  }

  lemma PrefixAt(p: string, s: string, k: nat)
    requires p <= s && k < |p|
    ensures k < |s| && s[k] == p[k]
  {
  }

  /** Neither tag can start before a fence (or the end of the text) and end inside it. */
  lemma NoStraddle(tag: string, x: string, y: string)
    requires tag == EDIT_TAG || tag == WRITE_TAG
    requires !Contains(x, tag) && (y == "" || FENCE <= y)
    ensures forall j :: 0 <= j < |x| ==> !OccursAt(x + y, tag, j)
  {
    forall j | 0 <= j < |x| ensures !OccursAt(x + y, tag, j) {
      NoStraddleAt(tag, x, y, j);
    }
  }

  lemma NoStraddleAt(tag: string, x: string, y: string, j: nat)
    requires tag == EDIT_TAG || tag == WRITE_TAG
    requires !Contains(x, tag) && (y == "" || FENCE <= y) && j < |x|
    ensures !OccursAt(x + y, tag, j)
  {
    var p := |x| - j;
    assert (x + y)[j..] == x[j..] + y;
    if p >= |tag| {
      assert !OccursAt(x, tag, j);
    } else {
      TagTicks(tag, 3);
      TagTicks(tag, p);
      assert FENCE <= y ==> y[0] == FENCE[0] && y[1] == FENCE[1] && y[2] == FENCE[2];
      if tag <= x[j..] + y {
        PrefixAt(tag, x[j..] + y, p);
        PrefixAt(tag, x[j..] + y, 3);
      }
    }
  }

  /** A block's text is its body and the closing fence. */
  lemma TextIsBodyAndFence(p: Part)
    ensures p.Text() == p.Body() + FENCE && FENCE <= p.Text()
  {
    assert EDIT_TAG == FENCE + "edit:" && WRITE_TAG == FENCE + "write:";
    match p
    case EditPart(path, o, n) =>
      var h, r := EDIT_TAG + path + SEARCH_MARK, "\n>>>>>>> REPLACE\n";
      assert END_MARK == r + FENCE;
      TwoFields(DIVIDER, END_MARK, o, n);
      Regroup(h, o, DIVIDER, n, r);
    case WritePart(path, c) =>
      OneField(FENCE, c);
      Regroup(WRITE_TAG + path + "\n", c, "", "", "");
      assert "" + ("" + ("" + FENCE)) == FENCE;
  }

  lemma Regroup(h: string, o: string, d: string, n: string, r: string)
    ensures h + (o + d + (n + (r + FENCE))) == h + o + d + n + r + FENCE
  {
  }

  lemma SegmentsStartWithFence(segments: seq<Segment>)
    ensures RenderSegments(segments) == "" || FENCE <= RenderSegments(segments)
  {
    if segments != [] {
      TextIsBodyAndFence(segments[0].part);
    }
  }

  /** The block in front of a text is found first, and it is the printed one exactly when its texts are safe. */
  lemma ScanOwn(seg: Segment, rest: string)
    requires SegmentQuiet(seg) && (rest == "" || FENCE <= rest)
    ensures var ms := Scan(seg.part.Kind(), seg.part.Text() + seg.prose + rest);
      && ms != [] && ms[0].path == seg.part.path
      && (ms[0] == seg.part.AsBlock() <==> seg.part.TextOk())
      && (seg.part.TextOk() ==> ms == [seg.part.AsBlock()] + Scan(seg.part.Kind(), rest))
  {
    var g, text, tail := seg.part.Kind(), seg.part.Text(), seg.prose + rest;
    assert text + seg.prose + rest == text + tail;
    TextOkIsTight(seg.part);
    BlockRoundTrip(g, seg.part.AsBlock(), tail);
    assert (text + tail)[|text|..] == tail;
    NoStraddle(g.tag, seg.prose, rest);
    SkipQuiet(g, seg.prose, rest);
  }

  lemma SkipOther(g: Grammar, seg: Segment, rest: string)
    requires (g == EDIT_BLOCK || g == WRITE_BLOCK) && seg.part.Kind() != g && SegmentQuiet(seg)
    requires rest == "" || FENCE <= rest
    ensures Scan(g, seg.part.Text() + seg.prose + rest) == Scan(g, rest)
  {
    var body, tail := seg.part.Body(), FENCE + seg.prose;
    TextIsBodyAndFence(seg.part);
    assert seg.part.Text() + seg.prose + rest == body + (tail + rest);
    assert FENCE <= tail + rest;
    NoStraddle(g.tag, body, tail + rest);
    SkipQuiet(g, body, tail + rest);
    NoStraddle(g.tag, tail, rest);
    SkipQuiet(g, tail, rest);
  }

  lemma {:induction false} ToEditsCons(action: Action, b: Block, bs: seq<Block>)
    ensures ToEdits(action, [b] + bs) == [ToEdit(action, b)] + ToEdits(action, bs)
    decreases |bs|
  {
    if bs != [] {
      ToEditsCons(action, b, bs[..|bs| - 1]);
      assert ([b] + bs)[..|bs|] == [b] + bs[..|bs| - 1];
    }
  }

  /** No two blocks of a kind on the same path stand for the same edit. */
  lemma BlockOfPart(p: Part, b: Block)
    requires b.path == p.path && |b.fields| == |p.Kind().delims|
    ensures ToEdit(p.Action(), b) == p.Intended() <==> b == p.AsBlock()
  {
    match p
    case EditPart(_, _, _) => assert b.fields == [b.fields[0], b.fields[1]];
    case WritePart(_, _) => assert b.fields == [b.fields[0]];
  }

  lemma {:induction false} ToEditsAction(action: Action, ms: seq<Block>)
    ensures |ToEdits(action, ms)| == |ms|
    ensures forall k :: 0 <= k < |ms| ==> ToEdits(action, ms)[k].action == action
  {
    if ms != [] {
      ToEditsAction(action, ms[..|ms| - 1]);
    }
  }

  ghost predicate TextsOk(segments: seq<Segment>, action: Action) {
    forall k :: 0 <= k < |segments| && segments[k].part.Action() == action ==> segments[k].part.TextOk()
  }

  lemma TextsOkCons(segments: seq<Segment>, action: Action)
    requires segments != []
    ensures TextsOk(segments, action)
            <==> (segments[0].part.Action() == action ==> segments[0].part.TextOk()) && TextsOk(segments[1..], action)
  {
    assert forall k :: 0 < k < |segments| ==> segments[1..][k - 1] == segments[k];
  }

  /** Each pass reads back the blocks of its own kind exactly when all their texts are safe. */
  lemma {:induction false} PassExactly(action: Action, segments: seq<Segment>)
    requires forall k :: 0 <= k < |segments| ==> SegmentQuiet(segments[k])
    ensures ToEdits(action, Scan(PatternOf(action), RenderSegments(segments))) == PartsOf(segments, action)
            <==> TextsOk(segments, action)
    decreases |segments|
  {
    if segments != [] {
      var seg, rest := segments[0], RenderSegments(segments[1..]);
      SegmentsStartWithFence(segments[1..]);
      PassExactly(action, segments[1..]);
      TextsOkCons(segments, action);
      assert RenderSegments(segments) == seg.part.Text() + seg.prose + rest;
      if seg.part.Action() == action {
        ScanOwn(seg, rest);
        OwnBlockDecides(seg, Scan(PatternOf(action), RenderSegments(segments)),
          Scan(PatternOf(action), rest), PartsOf(segments[1..], action));
      } else {
        SkipOther(PatternOf(action), seg, rest);
        assert [] + PartsOf(segments[1..], action) == PartsOf(segments[1..], action);
      }
    }
  }

  lemma OwnBlockDecides(seg: Segment, ms: seq<Block>, rest: seq<Block>, parts: seq<ProposedEdit>)
    requires ms != [] && ms[0].path == seg.part.path && |ms[0].fields| == |seg.part.Kind().delims|
    requires ms[0] == seg.part.AsBlock() <==> seg.part.TextOk()
    requires seg.part.TextOk() ==> ms == [seg.part.AsBlock()] + rest
    ensures ToEdits(seg.part.Action(), ms) == [seg.part.Intended()] + parts
            <==> seg.part.TextOk() && ToEdits(seg.part.Action(), rest) == parts
  {
    var action := seg.part.Action();
    assert ms == [ms[0]] + ms[1..];
    ToEditsCons(action, ms[0], ms[1..]);
    BlockOfPart(seg.part, ms[0]);
    if seg.part.TextOk() {
      assert ms[1..] == rest;
      TailDecides(seg.part.Intended(), ToEdits(action, rest), parts);
    } else {
      assert ToEdits(action, ms)[0] != ([seg.part.Intended()] + parts)[0];
    }
  }

  lemma TailDecides(e: ProposedEdit, a: seq<ProposedEdit>, b: seq<ProposedEdit>)
    ensures [e] + a == [e] + b <==> a == b
  {
    assert ([e] + a)[1..] == a && ([e] + b)[1..] == b;
  }

  /** The edits a document prints as blocks of one kind have that action. */
  lemma {:induction false} PartsHaveAction(segments: seq<Segment>, action: Action)
    ensures forall k :: 0 <= k < |PartsOf(segments, action)| ==> PartsOf(segments, action)[k].action == action
    decreases |segments|
  {
    if segments != [] {
      PartsHaveAction(segments[1..], action);
    }
  }

  lemma EditsBeforeWrites(a: seq<ProposedEdit>, b: seq<ProposedEdit>, c: seq<ProposedEdit>, d: seq<ProposedEdit>)
    requires forall k :: 0 <= k < |a| ==> a[k].action == Edit
    requires forall k :: 0 <= k < |b| ==> b[k].action == Write
    requires forall k :: 0 <= k < |c| ==> c[k].action == Edit
    requires forall k :: 0 <= k < |d| ==> d[k].action == Write
    ensures a + b == c + d <==> a == c && b == d
  {
    LeadingOf(a, b);
    LeadingOf(c, d);
    assert (a + b)[..|a|] == a && (a + b)[|a|..] == b && (c + d)[..|c|] == c && (c + d)[|c|..] == d;
  }

  function LeadingEdits(es: seq<ProposedEdit>): nat {
    if es == [] || es[0].action != Edit then 0 else 1 + LeadingEdits(es[1..])
  }

  lemma {:induction false} LeadingOf(edits: seq<ProposedEdit>, writes: seq<ProposedEdit>)
    requires forall k :: 0 <= k < |edits| ==> edits[k].action == Edit
    requires forall k :: 0 <= k < |writes| ==> writes[k].action == Write
    ensures LeadingEdits(edits + writes) == |edits|
  {
    if edits == [] {
      assert edits + writes == writes;
    } else {
      assert (edits + writes)[1..] == edits[1..] + writes;
      LeadingOf(edits[1..], writes);
    }
  }

  /**
   * The round trip: a document in which no tag hides is read back as all its edits in order followed
   * by all its writes in order if and only if the texts of all its blocks are safe.
   */
  lemma RoundTripExactly(d: Document)
    requires DocumentQuiet(d)
    ensures Proposed(RenderDocument(d)) == PartsOf(d.segments, Edit) + PartsOf(d.segments, Write)
            <==> TextsOk(d.segments, Edit) && TextsOk(d.segments, Write)
  {
    var text := RenderSegments(d.segments);
    SegmentsStartWithFence(d.segments);
    NoStraddle(EDIT_TAG, d.lead, text);
    NoStraddle(WRITE_TAG, d.lead, text);
    SkipQuiet(EDIT_BLOCK, d.lead, text);
    SkipQuiet(WRITE_BLOCK, d.lead, text);
    PassExactly(Edit, d.segments);
    PassExactly(Write, d.segments);
    ToEditsAction(Edit, Scan(EDIT_BLOCK, text));
    ToEditsAction(Write, Scan(WRITE_BLOCK, text));
    PartsHaveAction(d.segments, Edit);
    PartsHaveAction(d.segments, Write);
    EditsBeforeWrites(ToEdits(Edit, Scan(EDIT_BLOCK, text)), ToEdits(Write, Scan(WRITE_BLOCK, text)),
      PartsOf(d.segments, Edit), PartsOf(d.segments, Write));
  }

  lemma RoundTrip(d: Document)
    requires DocumentOk(d)
    ensures Proposed(RenderDocument(d)) == PartsOf(d.segments, Edit) + PartsOf(d.segments, Write)
  {
    RoundTripExactly(d);
  }

  lemma SingleBlockOwnPass(p: Part)
    requires PathOk(p.path)
    ensures |Scan(p.Kind(), p.Text())| > 0
    ensures Scan(p.Kind(), p.Text())[0].path == p.path
    ensures Scan(p.Kind(), p.Text())[0] == p.AsBlock() <==> p.TextOk()
    ensures p.TextOk() ==> Scan(p.Kind(), p.Text()) == [p.AsBlock()]
  {
    TextOkIsTight(p);
    BlockRoundTrip(p.Kind(), p.AsBlock(), "");
    assert p.Text() + "" == p.Text();
    assert p.Text()[|p.Text()|..] == "";
  }

  lemma SingleBlockOtherPass(p: Part, other: Action)
    requires other != p.Action() && !Contains(p.Body(), p.OtherTag())
    ensures Scan(PatternOf(other), p.Text()) == []
  {
    var g := PatternOf(other);
    TextIsBodyAndFence(p);
    NoStraddle(g.tag, p.Body(), FENCE);
    SkipQuiet(g, p.Body(), FENCE);
    TagTicks(g.tag, 3);
    assert |FENCE| < |g.tag|;
    ScanShort(g, FENCE);
    assert Scan(g, FENCE) == [];
    assert Scan(g, p.Body() + FENCE) == [];
    assert p.Text() == p.Body() + FENCE;
  }

  /** What a block's own pass and the other one find stand for one given edit. */
  lemma SingleEdit(action: Action, ms: seq<Block>, other: Action, ws: seq<Block>, e: ProposedEdit)
    requires ms != []
    ensures ToEdits(action, ms) + ToEdits(other, ws) == [e] <==> |ms| == 1 && ToEdit(action, ms[0]) == e && ws == []
    ensures ToEdits(other, ws) + ToEdits(action, ms) == [e] <==> |ms| == 1 && ToEdit(action, ms[0]) == e && ws == []
  {
    assert ms == [ms[0]] + ms[1..];
    ToEditsCons(action, ms[0], ms[1..]);
    ToEditsAction(action, ms);
    ToEditsAction(action, ms[1..]);
    ToEditsAction(other, ws);
    if |ms| == 1 && ws == [] {
      assert ToEdits(action, ms) == [ToEdit(action, ms[0])];
      assert ToEdits(action, ms) + [] == ToEdits(action, ms) == [] + ToEdits(action, ms);
    }
  }

  /**
   * One block on its own is read back as written, and nothing else is, if and only if its texts are
   * safe and the other pass finds nothing in it; it finds nothing if the other tag does not occur.
   */
  lemma SingleBlockExact(p: Part)
    requires PathOk(p.path)
    ensures var other := Scan(PatternOf(if p.EditPart? then Write else Edit), p.Text());
      && (Proposed(p.Text()) == [p.Intended()] <==> p.TextOk() && other == [])
      && (!Contains(p.Body(), p.OtherTag()) ==> other == [])
  {
    var action, other := p.Action(), if p.EditPart? then Write else Edit;
    var ms, ws := Scan(PatternOf(action), p.Text()), Scan(PatternOf(other), p.Text());
    SingleBlockOwnPass(p);
    if !Contains(p.Body(), p.OtherTag()) {
      SingleBlockOtherPass(p, other);
    }
    SingleEdit(action, ms, other, ws, p.Intended());
    BlockOfPart(p, ms[0]);
  }

  // ----- the two blocks as the model prints them -----

  /**
   * A search and replace block on its own, in the characters of the prompt's format: the path is
   * what stands between the white space of its line, and the block is read back if and only if its
   * two texts are safe.
   */
  lemma EditBlockIsRead(
    left: string, name: string, right: string, old_: string, new_: string, path: string, body: string)
    requires AllSpace(left) && AllSpace(right) && IsTrimmed(name) && path == left + name + right
    requires path != "" && '\n' !in path && '\r' !in path
    requires body == "```edit:" + path + "\n<<<<<<< SEARCH\n" + old_ + "\n=======\n" + new_ + "\n>>>>>>> REPLACE\n"
    requires !Contains(body, "```write:")
    ensures Proposed(body + "```") == [ProposedEdit(name, old_, new_, Edit)]
      <==> !Contains(old_, "\n=======\n") && !HasSuffix(old_, "\n=======")
           && !Contains(new_, "\n>>>>>>> REPLACE\n```")
  {
    var p := EditPart(path, old_, new_);
    TextIsBodyAndFence(p);
    TrimSpaceExactly(left, name, right);
    SingleBlockExact(p);
  }

  /** The same for a block that writes a whole file. */
  lemma WriteBlockIsRead(left: string, name: string, right: string, content: string, path: string, body: string)
    requires AllSpace(left) && AllSpace(right) && IsTrimmed(name) && path == left + name + right
    requires path != "" && '\n' !in path && '\r' !in path
    requires body == "```write:" + path + "\n" + content
    requires !Contains(body, "```edit:")
    ensures Proposed(body + "```") == [ProposedEdit(name, "", content, Write)]
      <==> !Contains(content, "```") && !HasSuffix(content, "`")
  {
    var p := WritePart(path, content);
    TextIsBodyAndFence(p);
    TrimSpaceExactly(left, name, right);
    SingleBlockExact(p);
  }

  /** Whatever the response, a proposed edit comes from a header line: its path has no line break and is trimmed. */
  lemma ProposedPaths(response: string, k: nat)
    requires k < |Proposed(response)|
    ensures var path := Proposed(response)[k].filePath; IsTrimmed(path) && '\n' !in path && '\r' !in path
  {
    var es, ws := Scan(EDIT_BLOCK, response), Scan(WRITE_BLOCK, response);
    ToEditsAction(Edit, es);
    ToEditsAction(Write, ws);
    if k < |es| {
      PathOfEdit(Edit, es, k);
    } else {
      PathOfEdit(Write, ws, k - |es|);
    }
  }

  lemma {:induction false} PathOfEdit(action: Action, ms: seq<Block>, k: nat)
    requires k < |ms| && PathOk(ms[k].path)
    ensures k < |ToEdits(action, ms)|
    ensures var path := ToEdits(action, ms)[k].filePath; IsTrimmed(path) && '\n' !in path && '\r' !in path
    decreases |ms|
  {
    var n := |ms| - 1;
    ToEditsAction(action, ms);
    ToEditsAction(action, ms[..n]);
    if k < n {
      PathOfEdit(action, ms[..n], k);
    } else {
      var left, right := TrimSpaceSplits(ms[k].path);
      assert forall c :: c in TrimSpace(ms[k].path) ==> c in ms[k].path;
    }
  }
}
