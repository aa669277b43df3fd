/** Splitting a behavior-script-tagged prompt, given as its lines, into script blocks and prose, before the blocks
    are dedented and the prose's blank lines collapsed. */
module Splitter {
  import opened Options

  const OPEN: string := "<behavior-script>"
  const CLOSE: string := "</behavior-script>"

  predicate Padding(s: string)
  {
    forall i :: 0 <= i < |s| ==> s[i] == ' ' || s[i] == '\t'
  }

  /** The tag alone on its line, bar surrounding spaces and tabs. */
  predicate IsTagLine(line: string, tag: string)
  {
    exists i :: 0 <= i <= |line| - |tag| && Padding(line[..i])
                && line[i..i + |tag|] == tag && Padding(line[i + |tag|..])
  }

  datatype Kind = Opening | Closing | Plain

  function KindOf(line: string): Kind
  {
    if IsTagLine(line, OPEN) then Opening else if IsTagLine(line, CLOSE) then Closing else Plain
  }

  /** The characters `str.strip` removes. */
  predicate IsSpace(c: char)
  {
    var n := c as int;
    || 9 <= n <= 13 || 28 <= n <= 32 || n == 133 || n == 160 || n == 5760 || 8192 <= n <= 8202
    || n == 8232 || n == 8233 || n == 8239 || n == 8287 || n == 12288
  }

  predicate Blank(line: string)
  {
    forall i :: 0 <= i < |line| ==> IsSpace(line[i])
  }

  /** Spaces, tabs and line ends alone are blank; one visible character of plain text is enough not to be. */
  lemma BlankLinesAre(line: string)
    ensures (forall i :: 0 <= i < |line| ==> line[i] in " \t\r\n") ==> Blank(line)
    ensures (exists i :: 0 <= i < |line| && '!' <= line[i] <= '~') ==> !Blank(line)
  {
  }

  /** A line is an opening, or a closing, exactly when it is the tag between spaces and tabs; no line is both. */
  lemma TagLinesAre(line: string)
    ensures KindOf(line) == Opening <==> Spells(line, "<behavior-script>")
    ensures KindOf(line) == Closing <==> Spells(line, "</behavior-script>")
  {
    SpellsTag(line, OPEN);
    SpellsTag(line, CLOSE);
    if Spells(line, OPEN) && Spells(line, CLOSE) {
      NotBoth(line);
    }
  }

  ghost predicate Spells(line: string, tag: string)
  {
    exists before, after :: Padding(before) && Padding(after) && line == before + tag + after
  }

  lemma SpellsTag(line: string, tag: string)
    ensures IsTagLine(line, tag) <==> Spells(line, tag)
  {
    if i :| 0 <= i <= |line| - |tag| && Padding(line[..i]) && line[i..i + |tag|] == tag && Padding(line[i + |tag|..]) {
      assert line == line[..i] + tag + line[i + |tag|..];
    }
    if before, after :| Padding(before) && Padding(after) && line == before + tag + after {
      var i := |before|;
      assert line[..i] == before && line[i..i + |tag|] == tag && line[i + |tag|..] == after;
    }
  }

  /** Equal lines have equal padding before their first `<`. */
  lemma SamePadding(a: string, u: string, x: string, v: string)
    requires Padding(a) && Padding(x) && u != "" && v != "" && u[0] == '<' && v[0] == '<'
    ensures a + u == x + v ==> |a| == |x| && u == v
  {
    assert (a + u)[|a|] == '<' && (x + v)[|x|] == '<';
    assert |a| < |x| ==> (x + v)[|a|] == x[|a|];
    assert |x| < |a| ==> (a + u)[|x|] == a[|x|];
    assert (a + u)[|a|..] == u && (x + v)[|x|..] == v;
  }

  lemma TagsDiffer(a: string, b: string, x: string, y: string)
    requires Padding(a) && Padding(x)
    ensures a + OPEN + b != x + CLOSE + y
  {
    SamePadding(a, OPEN + b, x, CLOSE + y);
    assert a + OPEN + b == a + (OPEN + b) && x + CLOSE + y == x + (CLOSE + y);
    assert (OPEN + b)[1] == 'b' && (CLOSE + y)[1] == '/';
  }

  lemma NotBoth(line: string)
    requires Spells(line, OPEN)
    ensures !Spells(line, CLOSE)
  {
    var a, b :| Padding(a) && Padding(b) && line == a + OPEN + b;
    forall x, y | Padding(x) && Padding(y)
      ensures line != x + CLOSE + y
    {
      TagsDiffer(a, b, x, y);
    }
  }

  // ----- the scan

  datatype Fault =
    | Nested(line: nat, openedOn: nat)
    | Unopened(line: nat)
    | Unclosed(openedOn: nat)
    | EmptyScript

  /** The scan so far: `openLine` is the number of the line the current block was opened on. */
  datatype Scan = Scan(blocks: seq<seq<string>>, prose: seq<string>, body: seq<string>, openLine: Option<nat>)
                | Stopped(fault: Fault)

  function ScanLine(s: Scan, number: nat, line: string): Scan
  {
    if s.Stopped? then s
    else
      match KindOf(line)
      case Opening =>
        if s.openLine.Some? then Stopped(Nested(number, s.openLine.value)) else s.(openLine := Some(number), body := [])
      case Closing =>
        if s.openLine.None? then Stopped(Unopened(number)) else s.(blocks := s.blocks + [s.body], openLine := None)
      case Plain =>
        if s.openLine.None? then s.(prose := s.prose + [line]) else s.(body := s.body + [line])
  }

  function ScanLines(lines: seq<string>): Scan
  {
    if lines == [] then Scan([], [], [], None)
    else ScanLine(ScanLines(lines[..|lines| - 1]), |lines|, lines[|lines| - 1])
  }

  datatype Result = NoScript | Tagged(blocks: seq<seq<string>>, prose: seq<string>) | Malformed(fault: Fault)

  predicate SaysSomething(blocks: seq<seq<string>>)
  {
    exists i, j :: 0 <= i < |blocks| && 0 <= j < |blocks[i]| && !Blank(blocks[i][j])
  }

  function Finish(s: Scan): Result
  {
    if s.Stopped? then Malformed(s.fault)
    else if s.openLine.Some? then Malformed(Unclosed(s.openLine.value))
    else if s.blocks == [] then NoScript
    else if !SaysSomething(s.blocks) then Malformed(EmptyScript)
    else Tagged(s.blocks, s.prose)
  }

  function Split(lines: seq<string>): Result
  {
    Finish(ScanLines(lines))
  }

  /** The splitter's loop, which stops at the first fault. */
  method SplitBehaviorScript(lines: seq<string>) returns (r: Result)
    ensures r == Split(lines)
  {
    var blocks: seq<seq<string>>, prose: seq<string>, body: seq<string> := [], [], [];
    var openLine: Option<nat> := None;
    for k := 0 to |lines|
      invariant ScanLines(lines[..k]) == Scan(blocks, prose, body, openLine)
    {
      assert lines[..k + 1][..k] == lines[..k];
      var kind := KindOf(lines[k]);
      if kind == Opening {
        if openLine.Some? {
          StoppedStays(lines, k + 1);
          return Malformed(Nested(k + 1, openLine.value));
        }
        openLine, body := Some(k + 1), [];
      } else if kind == Closing {
        if openLine.None? {
          StoppedStays(lines, k + 1);
          return Malformed(Unopened(k + 1));
        }
        blocks := blocks + [body];
        openLine := None;
      } else if openLine.None? {
        prose := prose + [lines[k]];
      } else {
        body := body + [lines[k]];
      }
    }
    assert lines[..|lines|] == lines;
    if openLine.Some? {
      return Malformed(Unclosed(openLine.value));
    }
    if blocks == [] {
      return NoScript;
    }
    if !SaysSomething(blocks) {
      return Malformed(EmptyScript);
    }
    return Tagged(blocks, prose);
  }

  lemma {:induction false} StoppedStays(lines: seq<string>, k: nat)
    requires k <= |lines| && ScanLines(lines[..k]).Stopped?
    ensures ScanLines(lines) == ScanLines(lines[..k])
    decreases |lines|
  {
    if k == |lines| {
      assert lines[..k] == lines;
    } else {
      assert lines[..|lines| - 1][..k] == lines[..k];
      StoppedStays(lines[..|lines| - 1], k);
    }
  }

  // ----- acceptance by tag lines alone

  /** The kinds of the tag lines, in order. */
  function Tags(lines: seq<string>): seq<Kind>
  {
    if lines == [] then []
    else
      var rest, kind := Tags(lines[..|lines| - 1]), KindOf(lines[|lines| - 1]);
      if kind == Plain then rest else rest + [kind]
  }

  /** Open, close, open, close and so on. */
  ghost predicate Alternates(tags: seq<Kind>)
  {
    forall i :: 0 <= i < |tags| ==> tags[i] == if i % 2 == 0 then Opening else Closing
  }

  /** The plain lines outside (`inside == false`) or inside blocks, by the number of tag lines before them. */
  function LinesAt(lines: seq<string>, inside: bool): seq<string>
  {
    if lines == [] then []
    else
      var some, last := lines[..|lines| - 1], lines[|lines| - 1];
      var rest := LinesAt(some, inside);
      if KindOf(last) == Plain && (|Tags(some)| % 2 == 1) == inside then rest + [last] else rest
  }

  function Joined(blocks: seq<seq<string>>): seq<string>
  {
    if blocks == [] then [] else Joined(blocks[..|blocks| - 1]) + blocks[|blocks| - 1]
  }

  /** One more tag keeps the alternation exactly when it is the one due. */
  lemma AlternationGrows(tags: seq<Kind>, kind: Kind)
    ensures Alternates(tags + [kind]) <==> Alternates(tags) && kind == if |tags| % 2 == 0 then Opening else Closing
  {
    var more := tags + [kind];
    if Alternates(more) {
      forall i | 0 <= i < |tags| ensures tags[i] == if i % 2 == 0 then Opening else Closing {
        assert more[i] == tags[i];
      }
      assert more[|tags|] == kind;
    }
  }

  /** The scan goes on exactly while the tag lines alternate, and is inside a block after an odd number of them. */
  ghost predicate Follows(s: Scan, tags: seq<Kind>)
  {
    && (s.Scan? <==> Alternates(tags))
    && (s.Scan? ==> (s.openLine.Some? <==> |tags| % 2 == 1) && |s.blocks| == |tags| / 2)
  }

  lemma {:induction false} ScanFollowsTags(lines: seq<string>)
    ensures Follows(ScanLines(lines), Tags(lines))
  {
    if lines != [] {
      var some, last := lines[..|lines| - 1], lines[|lines| - 1];
      ScanFollowsTags(some);
      LineFollows(ScanLines(some), Tags(some), |lines|, last, KindOf(last));
    }
  }

  lemma LineFollows(s: Scan, tags: seq<Kind>, number: nat, line: string, kind: Kind)
    requires Follows(s, tags) && KindOf(line) == kind
    ensures Follows(ScanLine(s, number, line), if kind == Plain then tags else tags + [kind])
  {
    AlternationGrows(tags, kind);
  }

  function OpenBody(s: Scan): seq<string>
    requires s.Scan?
  {
    if s.openLine.Some? then s.body else []
  }

  /** Every plain line so far is in the prose, in a closed block or in the open one, in order. */
  lemma {:induction false} ScanKeepsLines(lines: seq<string>)
    requires ScanLines(lines).Scan?
    ensures ScanLines(lines).prose == LinesAt(lines, false)
    ensures LinesAt(lines, true) == Joined(ScanLines(lines).blocks) + OpenBody(ScanLines(lines))
  {
    if lines != [] {
      var some, last := lines[..|lines| - 1], lines[|lines| - 1];
      ScanKeepsLines(some);
      ScanFollowsTags(some);
      LineKept(ScanLines(some), |lines|, last, LinesAt(some, true));
    }
  }

  lemma LineKept(s: Scan, number: nat, line: string, inside: seq<string>)
    requires s.Scan? && inside == Joined(s.blocks) + OpenBody(s)
    requires ScanLine(s, number, line).Scan?
    ensures
      var s' := ScanLine(s, number, line);
      Joined(s'.blocks) + OpenBody(s') ==
      if KindOf(line) == Plain && s.openLine.Some? then inside + [line] else inside
  {
    var s' := ScanLine(s, number, line);
    if KindOf(line) == Closing {
      assert s'.blocks[..|s.blocks|] == s.blocks;
    }
  }

  ghost predicate AnyWritten(lines: seq<string>)
  {
    exists i :: 0 <= i < |lines| && !Blank(lines[i])
  }

  lemma WrittenInEither(a: seq<string>, b: seq<string>)
    ensures AnyWritten(a + b) <==> AnyWritten(a) || AnyWritten(b)
  {
    if AnyWritten(a) {
      var i :| 0 <= i < |a| && !Blank(a[i]);
      assert (a + b)[i] == a[i];
    }
    if AnyWritten(b) {
      var i :| 0 <= i < |b| && !Blank(b[i]);
      assert (a + b)[|a| + i] == b[i];
    }
  }

  lemma SaysSomethingByBlock(some: seq<seq<string>>, last: seq<string>)
    ensures SaysSomething(some + [last]) <==> SaysSomething(some) || AnyWritten(last)
  {
    var blocks := some + [last];
    if SaysSomething(some) {
      var i, j :| 0 <= i < |some| && 0 <= j < |some[i]| && !Blank(some[i][j]);
      assert !Blank(blocks[i][j]);
    }
    if AnyWritten(last) {
      var j :| 0 <= j < |last| && !Blank(last[j]);
      assert !Blank(blocks[|some|][j]);
    }
  }

  lemma {:induction false} JoinedSaysSomething(blocks: seq<seq<string>>)
    ensures SaysSomething(blocks) <==> AnyWritten(Joined(blocks))
  {
    if blocks != [] {
      var some, last := blocks[..|blocks| - 1], blocks[|blocks| - 1];
      JoinedSaysSomething(some);
      WrittenInEither(Joined(some), last);
      assert blocks == some + [last];
      SaysSomethingByBlock(some, last);
    }
  }

  /** A prompt is accepted exactly when its tag lines strictly alternate, end closed and enclose something that is not
      blank; one without tag lines is left alone. Every other line then lies exactly once, in order, in a block or in
      the prose. */
  lemma SplitAcceptsExactly(lines: seq<string>)
    ensures
      var tags, inside := Tags(lines), LinesAt(lines, true);
      && (Split(lines) == NoScript <==> tags == [])
      && (Split(lines).Tagged? <==>
          tags != [] && |tags| % 2 == 0 && Alternates(tags) && AnyWritten(inside))
      && (Split(lines).Tagged? ==>
          && |Split(lines).blocks| == |tags| / 2
          && Joined(Split(lines).blocks) == inside
          && Split(lines).prose == LinesAt(lines, false))
  {
    ScanFollowsTags(lines);
    var s := ScanLines(lines);
    if s.Scan? {
      ScanKeepsLines(lines);
      JoinedSaysSomething(s.blocks);
      assert s.openLine.None? ==> LinesAt(lines, true) == Joined(s.blocks);
    }
  }

  ghost predicate AllPlain(lines: seq<string>)
  {
    forall i :: 0 <= i < |lines| ==> KindOf(lines[i]) == Plain
  }

  /** Line `m`, counting from one, opens a block that none of the later lines closes. */
  ghost predicate OpenSince(lines: seq<string>, m: int)
  {
    1 <= m <= |lines| && KindOf(lines[m - 1]) == Opening && AllPlain(lines[m..])
  }

  lemma {:induction false} OpenLineIsTheLastTag(lines: seq<string>)
    ensures
      var s := ScanLines(lines);
      s.Scan? && s.openLine.Some? ==> OpenSince(lines, s.openLine.value)
  {
    if lines != [] {
      var some, last := lines[..|lines| - 1], lines[|lines| - 1];
      OpenLineIsTheLastTag(some);
      var s, s' := ScanLines(some), ScanLines(lines);
      if s'.Scan? && s'.openLine.Some? && KindOf(last) == Plain {
        var m := s.openLine.value;
        assert lines[m..] == some[m..] + [last];
      }
    }
  }

  /** What a fault says of the prompt: the line it names is the first whose tag is not the one due, and the opening
      line it names is the last tag line before that. */
  ghost predicate Explains(fault: Fault, lines: seq<string>)
  {
    match fault
    case Nested(n, m) =>
      && 1 <= n <= |lines| && KindOf(lines[n - 1]) == Opening
      && Alternates(Tags(lines[..n - 1])) && OpenSince(lines[..n - 1], m)
    case Unopened(n) =>
      && 1 <= n <= |lines| && KindOf(lines[n - 1]) == Closing
      && Alternates(Tags(lines[..n - 1])) && |Tags(lines[..n - 1])| % 2 == 0
    case Unclosed(m) => Alternates(Tags(lines)) && OpenSince(lines, m)
    case EmptyScript => Tags(lines) != [] && Alternates(Tags(lines)) && !AnyWritten(LinesAt(lines, true))
  }

  lemma {:induction false} StoppedIsExplained(lines: seq<string>)
    requires ScanLines(lines).Stopped?
    ensures !ScanLines(lines).fault.Unclosed? && !ScanLines(lines).fault.EmptyScript?
    ensures Explains(ScanLines(lines).fault, lines)
  {
    var some := lines[..|lines| - 1];
    if ScanLines(some).Stopped? {
      StoppedIsExplained(some);
      var fault := ScanLines(some).fault;
      assert lines[..fault.line - 1] == some[..fault.line - 1];
    } else {
      ScanFollowsTags(some);
      OpenLineIsTheLastTag(some);
    }
  }

  /** Every refusal is explained by the lines it points at. */
  lemma RefusalIsExplained(lines: seq<string>)
    requires Split(lines).Malformed?
    ensures Explains(Split(lines).fault, lines)
  {
    var s := ScanLines(lines);
    if s.Stopped? {
      StoppedIsExplained(lines);
    } else {
      ScanFollowsTags(lines);
      OpenLineIsTheLastTag(lines);
      ScanKeepsLines(lines);
      JoinedSaysSomething(s.blocks);
      assert s.openLine.None? ==> LinesAt(lines, true) == Joined(s.blocks);
    }
  }

  // ----- the renderer it undoes

  /** A prompt as pieces: a line of prose, or a block between two tag lines of its own spelling. */
  datatype Piece = Prose(line: string) | Block(openTag: string, body: seq<string>, closeTag: string)

  ghost predicate WellFormed(p: Piece)
  {
    match p
    case Prose(line) => KindOf(line) == Plain
    case Block(openTag, body, closeTag) => KindOf(openTag) == Opening && AllPlain(body) && KindOf(closeTag) == Closing
  }

  ghost predicate AllWellFormed(pieces: seq<Piece>)
  {
    forall i :: 0 <= i < |pieces| ==> WellFormed(pieces[i])
  }

  function RenderPiece(p: Piece): seq<string>
  {
    match p
    case Prose(line) => [line]
    case Block(openTag, body, closeTag) => [openTag] + body + [closeTag]
  }

  function Render(pieces: seq<Piece>): seq<string>
  {
    if pieces == [] then [] else Render(pieces[..|pieces| - 1]) + RenderPiece(pieces[|pieces| - 1])
  }

  function BlocksOf(pieces: seq<Piece>): seq<seq<string>>
  {
    if pieces == [] then []
    else
      var rest, last := BlocksOf(pieces[..|pieces| - 1]), pieces[|pieces| - 1];
      if last.Block? then rest + [last.body] else rest
  }

  function ProseOf(pieces: seq<Piece>): seq<string>
  {
    if pieces == [] then []
    else
      var rest, last := ProseOf(pieces[..|pieces| - 1]), pieces[|pieces| - 1];
      if last.Prose? then rest + [last.line] else rest
  }

  /** What scanning finds at the end of some pieces: their blocks and prose, and no open block. */
  ghost predicate Found(s: Scan, pieces: seq<Piece>)
  {
    s.Scan? && s.openLine.None? && s.blocks == BlocksOf(pieces) && s.prose == ProseOf(pieces)
  }

  lemma ScanSnoc(lines: seq<string>, line: string)
    ensures ScanLines(lines + [line]) == ScanLine(ScanLines(lines), |lines| + 1, line)
  {
    assert (lines + [line])[..|lines|] == lines;
  }

  lemma {:induction false} ScanBody(lines: seq<string>, body: seq<string>)
    requires AllPlain(body) && ScanLines(lines).Scan? && ScanLines(lines).openLine.Some?
    ensures
      var s := ScanLines(lines);
      ScanLines(lines + body) == s.(body := s.body + body)
  {
    if body == [] {
      assert lines + body == lines;
    } else {
      var some, last := body[..|body| - 1], body[|body| - 1];
      ScanBody(lines, some);
      assert lines + body == (lines + some) + [last];
      assert body == some + [last];
      ScanInside(lines + some, last);
      assert ScanLines(lines).body + some + [last] == ScanLines(lines).body + body;
    }
  }

  lemma ScanInside(lines: seq<string>, line: string)
    requires KindOf(line) == Plain && ScanLines(lines).Scan? && ScanLines(lines).openLine.Some?
    ensures
      var s := ScanLines(lines);
      ScanLines(lines + [line]) == s.(body := s.body + [line])
  {
    ScanSnoc(lines, line);
  }

  lemma ScanOpening(lines: seq<string>, openTag: string)
    requires KindOf(openTag) == Opening && ScanLines(lines).Scan? && ScanLines(lines).openLine.None?
    ensures
      var s := ScanLines(lines);
      ScanLines(lines + [openTag]) == Scan(s.blocks, s.prose, [], Some(|lines| + 1))
  {
    ScanSnoc(lines, openTag);
  }

  lemma ScanClosing(lines: seq<string>, closeTag: string)
    requires KindOf(closeTag) == Closing && ScanLines(lines).Scan? && ScanLines(lines).openLine.Some?
    ensures
      var s := ScanLines(lines);
      ScanLines(lines + [closeTag]) == Scan(s.blocks + [s.body], s.prose, s.body, None)
  {
    ScanSnoc(lines, closeTag);
  }

  lemma ScanBlock(lines: seq<string>, openTag: string, body: seq<string>, closeTag: string)
    requires KindOf(openTag) == Opening && AllPlain(body) && KindOf(closeTag) == Closing
    requires ScanLines(lines).Scan? && ScanLines(lines).openLine.None?
    ensures
      var s := ScanLines(lines);
      ScanLines(lines + [openTag] + body + [closeTag]) == Scan(s.blocks + [body], s.prose, body, None)
  {
    ScanOpening(lines, openTag);
    ScanBody(lines + [openTag], body);
    assert [] + body == body;
    ScanClosing(lines + [openTag] + body, closeTag);
  }

  lemma ScanPiece(lines: seq<string>, p: Piece)
    requires WellFormed(p) && ScanLines(lines).Scan? && ScanLines(lines).openLine.None?
    ensures
      var s, s' := ScanLines(lines), ScanLines(lines + RenderPiece(p));
      && s'.Scan? && s'.openLine.None?
      && s'.blocks == (if p.Block? then s.blocks + [p.body] else s.blocks)
      && s'.prose == (if p.Prose? then s.prose + [p.line] else s.prose)
  {
    match p
    case Prose(line) => ScanSnoc(lines, line);
    case Block(openTag, body, closeTag) =>
      ScanBlock(lines, openTag, body, closeTag);
      assert lines + RenderPiece(p) == lines + [openTag] + body + [closeTag];
  }

  lemma {:induction false} ScanUndoesRender(pieces: seq<Piece>)
    requires AllWellFormed(pieces)
    ensures Found(ScanLines(Render(pieces)), pieces)
  {
    if pieces != [] {
      var some, last := pieces[..|pieces| - 1], pieces[|pieces| - 1];
      assert WellFormed(pieces[|pieces| - 1]);
      ScanUndoesRender(some);
      ScanPiece(Render(some), last);
    }
  }

  /** Splitting undoes rendering: any pieces, with tags spelled with any padding, come back as they went in, bar a
      prompt without blocks (left alone) or one whose blocks are all blank (refused). */
  lemma SplitUndoesRender(pieces: seq<Piece>)
    requires AllWellFormed(pieces)
    ensures
      var blocks := BlocksOf(pieces);
      Split(Render(pieces)) ==
      if blocks == [] then NoScript
      else if SaysSomething(blocks) then Tagged(blocks, ProseOf(pieces)) else Malformed(EmptyScript)
  {
    ScanUndoesRender(pieces);
  }

  /** The lines are these pieces and, when a block is open, its open tag line and its body so far. */
  ghost predicate Pieced(lines: seq<string>, s: Scan, pieces: seq<Piece>, openTag: string)
  {
    && s.Scan? && AllWellFormed(pieces)
    && s.blocks == BlocksOf(pieces) && s.prose == ProseOf(pieces)
    && if s.openLine.Some?
       then lines == Render(pieces) + ([openTag] + s.body) && KindOf(openTag) == Opening && AllPlain(s.body)
       else lines == Render(pieces)
  }

  lemma {:induction false} ScannedIsRendered(lines: seq<string>) returns (pieces: seq<Piece>, openTag: string)
    requires ScanLines(lines).Scan?
    ensures Pieced(lines, ScanLines(lines), pieces, openTag)
  {
    if lines == [] {
      pieces, openTag := [], "";
    } else {
      var some, last := lines[..|lines| - 1], lines[|lines| - 1];
      pieces, openTag := ScannedIsRendered(some);
      assert lines == some + [last];
      pieces, openTag := LinePieced(some, ScanLines(some), pieces, openTag, last);
    }
  }

  lemma LinePieced(lines: seq<string>, s: Scan, pieces: seq<Piece>, openTag: string, line: string)
    returns (pieces': seq<Piece>, openTag': string)
    requires Pieced(lines, s, pieces, openTag) && ScanLine(s, |lines| + 1, line).Scan?
    ensures Pieced(lines + [line], ScanLine(s, |lines| + 1, line), pieces', openTag')
  {
    if s.openLine.None? {
      pieces', openTag' := OutsideLinePieced(lines, s, pieces, line);
    } else {
      openTag' := openTag;
      pieces' := InsideLinePieced(lines, s, pieces, openTag, line);
    }
  }

  lemma OutsideLinePieced(lines: seq<string>, s: Scan, pieces: seq<Piece>, line: string)
    returns (pieces': seq<Piece>, openTag': string)
    requires Pieced(lines, s, pieces, "") && s.openLine.None? && ScanLine(s, |lines| + 1, line).Scan?
    ensures Pieced(lines + [line], ScanLine(s, |lines| + 1, line), pieces', openTag')
  {
    openTag' := line;
    if KindOf(line) == Plain {
      pieces' := PieceAdded(pieces, Prose(line));
    } else {
      pieces' := pieces;
      assert [line] + [] == [line];
    }
  }

  lemma InsideLinePieced(lines: seq<string>, s: Scan, pieces: seq<Piece>, openTag: string, line: string)
    returns (pieces': seq<Piece>)
    requires Pieced(lines, s, pieces, openTag) && s.openLine.Some? && ScanLine(s, |lines| + 1, line).Scan?
    ensures Pieced(lines + [line], ScanLine(s, |lines| + 1, line), pieces', openTag)
  {
    Regroup(Render(pieces), openTag, s.body, line);
    if KindOf(line) == Plain {
      pieces' := pieces;
    } else {
      pieces' := PieceAdded(pieces, Block(openTag, s.body, line));
    }
  }

  lemma Regroup(before: seq<string>, openTag: string, body: seq<string>, line: string)
    ensures before + ([openTag] + body) + [line] == before + ([openTag] + (body + [line]))
    ensures before + ([openTag] + body) + [line] == before + ([openTag] + body + [line])
  {
  }

  lemma PieceAdded(pieces: seq<Piece>, p: Piece) returns (more: seq<Piece>)
    requires AllWellFormed(pieces) && WellFormed(p)
    ensures more == pieces + [p] && AllWellFormed(more)
    ensures Render(more) == Render(pieces) + RenderPiece(p)
    ensures BlocksOf(more) == if p.Block? then BlocksOf(pieces) + [p.body] else BlocksOf(pieces)
    ensures ProseOf(more) == if p.Prose? then ProseOf(pieces) + [p.line] else ProseOf(pieces)
  {
    more := pieces + [p];
    assert more[..|pieces|] == pieces;
  }

  /** And nothing else is accepted: an accepted prompt is a rendering of exactly the blocks and prose found in it. */
  lemma AcceptedIsRendered(lines: seq<string>) returns (pieces: seq<Piece>)
    requires Split(lines).Tagged?
    ensures AllWellFormed(pieces) && Render(pieces) == lines
    ensures Split(lines) == Tagged(BlocksOf(pieces), ProseOf(pieces))
  {
    var openTag;
    pieces, openTag := ScannedIsRendered(lines);
  }
}
