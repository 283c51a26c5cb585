/** Properties of the block segmenter, stated about Segment (and so, by its
    postcondition, about ParseMarkdownToBlocks):
    - every block is well formed: sequential ids, non-blank content, a level
      exactly on headings, single-line headings, rules and images;
    - reconstruction: the blocks' lines are the input lines with some blank
      lines removed; when no region delimiter is read inside the other kind
      of region, exactly the blank lines read outside code and math are
      removed; with no fence or `$$` line at all, the blocks hold exactly the
      non-blank lines;
    - fences, math blocks and table runs each become one block, wherever the
      state before them allows it;
    - a pipe row after a table that a region interrupted is a paragraph. */
module SegmentProps {
  import opened Text
  import opened MarkdownBlocks

  // ---------------------------------------------------------------------
  // Lines of blocks

  predicate NoNewlines(xs: seq<string>) {
    forall i :: 0 <= i < |xs| ==> '\n' !in xs[i]
  }

  predicate AllNonBlank(xs: seq<string>) {
    forall i :: 0 <= i < |xs| ==> !IsBlank(xs[i])
  }

  /** The lines of every block, in order: each content split on '\n'. */
  function BlockLines(blocks: seq<Block>): seq<string>
    decreases |blocks|
  {
    if blocks == [] then [] else BlockLines(blocks[..|blocks| - 1]) + Lines(blocks[|blocks| - 1].content)
  }

  /** The lines held by the pass: those of the emitted blocks, then the buffer. */
  function AccLines(a: Acc): seq<string> {
    BlockLines(a.blocks) + a.current
  }

  lemma BlockLinesSnoc(blocks: seq<Block>, b: Block)
    ensures BlockLines(blocks + [b]) == BlockLines(blocks) + Lines(b.content)
  {
    assert (blocks + [b])[..|blocks|] == blocks;
  }

  /** kept is lines with some blank lines (and nothing else) removed. */
  predicate DropsOnlyBlankLines(kept: seq<string>, lines: seq<string>)
    decreases |lines|
  {
    if lines == [] then kept == []
    else
      var init, last := lines[..|lines| - 1], lines[|lines| - 1];
      (|kept| > 0 && kept[|kept| - 1] == last && DropsOnlyBlankLines(kept[..|kept| - 1], init))
      || (IsBlank(last) && DropsOnlyBlankLines(kept, init))
  }

  /** shorter is longer with a tail of blank lines removed. */
  predicate BlankTail(longer: seq<string>, shorter: seq<string>) {
    |shorter| <= |longer| && longer[..|shorter|] == shorter
    && forall i :: |shorter| <= i < |longer| ==> IsBlank(longer[i])
  }

  /** The non-blank lines of xs, in order. */
  function NonBlankLines(xs: seq<string>): (r: seq<string>)
    ensures AllNonBlank(r)
    decreases |xs|
  {
    if xs == [] then []
    else NonBlankLines(xs[..|xs| - 1]) + (if IsBlank(xs[|xs| - 1]) then [] else [xs[|xs| - 1]])
  }

  lemma DropsSnoc(kept: seq<string>, lines: seq<string>, line: string)
    requires DropsOnlyBlankLines(kept, lines)
    ensures DropsOnlyBlankLines(kept + [line], lines + [line])
  {
    assert (kept + [line])[..|kept|] == kept;
    assert (lines + [line])[..|lines|] == lines;
  }

  lemma DropsBlank(kept: seq<string>, lines: seq<string>, line: string)
    requires IsBlank(line) && DropsOnlyBlankLines(kept, lines)
    ensures DropsOnlyBlankLines(kept, lines + [line])
  {
    assert (lines + [line])[..|lines|] == lines;
  }

  lemma {:induction false} DropsLastBlank(kept: seq<string>, b: string, lines: seq<string>)
    requires IsBlank(b) && DropsOnlyBlankLines(kept + [b], lines)
    ensures DropsOnlyBlankLines(kept, lines)
    decreases |lines|
  {
    var k := kept + [b];
    assert k[..|k| - 1] == kept;
    if lines != [] {
      var init, last := lines[..|lines| - 1], lines[|lines| - 1];
      if k[|k| - 1] == last && DropsOnlyBlankLines(kept, init) {
      } else {
        DropsLastBlank(kept, b, init);
      }
    }
  }

  lemma {:induction false} DropsBlankTail(longer: seq<string>, shorter: seq<string>, lines: seq<string>)
    requires BlankTail(longer, shorter) && DropsOnlyBlankLines(longer, lines)
    ensures DropsOnlyBlankLines(shorter, lines)
    decreases |longer|
  {
    if |shorter| < |longer| {
      var m := longer[..|longer| - 1];
      assert longer == m + [longer[|longer| - 1]];
      DropsLastBlank(m, longer[|longer| - 1], lines);
      assert m[..|shorter|] == shorter;
      DropsBlankTail(m, shorter, lines);
    } else {
      assert longer == shorter;
    }
  }

  // ---------------------------------------------------------------------
  // What each primitive of the pass does to the lines it holds

  /** A flushed buffer that is emitted keeps its lines. */
  lemma FlushEmitLines(a: Acc)
    requires NoNewlines(a.current) && |a.current| > 0 && Trim(Join(a.current, "\n")) != ""
    ensures AccLines(Flush(a)) == AccLines(a)
  {
    var content := Join(a.current, "\n");
    assert NoneContain(a.current, {'\n'});
    SplitJoin(a.current, '\n');
    BlockLinesSnoc(a.blocks, Block(BlockId(a.blockId), a.blockType, content, None));
  }

  lemma BlankTailAppend(xs: seq<string>, tail: seq<string>)
    requires forall i :: 0 <= i < |tail| ==> IsBlank(tail[i])
    ensures BlankTail(xs + tail, xs)
  {
    assert (xs + tail)[..|xs|] == xs;
    assert forall i :: |xs| <= i < |xs + tail| ==> (xs + tail)[i] == tail[i - |xs|];
  }

  /** A flushed buffer that is dropped held blank lines only. */
  lemma FlushDropLines(a: Acc)
    requires |a.current| > 0 && Trim(Join(a.current, "\n")) == ""
    ensures BlankTail(AccLines(a), AccLines(Flush(a)))
    ensures !AllNonBlank(a.current)
  {
    JoinBlank(a.current, "\n");
    assert Flush(a).blocks == a.blocks && Flush(a).current == [];
    BlankTailAppend(BlockLines(a.blocks), a.current);
  }

  lemma FlushLines(a: Acc)
    requires NoNewlines(a.current)
    ensures Flush(a).current == []
    ensures a.blocks <= Flush(a).blocks
    ensures BlankTail(AccLines(a), AccLines(Flush(a)))
    ensures AllNonBlank(a.current) ==> AccLines(Flush(a)) == AccLines(a)
  {
    if |a.current| > 0 {
      if Trim(Join(a.current, "\n")) != "" {
        FlushEmitLines(a);
        assert AccLines(a)[..|AccLines(a)|] == AccLines(a);
      } else {
        FlushDropLines(a);
      }
    } else {
      assert AccLines(a) == BlockLines(a.blocks);
      assert AccLines(a)[..|AccLines(a)|] == AccLines(a);
    }
  }

  lemma EmitLines(f: Acc, t: BlockType, line: string, level: Option<nat>)
    requires f.current == [] && '\n' !in line
    ensures AccLines(Emit(f, t, line, level)) == AccLines(f) + [line]
    ensures Emit(f, t, line, level).current == []
  {
    SplitWithoutSeparator(line, {'\n'});
    BlockLinesSnoc(f.blocks, Block(BlockId(f.blockId), t, line, level));
  }

  lemma PushLines(a: Acc, line: string)
    ensures AccLines(Push(a, line)) == AccLines(a) + [line]
  {
  }

  // ---------------------------------------------------------------------
  // Reconstruction: only blank lines are ever dropped

  /** The single-line rules: heading, horizontal rule, image. */
  predicate EmitsLine(line: string) {
    var t := Trim(line);
    t != "" && (HeadingLevel(line).Some? || IsHorizontalRule(t)
                || (IsImageLine(t) && !IsBlockquoteLine(t) && !IsListItem(t)))
  }

  lemma OutsideEmitShape(a: Acc, line: string)
    requires '\n' !in line && NoNewlines(a.current) && EmitsLine(line)
    ensures var r := OutsideStep(a, line, Trim(line));
      AccLines(r) == AccLines(Flush(a)) + [line] && r.current == []
  {
    var t := Trim(line);
    FlushLines(a);
    var f := Flush(a);
    if HeadingLevel(line).Some? {
      EmitLines(f, Heading, line, HeadingLevel(line));
    } else if IsHorizontalRule(t) {
      EmitLines(f, Hr, line, None);
    } else {
      EmitLines(f, Image, line, None);
    }
  }

  /** The buffer a non-blank, non-single-line line is pushed onto. */
  function PushTarget(a: Acc, t: string): Acc {
    var f := Flush(a);
    if IsBlockquoteLine(t) then (if a.blockType != Blockquote then f.(blockType := Blockquote) else a)
    else if IsListItem(t) then (if a.blockType != List then f.(blockType := List) else a)
    else if a.blockType != Paragraph && a.blockType != List && a.blockType != Blockquote
    then f.(blockType := Paragraph) else a
  }

  lemma PushTargetCases(a: Acc, t: string)
    ensures var b := PushTarget(a, t);
      b == a || (b.blocks == Flush(a).blocks && b.current == [])
  {
  }

  lemma OutsidePushes(a: Acc, line: string)
    requires Trim(line) != "" && !EmitsLine(line)
    ensures OutsideStep(a, line, Trim(line)) == Push(PushTarget(a, Trim(line)), line)
  {
  }

  lemma OutsidePushShape(a: Acc, line: string)
    requires '\n' !in line && NoNewlines(a.current) && Trim(line) != "" && !EmitsLine(line)
    ensures var r := OutsideStep(a, line, Trim(line));
      (AccLines(r) == AccLines(a) + [line] && r.current == a.current + [line])
      || (AccLines(r) == AccLines(Flush(a)) + [line] && r.current == [line])
  {
    var b := PushTarget(a, Trim(line));
    PushTargetCases(a, Trim(line));
    OutsidePushes(a, line);
    PushLines(b, line);
    if b != a {
      FlushLines(a);
      assert AccLines(b) == AccLines(Flush(a));
    }
  }

  /** The rules after the table test either append the line to the held
      lines, possibly after a flush, or (for a blank line) at most flush. */
  lemma OutsideShape(a: Acc, line: string)
    requires '\n' !in line && NoNewlines(a.current)
    ensures var r := OutsideStep(a, line, Trim(line));
      var held, flushed := AccLines(a), AccLines(Flush(a));
      NoNewlines(r.current)
      && if IsBlank(line) then
           (AccLines(r) == held || AccLines(r) == flushed) && (r.current == [] || r.current == a.current)
         else
           (AccLines(r) == held + [line] && r.current == a.current + [line])
           || (AccLines(r) == flushed + [line] && (r.current == [line] || r.current == []))
  {
    if Trim(line) == "" {
      FlushLines(a);
    } else if EmitsLine(line) {
      OutsideEmitShape(a, line);
    } else {
      OutsidePushShape(a, line);
    }
  }

  /** A fence or `$$` line that opens its region starts a fresh buffer. */
  lemma StepOpens(st: SegState, line: string)
    requires var t := Trim(line);
      (IsFenceLine(t) && !st.inCodeBlock) || (!IsFenceLine(t) && IsMathDelimiter(t) && !st.inMathBlock)
    ensures var t := Trim(line);
      var acc := Push(Flush(st.acc).(blockType := if IsFenceLine(t) then FenceBlockType(t) else Math), line);
      Step(st, line) == if IsFenceLine(t) then st.(acc := acc, inCodeBlock := true)
                        else st.(acc := acc, inMathBlock := true)
  {
  }

  /** A fence or `$$` line that closes its region is appended, then flushed. */
  lemma StepCloses(st: SegState, line: string)
    requires var t := Trim(line);
      (IsFenceLine(t) && st.inCodeBlock) || (!IsFenceLine(t) && IsMathDelimiter(t) && st.inMathBlock)
    ensures var acc := Flush(Push(st.acc, line));
      Step(st, line) == if IsFenceLine(Trim(line)) then st.(acc := acc, inCodeBlock := false)
                        else st.(acc := acc, inMathBlock := false)
  {
  }

  /** A line that appends to the buffer and leaves the flags alone. */
  predicate Appends(st: SegState, line: string) {
    Plain(line) && (st.inCodeBlock || st.inMathBlock || (IsTableRow(Trim(line)) && st.inTable))
  }

  /** Any other line inside a region, and a table row continuing a table, is appended. */
  lemma StepAppends(st: SegState, line: string)
    requires Appends(st, line)
    ensures Step(st, line) == st.(acc := Push(st.acc, line))
  {
  }

  lemma StepTableOpens(st: SegState, line: string)
    requires Plain(line) && !st.inCodeBlock && !st.inMathBlock && IsTableRow(Trim(line)) && !st.inTable
    ensures Step(st, line) == st.(acc := Push(Flush(st.acc).(blockType := Table), line), inTable := true)
  {
  }

  lemma StepOutside(st: SegState, line: string)
    requires Plain(line) && !st.inCodeBlock && !st.inMathBlock && !IsTableRow(Trim(line))
    ensures Step(st, line)
            == st.(acc := OutsideStep(if st.inTable then Flush(st.acc) else st.acc, line, Trim(line)), inTable := false)
  {
  }

  /** The four ways a step changes the held lines. */
  predicate StepShaped(a: Acc, line: string, n: seq<string>) {
    var held, flushed := AccLines(a), AccLines(Flush(a));
    n == held + [line] || n == flushed + [line] || n == AccLines(Flush(Push(a, line)))
    || (IsBlank(line) && (n == held || n == flushed))
  }

  lemma OpenLineShape(st: SegState, line: string)
    requires '\n' !in line && NoNewlines(st.acc.current)
    requires var t := Trim(line);
      (IsFenceLine(t) && !st.inCodeBlock) || (!IsFenceLine(t) && IsMathDelimiter(t) && !st.inMathBlock)
    ensures StepShaped(st.acc, line, AccLines(Step(st, line).acc))
    ensures NoNewlines(Step(st, line).acc.current)
  {
    var t := Trim(line);
    var bt := if IsFenceLine(t) then FenceBlockType(t) else Math;
    assert Step(st, line).acc == Push(Flush(st.acc).(blockType := bt), line) by {
      StepOpens(st, line);
    }
    OpenedShape(st.acc, bt, line);
  }

  /** Flushing, retyping and pushing the opening line holds the flushed lines and that line. */
  lemma OpenedShape(a: Acc, bt: BlockType, line: string)
    requires '\n' !in line
    ensures StepShaped(a, line, AccLines(Push(Flush(a).(blockType := bt), line)))
    ensures NoNewlines(Push(Flush(a).(blockType := bt), line).current)
  {
    var g := Flush(a).(blockType := bt);
    FlushEmpties(a);
    PushLines(g, line);
    ShapedFlushed(a, line, AccLines(Push(g, line)));
  }

  lemma ShapedHeld(a: Acc, line: string, n: seq<string>)
    requires n == AccLines(a) + [line]
    ensures StepShaped(a, line, n)
  {
  }

  lemma ShapedFlushed(a: Acc, line: string, n: seq<string>)
    requires n == AccLines(Flush(a)) + [line]
    ensures StepShaped(a, line, n)
  {
  }

  lemma CloseLineShape(st: SegState, line: string)
    requires '\n' !in line && NoNewlines(st.acc.current)
    requires var t := Trim(line);
      (IsFenceLine(t) && st.inCodeBlock) || (!IsFenceLine(t) && IsMathDelimiter(t) && st.inMathBlock)
    ensures StepShaped(st.acc, line, AccLines(Step(st, line).acc))
    ensures NoNewlines(Step(st, line).acc.current)
  {
    StepCloses(st, line);
    assert NoNewlines(Push(st.acc, line).current);
    FlushLines(Push(st.acc, line));
  }

  lemma AppendLineShape(st: SegState, line: string)
    requires '\n' !in line && NoNewlines(st.acc.current) && Appends(st, line)
    ensures StepShaped(st.acc, line, AccLines(Step(st, line).acc))
    ensures NoNewlines(Step(st, line).acc.current)
  {
    StepAppends(st, line);
    PushLines(st.acc, line);
    ShapedHeld(st.acc, line, AccLines(Push(st.acc, line)));
  }

  lemma TableOpenShape(st: SegState, line: string)
    requires '\n' !in line && NoNewlines(st.acc.current)
    requires Plain(line) && !st.inCodeBlock && !st.inMathBlock && IsTableRow(Trim(line)) && !st.inTable
    ensures StepShaped(st.acc, line, AccLines(Step(st, line).acc))
    ensures NoNewlines(Step(st, line).acc.current)
  {
    StepTableOpens(st, line);
    var g := Flush(st.acc).(blockType := Table);
    FlushEmpties(st.acc);
    PushLines(g, line);
    ShapedFlushed(st.acc, line, AccLines(Push(g, line)));
  }

  lemma OutsideLineShape(st: SegState, line: string)
    requires '\n' !in line && NoNewlines(st.acc.current)
    requires Plain(line) && !st.inCodeBlock && !st.inMathBlock && !IsTableRow(Trim(line))
    ensures StepShaped(st.acc, line, AccLines(Step(st, line).acc))
    ensures NoNewlines(Step(st, line).acc.current)
  {
    var a := st.acc;
    FlushLines(a);
    StepOutside(st, line);
    var b := if st.inTable then Flush(a) else a;
    FlushLines(b);
    OutsideShape(b, line);
  }

  /** Every step appends the line (possibly after a flush), flushes after
      appending it, or, for a blank line, at most flushes. */
  lemma StepShape(st: SegState, line: string)
    requires '\n' !in line && NoNewlines(st.acc.current)
    ensures StepShaped(st.acc, line, AccLines(Step(st, line).acc))
    ensures NoNewlines(Step(st, line).acc.current)
  {
    var t := Trim(line);
    if (IsFenceLine(t) && !st.inCodeBlock) || (!IsFenceLine(t) && IsMathDelimiter(t) && !st.inMathBlock) {
      OpenLineShape(st, line);
    } else if IsFenceLine(t) || IsMathDelimiter(t) {
      CloseLineShape(st, line);
    } else if Appends(st, line) {
      AppendLineShape(st, line);
    } else if IsTableRow(t) {
      TableOpenShape(st, line);
    } else {
      OutsideLineShape(st, line);
    }
  }

  /** The sequence fact behind reconstruction: each of the shapes of a step
      keeps "only blank lines dropped". */
  lemma ShapeDrops(held: seq<string>, flushed: seq<string>, closed: seq<string>, line: string,
                   n: seq<string>, seen: seq<string>)
    requires BlankTail(held, flushed) && BlankTail(held + [line], closed)
    requires DropsOnlyBlankLines(held, seen)
    requires n == held + [line] || n == flushed + [line] || n == closed
             || (IsBlank(line) && (n == held || n == flushed))
    ensures DropsOnlyBlankLines(n, seen + [line])
  {
    DropsBlankTail(held, flushed, seen);
    DropsSnoc(held, seen, line);
    if n == held + [line] {
    } else if n == flushed + [line] {
      DropsSnoc(flushed, seen, line);
    } else if n == closed {
      DropsBlankTail(held + [line], closed, seen + [line]);
    } else if n == held {
      DropsBlank(held, seen, line);
    } else {
      DropsBlank(flushed, seen, line);
    }
  }

  lemma StepDrops(st: SegState, line: string, seen: seq<string>)
    requires '\n' !in line && NoNewlines(st.acc.current)
    requires DropsOnlyBlankLines(AccLines(st.acc), seen)
    ensures DropsOnlyBlankLines(AccLines(Step(st, line).acc), seen + [line])
    ensures NoNewlines(Step(st, line).acc.current)
  {
    var a := st.acc;
    StepShape(st, line);
    FlushLines(a);
    assert NoNewlines(Push(a, line).current);
    FlushLines(Push(a, line));
    PushLines(a, line);
    ShapeDrops(AccLines(a), AccLines(Flush(a)), AccLines(Flush(Push(a, line))), line,
               AccLines(Step(st, line).acc), seen);
  }

  lemma {:induction false} RunDrops(st: SegState, xs: seq<string>, seen: seq<string>)
    requires NoNewlines(xs) && NoNewlines(st.acc.current)
    requires DropsOnlyBlankLines(AccLines(st.acc), seen)
    ensures DropsOnlyBlankLines(AccLines(Run(st, xs).acc), seen + xs)
    ensures NoNewlines(Run(st, xs).acc.current)
    decreases |xs|
  {
    if xs == [] {
      assert seen + xs == seen;
    } else {
      var init, last := xs[..|xs| - 1], xs[|xs| - 1];
      assert xs == init + [last];
      RunSnoc(st, init, last);
      RunDrops(st, init, seen);
      StepDrops(Run(st, init), last, seen + init);
      assert seen + init + [last] == seen + xs;
    }
  }

  /** Reconstruction: reading the blocks' lines in order gives the document's
      lines with some blank lines left out, and nothing else changed. */
  lemma SegmentDropsOnlyBlankLines(content: string)
    ensures DropsOnlyBlankLines(BlockLines(Segment(content)), Lines(content))
  {
    var lines := Lines(content);
    RunDrops(Start, lines, []);
    assert [] + lines == lines;
    var fin := Run(Start, lines).acc;
    FlushLines(fin);
    var done := Flush(fin);
    DropsBlankTail(AccLines(fin), AccLines(done), lines);
    assert Segment(content) == done.blocks;
    assert AccLines(done) == BlockLines(done.blocks);
  }

  // ---------------------------------------------------------------------
  // Reconstruction without fences or math delimiters: exactly the non-blank lines

  /** A line that neither opens nor closes a fenced or math region. */
  predicate Plain(line: string) {
    !IsFenceLine(Trim(line)) && !IsMathDelimiter(Trim(line))
  }

  predicate AllPlain(xs: seq<string>) {
    forall i :: 0 <= i < |xs| ==> Plain(xs[i])
  }

  lemma StepPlain(st: SegState, line: string)
    requires !st.inCodeBlock && !st.inMathBlock && Plain(line) && '\n' !in line
    requires NoNewlines(st.acc.current) && AllNonBlank(st.acc.current)
    ensures var s := Step(st, line);
      !s.inCodeBlock && !s.inMathBlock && NoNewlines(s.acc.current) && AllNonBlank(s.acc.current)
      && AccLines(s.acc) == AccLines(st.acc) + (if IsBlank(line) then [] else [line])
      && (!IsTableRow(Trim(line)) ==> !s.inTable)
  {
    if IsTableRow(Trim(line)) {
      PlainTableStep(st, line);
    } else {
      PlainOutsideStep(st, line);
    }
  }

  lemma PlainTableStep(st: SegState, line: string)
    requires !st.inCodeBlock && !st.inMathBlock && Plain(line) && IsTableRow(Trim(line))
    requires NoNewlines(st.acc.current) && AllNonBlank(st.acc.current) && '\n' !in line
    ensures var s := Step(st, line);
      !s.inCodeBlock && !s.inMathBlock && NoNewlines(s.acc.current) && AllNonBlank(s.acc.current)
      && AccLines(s.acc) == AccLines(st.acc) + (if IsBlank(line) then [] else [line])
  {
    assert !IsBlank(line);
    if st.inTable {
      StepAppends(st, line);
    } else {
      FlushLines(st.acc);
      StepTableOpens(st, line);
    }
  }

  lemma PlainOutsideStep(st: SegState, line: string)
    requires !st.inCodeBlock && !st.inMathBlock && Plain(line) && !IsTableRow(Trim(line))
    requires NoNewlines(st.acc.current) && AllNonBlank(st.acc.current) && '\n' !in line
    ensures var s := Step(st, line);
      !s.inCodeBlock && !s.inMathBlock && !s.inTable && NoNewlines(s.acc.current) && AllNonBlank(s.acc.current)
      && AccLines(s.acc) == AccLines(st.acc) + (if IsBlank(line) then [] else [line])
  {
    StepOutside(st, line);
    FlushLines(st.acc);
    var b := if st.inTable then Flush(st.acc) else st.acc;
    OutsidePlain(b, line);
  }

  /** Outside every region, a buffer of non-blank lines stays one and
      gains the line exactly when it is not blank. */
  lemma OutsidePlain(b: Acc, line: string)
    requires NoNewlines(b.current) && AllNonBlank(b.current) && '\n' !in line
    ensures var r := OutsideStep(b, line, Trim(line));
      NoNewlines(r.current) && AllNonBlank(r.current)
      && AccLines(r) == AccLines(b) + (if IsBlank(line) then [] else [line])
  {
    FlushLines(b);
    OutsideShape(b, line);
  }

  /** What reading the plain lines xs from st0 leaves in s: both regions
      closed, a buffer of non-blank lines, the non-blank lines of xs added
      to the held lines, and no table open after a last line that is not a
      row. */
  predicate PlainAfter(st0: SegState, xs: seq<string>, s: SegState) {
    !s.inCodeBlock && !s.inMathBlock && NoNewlines(s.acc.current) && AllNonBlank(s.acc.current)
    && AccLines(s.acc) == AccLines(st0.acc) + NonBlankLines(xs)
    && (xs != [] && !IsTableRow(Trim(xs[|xs| - 1])) ==> !s.inTable)
  }

  lemma {:induction false} RunPlain(st: SegState, xs: seq<string>)
    requires !st.inCodeBlock && !st.inMathBlock && AllPlain(xs) && NoNewlines(xs)
    requires NoNewlines(st.acc.current) && AllNonBlank(st.acc.current)
    ensures PlainAfter(st, xs, Run(st, xs))
    decreases |xs|
  {
    if xs == [] {
      assert AccLines(st.acc) + [] == AccLines(st.acc);
    } else {
      var init, last := xs[..|xs| - 1], xs[|xs| - 1];
      PlainParts(xs);
      RunSnoc(st, init, last);
      RunPlain(st, init);
      var s := Run(st, init);
      StepPlain(s, last);
      PlainAfterSnoc(st, init, last, s, Step(s, last));
    }
  }

  lemma PlainAfterSnoc(st0: SegState, init: seq<string>, last: string, s: SegState, s2: SegState)
    requires PlainAfter(st0, init, s)
    requires !s2.inCodeBlock && !s2.inMathBlock && NoNewlines(s2.acc.current) && AllNonBlank(s2.acc.current)
    requires AccLines(s2.acc) == AccLines(s.acc) + (if IsBlank(last) then [] else [last])
    requires !IsTableRow(Trim(last)) ==> !s2.inTable
    ensures PlainAfter(st0, init + [last], s2)
  {
    var xs := init + [last];
    assert xs[..|xs| - 1] == init && xs[|xs| - 1] == last;
    var extra := if IsBlank(last) then [] else [last];
    assert NonBlankLines(xs) == NonBlankLines(init) + extra;
    assert AccLines(st0.acc) + NonBlankLines(init) + extra == AccLines(st0.acc) + NonBlankLines(xs);
  }

  lemma PlainParts(xs: seq<string>)
    requires |xs| > 0 && AllPlain(xs) && NoNewlines(xs)
    ensures xs == xs[..|xs| - 1] + [xs[|xs| - 1]]
    ensures AllPlain(xs[..|xs| - 1]) && NoNewlines(xs[..|xs| - 1])
    ensures Plain(xs[|xs| - 1]) && '\n' !in xs[|xs| - 1]
  {
    var init := xs[..|xs| - 1];
    assert forall i :: 0 <= i < |init| ==> init[i] == xs[i];
  }

  /** Without any fence or `$$` line, the blocks hold exactly the document's
      non-blank lines, in order. */
  lemma SegmentPlainLines(content: string)
    requires AllPlain(Lines(content))
    ensures BlockLines(Segment(content)) == NonBlankLines(Lines(content))
  {
    var lines := Lines(content);
    RunPlain(Start, lines);
    var fin := Run(Start, lines).acc;
    FlushLines(fin);
    assert Segment(content) == Flush(fin).blocks;
    assert AccLines(Flush(fin)) == BlockLines(Flush(fin).blocks) + [];
  }

  // ---------------------------------------------------------------------
  // Reconstruction when regions do not nest: exactly the lines outside
  // regions that are not blank, and every line read inside a region

  /** A line the pass keeps, read in state s: a line that is not blank, or
      any line read inside a code or math region. */
  predicate KeepsLine(s: SegState, line: string) {
    !IsBlank(line) || s.inCodeBlock || s.inMathBlock
  }

  /** The lines of a document the pass keeps, in order. */
  function KeptLines(lines: seq<string>): seq<string>
    decreases |lines|
  {
    if lines == [] then []
    else
      var init, last := lines[..|lines| - 1], lines[|lines| - 1];
      KeptLines(init) + (if KeepsLine(Run(Start, init), last) then [last] else [])
  }

  /** No `$$` line is read inside code and no fence line inside math. */
  predicate Unnested(s: SegState, line: string) {
    (s.inCodeBlock ==> !IsMathDelimiter(Trim(line))) && (s.inMathBlock ==> !IsFenceLine(Trim(line)))
  }

  predicate NoNesting(lines: seq<string>) {
    forall i :: 0 <= i < |lines| ==> Unnested(Run(Start, lines[..i]), lines[i])
  }

  predicate HeadNonBlank(xs: seq<string>) {
    xs == [] || !IsBlank(xs[0])
  }

  /** The buffer invariant behind exact reconstruction: the buffer starts
      with a line that is not blank, and is not empty inside a region. */
  predicate Kept(s: SegState) {
    NoNewlines(s.acc.current) && HeadNonBlank(s.acc.current)
    && ((s.inCodeBlock || s.inMathBlock) ==> s.acc.current != [])
  }

  /** A buffer that starts with a line that is not blank is emitted whole. */
  lemma FlushKeeps(a: Acc)
    requires NoNewlines(a.current) && HeadNonBlank(a.current)
    ensures AccLines(Flush(a)) == AccLines(a) && Flush(a).current == []
  {
    if |a.current| > 0 {
      JoinNotBlank(a.current);
      FlushEmitLines(a);
    }
  }

  lemma PushHeadNonBlank(xs: seq<string>, line: string)
    requires HeadNonBlank(xs) && !IsBlank(line)
    ensures HeadNonBlank(xs + [line])
  {
    if xs != [] {
      assert (xs + [line])[0] == xs[0];
    }
  }

  lemma TableRowNotBlank(line: string)
    requires IsTableRow(Trim(line))
    ensures !IsBlank(line)
  {
  }

  /** An opening fence or `$$` line, or the first row of a table, starts a
      fresh buffer holding just that line. */
  lemma KeepOpen(st: SegState, line: string, g: Acc)
    requires '\n' !in line && Kept(st) && !IsBlank(line)
    requires g == Push(Flush(st.acc).(blockType := g.blockType), line)
    ensures AccLines(g) == AccLines(st.acc) + [line] && g.current == [line]
  {
    FlushKeeps(st.acc);
    PushLines(Flush(st.acc).(blockType := g.blockType), line);
  }

  lemma StepKeepsOpen(st: SegState, line: string)
    requires '\n' !in line && Kept(st)
    requires var t := Trim(line);
      (IsFenceLine(t) && !st.inCodeBlock) || (!IsFenceLine(t) && IsMathDelimiter(t) && !st.inMathBlock)
    ensures Kept(Step(st, line)) && AccLines(Step(st, line).acc) == AccLines(st.acc) + [line]
  {
    StepOpens(st, line);
    DelimiterNotBlank(line);
    KeepOpen(st, line, Step(st, line).acc);
  }

  lemma StepKeepsClose(st: SegState, line: string)
    requires '\n' !in line && Kept(st) && Unnested(st, line)
    requires var t := Trim(line);
      (IsFenceLine(t) && st.inCodeBlock) || (!IsFenceLine(t) && IsMathDelimiter(t) && st.inMathBlock)
    ensures Kept(Step(st, line)) && AccLines(Step(st, line).acc) == AccLines(st.acc) + [line]
    ensures !Step(st, line).inCodeBlock && !Step(st, line).inMathBlock
  {
    StepCloses(st, line);
    DelimiterNotBlank(line);
    PushHeadNonBlank(st.acc.current, line);
    FlushKeeps(Push(st.acc, line));
    PushLines(st.acc, line);
  }

  lemma StepKeepsAppend(st: SegState, line: string)
    requires '\n' !in line && Kept(st) && Appends(st, line)
    ensures Kept(Step(st, line)) && AccLines(Step(st, line).acc) == AccLines(st.acc) + [line]
    ensures KeepsLine(st, line)
  {
    StepAppends(st, line);
    PushLines(st.acc, line);
    if st.inCodeBlock || st.inMathBlock {
      assert (st.acc.current + [line])[0] == st.acc.current[0];
    } else {
      TableRowNotBlank(line);
      PushHeadNonBlank(st.acc.current, line);
    }
  }

  lemma StepKeepsTable(st: SegState, line: string)
    requires '\n' !in line && Kept(st)
    requires Plain(line) && !st.inCodeBlock && !st.inMathBlock && IsTableRow(Trim(line)) && !st.inTable
    ensures Kept(Step(st, line)) && AccLines(Step(st, line).acc) == AccLines(st.acc) + [line]
    ensures !IsBlank(line)
  {
    StepTableOpens(st, line);
    TableRowNotBlank(line);
    KeepOpen(st, line, Step(st, line).acc);
  }

  lemma StepKeepsOutside(st: SegState, line: string)
    requires '\n' !in line && Kept(st)
    requires Plain(line) && !st.inCodeBlock && !st.inMathBlock && !IsTableRow(Trim(line))
    ensures var s := Step(st, line);
      Kept(s) && AccLines(s.acc) == AccLines(st.acc) + (if IsBlank(line) then [] else [line])
  {
    StepOutside(st, line);
    FlushKeeps(st.acc);
    var b := if st.inTable then Flush(st.acc) else st.acc;
    assert AccLines(b) == AccLines(st.acc) && HeadNonBlank(b.current) && NoNewlines(b.current);
    OutsideKeeps(b, line);
  }

  /** Outside every region, a buffer that starts with a line that is not
      blank stays one, and gains the line exactly when it is not blank. */
  lemma OutsideKeeps(b: Acc, line: string)
    requires '\n' !in line && NoNewlines(b.current) && HeadNonBlank(b.current)
    ensures var r := OutsideStep(b, line, Trim(line));
      NoNewlines(r.current) && HeadNonBlank(r.current)
      && AccLines(r) == AccLines(b) + (if IsBlank(line) then [] else [line])
  {
    FlushKeeps(b);
    OutsideShape(b, line);
    if !IsBlank(line) {
      PushHeadNonBlank(b.current, line);
    }
  }

  /** One step keeps the invariant and adds the line to the held lines
      exactly when the pass keeps it. */
  lemma StepKeeps(st: SegState, line: string)
    requires '\n' !in line && Kept(st) && Unnested(st, line)
    ensures Kept(Step(st, line))
    ensures AccLines(Step(st, line).acc) == AccLines(st.acc) + (if KeepsLine(st, line) then [line] else [])
  {
    var t := Trim(line);
    if (IsFenceLine(t) && !st.inCodeBlock) || (!IsFenceLine(t) && IsMathDelimiter(t) && !st.inMathBlock) {
      StepKeepsOpen(st, line);
      DelimiterNotBlank(line);
    } else if IsFenceLine(t) || IsMathDelimiter(t) {
      StepKeepsClose(st, line);
    } else if Appends(st, line) {
      StepKeepsAppend(st, line);
    } else if IsTableRow(t) {
      StepKeepsTable(st, line);
    } else {
      StepKeepsOutside(st, line);
    }
  }

  lemma NoNestingInit(lines: seq<string>)
    requires |lines| > 0 && NoNesting(lines)
    ensures NoNesting(lines[..|lines| - 1])
    ensures Unnested(Run(Start, lines[..|lines| - 1]), lines[|lines| - 1])
  {
    var init := lines[..|lines| - 1];
    forall i | 0 <= i < |init| ensures Unnested(Run(Start, init[..i]), init[i]) {
      assert init[..i] == lines[..i] && init[i] == lines[i];
    }
    assert Unnested(Run(Start, lines[..|init|]), lines[|init|]);
  }

  lemma NoNewlinesInit(lines: seq<string>)
    requires |lines| > 0 && NoNewlines(lines)
    ensures NoNewlines(lines[..|lines| - 1]) && '\n' !in lines[|lines| - 1]
  {
    var init := lines[..|lines| - 1];
    assert forall i :: 0 <= i < |init| ==> init[i] == lines[i];
  }

  lemma {:induction false} RunKeeps(lines: seq<string>)
    requires NoNewlines(lines) && NoNesting(lines)
    ensures Kept(Run(Start, lines)) && AccLines(Run(Start, lines).acc) == KeptLines(lines)
    decreases |lines|
  {
    if lines != [] {
      var init, last := lines[..|lines| - 1], lines[|lines| - 1];
      var s := Run(Start, init);
      assert Kept(s) && AccLines(s.acc) == KeptLines(init) && '\n' !in last && Unnested(s, last) by {
        NoNestingInit(lines);
        NoNewlinesInit(lines);
        RunKeeps(init);
      }
      RunLast(lines);
      StepKeeps(s, last);
    }
  }

  /** Reading a non-empty sequence of lines ends with its last line. */
  lemma RunLast(lines: seq<string>)
    requires |lines| > 0
    ensures Run(Start, lines) == Step(Run(Start, lines[..|lines| - 1]), lines[|lines| - 1])
  {
    SnocSplit(lines);
    RunSnoc(Start, lines[..|lines| - 1], lines[|lines| - 1]);
  }

  lemma SnocSplit(xs: seq<string>)
    requires |xs| > 0
    ensures xs == xs[..|xs| - 1] + [xs[|xs| - 1]]
  {
  }

  /** Why the exact form needs regions not to nest: in the lines
      ```` ``` ````, `$$`, ```` ``` ````, blank, the closing fence flushes the math
      block and leaves the math flag set, so the blank line is read inside
      math, appended to an empty buffer and dropped by the final flush. */
  lemma NestedRegionsDropBlank()
    ensures Run(Start, ["```", "$$", "```"]).inMathBlock
    ensures !NoNesting(["```", "$$", "```", ""])
    ensures Flush(Run(Start, ["```", "$$", "```", ""]).acc).blocks
         == [Block(BlockId(0), Code, "```", None), Block(BlockId(1), Math, "$$\n```", None)]
  {
    var s1 := SegState(Acc([], ["```"], Code, 0), true, false, false);
    var s2 := SegState(Acc([Block(BlockId(0), Code, "```", None)], ["$$"], Math, 1), true, true, false);
    var s3 := SegState(Acc([Block(BlockId(0), Code, "```", None), Block(BlockId(1), Math, "$$\n```", None)],
                           [], Paragraph, 2), false, true, false);
    assert Run(Start, ["```", "$$", "```"]) == s3 by {
      NestedOpenFence(s1);
      NestedOpenMath(s1, s2);
      NestedCloseFence(s2, s3);
      NestedRun(s1, s2, s3);
    }
    assert Flush(Run(Start, ["```", "$$", "```", ""]).acc).blocks == s3.acc.blocks by {
      NestedLines();
      BlankAfter(["```", "$$", "```"], s3);
    }
    assert !NoNesting(["```", "$$", "```", ""]) by {
      NestedOpenFence(s1);
      NestedDelimiter(s1);
    }
  }

  lemma NestedLines()
    ensures ["```", "$$", "```", ""] == ["```", "$$", "```"] + [""]
  {
  }

  lemma NestedOpenFence(s1: SegState)
    requires s1 == SegState(Acc([], ["```"], Code, 0), true, false, false)
    ensures Step(Start, "```") == s1
  {
    TrimUnpadded("```");
    assert "```"[3..] == "";
  }

  lemma NestedOpenMath(s1: SegState, s2: SegState)
    requires s1 == SegState(Acc([], ["```"], Code, 0), true, false, false)
    requires s2 == SegState(Acc([Block(BlockId(0), Code, "```", None)], ["$$"], Math, 1), true, true, false)
    ensures Step(s1, "$$") == s2
  {
    TrimUnpadded("$$");
    TrimUnpadded("```");
    assert Join(["```"], "\n") == "```";
  }

  lemma NestedCloseFence(s2: SegState, s3: SegState)
    requires s2 == SegState(Acc([Block(BlockId(0), Code, "```", None)], ["$$"], Math, 1), true, true, false)
    requires s3 == SegState(Acc([Block(BlockId(0), Code, "```", None), Block(BlockId(1), Math, "$$\n```", None)],
                                [], Paragraph, 2), false, true, false)
    ensures Step(s2, "```") == s3
  {
    TrimUnpadded("```");
    assert Push(s2.acc, "```") == Acc([Block(BlockId(0), Code, "```", None)], ["$$", "```"], Math, 1);
    FlushTwoLines([Block(BlockId(0), Code, "```", None)], "$$", "```", Math, 1);
    assert "$$" + "\n" + "```" == "$$\n```";
  }

  /** Flushing a two-line buffer whose first line starts with a visible
      character emits both lines as one block. */
  lemma FlushTwoLines(blocks: seq<Block>, x: string, y: string, t: BlockType, id: nat)
    requires x != "" && !IsWhitespace(x[0])
    ensures Flush(Acc(blocks, [x, y], t, id))
         == Acc(blocks + [Block(BlockId(id), t, x + "\n" + y, None)], [], Paragraph, id + 1)
  {
    assert [x, y][1..] == [y];
    assert Join([x, y], "\n") == x + "\n" + y;
    TrimOfNonBlankStart(x + "\n" + y);
  }

  lemma NestedDelimiter(s1: SegState)
    requires s1 == Step(Start, "```") && s1.inCodeBlock
    ensures !NoNesting(["```", "$$", "```", ""])
  {
    var lines := ["```", "$$", "```", ""];
    assert lines[..1] == ["```"] && lines[1] == "$$";
    assert Run(Start, ["```"]) == s1 by {
      assert ["```"][1..] == [];
    }
    TrimUnpadded("$$");
    NestedAt(lines, 1);
  }

  /** A line that nests inside the region open before it breaks NoNesting. */
  lemma NestedAt(lines: seq<string>, i: nat)
    requires i < |lines| && !Unnested(Run(Start, lines[..i]), lines[i])
    ensures !NoNesting(lines)
  {
  }

  lemma NestedRun(s1: SegState, s2: SegState, s3: SegState)
    requires s1 == Step(Start, "```") && s2 == Step(s1, "$$") && s3 == Step(s2, "```")
    ensures Run(Start, ["```", "$$", "```"]) == s3
  {
    assert ["```", "$$", "```"][1..] == ["$$", "```"];
    assert ["$$", "```"][1..] == ["```"];
    assert ["```"][1..] == [];
  }

  lemma BlankAfter(xs: seq<string>, s: SegState)
    requires Run(Start, xs) == s && s.inMathBlock && !s.inCodeBlock && s.acc.current == []
    ensures Flush(Run(Start, xs + [""]).acc).blocks == s.acc.blocks
  {
    RunSnoc(Start, xs, "");
    BlankInMath(s);
  }

  /** A blank line read inside math into an empty buffer is dropped by the
      next flush. */
  lemma BlankInMath(s: SegState)
    requires s.inMathBlock && !s.inCodeBlock && s.acc.current == []
    ensures Flush(Step(s, "").acc).blocks == s.acc.blocks
  {
    assert Trim("") == "";
    assert Step(s, "").acc.current == [""];
    assert Join([""], "\n") == "";
  }

  lemma TrimUnpadded(s: string)
    requires |s| > 0 && !IsWhitespace(s[0]) && !IsWhitespace(s[|s| - 1])
    ensures Trim(s) == s
  {
    assert LeadingWhitespace(s) == 0;
    assert s[0..] == s;
    assert TrailingWhitespaceStart(s) == |s|;
  }

  /** When no `$$` line is read inside code and no fence line inside math,
      the blocks hold exactly the lines the pass keeps, in order: every line
      that is not blank, and every line read inside a code or math region.
      Only blank lines read outside every region are dropped. */
  lemma SegmentKeepsLines(content: string)
    requires NoNesting(Lines(content))
    ensures BlockLines(Segment(content)) == KeptLines(Lines(content))
  {
    var lines := Lines(content);
    RunKeeps(lines);
    var fin := Run(Start, lines).acc;
    FlushKeeps(fin);
    assert Segment(content) == Flush(fin).blocks;
    assert AccLines(Flush(fin)) == BlockLines(Flush(fin).blocks) + [];
  }

  // ---------------------------------------------------------------------
  // Well-formed blocks

  /** What every emitted block satisfies, for the block at position k. */
  predicate BlockOk(b: Block, k: nat) {
    b.id == BlockId(k) && Trim(b.content) != "" && b.btype != Html
    && (b.level.Some? <==> b.btype == Heading)
    && (b.btype == Heading ==> b.level == HeadingLevel(b.content))
    && ((b.btype == Heading || b.btype == Hr || b.btype == Image) ==> '\n' !in b.content)
  }

  /** The accumulator invariant: well-formed blocks, the counter equal to
      their number, and a buffer type that flushBlock may emit. */
  predicate AccOk(a: Acc) {
    a.blockId == |a.blocks|
    && (forall k :: 0 <= k < |a.blocks| ==> BlockOk(a.blocks[k], k))
    && a.blockType != Heading && a.blockType != Hr && a.blockType != Image && a.blockType != Html
  }

  lemma FlushOk(a: Acc)
    requires AccOk(a)
    ensures AccOk(Flush(a)) && a.blocks <= Flush(a).blocks
  {
    if |a.current| > 0 && Trim(Join(a.current, "\n")) != "" {
      var b := Block(BlockId(a.blockId), a.blockType, Join(a.current, "\n"), None);
      assert BlockOk(b, a.blockId);
      AppendOk(a.blocks, b);
    }
  }

  /** A well-formed block at the next position keeps the blocks well formed. */
  lemma AppendOk(blocks: seq<Block>, b: Block)
    requires forall k :: 0 <= k < |blocks| ==> BlockOk(blocks[k], k)
    requires BlockOk(b, |blocks|)
    ensures forall k :: 0 <= k < |blocks + [b]| ==> BlockOk((blocks + [b])[k], k)
    ensures blocks <= blocks + [b]
  {
    forall k | 0 <= k < |blocks + [b]| ensures BlockOk((blocks + [b])[k], k) {
      if k < |blocks| {
        assert (blocks + [b])[k] == blocks[k];
      }
    }
  }

  lemma EmitOk(f: Acc, t: BlockType, line: string, level: Option<nat>)
    requires AccOk(f) && BlockOk(Block(BlockId(f.blockId), t, line, level), f.blockId)
    ensures AccOk(Emit(f, t, line, level)) && f.blocks <= Emit(f, t, line, level).blocks
  {
    AppendOk(f.blocks, Block(BlockId(f.blockId), t, line, level));
  }

  lemma OutsideEmitOk(a: Acc, line: string)
    requires AccOk(a) && '\n' !in line && EmitsLine(line)
    ensures var r := OutsideStep(a, line, Trim(line)); AccOk(r) && a.blocks <= r.blocks
  {
    var t := Trim(line);
    FlushOk(a);
    var f := Flush(a);
    if HeadingLevel(line).Some? {
      EmitOk(f, Heading, line, HeadingLevel(line));
    } else if IsHorizontalRule(t) {
      EmitOk(f, Hr, line, None);
    } else {
      EmitOk(f, Image, line, None);
    }
  }

  lemma OutsideOk(a: Acc, line: string)
    requires AccOk(a) && '\n' !in line
    ensures var r := OutsideStep(a, line, Trim(line)); AccOk(r) && a.blocks <= r.blocks
  {
    var t := Trim(line);
    FlushOk(a);
    if t == "" {
      assert OutsideStep(a, line, t) == if |a.current| > 0 then Flush(a) else a;
    } else if EmitsLine(line) {
      OutsideEmitOk(a, line);
    } else {
      OutsidePushes(a, line);
      PushTargetOk(a, t);
      var b := PushTarget(a, t);
      assert Push(b, line).blocks == b.blocks && Push(b, line).blockType == b.blockType;
    }
  }

  lemma PushTargetOk(a: Acc, t: string)
    requires AccOk(a)
    ensures AccOk(PushTarget(a, t)) && a.blocks <= PushTarget(a, t).blocks
  {
    FlushOk(a);
    var f := Flush(a);
    var b := PushTarget(a, t);
    assert b == a || b == f.(blockType := Blockquote) || b == f.(blockType := List) || b == f.(blockType := Paragraph);
  }

  lemma StepOk(st: SegState, line: string)
    requires AccOk(st.acc) && '\n' !in line
    ensures AccOk(Step(st, line).acc) && st.acc.blocks <= Step(st, line).acc.blocks
  {
    var t := Trim(line);
    var a := st.acc;
    FlushOk(a);
    if IsFenceLine(t) || IsMathDelimiter(t) {
      if (IsFenceLine(t) && !st.inCodeBlock) || (!IsFenceLine(t) && IsMathDelimiter(t) && !st.inMathBlock) {
        StepOpens(st, line);
      } else {
        StepCloses(st, line);
        FlushOk(Push(a, line));
      }
    } else if Appends(st, line) {
      StepAppends(st, line);
    } else if IsTableRow(t) {
      StepTableOpens(st, line);
    } else {
      StepOutside(st, line);
      var b := if st.inTable then Flush(a) else a;
      OutsideOk(b, line);
    }
  }

  lemma {:induction false} RunOk(st: SegState, xs: seq<string>)
    requires AccOk(st.acc) && NoNewlines(xs)
    ensures AccOk(Run(st, xs).acc) && st.acc.blocks <= Run(st, xs).acc.blocks
    decreases |xs|
  {
    if xs != [] {
      var init, last := xs[..|xs| - 1], xs[|xs| - 1];
      assert xs == init + [last];
      RunSnoc(st, init, last);
      RunOk(st, init);
      StepOk(Run(st, init), last);
    }
  }

  /** Every block of a document: ids block-0, block-1, ... in order;
      non-blank content; never of type html; a level exactly on headings,
      equal to the number of leading '#' (1 to 6) of its single line;
      horizontal rules and images are single lines too. */
  lemma SegmentWellFormed(content: string)
    ensures var bs := Segment(content);
      forall k :: 0 <= k < |bs| ==>
        bs[k].id == BlockId(k) && Trim(bs[k].content) != "" && bs[k].btype != Html
        && (bs[k].level.Some? <==> bs[k].btype == Heading)
        && (bs[k].btype == Heading ==>
              1 <= bs[k].level.value <= 6 && bs[k].level.value == CountLeading(bs[k].content, '#')
              && bs[k].level == HeadingLevel(bs[k].content))
        && ((bs[k].btype == Heading || bs[k].btype == Hr || bs[k].btype == Image) ==> '\n' !in bs[k].content)
  {
    var lines := Lines(content);
    RunOk(Start, lines);
    FlushOk(Run(Start, lines).acc);
    var bs := Segment(content);
    forall k | 0 <= k < |bs|
      ensures bs[k].btype == Heading ==>
              1 <= bs[k].level.value <= 6 && bs[k].level.value == CountLeading(bs[k].content, '#')
    {
      assert BlockOk(bs[k], k);
    }
  }

  /** Block ids are unique. */
  lemma SegmentIdsUnique(content: string)
    ensures var bs := Segment(content);
      forall i, j :: 0 <= i < |bs| && 0 <= j < |bs| && i != j ==> bs[i].id != bs[j].id
  {
    SegmentWellFormed(content);
    var bs := Segment(content);
    forall i, j | 0 <= i < |bs| && 0 <= j < |bs| && i != j
      ensures bs[i].id != bs[j].id
    {
      BlockIdInjective(i, j);
    }
  }

  // ---------------------------------------------------------------------
  // Fenced code, math and table regions

  lemma RunSingle(st: SegState, x: string)
    ensures Run(st, [x]) == Step(st, x)
  {
    RunSnoc(st, [], x);
    assert [] + [x] == [x];
  }

  /** Lines that only append leave the flags alone and extend the buffer. */
  lemma {:induction false} AppendRun(st: SegState, body: seq<string>)
    requires forall i :: 0 <= i < |body| ==> Appends(st, body[i])
    ensures Run(st, body) == st.(acc := st.acc.(current := st.acc.current + body))
    decreases |body|
  {
    if body == [] {
      assert st.acc.current + body == st.acc.current;
    } else {
      var init, last := body[..|body| - 1], body[|body| - 1];
      assert body == init + [last];
      RunSnoc(st, init, last);
      AppendRun(st, init);
      StepAppends(Run(st, init), last);
      assert st.acc.current + init + [last] == st.acc.current + body;
    }
  }

  /** A buffer whose first line is not blank is emitted by flushBlock. */
  lemma JoinNotBlank(xs: seq<string>)
    requires |xs| > 0 && !IsBlank(xs[0])
    ensures Trim(Join(xs, "\n")) != ""
  {
    JoinBlank(xs, "\n");
  }

  /** The text of a fence or `$$` line is not blank. */
  lemma DelimiterNotBlank(line: string)
    requires IsFenceLine(Trim(line)) || IsMathDelimiter(Trim(line))
    ensures !IsBlank(line)
  {
  }

  /** After an opening fence or `$$` line and lines that neither open nor
      close anything, the buffer holds exactly those lines. */
  lemma OpenRegionRun(st: SegState, open: string, body: seq<string>)
    requires var t := Trim(open);
      (IsFenceLine(t) && !st.inCodeBlock) || (IsMathDelimiter(t) && !st.inMathBlock)
    requires AllPlain(body)
    ensures var t := Trim(open);
      var acc := Flush(st.acc).(blockType := if IsFenceLine(t) then FenceBlockType(t) else Math,
                                current := [open] + body);
      Run(st, [open] + body) == if IsFenceLine(t) then st.(acc := acc, inCodeBlock := true)
                                else st.(acc := acc, inMathBlock := true)
  {
    StepOpens(st, open);
    var s1 := Step(st, open);
    FlushEmpties(st.acc);
    assert s1.acc.current == [open];
    InsideAppends(s1, body);
    AppendRun(s1, body);
    RunSingle(st, open);
    RunAppend(st, [open], body);
  }

  lemma FlushEmpties(a: Acc)
    ensures Flush(a).current == []
  {
  }

  /** Inside a region, every line that neither opens nor closes one appends. */
  lemma InsideAppends(s: SegState, body: seq<string>)
    requires (s.inCodeBlock || s.inMathBlock) && AllPlain(body)
    ensures forall i :: 0 <= i < |body| ==> Appends(s, body[i])
  {
  }

  /** The closing line appends and flushes a buffer that starts with the
      opening line, so one block is emitted. */
  lemma CloseRegion(s: SegState, lines: seq<string>, close: string)
    requires var t := Trim(close);
      (IsFenceLine(t) && s.inCodeBlock) || (IsMathDelimiter(t) && !IsFenceLine(t) && s.inMathBlock)
    requires s.acc.current == lines && |lines| > 0 && !IsBlank(lines[0])
    ensures var acc := Acc(s.acc.blocks + [Block(BlockId(s.acc.blockId), s.acc.blockType, Join(lines + [close], "\n"), None)],
                           [], Paragraph, s.acc.blockId + 1);
      Step(s, close) == if IsFenceLine(Trim(close)) then s.(acc := acc, inCodeBlock := false)
                        else s.(acc := acc, inMathBlock := false)
  {
    StepCloses(s, close);
    JoinNotBlank(lines + [close]);
  }

  /** A closed fence outside code becomes exactly one block: every line from
      the opening fence to the closing fence, typed by the opening fence's
      language tag. Whatever was buffered before is flushed first; the math
      and table flags are left as they were. */
  lemma FencedCodeBlock(st: SegState, open: string, body: seq<string>, close: string)
    requires !st.inCodeBlock && IsFenceLine(Trim(open)) && IsFenceLine(Trim(close)) && AllPlain(body)
    ensures var f := Flush(st.acc);
      Run(st, [open] + body + [close])
      == st.(acc := Acc(f.blocks + [Block(BlockId(f.blockId), FenceBlockType(Trim(open)),
                                          Join([open] + body + [close], "\n"), None)],
                        [], Paragraph, f.blockId + 1),
             inCodeBlock := false)
  {
    OpenRegionRun(st, open, body);
    DelimiterNotBlank(open);
    CloseRegion(Run(st, [open] + body), [open] + body, close);
    RunSnoc(st, [open] + body, close);
  }

  /** A closed `$$` region outside math becomes exactly one math block. */
  lemma MathRegionBlock(st: SegState, open: string, body: seq<string>, close: string)
    requires !st.inMathBlock && IsMathDelimiter(Trim(open)) && IsMathDelimiter(Trim(close)) && AllPlain(body)
    ensures var f := Flush(st.acc);
      Run(st, [open] + body + [close])
      == st.(acc := Acc(f.blocks + [Block(BlockId(f.blockId), Math, Join([open] + body + [close], "\n"), None)],
                        [], Paragraph, f.blockId + 1),
             inMathBlock := false)
  {
    OpenRegionRun(st, open, body);
    DelimiterNotBlank(open);
    CloseRegion(Run(st, [open] + body), [open] + body, close);
    RunSnoc(st, [open] + body, close);
  }

  /** A fence that is never closed keeps every later line, up to the end of
      the input, in its block, which the final flush emits. */
  lemma UnclosedFence(st: SegState, open: string, rest: seq<string>)
    requires !st.inCodeBlock && IsFenceLine(Trim(open)) && AllPlain(rest)
    ensures var f := Flush(st.acc);
      Flush(Run(st, [open] + rest).acc).blocks
      == f.blocks + [Block(BlockId(f.blockId), FenceBlockType(Trim(open)), Join([open] + rest, "\n"), None)]
  {
    OpenRegionRun(st, open, rest);
    DelimiterNotBlank(open);
    JoinNotBlank([open] + rest);
  }

  lemma {:induction false} TableRowsRun(st: SegState, rows: seq<string>)
    requires !st.inCodeBlock && !st.inMathBlock && !st.inTable && |rows| > 0
    requires forall i :: 0 <= i < |rows| ==> IsTableRow(Trim(rows[i]))
    ensures Run(st, rows) == st.(acc := Flush(st.acc).(blockType := Table, current := rows), inTable := true)
  {
    var first, more := rows[0], rows[1..];
    TableRowsPlain(rows);
    StepTableOpens(st, first);
    var s1 := Step(st, first);
    FlushEmpties(st.acc);
    assert s1.acc.current == [first];
    TableAppends(s1, more);
    AppendRun(s1, more);
    RunSingle(st, first);
    assert rows == [first] + more;
    RunAppend(st, [first], more);
  }

  /** A table row is neither a fence nor a `$$` line. */
  lemma TableRowsPlain(rows: seq<string>)
    requires forall i :: 0 <= i < |rows| ==> IsTableRow(Trim(rows[i]))
    ensures AllPlain(rows)
  {
  }

  /** Inside a table, every further row appends. */
  lemma TableAppends(s: SegState, more: seq<string>)
    requires !s.inCodeBlock && !s.inMathBlock && s.inTable
    requires forall i :: 0 <= i < |more| ==> IsTableRow(Trim(more[i]))
    ensures forall i :: 0 <= i < |more| ==> Appends(s, more[i])
  {
    TableRowsPlain(more);
  }

  /** A maximal run of table rows becomes exactly one table block, emitted
      when the first following non-row line arrives. */
  lemma TableRun(st: SegState, rows: seq<string>, next: string)
    requires !st.inCodeBlock && !st.inMathBlock && !st.inTable && |rows| > 0
    requires forall i :: 0 <= i < |rows| ==> IsTableRow(Trim(rows[i]))
    requires Plain(next) && !IsTableRow(Trim(next))
    ensures var f := Flush(st.acc);
      var table := Block(BlockId(f.blockId), Table, Join(rows, "\n"), None);
      var s := Run(st, rows);
      Flush(s.acc).blocks == f.blocks + [table]
      && Run(st, rows + [next]) == Step(s, next)
      && Step(s, next).acc == OutsideStep(Flush(s.acc), next, Trim(next))
      && !Step(s, next).inTable
  {
    TableRowsRun(st, rows);
    var s := Run(st, rows);
    StepOutside(s, next);
    assert !IsBlank(rows[0]) by { assert IsTableRow(Trim(rows[0])); }
    JoinNotBlank(rows);
    RunSnoc(st, rows, next);
  }

  /** Flushing a table buffer emits it as one table block. */
  lemma FlushTable(a: Acc, rows: seq<string>)
    requires a.current == rows && a.blockType == Table && |rows| > 0 && IsTableRow(Trim(rows[0]))
    ensures Flush(a).blocks == a.blocks + [Block(BlockId(a.blockId), Table, Join(rows, "\n"), None)]
    ensures Flush(a).blockId == a.blockId + 1
  {
    assert !IsBlank(rows[0]);
    JoinNotBlank(rows);
  }

  /** A fence or `$$` line after a run of table rows flushes the table as
      one block before it opens its region. */
  lemma TableClosedByRegion(st: SegState, rows: seq<string>, next: string)
    requires !st.inCodeBlock && !st.inMathBlock && !st.inTable && |rows| > 0
    requires forall i :: 0 <= i < |rows| ==> IsTableRow(Trim(rows[i]))
    requires !Plain(next)
    ensures var f := Flush(st.acc);
      Run(st, rows + [next]).acc.blocks == f.blocks + [Block(BlockId(f.blockId), Table, Join(rows, "\n"), None)]
  {
    var s := Run(st, rows);
    assert s == st.(acc := Flush(st.acc).(blockType := Table, current := rows), inTable := true) by {
      TableRowsRun(st, rows);
    }
    assert Step(s, next).acc.blocks == Flush(s.acc).blocks by {
      StepOpens(s, next);
    }
    FlushTable(s.acc, rows);
    RunSnoc(st, rows, next);
  }

  /** A run of table rows at the end of the input is one table block,
      emitted by the final flush. */
  lemma TableAtEnd(st: SegState, rows: seq<string>)
    requires !st.inCodeBlock && !st.inMathBlock && !st.inTable && |rows| > 0
    requires forall i :: 0 <= i < |rows| ==> IsTableRow(Trim(rows[i]))
    ensures var f := Flush(st.acc);
      Flush(Run(st, rows).acc).blocks == f.blocks + [Block(BlockId(f.blockId), Table, Join(rows, "\n"), None)]
  {
    TableRowsRun(st, rows);
    FlushTable(Run(st, rows).acc, rows);
  }

  // ---------------------------------------------------------------------
  // The same facts for whole documents

  lemma NoNewlinesParts(xs: seq<string>, ys: seq<string>)
    requires NoNewlines(xs + ys)
    ensures NoNewlines(xs) && NoNewlines(ys)
  {
    assert forall i :: 0 <= i < |xs| ==> xs[i] == (xs + ys)[i];
    assert forall i :: 0 <= i < |ys| ==> ys[i] == (xs + ys)[|xs| + i];
  }

  lemma Regroup(a: seq<string>, b: seq<string>, c: seq<string>, d: seq<string>)
    ensures a + (b + c + d) == a + b + c + d
  {
  }

  /** A block emitted while reading a prefix of the document is a block of
      the document, at the same position. */
  lemma KeptToEnd(content: string, xs: seq<string>, ys: seq<string>, k: nat)
    requires Lines(content) == xs + ys
    requires k < |Run(Start, xs).acc.blocks|
    ensures k < |Segment(content)| && Segment(content)[k] == Run(Start, xs).acc.blocks[k]
  {
    NoNewlinesParts(xs, ys);
    RunOk(Start, xs);
    RunOk(Run(Start, xs), ys);
    RunAppend(Start, xs, ys);
    FlushOk(Run(Start, xs + ys).acc);
  }

  /** Reading any prefix from the start leaves a well-formed accumulator,
      and flushing it keeps it well formed. */
  lemma PrefixOk(pre: seq<string>)
    requires NoNewlines(pre)
    ensures AccOk(Run(Start, pre).acc) && AccOk(Flush(Run(Start, pre).acc))
  {
    RunOk(Start, pre);
    FlushOk(Run(Start, pre).acc);
  }

  lemma FenceAfterPrefix(pre: seq<string>, open: string, body: seq<string>, close: string)
    requires NoNewlines(pre) && !Run(Start, pre).inCodeBlock && AllPlain(body)
    requires IsFenceLine(Trim(open)) && IsFenceLine(Trim(close))
    ensures var k := |Flush(Run(Start, pre).acc).blocks|;
      var bs := Run(Start, pre + [open] + body + [close]).acc.blocks;
      k < |bs| && bs[k] == Block(BlockId(k), FenceBlockType(Trim(open)), Join([open] + body + [close], "\n"), None)
  {
    PrefixOk(pre);
    var s0 := Run(Start, pre);
    var region := [open] + body + [close];
    FencedCodeBlock(s0, open, body, close);
    var f := Flush(s0.acc);
    assert f.blockId == |f.blocks|;
    var bs := Run(s0, region).acc.blocks;
    assert bs == f.blocks + [Block(BlockId(f.blockId), FenceBlockType(Trim(open)), Join(region, "\n"), None)];
    RunAppend(Start, pre, region);
    Regroup(pre, [open], body, [close]);
  }

  lemma MathAfterPrefix(pre: seq<string>, open: string, body: seq<string>, close: string)
    requires NoNewlines(pre) && !Run(Start, pre).inMathBlock && AllPlain(body)
    requires IsMathDelimiter(Trim(open)) && IsMathDelimiter(Trim(close))
    ensures var k := |Flush(Run(Start, pre).acc).blocks|;
      var bs := Run(Start, pre + [open] + body + [close]).acc.blocks;
      k < |bs| && bs[k] == Block(BlockId(k), Math, Join([open] + body + [close], "\n"), None)
  {
    PrefixOk(pre);
    var s0 := Run(Start, pre);
    var region := [open] + body + [close];
    MathRegionBlock(s0, open, body, close);
    var f := Flush(s0.acc);
    assert f.blockId == |f.blocks|;
    var bs := Run(s0, region).acc.blocks;
    assert bs == f.blocks + [Block(BlockId(f.blockId), Math, Join(region, "\n"), None)];
    RunAppend(Start, pre, region);
    Regroup(pre, [open], body, [close]);
  }

  /** In a document, a fence read outside code and closed by a later fence,
      with no fence or `$$` line between them, becomes one block holding the
      lines from the opening fence to the closing one; it is a mermaid block
      exactly when the opening fence's tag is "mermaid". */
  lemma FenceInDocument(content: string, pre: seq<string>, open: string, body: seq<string>,
                        close: string, post: seq<string>)
    requires Lines(content) == pre + [open] + body + [close] + post
    requires !Run(Start, pre).inCodeBlock
    requires AllPlain(body) && IsFenceLine(Trim(open)) && IsFenceLine(Trim(close))
    ensures exists k :: (0 <= k < |Segment(content)|
      && Segment(content)[k] == Block(BlockId(k), FenceBlockType(Trim(open)), Join([open] + body + [close], "\n"), None)
      && (Segment(content)[k].btype == Mermaid <==> Trim(Trim(open)[3..]) == "mermaid"))
  {
    var region := [open] + body + [close];
    NoNewlinesParts(pre + [open] + body + [close], post);
    NoNewlinesParts(pre + [open] + body, [close]);
    NoNewlinesParts(pre + [open], body);
    NoNewlinesParts(pre, [open]);
    FenceAfterPrefix(pre, open, body, close);
    var k := |Flush(Run(Start, pre).acc).blocks|;
    KeptToEnd(content, pre + [open] + body + [close], post, k);
    var b := Segment(content)[k];
    assert b == Block(BlockId(k), FenceBlockType(Trim(open)), Join(region, "\n"), None);
    assert b.btype == Mermaid <==> Trim(Trim(open)[3..]) == "mermaid";
  }

  /** In a document, a `$$` line read outside math and closed by a later
      one, with no fence or `$$` line between them, becomes one math block. */
  lemma MathInDocument(content: string, pre: seq<string>, open: string, body: seq<string>,
                       close: string, post: seq<string>)
    requires Lines(content) == pre + [open] + body + [close] + post
    requires !Run(Start, pre).inMathBlock
    requires AllPlain(body) && IsMathDelimiter(Trim(open)) && IsMathDelimiter(Trim(close))
    ensures exists k :: (0 <= k < |Segment(content)|
      && Segment(content)[k] == Block(BlockId(k), Math, Join([open] + body + [close], "\n"), None))
  {
    var region := [open] + body + [close];
    NoNewlinesParts(pre + [open] + body + [close], post);
    NoNewlinesParts(pre + [open] + body, [close]);
    NoNewlinesParts(pre + [open], body);
    NoNewlinesParts(pre, [open]);
    MathAfterPrefix(pre, open, body, close);
    var k := |Flush(Run(Start, pre).acc).blocks|;
    KeptToEnd(content, pre + [open] + body + [close], post, k);
    assert Segment(content)[k] == Block(BlockId(k), Math, Join(region, "\n"), None);
  }

  lemma UnclosedAfterPrefix(pre: seq<string>, open: string, rest: seq<string>)
    requires NoNewlines(pre) && !Run(Start, pre).inCodeBlock && AllPlain(rest) && IsFenceLine(Trim(open))
    ensures var f := Flush(Run(Start, pre).acc);
      Flush(Run(Start, pre + [open] + rest).acc).blocks
      == f.blocks + [Block(BlockId(|f.blocks|), FenceBlockType(Trim(open)), Join([open] + rest, "\n"), None)]
  {
    var s0 := Run(Start, pre);
    var f := Flush(s0.acc);
    var b := Block(BlockId(f.blockId), FenceBlockType(Trim(open)), Join([open] + rest, "\n"), None);
    assert f.blockId == |f.blocks| by {
      PrefixOk(pre);
    }
    assert Flush(Run(s0, [open] + rest).acc).blocks == f.blocks + [b] by {
      UnclosedFence(s0, open, rest);
    }
    FlushedAfterPrefix(pre, open, rest, f.blocks + [b]);
  }

  lemma FlushedAfterPrefix(pre: seq<string>, open: string, rest: seq<string>, bs: seq<Block>)
    requires Flush(Run(Run(Start, pre), [open] + rest).acc).blocks == bs
    ensures Flush(Run(Start, pre + [open] + rest).acc).blocks == bs
  {
    ConsAssoc(pre, open, rest);
    RunAppend(Start, pre, [open] + rest);
  }

  lemma ConsAssoc(pre: seq<string>, open: string, rest: seq<string>)
    ensures pre + ([open] + rest) == pre + [open] + rest
  {
  }

  /** In a document, a fence read outside code and never closed (no fence
      or `$$` line after it) yields one final block holding every line from
      the fence to the end of the input. */
  lemma UnclosedFenceInDocument(content: string, pre: seq<string>, open: string, rest: seq<string>)
    requires Lines(content) == pre + [open] + rest
    requires !Run(Start, pre).inCodeBlock
    requires AllPlain(rest) && IsFenceLine(Trim(open))
    ensures var bs := Segment(content);
      |bs| > 0
      && bs[|bs| - 1] == Block(BlockId(|bs| - 1), FenceBlockType(Trim(open)), Join([open] + rest, "\n"), None)
  {
    assert NoNewlines(pre) by {
      NoNewlinesParts(pre + [open], rest);
      NoNewlinesParts(pre, [open]);
    }
    assert Segment(content) == Flush(Run(Start, pre + [open] + rest).acc).blocks;
    UnclosedAfterPrefix(pre, open, rest);
  }

  /** The state a table run can start from: no region and no table open. */
  predicate Outside(s: SegState) {
    !s.inCodeBlock && !s.inMathBlock && !s.inTable
  }

  lemma TableAfterPrefix(pre: seq<string>, rows: seq<string>, next: string)
    requires NoNewlines(pre) && Outside(Run(Start, pre))
    requires NoNewlines(rows) && '\n' !in next
    requires |rows| > 0 && forall i :: 0 <= i < |rows| ==> IsTableRow(Trim(rows[i]))
    requires !IsTableRow(Trim(next))
    ensures var k := |Flush(Run(Start, pre).acc).blocks|;
      HasBlockAt(Run(Start, pre + (rows + [next])).acc.blocks, k, Block(BlockId(k), Table, Join(rows, "\n"), None))
  {
    var s0 := Run(Start, pre);
    var k := |Flush(s0.acc).blocks|;
    var b := Block(BlockId(k), Table, Join(rows, "\n"), None);
    assert Flush(s0.acc).blockId == k by {
      PrefixOk(pre);
    }
    if Plain(next) {
      assert HasBlockAt(Run(s0, rows + [next]).acc.blocks, k, b) by {
        PrefixOk(pre);
        TableRun(s0, rows, next);
        var s := Run(s0, rows);
        RunOk(s0, rows);
        FlushOk(s.acc);
        OutsideOk(Flush(s.acc), next);
      }
    } else {
      assert HasBlockAt(Run(s0, rows + [next]).acc.blocks, k, b) by {
        TableClosedByRegion(s0, rows, next);
      }
    }
    RunAppend(Start, pre, rows + [next]);
  }

  /** In a document, a maximal run of table rows read with no region and no
      table open becomes one table block holding exactly those rows. */
  lemma TableInDocument(content: string, pre: seq<string>, rows: seq<string>, next: string, post: seq<string>)
    requires Lines(content) == pre + rows + [next] + post
    requires Outside(Run(Start, pre))
    requires |rows| > 0 && forall i :: 0 <= i < |rows| ==> IsTableRow(Trim(rows[i]))
    requires !IsTableRow(Trim(next))
    ensures exists k :: (0 <= k < |Segment(content)|
      && Segment(content)[k] == Block(BlockId(k), Table, Join(rows, "\n"), None))
  {
    TableParts(content, pre, rows, next, post);
    TableAfterPrefix(pre, rows, next);
    var k := |Flush(Run(Start, pre).acc).blocks|;
    BlockInDocument(content, pre + (rows + [next]), post, k, Block(BlockId(k), Table, Join(rows, "\n"), None));
  }

  /** In a document ending in a run of table rows read with no region and no
      table open, the last block is the table holding exactly those rows. */
  lemma TableAtEndOfDocument(content: string, pre: seq<string>, rows: seq<string>)
    requires Lines(content) == pre + rows
    requires Outside(Run(Start, pre))
    requires |rows| > 0 && forall i :: 0 <= i < |rows| ==> IsTableRow(Trim(rows[i]))
    ensures var bs := Segment(content);
      |bs| > 0 && bs[|bs| - 1] == Block(BlockId(|bs| - 1), Table, Join(rows, "\n"), None)
  {
    var s0 := Run(Start, pre);
    var f := Flush(s0.acc);
    var bs := f.blocks + [Block(BlockId(f.blockId), Table, Join(rows, "\n"), None)];
    assert f.blockId == |f.blocks| by {
      NoNewlinesParts(pre, rows);
      PrefixOk(pre);
    }
    assert Flush(Run(s0, rows).acc).blocks == bs by {
      TableAtEnd(s0, rows);
    }
    SegmentAfterPrefix(content, pre, rows, bs);
  }

  /** What the final flush emits after reading the rest from the state a
      prefix leaves is what the whole document gives. */
  lemma SegmentAfterPrefix(content: string, pre: seq<string>, rest: seq<string>, bs: seq<Block>)
    requires Lines(content) == pre + rest
    requires Flush(Run(Run(Start, pre), rest).acc).blocks == bs
    ensures Segment(content) == bs
  {
    RunAppend(Start, pre, rest);
  }

  lemma TableParts(content: string, pre: seq<string>, rows: seq<string>, next: string, post: seq<string>)
    requires Lines(content) == pre + rows + [next] + post
    ensures Lines(content) == pre + (rows + [next]) + post
    ensures NoNewlines(pre) && NoNewlines(rows) && '\n' !in next
  {
    var xs := pre + rows + [next];
    assert Lines(content) == xs + post;
    NoNewlinesParts(xs, post);
    assert xs == pre + (rows + [next]);
    NoNewlinesParts(pre, rows + [next]);
    NoNewlinesParts(rows, [next]);
    assert '\n' !in next by { assert [next][0] == next; }
  }

  // ---------------------------------------------------------------------
  // A table interrupted by a region

  /** The fence and `$$` tests come before the table test, and neither
      clears the table flag: after a table interrupted by a code block, a
      pipe row is appended to the empty paragraph buffer instead of opening
      a table, and the next line that is not a row flushes it as a
      paragraph block of its own. */
  lemma InterruptedTable(s0: SegState, rows: seq<string>, open: string, body: seq<string>, close: string,
                         row: string, next: string)
    requires Outside(s0) && AccOk(s0.acc)
    requires |rows| > 0 && NoNewlines(rows) && forall i :: 0 <= i < |rows| ==> IsTableRow(Trim(rows[i]))
    requires IsFenceLine(Trim(open)) && IsFenceLine(Trim(close)) && AllPlain(body)
    requires NoNewlines([open] + body + [close]) && '\n' !in row && '\n' !in next
    requires IsTableRow(Trim(row)) && Plain(next) && !IsTableRow(Trim(next))
    ensures var s2 := Run(s0, rows + ([open] + body + [close]));
      s2.inTable && s2.acc.current == [] && s2.acc.blockType == Paragraph
    ensures var k := |Flush(s0.acc).blocks| + 2;
      var bs := Run(s0, rows + ([open] + body + [close]) + [row, next]).acc.blocks;
      k < |bs| && bs[k] == Block(BlockId(k), Paragraph, row, None)
  {
    var xs := rows + ([open] + body + [close]);
    TableThenFence(s0, rows, open, body, close);
    NoNewlinesJoin(rows, [open] + body + [close]);
    RunOk(s0, xs);
    RowAfterInterruptedTable(Run(s0, xs), row, next);
    RunAppend(s0, xs, [row, next]);
  }

  /** A table run and then a closed fence: the table block and the code
      block are emitted, and the table flag is still set. */
  lemma TableThenFence(s0: SegState, rows: seq<string>, open: string, body: seq<string>, close: string)
    requires Outside(s0) && AccOk(s0.acc)
    requires |rows| > 0 && forall i :: 0 <= i < |rows| ==> IsTableRow(Trim(rows[i]))
    requires IsFenceLine(Trim(open)) && IsFenceLine(Trim(close)) && AllPlain(body)
    ensures var s2 := Run(s0, rows + ([open] + body + [close]));
      s2.inTable && !s2.inCodeBlock && !s2.inMathBlock && s2.acc.current == [] && s2.acc.blockType == Paragraph
      && |s2.acc.blocks| == |Flush(s0.acc).blocks| + 2
  {
    var region := [open] + body + [close];
    TableRowsRun(s0, rows);
    var s1 := Run(s0, rows);
    assert s1.acc.current == rows && s1.acc.blocks == Flush(s0.acc).blocks;
    assert !IsBlank(rows[0]) by { TableRowNotBlank(rows[0]); }
    JoinNotBlank(rows);
    assert |Flush(s1.acc).blocks| == |Flush(s0.acc).blocks| + 1;
    FencedCodeBlock(s1, open, body, close);
    RunAppend(s0, rows, region);
  }

  /** With the table flag left set over an empty paragraph buffer, a pipe
      row and then a line that is not a row emit that row as a paragraph. */
  lemma RowAfterInterruptedTable(s2: SegState, row: string, next: string)
    requires s2.inTable && !s2.inCodeBlock && !s2.inMathBlock && s2.acc.current == [] && s2.acc.blockType == Paragraph
    requires AccOk(s2.acc) && '\n' !in row && '\n' !in next
    requires IsTableRow(Trim(row)) && Plain(next) && !IsTableRow(Trim(next))
    ensures var k := |s2.acc.blocks|;
      var bs := Run(s2, [row, next]).acc.blocks;
      k < |bs| && bs[k] == Block(BlockId(k), Paragraph, row, None)
  {
    assert [row][0] == row;
    TableRowsPlain([row]);
    StepAppends(s2, row);
    var s3 := Step(s2, row);
    assert s3.acc.current == [row];
    TableRowNotBlank(row);
    assert Join(s3.acc.current, "\n") == row;
    var f := Flush(s3.acc);
    assert f.blocks == s2.acc.blocks + [Block(BlockId(s2.acc.blockId), Paragraph, row, None)];
    StepOutside(s3, next);
    FlushOk(s3.acc);
    OutsideOk(f, next);
    assert [row, next][1..] == [next];
    RunSingle(s3, next);
  }

  lemma NoNewlinesJoin(xs: seq<string>, ys: seq<string>)
    requires NoNewlines(xs) && NoNewlines(ys)
    ensures NoNewlines(xs + ys)
  {
    assert forall i :: |xs| <= i < |xs + ys| ==> (xs + ys)[i] == ys[i - |xs|];
  }

  /** In a document, a pipe row read after a table that a code block
      interrupted becomes a paragraph block: for example the row `| b |` of
      the lines `| a |`, ```` ``` ````, ```` ``` ````, `| b |`, `x`. */
  lemma InterruptedTableInDocument(content: string, pre: seq<string>, rows: seq<string>, open: string,
                                   body: seq<string>, close: string, row: string, next: string, post: seq<string>)
    requires Lines(content) == pre + rows + ([open] + body + [close]) + [row, next] + post
    requires Outside(Run(Start, pre))
    requires |rows| > 0 && forall i :: 0 <= i < |rows| ==> IsTableRow(Trim(rows[i]))
    requires IsFenceLine(Trim(open)) && IsFenceLine(Trim(close)) && AllPlain(body)
    requires IsTableRow(Trim(row)) && Plain(next) && !IsTableRow(Trim(next))
    ensures exists k :: (0 <= k < |Segment(content)|
      && Segment(content)[k] == Block(BlockId(k), Paragraph, row, None))
  {
    var tail := rows + ([open] + body + [close]) + [row, next];
    var k := |Flush(Run(Start, pre).acc).blocks| + 2;
    var b := Block(BlockId(k), Paragraph, row, None);
    GroupTail(content, pre, rows, [open] + body + [close], [row, next], post, tail);
    InterruptedAfterPrefix(pre, rows, open, body, close, row, next, tail);
    BlockInDocument(content, pre + tail, post, k, b);
  }

  lemma GroupTail(content: string, pre: seq<string>, rows: seq<string>, region: seq<string>,
                  rest: seq<string>, post: seq<string>, tail: seq<string>)
    requires Lines(content) == pre + rows + region + rest + post
    requires tail == rows + region + rest
    ensures Lines(content) == (pre + tail) + post
    ensures NoNewlines(pre) && NoNewlines(tail)
  {
    assert Lines(content) == (pre + tail) + post;
    NoNewlinesParts(pre + tail, post);
    NoNewlinesParts(pre, tail);
  }

  predicate HasBlockAt(bs: seq<Block>, k: nat, b: Block) {
    k < |bs| && bs[k] == b
  }

  /** A block emitted while reading a prefix is a block of the document. */
  lemma BlockInDocument(content: string, xs: seq<string>, ys: seq<string>, k: nat, b: Block)
    requires Lines(content) == xs + ys && HasBlockAt(Run(Start, xs).acc.blocks, k, b)
    ensures HasBlockAt(Segment(content), k, b)
  {
    KeptToEnd(content, xs, ys, k);
  }

  lemma InterruptedAfterPrefix(pre: seq<string>, rows: seq<string>, open: string, body: seq<string>,
                               close: string, row: string, next: string, tail: seq<string>)
    requires tail == rows + ([open] + body + [close]) + [row, next]
    requires NoNewlines(pre) && NoNewlines(tail) && Outside(Run(Start, pre))
    requires |rows| > 0 && forall i :: 0 <= i < |rows| ==> IsTableRow(Trim(rows[i]))
    requires IsFenceLine(Trim(open)) && IsFenceLine(Trim(close)) && AllPlain(body)
    requires IsTableRow(Trim(row)) && Plain(next) && !IsTableRow(Trim(next))
    ensures var k := |Flush(Run(Start, pre).acc).blocks| + 2;
      HasBlockAt(Run(Start, pre + tail).acc.blocks, k, Block(BlockId(k), Paragraph, row, None))
  {
    var s0 := Run(Start, pre);
    var k := |Flush(s0.acc).blocks| + 2;
    assert k < |Run(s0, tail).acc.blocks| && Run(s0, tail).acc.blocks[k] == Block(BlockId(k), Paragraph, row, None) by {
      TailParts(rows, [open] + body + [close], row, next);
      PrefixOk(pre);
      InterruptedTable(s0, rows, open, body, close, row, next);
    }
    RunAppend(Start, pre, tail);
  }

  lemma TailParts(rows: seq<string>, region: seq<string>, row: string, next: string)
    requires NoNewlines(rows + region + [row, next])
    ensures NoNewlines(rows) && NoNewlines(region) && '\n' !in row && '\n' !in next
  {
    NoNewlinesParts(rows + region, [row, next]);
    NoNewlinesParts(rows, region);
    assert [row, next][0] == row && [row, next][1] == next;
  }

  lemma NonNegProduct(x: real, y: real)
    requires x >= 0.0 && y >= 0.0
    ensures x * y >= 0.0
  {
  }

  /** The estimate is positive for a non-negative font size and a heading
      level of at most 6. */
  lemma HeightPositive(b: Block, fontSize: real)
    requires fontSize >= 0.0
    requires b.btype == Heading ==> b.level.Some? && 1 <= b.level.value <= 6
    ensures EstimateBlockHeight(b, fontSize) > 0.0
  {
    var lines := |Lines(b.content)| as real;
    NonNegProduct(lines, fontSize * 1.6);
    if b.btype == Heading {
      NonNegProduct(fontSize, 3.0 - (b.level.value as real) * 0.3);
    }
  }

  /** Every block of a document gets a positive estimated height for any
      non-negative font size (heading levels never exceed 6). */
  lemma SegmentHeightsPositive(content: string, fontSize: real)
    requires fontSize >= 0.0
    ensures forall b :: b in Segment(content) ==> EstimateBlockHeight(b, fontSize) > 0.0
  {
    SegmentWellFormed(content);
    var bs := Segment(content);
    forall b | b in bs ensures EstimateBlockHeight(b, fontSize) > 0.0 {
      var k :| 0 <= k < |bs| && bs[k] == b;
      HeightPositive(b, fontSize);
    }
  }
}
