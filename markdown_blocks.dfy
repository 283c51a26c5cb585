/** The block segmenter: one pass over the lines of a document that cuts it
    into typed blocks (headings, paragraphs, fenced code, mermaid diagrams,
    tables, lists, block quotes, rules, math and images), so that a virtual
    preview never renders half a construct; and the placeholder height each
    block gets before it is rendered.

    The pass is given twice: as the state machine Step/Run over a SegState,
    which the lemmas in module SegmentProps reason about, and as the method
    ParseMarkdownToBlocks, a loop with mutable flags proved equal to it. */
module MarkdownBlocks {
  import opened Text

  /** MarkdownBlock['type']. Html is declared by the source but never produced. */
  datatype BlockType =
    | Heading | Paragraph | Code | Table | List | Blockquote | Hr | Math | Mermaid | Image | Html

  /** The string the source stores in `type`; used in cache and diff keys. */
  function TypeName(t: BlockType): (name: string)
    ensures name != "" && ':' !in name
  {
    match t
    case Heading => "heading"
    case Paragraph => "paragraph"
    case Code => "code"
    case Table => "table"
    case List => "list"
    case Blockquote => "blockquote"
    case Hr => "hr"
    case Math => "math"
    case Mermaid => "mermaid"
    case Image => "image"
    case Html => "html"
  }

  lemma TypeNameInjective(s: BlockType, t: BlockType)
    ensures TypeName(s) == TypeName(t) <==> s == t
  {
  }

  /** A block; `level` is the optional heading depth. */
  datatype Block = Block(id: string, btype: BlockType, content: string, level: Option<nat>)

  /** `block-${n}` */
  function BlockId(n: nat): string {
    "block-" + NatToString(n)
  }

  lemma BlockIdInjective(m: nat, n: nat)
    ensures BlockId(m) == BlockId(n) <==> m == n
  {
    PrefixCancel("block-", NatToString(m), NatToString(n));
    NatToStringInjective(m, n);
  }

  // ---------------------------------------------------------------------
  // Line classifiers, one per test of the pass

  /** trimmedLine.startsWith('```') */
  predicate IsFenceLine(trimmed: string) {
    StartsWith(trimmed, "```")
  }

  /** 'mermaid' when the trimmed language tag after the fence is exactly
      "mermaid", 'code' otherwise. */
  function FenceBlockType(trimmed: string): BlockType
    requires IsFenceLine(trimmed)
  {
    if Trim(trimmed[3..]) == "mermaid" then Mermaid else Code
  }

  /** trimmedLine === '$$' */
  predicate IsMathDelimiter(trimmed: string) {
    trimmed == "$$"
  }

  /** trimmedLine.startsWith('|') && trimmedLine.endsWith('|') */
  predicate IsTableRow(trimmed: string) {
    StartsWith(trimmed, "|") && EndsWith(trimmed, "|")
  }

  /** Number of leading copies of c in s. */
  function CountLeading(s: string, c: char): (n: nat)
    ensures n <= |s|
    ensures forall i :: 0 <= i < n ==> s[i] == c
    ensures n < |s| ==> s[n] != c
  {
    if |s| > 0 && s[0] == c then 1 + CountLeading(s[1..], c) else 0
  }

  /** The regular expression /^(#{1,6})\s/ applied to the UNTRIMMED line:
      the number of leading '#' when it is between 1 and 6 and a white-space
      character follows them. */
  function HeadingLevel(line: string): (level: Option<nat>)
    ensures level.Some? ==> 1 <= level.value <= 6 && level.value < |line|
    ensures level.Some? ==> level.value == CountLeading(line, '#') && IsWhitespace(line[level.value])
  {
    var h := CountLeading(line, '#');
    if 1 <= h <= 6 && h < |line| && IsWhitespace(line[h]) then Some(h) else None
  }

  predicate AllChars(s: string, c: char) {
    forall i :: 0 <= i < |s| ==> s[i] == c
  }

  /** /^(-{3,}|\*{3,}|_{3,})$/ on the trimmed line */
  predicate IsHorizontalRule(trimmed: string) {
    |trimmed| >= 3 && (AllChars(trimmed, '-') || AllChars(trimmed, '*') || AllChars(trimmed, '_'))
  }

  /** trimmedLine.startsWith('>') */
  predicate IsBlockquoteLine(trimmed: string) {
    StartsWith(trimmed, ">")
  }

  predicate IsAsciiDigit(c: char) {
    '0' <= c <= '9'
  }

  function CountLeadingDigits(s: string): (n: nat)
    ensures n <= |s|
    ensures forall i :: 0 <= i < n ==> IsAsciiDigit(s[i])
    ensures n < |s| ==> !IsAsciiDigit(s[n])
  {
    if |s| > 0 && IsAsciiDigit(s[0]) then 1 + CountLeadingDigits(s[1..]) else 0
  }

  /** /^(\d+\.|[-*+])\s/ on the trimmed line */
  predicate IsListItem(trimmed: string) {
    var d := CountLeadingDigits(trimmed);
    (d >= 1 && d + 1 < |trimmed| && trimmed[d] == '.' && IsWhitespace(trimmed[d + 1]))
    || (|trimmed| >= 2 && (trimmed[0] == '-' || trimmed[0] == '*' || trimmed[0] == '+')
        && IsWhitespace(trimmed[1]))
  }

  /** /^!\[.*\]\(.*\)$/ on the trimmed line: "![", then "](" somewhere,
      a final ")", and no line terminator anywhere (`.` does not match one). */
  predicate IsImageLine(trimmed: string) {
    |trimmed| >= 5 && trimmed[0] == '!' && trimmed[1] == '[' && trimmed[|trimmed| - 1] == ')'
    && (forall i :: 0 <= i < |trimmed| ==> !IsLineTerminator(trimmed[i]))
    && exists i :: 2 <= i <= |trimmed| - 3 && trimmed[i] == ']' && trimmed[i + 1] == '('
  }

  // ---------------------------------------------------------------------
  // The pass as a state machine

  /** What the flushBlock closure reads and writes: the emitted blocks, the
      accumulating lines, the type of the block being accumulated and the
      next id number. */
  datatype Acc = Acc(blocks: seq<Block>, current: seq<string>, blockType: BlockType, blockId: nat)

  /** Acc plus the three mode flags of the loop. */
  datatype SegState = SegState(acc: Acc, inCodeBlock: bool, inMathBlock: bool, inTable: bool)

  const Start: SegState := SegState(Acc([], [], Paragraph, 0), false, false, false)

  /** flushBlock: a non-empty buffer is joined with '\n' and emitted unless
      its trim is empty; either way the buffer is cleared and the type goes
      back to paragraph. An empty buffer leaves everything as it is. */
  function Flush(a: Acc): Acc {
    if |a.current| > 0 then
      var content := Join(a.current, "\n");
      if Trim(content) != "" then
        Acc(a.blocks + [Block(BlockId(a.blockId), a.blockType, content, None)], [], Paragraph, a.blockId + 1)
      else
        Acc(a.blocks, [], Paragraph, a.blockId)
    else a
  }

  /** currentBlock.push(line) */
  function Push(a: Acc, line: string): Acc {
    a.(current := a.current + [line])
  }

  /** blocks.push({ id: `block-${blockId++}`, ... }) for a single-line block. */
  function Emit(a: Acc, t: BlockType, line: string, level: Option<nat>): Acc {
    a.(blocks := a.blocks + [Block(BlockId(a.blockId), t, line, level)], blockId := a.blockId + 1)
  }

  /** The rules after the table test: blank line, heading, rule, quote,
      list item, image, paragraph. */
  function OutsideStep(a: Acc, line: string, t: string): Acc {
    if t == "" then
      if |a.current| > 0 then Flush(a) else a
    else match HeadingLevel(line)
      case Some(h) => Emit(Flush(a), Heading, line, Some(h))
      case None =>
        if IsHorizontalRule(t) then Emit(Flush(a), Hr, line, None)
        else if IsBlockquoteLine(t) then
          Push(if a.blockType != Blockquote then Flush(a).(blockType := Blockquote) else a, line)
        else if IsListItem(t) then
          Push(if a.blockType != List then Flush(a).(blockType := List) else a, line)
        else if IsImageLine(t) then Emit(Flush(a), Image, line, None)
        else
          Push(if a.blockType != Paragraph && a.blockType != List && a.blockType != Blockquote
               then Flush(a).(blockType := Paragraph) else a, line)
  }

  /** One iteration of the loop body for `line`. The fence test and the `$$`
      test come before the "inside code or math" test, as in the source. */
  function Step(st: SegState, line: string): SegState {
    var t := Trim(line);
    if IsFenceLine(t) then
      if !st.inCodeBlock then
        st.(acc := Push(Flush(st.acc).(blockType := FenceBlockType(t)), line), inCodeBlock := true)
      else
        st.(acc := Flush(Push(st.acc, line)), inCodeBlock := false)
    else if IsMathDelimiter(t) then
      if !st.inMathBlock then
        st.(acc := Push(Flush(st.acc).(blockType := Math), line), inMathBlock := true)
      else
        st.(acc := Flush(Push(st.acc, line)), inMathBlock := false)
    else if st.inCodeBlock || st.inMathBlock then
      st.(acc := Push(st.acc, line))
    else if IsTableRow(t) then
      if !st.inTable then
        st.(acc := Push(Flush(st.acc).(blockType := Table), line), inTable := true)
      else
        st.(acc := Push(st.acc, line))
    else
      var a := if st.inTable then Flush(st.acc) else st.acc;
      st.(acc := OutsideStep(a, line, t), inTable := false)
  }

  /** The loop over all lines. */
  function Run(st: SegState, lines: seq<string>): SegState
    decreases |lines|
  {
    if lines == [] then st else Run(Step(st, lines[0]), lines[1..])
  }

  lemma {:induction false} RunSnoc(st: SegState, lines: seq<string>, line: string)
    ensures Run(st, lines + [line]) == Step(Run(st, lines), line)
    decreases |lines|
  {
    if lines == [] {
      assert [line][1..] == [];
    } else {
      assert (lines + [line])[1..] == lines[1..] + [line];
      RunSnoc(Step(st, lines[0]), lines[1..], line);
    }
  }

  lemma {:induction false} RunAppend(st: SegState, xs: seq<string>, ys: seq<string>)
    ensures Run(st, xs + ys) == Run(Run(st, xs), ys)
    decreases |xs|
  {
    if xs == [] {
      assert xs + ys == ys;
    } else {
      assert (xs + ys)[1..] == xs[1..] + ys;
      RunAppend(Step(st, xs[0]), xs[1..], ys);
    }
  }

  /** One more line of the fold over a prefix. */
  lemma RunPrefix(lines: seq<string>, i: nat)
    requires i < |lines|
    ensures Run(Start, lines[..i + 1]) == Step(Run(Start, lines[..i]), lines[i])
  {
    assert lines[..i + 1] == lines[..i] + [lines[i]];
    RunSnoc(Start, lines[..i], lines[i]);
  }

  /** parseMarkdownToBlocks(content): the loop over content.split('\n')
      followed by the final flushBlock. */
  function Segment(content: string): seq<Block> {
    Flush(Run(Start, Lines(content)).acc).blocks
  }

  // ---------------------------------------------------------------------
  // The pass as the source writes it

  /** The flushBlock closure, over the variables it captures. */
  method FlushBlock(blocks: seq<Block>, currentBlock: seq<string>, blockType: BlockType, blockId: nat)
    returns (blocks': seq<Block>, currentBlock': seq<string>, blockType': BlockType, blockId': nat)
    ensures Acc(blocks', currentBlock', blockType', blockId') == Flush(Acc(blocks, currentBlock, blockType, blockId))
  {
    blocks', currentBlock', blockType', blockId' := blocks, currentBlock, blockType, blockId;
    if |currentBlock| > 0 {
      var blockContent := Join(currentBlock, "\n");
      if Trim(blockContent) != "" {
        blocks' := blocks + [Block(BlockId(blockId), blockType, blockContent, None)];
        blockId' := blockId + 1;
      }
      currentBlock' := [];
      blockType' := Paragraph;
    }
  }

  method ParseMarkdownToBlocks(content: string) returns (blocks: seq<Block>)
    ensures blocks == Segment(content)
  {
    blocks := [];
    var lines := Lines(content);
    var currentBlock: seq<string> := [];
    var blockType := Paragraph;
    var inCodeBlock, inMathBlock, inTable := false, false, false;
    var blockId: nat := 0;

    for i := 0 to |lines|
      invariant SegState(Acc(blocks, currentBlock, blockType, blockId), inCodeBlock, inMathBlock, inTable)
                == Run(Start, lines[..i])
    {
      RunPrefix(lines, i);
      blocks, currentBlock, blockType, blockId, inCodeBlock, inMathBlock, inTable :=
        SegmentLine(blocks, currentBlock, blockType, blockId, inCodeBlock, inMathBlock, inTable, lines[i]);
    }

    assert lines[..|lines|] == lines;
    blocks, currentBlock, blockType, blockId := FlushBlock(blocks, currentBlock, blockType, blockId);
  }

  /** The body of the for loop, for one line; `return` stands for `continue`. */
  method SegmentLine(blocks: seq<Block>, currentBlock: seq<string>, blockType: BlockType, blockId: nat,
                     inCodeBlock: bool, inMathBlock: bool, inTable: bool, line: string)
    returns (blocks': seq<Block>, currentBlock': seq<string>, blockType': BlockType, blockId': nat,
             inCodeBlock': bool, inMathBlock': bool, inTable': bool)
    ensures SegState(Acc(blocks', currentBlock', blockType', blockId'), inCodeBlock', inMathBlock', inTable')
            == Step(SegState(Acc(blocks, currentBlock, blockType, blockId), inCodeBlock, inMathBlock, inTable), line)
  {
    blocks', currentBlock', blockType', blockId' := blocks, currentBlock, blockType, blockId;
    inCodeBlock', inMathBlock', inTable' := inCodeBlock, inMathBlock, inTable;
    var trimmedLine := Trim(line);

    // fenced code: open or close
    if StartsWith(trimmedLine, "```") {
      if !inCodeBlock' {
        blocks', currentBlock', blockType', blockId' := FlushBlock(blocks', currentBlock', blockType', blockId');
        inCodeBlock' := true;
        var codeBlockLang := Trim(trimmedLine[3..]);
        blockType' := if codeBlockLang == "mermaid" then Mermaid else Code;
        currentBlock' := currentBlock' + [line];
      } else {
        currentBlock' := currentBlock' + [line];
        inCodeBlock' := false;
        blocks', currentBlock', blockType', blockId' := FlushBlock(blocks', currentBlock', blockType', blockId');
      }
      return;
    }

    // math block: open or close
    if trimmedLine == "$$" {
      if !inMathBlock' {
        blocks', currentBlock', blockType', blockId' := FlushBlock(blocks', currentBlock', blockType', blockId');
        inMathBlock' := true;
        blockType' := Math;
        currentBlock' := currentBlock' + [line];
      } else {
        currentBlock' := currentBlock' + [line];
        inMathBlock' := false;
        blocks', currentBlock', blockType', blockId' := FlushBlock(blocks', currentBlock', blockType', blockId');
      }
      return;
    }

    // inside a code or math block every line is kept verbatim
    if inCodeBlock' || inMathBlock' {
      currentBlock' := currentBlock' + [line];
      return;
    }

    // table rows
    if IsTableRow(trimmedLine) {
      if !inTable' {
        blocks', currentBlock', blockType', blockId' := FlushBlock(blocks', currentBlock', blockType', blockId');
        inTable' := true;
        blockType' := Table;
      }
      currentBlock' := currentBlock' + [line];
      return;
    } else if inTable' {
      inTable' := false;
      blocks', currentBlock', blockType', blockId' := FlushBlock(blocks', currentBlock', blockType', blockId');
    }
    blocks', currentBlock', blockType', blockId' := OutsideLine(blocks', currentBlock', blockType', blockId', line, trimmedLine);
  }

  /** The part of the loop body after the table test. */
  method OutsideLine(blocks: seq<Block>, currentBlock: seq<string>, blockType: BlockType, blockId: nat,
                     line: string, trimmedLine: string)
    returns (blocks': seq<Block>, currentBlock': seq<string>, blockType': BlockType, blockId': nat)
    ensures Acc(blocks', currentBlock', blockType', blockId')
            == OutsideStep(Acc(blocks, currentBlock, blockType, blockId), line, trimmedLine)
  {
    blocks', currentBlock', blockType', blockId' := blocks, currentBlock, blockType, blockId;

    // a blank line ends the block being accumulated
    if trimmedLine == "" {
      if |currentBlock'| > 0 {
        blocks', currentBlock', blockType', blockId' := FlushBlock(blocks', currentBlock', blockType', blockId');
      }
      return;
    }

    // headings, tested on the untrimmed line
    var headingMatch := HeadingLevel(line);
    if headingMatch.Some? {
      blocks', currentBlock', blockType', blockId' := FlushBlock(blocks', currentBlock', blockType', blockId');
      blocks' := blocks' + [Block(BlockId(blockId'), Heading, line, Some(headingMatch.value))];
      blockId' := blockId' + 1;
      return;
    }

    // horizontal rule
    if IsHorizontalRule(trimmedLine) {
      blocks', currentBlock', blockType', blockId' := FlushBlock(blocks', currentBlock', blockType', blockId');
      blocks' := blocks' + [Block(BlockId(blockId'), Hr, line, None)];
      blockId' := blockId' + 1;
      return;
    }

    // block quote
    if StartsWith(trimmedLine, ">") {
      if blockType' != Blockquote {
        blocks', currentBlock', blockType', blockId' := FlushBlock(blocks', currentBlock', blockType', blockId');
        blockType' := Blockquote;
      }
      currentBlock' := currentBlock' + [line];
      return;
    }

    // list item
    if IsListItem(trimmedLine) {
      if blockType' != List {
        blocks', currentBlock', blockType', blockId' := FlushBlock(blocks', currentBlock', blockType', blockId');
        blockType' := List;
      }
      currentBlock' := currentBlock' + [line];
      return;
    }

    // image on a line of its own
    if IsImageLine(trimmedLine) {
      blocks', currentBlock', blockType', blockId' := FlushBlock(blocks', currentBlock', blockType', blockId');
      blocks' := blocks' + [Block(BlockId(blockId'), Image, line, None)];
      blockId' := blockId' + 1;
      return;
    }

    // paragraph; list and quote blocks absorb continuation lines
    if blockType' != Paragraph && blockType' != List && blockType' != Blockquote {
      blocks', currentBlock', blockType', blockId' := FlushBlock(blocks', currentBlock', blockType', blockId');
      blockType' := Paragraph;
    }
    currentBlock' := currentBlock' + [line];
  }

  // ---------------------------------------------------------------------
  // Placeholder heights

  function Max(x: real, y: real): real {
    if x >= y then x else y
  }

  /** estimateBlockHeight(block, fontSize), over exact reals. `block.level || 1`
      reads a missing level and a level of 0 as 1. */
  function EstimateBlockHeight(block: Block, fontSize: real := 16.0): (h: real)
    ensures block.btype == Code || block.btype == Mermaid ==>
              h >= 100.0 && h >= (|Lines(block.content)| as real) * fontSize * 1.6 + 32.0
  {
    var lineHeight := fontSize * 1.6;
    var lines := |Lines(block.content)| as real;
    match block.btype
    case Heading =>
      var level := if block.level.Some? && block.level.value != 0 then block.level.value else 1;
      fontSize * (3.0 - (level as real) * 0.3) + 32.0
    case Code => Max(lines * lineHeight + 32.0, 100.0)
    case Mermaid => Max(lines * lineHeight + 32.0, 100.0)
    case Table => lines * 40.0 + 20.0
    case Image => 300.0
    case Math => lines * lineHeight + 40.0
    case Hr => 40.0
    case _ => lines * lineHeight + 16.0
  }

  /** The per-type values of the estimate: images 300, rules 40, tables 40
      per line plus 20, and a heading without a level estimated as level 1. */
  lemma EstimateBlockHeightCases(block: Block, fontSize: real)
    ensures block.btype == Image ==> EstimateBlockHeight(block, fontSize) == 300.0
    ensures block.btype == Hr ==> EstimateBlockHeight(block, fontSize) == 40.0
    ensures block.btype == Table ==>
              EstimateBlockHeight(block, fontSize) == (|Lines(block.content)| as real) * 40.0 + 20.0
    ensures block.btype == Heading && block.level.None? ==>
              EstimateBlockHeight(block, fontSize) == EstimateBlockHeight(block.(level := Some(1)), fontSize)
  {
  }

  /** For a positive font size, deeper headings are estimated lower. */
  lemma HeadingHeightDecreasing(block: Block, fontSize: real, m: nat, n: nat)
    requires block.btype == Heading && fontSize > 0.0 && 1 <= m < n
    ensures EstimateBlockHeight(block.(level := Some(m)), fontSize)
            > EstimateBlockHeight(block.(level := Some(n)), fontSize)
  {
    assert fontSize * (m as real) * 0.3 < fontSize * (n as real) * 0.3;
  }
}
