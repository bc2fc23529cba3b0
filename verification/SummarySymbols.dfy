/** Finding the relational algebra of each pipeline in an evaluation log summary
    (extensions/ql-vscode/src/log-insights/summary-parser.ts). */
module SummarySymbols {
  import Groups
  import opened Wrappers

  /** A line of the summary, as the three regular expressions see it. */
  datatype Line = Header(predicateName: string, iteration: nat) | Return | Other

  datatype PipelineInfo = PipelineInfo(startLine: nat, raStartLine: nat, raEndLine: nat)

  type Symbols = map<string, map<nat, PipelineInfo>>

  /** A complete block: from a header line to the return line that ends it. */
  datatype Block = Block(predicateName: string, iteration: nat, start: nat, end: nat)

  // ---------------------------------------------------------------------------
  // What the blocks are

  predicate OtherBetween(lines: seq<Line>, from: int, to: nat)
    requires to <= |lines|
  {
    forall i | 0 <= i < to && from < i :: lines[i].Other?
  }

  /** A header opens a block if nothing but other lines lies between it and the return line before it, or the
      beginning of the file. */
  ghost predicate Opens(lines: seq<Line>, h: nat) {
    && h < |lines| && lines[h].Header?
    && exists q :: -1 <= q < h && IsReturnOrStart(lines, q) && OtherBetween(lines, q, h)
  }

  predicate IsReturnOrStart(lines: seq<Line>, q: int) {
    q == -1 || (0 <= q < |lines| && lines[q].Return?)
  }

  /** The first return line after an opening header ends the block; headers in between are part of it. */
  ghost predicate IsBlock(lines: seq<Line>, b: Block) {
    && Opens(lines, b.start)
    && lines[b.start] == Header(b.predicateName, b.iteration)
    && b.start < b.end < |lines| && lines[b.end].Return?
    && forall i | b.start < i < b.end :: !lines[i].Return?
  }

  // ---------------------------------------------------------------------------
  // Finding them

  function FirstHeader(lines: seq<Line>, from: nat): (h: nat)
    requires from <= |lines|
    ensures from <= h <= |lines| && (h < |lines| ==> lines[h].Header?)
    decreases |lines| - from
  {
    if from == |lines| || lines[from].Header? then from else FirstHeader(lines, from + 1)
  }

  function FirstReturn(lines: seq<Line>, from: nat): (r: nat)
    requires from <= |lines|
    ensures from <= r <= |lines|
    decreases |lines| - from
  {
    if from == |lines| || lines[from].Return? then from else FirstReturn(lines, from + 1)
  }

  /** The blocks from line `from` on, when no block is open there. */
  function Blocks(lines: seq<Line>, from: nat): seq<Block>
    requires from <= |lines|
    decreases |lines| - from, 1
  {
    var h := FirstHeader(lines, from);
    if h == |lines| then [] else OpenBlocks(lines, h, h + 1)
  }

  /** The blocks from line `from` on, when the block that starts at `h` is open there. */
  function OpenBlocks(lines: seq<Line>, h: nat, from: nat): seq<Block>
    requires h < from <= |lines| && lines[h].Header?
    decreases |lines| - from, 2
  {
    var r := FirstReturn(lines, from);
    if r == |lines| then []
    else [Block(lines[h].predicateName, lines[h].iteration, h, r)] + Blocks(lines, r + 1)
  }

  lemma {:induction false} FirstHeaderIsFirst(lines: seq<Line>, from: nat)
    requires from <= |lines|
    ensures var h := FirstHeader(lines, from);
      && (h < |lines| ==> lines[h].Header?)
      && forall i | from <= i < h :: !lines[i].Header?
    decreases |lines| - from
  {
    if from < |lines| && !lines[from].Header? {
      FirstHeaderIsFirst(lines, from + 1);
    }
  }

  lemma {:induction false} FirstReturnIsFirst(lines: seq<Line>, from: nat)
    requires from <= |lines|
    ensures var r := FirstReturn(lines, from);
      && (r < |lines| ==> lines[r].Return?)
      && forall i | from <= i < r :: !lines[i].Return?
    decreases |lines| - from
  {
    if from < |lines| && !lines[from].Return? {
      FirstReturnIsFirst(lines, from + 1);
    }
  }

  /** The last return line before `h`, from `from` on, or `from - 1`. */
  lemma {:induction false} LastReturn(lines: seq<Line>, from: nat, h: nat) returns (q: int)
    requires from <= h <= |lines|
    ensures from - 1 <= q < h
    ensures q >= from ==> lines[q].Return?
    ensures forall i | q < i < h && from <= i :: !lines[i].Return?
    decreases h
  {
    if h == from {
      q := from - 1;
    } else if lines[h - 1].Return? {
      q := h - 1;
    } else {
      q := LastReturn(lines, from, h - 1);
    }
  }

  /** With nothing open at `from`, the first header from there on opens a block, and no other header does before
      its return line. */
  lemma FirstHeaderOpens(lines: seq<Line>, from: nat)
    requires from <= |lines| && IsReturnOrStart(lines, from - 1)
    requires FirstHeader(lines, from) < |lines|
    ensures Opens(lines, FirstHeader(lines, from))
  {
    var h := FirstHeader(lines, from);
    FirstHeaderIsFirst(lines, from);
    var q := LastReturn(lines, from, h);
    assert IsReturnOrStart(lines, q) && OtherBetween(lines, q, h);
  }

  lemma InnerHeaderDoesNotOpen(lines: seq<Line>, h: nat, i: nat)
    requires h < i < |lines| && lines[h].Header?
    requires forall k | h < k < i :: !lines[k].Return?
    ensures !Opens(lines, i)
  {
    forall q | -1 <= q < i && IsReturnOrStart(lines, q)
      ensures !OtherBetween(lines, q, i)
    {
      if q < h {
        assert !lines[h].Other?;
      }
    }
  }

  /** The blocks found from `from` on are exactly the blocks that start there or later. */
  lemma {:induction false} BlocksAreExact(lines: seq<Line>, from: nat, b: Block)
    requires from <= |lines| && IsReturnOrStart(lines, from - 1)
    ensures b in Blocks(lines, from) <==> IsBlock(lines, b) && from <= b.start
    decreases |lines| - from
  {
    hide Opens, FirstHeader, FirstReturn;
    var h := FirstHeader(lines, from);
    FirstHeaderIsFirst(lines, from);
    if h < |lines| {
      FirstHeaderOpens(lines, from);
      var r := FirstReturn(lines, h + 1);
      FirstReturnIsFirst(lines, h + 1);
      if h < b.start && b.start < |lines| && b.start <= r {
        InnerHeaderDoesNotOpen(lines, h, b.start);
      }
      if r < |lines| {
        BlocksAreExact(lines, r + 1, b);
        if IsBlock(lines, b) && b.start == h {
          assert b.end == r;
        }
      }
    }
  }

  /** The blocks are disjoint intervals in increasing order. */
  lemma {:induction false} BlocksAreDisjoint(lines: seq<Line>, from: nat, i: nat, j: nat)
    requires from <= |lines| && i < j < |Blocks(lines, from)|
    ensures var bs := Blocks(lines, from);
      from <= bs[i].start < bs[i].end < bs[j].start < bs[j].end < |lines|
    decreases |lines| - from
  {
    var h := FirstHeader(lines, from);
    var r := FirstReturn(lines, h + 1);
    var rest := Blocks(lines, r + 1);
    BlocksInRange(lines, r + 1, j - 1);
    if i > 0 {
      BlocksAreDisjoint(lines, r + 1, i - 1, j - 1);
    }
  }

  lemma {:induction false} BlocksInRange(lines: seq<Line>, from: nat, j: nat)
    requires from <= |lines| && j < |Blocks(lines, from)|
    ensures from <= Blocks(lines, from)[j].start < Blocks(lines, from)[j].end < |lines|
    decreases |lines| - from
  {
    if j > 0 {
      var r := FirstReturn(lines, FirstHeader(lines, from) + 1);
      BlocksInRange(lines, r + 1, j - 1);
    }
  }

  // ---------------------------------------------------------------------------
  // Recording them

  function InfoOf(b: Block): (info: PipelineInfo)
    ensures b.start < b.end ==> info.startLine + 1 == info.raStartLine <= info.raEndLine
  {
    PipelineInfo(b.start, b.start + 1, b.end)
  }

  function Record(symbols: Symbols, b: Block): Symbols {
    var iterations := if b.predicateName in symbols then symbols[b.predicateName] else map[];
    symbols[b.predicateName := iterations[b.iteration := InfoOf(b)]]
  }

  function RecordAll(blocks: seq<Block>): Symbols {
    if blocks == [] then map[] else Record(RecordAll(blocks[..|blocks| - 1]), blocks[|blocks| - 1])
  }

  function Lookup(symbols: Symbols, name: string, iteration: nat): Option<PipelineInfo> {
    if name in symbols && iteration in symbols[name] then Some(symbols[name][iteration]) else None
  }

  /** An entry is the last block with its header; there is no entry without a block. */
  lemma {:induction false} EntryIsLastBlock(blocks: seq<Block>, name: string, iteration: nat, k: nat)
    requires k < |blocks| && blocks[k].predicateName == name && blocks[k].iteration == iteration
    requires forall j | k < j < |blocks| :: blocks[j].predicateName != name || blocks[j].iteration != iteration
    ensures Lookup(RecordAll(blocks), name, iteration) == Some(InfoOf(blocks[k]))
    decreases |blocks|
  {
    if k < |blocks| - 1 {
      EntryIsLastBlock(blocks[..|blocks| - 1], name, iteration, k);
    }
  }

  lemma {:induction false} NoEntryWithoutBlock(blocks: seq<Block>, name: string, iteration: nat)
    requires forall j | 0 <= j < |blocks| :: blocks[j].predicateName != name || blocks[j].iteration != iteration
    ensures Lookup(RecordAll(blocks), name, iteration) == None
    decreases |blocks|
  {
    if blocks != [] {
      NoEntryWithoutBlock(blocks[..|blocks| - 1], name, iteration);
    }
  }

  lemma RecordPush(blocks: seq<Block>, b: Block)
    ensures RecordAll(blocks + [b]) == Record(RecordAll(blocks), b)
  {
    assert (blocks + [b])[..|blocks|] == blocks;
  }

  /** The blocks still to come before line `n`, with the block that starts at `open` open, if any. */
  function Rest(lines: seq<Line>, open: Option<nat>, n: nat): seq<Block>
    requires n <= |lines| && (open.Some? ==> open.value < n && lines[open.value].Header?)
  {
    if open.None? then Blocks(lines, n) else OpenBlocks(lines, open.value, n)
  }

  lemma RestStep(lines: seq<Line>, open: Option<nat>, n: nat)
    requires n < |lines| && (open.Some? ==> open.value < n && lines[open.value].Header?)
    ensures Rest(lines, open, n) ==
            if open.None? then
              if lines[n].Header? then Rest(lines, Some(n), n + 1) else Rest(lines, None, n + 1)
            else
              if lines[n].Return? then
                [Block(lines[open.value].predicateName, lines[open.value].iteration, open.value, n)]
                + Rest(lines, None, n + 1)
              else Rest(lines, open, n + 1)
  {
  }

  lemma RestAtEnd(lines: seq<Line>, open: Option<nat>)
    requires open.Some? ==> open.value < |lines| && lines[open.value].Header?
    ensures Rest(lines, open, |lines|) == []
  {
  }

  /** The line loop of `generateSummarySymbols`. */
  method GenerateSummarySymbols(lines: seq<Line>) returns (symbols: Symbols)
    ensures symbols == RecordAll(Rest(lines, None, 0))
  {
    hide Record, Rest, RecordAll;
    symbols := map[];
    var lineNumber := 0;
    var raStartLine := 0;
    var iteration := 0;
    var predicateName: Option<string> := None;
    var startLine := 0;
    ghost var done: seq<Block> := [];
    ghost var open: Option<nat> := None;
    NothingRecorded();
    while lineNumber < |lines|
      invariant lineNumber <= |lines|
      invariant open == if predicateName.None? then None else Some(startLine)
      invariant predicateName.Some? ==>
                  && startLine < lineNumber && raStartLine == startLine + 1
                  && lines[startLine] == Header(predicateName.value, iteration)
      invariant symbols == RecordAll(done)
      invariant Rest(lines, None, 0) == done + Rest(lines, open, lineNumber)
    {
      var line := lines[lineNumber];
      RestStep(lines, open, lineNumber);
      if predicateName.None? {
        if line.Header? {
          predicateName := Some(line.predicateName);
          iteration := line.iteration;
        }
        if predicateName.Some? {
          startLine := lineNumber;
          raStartLine := lineNumber + 1;
          open := Some(startLine);
        }
      } else {
        if line.Return? {
          var name := predicateName.value;
          var info := PipelineInfo(startLine, raStartLine, lineNumber);
          ghost var block := Block(name, iteration, startLine, lineNumber);
          Groups.Regroup(done, [block], Rest(lines, None, lineNumber + 1));
          RecordPush(done, block);
          RecordedAs(symbols, block, info);
          var symbol := if name in symbols then symbols[name] else map[];
          symbols := symbols[name := symbol[iteration := info]];
          done := done + [block];
          predicateName := None;
          open := None;
        }
      }
      lineNumber := lineNumber + 1;
    }
    RestAtEnd(lines, open);
    assert done + [] == done;
  }

  lemma NothingRecorded()
    ensures RecordAll([]) == map[]
  {
  }

  lemma RecordedAs(symbols: Symbols, b: Block, info: PipelineInfo)
    requires info == InfoOf(b)
    ensures Record(symbols, b) ==
            var symbol := if b.predicateName in symbols then symbols[b.predicateName] else map[];
            symbols[b.predicateName := symbol[b.iteration := info]]
  {
  }

  /** What a lookup in the generated symbols finds: the last complete block with that header, and nothing if
      there is no complete block. */
  lemma SymbolsAreLastBlocks(lines: seq<Line>, name: string, iteration: nat)
    ensures var found := Lookup(RecordAll(Rest(lines, None, 0)), name, iteration);
      if found.None? then
        forall b | IsBlock(lines, b) :: b.predicateName != name || b.iteration != iteration
      else
        exists b ::
          && IsBlock(lines, b) && b.predicateName == name && b.iteration == iteration
          && found == Some(PipelineInfo(b.start, b.start + 1, b.end))
          && forall c | IsBlock(lines, c) && c.predicateName == name && c.iteration == iteration :: c.start <= b.start
  {
    hide IsBlock, RecordAll, Blocks;
    var blocks := Blocks(lines, 0);
    forall b: Block
      ensures b in blocks <==> IsBlock(lines, b)
    {
      BlocksAreExact(lines, 0, b);
    }
    if k: nat :| LastWith(blocks, name, iteration, k) {
      EntryIsLastBlock(blocks, name, iteration, k);
      var b := blocks[k];
      forall c | IsBlock(lines, c) && c.predicateName == name && c.iteration == iteration
        ensures c.start <= b.start
      {
        var j :| 0 <= j < |blocks| && blocks[j] == c;
        if j < k {
          BlocksAreDisjoint(lines, 0, j, k);
        }
      }
      assert IsBlock(lines, b);
    } else {
      NoLast(blocks, name, iteration);
      NoEntryWithoutBlock(blocks, name, iteration);
    }
  }

  predicate LastWith(blocks: seq<Block>, name: string, iteration: nat, k: nat) {
    && k < |blocks| && blocks[k].predicateName == name && blocks[k].iteration == iteration
    && forall j | k < j < |blocks| :: blocks[j].predicateName != name || blocks[j].iteration != iteration
  }

  lemma {:induction false} NoLast(blocks: seq<Block>, name: string, iteration: nat)
    requires forall k: nat :: !LastWith(blocks, name, iteration, k)
    ensures forall j | 0 <= j < |blocks| :: blocks[j].predicateName != name || blocks[j].iteration != iteration
    decreases |blocks|
  {
    if blocks != [] {
      var last: nat := |blocks| - 1;
      var front := blocks[..last];
      assert !LastWith(blocks, name, iteration, last);
      forall k: nat
        ensures !LastWith(front, name, iteration, k)
      {
        if LastWith(front, name, iteration, k) {
          assert LastWith(blocks, name, iteration, k);
        }
      }
      NoLast(front, name, iteration);
    }
  }
}
