/** `Program` (`src/lib/program.ts`): an ordered list of blocks rendered
    one after another. */
module Programs {
  import opened Results
  import opened Commands
  import opened Strings
  import opened Blocks

  datatype Program = Program(blocks: seq<Block>)

  /** `new Program()`. */
  const Fresh: Program := Program([])

  /** `addBlock`: push the block at the end. */
  function AddBlock(p: Program, b: Block): (r: Program)
    ensures |r.blocks| == |p.blocks| + 1
    ensures r.blocks[..|p.blocks|] == p.blocks && r.blocks[|p.blocks|] == b
  {
    Program(p.blocks + [b])
  }

  /** Every block rendered at the default precision, or the first error. */
  function RenderBlocks(bs: seq<Block>, fmt: Fmt): (r: Result<seq<string>>)
    ensures r.Ok? ==> |r.value| == |bs|
  {
    if bs == [] then Ok([])
    else
      match Blocks.ToString(bs[0], DefaultPrecision, fmt)
      case Err(m) => Err(m)
      case Ok(text) =>
        match RenderBlocks(bs[1..], fmt)
        case Err(m) => Err(m)
        case Ok(rest) => Ok([text] + rest)
  }

  /** Rendering a list of blocks succeeds iff every block renders, and then
      the i-th text is the i-th block's rendering. */
  lemma {:induction false} RenderBlocksTexts(bs: seq<Block>, fmt: Fmt)
    ensures RenderBlocks(bs, fmt).Ok?
        <==> forall i :: 0 <= i < |bs| ==> Blocks.ToString(bs[i], DefaultPrecision, fmt).Ok?
    ensures RenderBlocks(bs, fmt).Ok? ==>
              forall i :: 0 <= i < |bs| ==>
                RenderBlocks(bs, fmt).value[i] == Blocks.ToString(bs[i], DefaultPrecision, fmt).value
  {
    if bs != [] {
      RenderBlocksTexts(bs[1..], fmt);
      assert forall i :: 1 <= i < |bs| ==> bs[i] == bs[1..][i - 1];
      if !Blocks.ToString(bs[0], DefaultPrecision, fmt).Ok? {
      } else if !RenderBlocks(bs[1..], fmt).Ok? {
        var i :| 0 <= i < |bs| - 1 && !Blocks.ToString(bs[1..][i], DefaultPrecision, fmt).Ok?;
        assert !Blocks.ToString(bs[i + 1], DefaultPrecision, fmt).Ok?;
      }
    }
  }

  /** Rendering a concatenation renders each part, in order. */
  lemma {:induction false} RenderBlocksAppend(a: seq<Block>, b: seq<Block>, fmt: Fmt)
    requires RenderBlocks(a, fmt).Ok? && RenderBlocks(b, fmt).Ok?
    ensures RenderBlocks(a + b, fmt).Ok?
    ensures RenderBlocks(a + b, fmt).value == RenderBlocks(a, fmt).value + RenderBlocks(b, fmt).value
    decreases |a|
  {
    if a == [] {
      assert a + b == b;
    } else {
      assert (a + b)[0] == a[0] && (a + b)[1..] == a[1..] + b;
      var text := Blocks.ToString(a[0], DefaultPrecision, fmt).value;
      RenderBlocksAppend(a[1..], b, fmt);
      assert RenderBlocks(a, fmt).value == [text] + RenderBlocks(a[1..], fmt).value;
      assert RenderBlocks(a + b, fmt).value == [text] + RenderBlocks(a[1..] + b, fmt).value;
    }
  }

  /** `Program.toString`: the blocks' renderings, in insertion order, joined
      by a newline. */
  function ToString(p: Program, fmt: Fmt): (r: Result<string>)
    ensures r.Ok? <==> forall i :: 0 <= i < |p.blocks| ==> Blocks.ToString(p.blocks[i], DefaultPrecision, fmt).Ok?
  {
    RenderBlocksTexts(p.blocks, fmt);
    match RenderBlocks(p.blocks, fmt)
    case Err(m) => Err(m)
    case Ok(texts) => Ok(Join(texts, "\n"))
  }

  /** Adding a block to a non-empty program appends a newline and that
      block's text to the program's text. */
  lemma ToStringAddBlock(p: Program, b: Block, fmt: Fmt)
    requires p.blocks != []
    requires ToString(p, fmt).Ok? && Blocks.ToString(b, DefaultPrecision, fmt).Ok?
    ensures ToString(AddBlock(p, b), fmt).Ok?
    ensures ToString(AddBlock(p, b), fmt).value
         == ToString(p, fmt).value + "\n" + Blocks.ToString(b, DefaultPrecision, fmt).value
  {
    var tb := Blocks.ToString(b, DefaultPrecision, fmt).value;
    assert RenderBlocks([], fmt) == Ok([]);
    assert [b][1..] == [];
    var single := RenderBlocks([b], fmt);
    assert single.Ok? && single.value == [tb];
    RenderBlocksAppend(p.blocks, [b], fmt);
    JoinAppend(RenderBlocks(p.blocks, fmt).value, [tb], "\n");
  }

  /** `getEstimatedRuntimeSec`: the block estimates summed left to right
      from 0. */
  function Runtime(p: Program): real {
    RuntimeSum(p.blocks)
  }

  function RuntimeSum(bs: seq<Block>): real {
    if bs == [] then 0.0 else RuntimeSum(bs[..|bs| - 1]) + BlockRuntimeSec
  }

  /** The estimate is ten seconds per block. */
  lemma {:induction false} RuntimeIsPerBlock(bs: seq<Block>)
    ensures RuntimeSum(bs) == BlockRuntimeSec * |bs| as real
  {
    if bs != [] {
      RuntimeIsPerBlock(bs[..|bs| - 1]);
    }
  }

  /** Adding a block adds one block estimate. */
  lemma RuntimeAddBlock(p: Program, b: Block)
    ensures Runtime(AddBlock(p, b)) == Runtime(p) + BlockRuntimeSec
  {
    assert AddBlock(p, b).blocks[..|p.blocks|] == p.blocks;
  }

  /** A fresh program renders the empty text and estimates zero seconds. */
  lemma FreshProgramIsEmpty(fmt: Fmt)
    ensures ToString(Fresh, fmt) == Ok("")
    ensures Runtime(Fresh) == 0.0
  {
  }
}
