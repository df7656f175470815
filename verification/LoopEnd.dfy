/**
  Resolving the breaks of a loop: the walk over the code of the loop body that turns every
  placeholder into a jump behind the loop, for code made of any opcodes the length table
  covers.
 */
module LoopEnd {
  import opened Wrappers
  import opened Bytecode
  import opened CodeGen

  /** The bytes of one instruction, or of one placeholder. */
  predicate IsChunk(b: seq<Byte>) {
    b != [] && if b[0] == PLACEHOLDER then |b| == 3 else Walkable(b[0]) && |b| == InstructionOffset(b[0])
  }

  predicate AllChunks(chunks: seq<seq<Byte>>) {
    forall i :: 0 <= i < |chunks| ==> IsChunk(chunks[i])
  }

  function Flat(chunks: seq<seq<Byte>>): seq<Byte> {
    if chunks == [] then [] else chunks[0] + Flat(chunks[1..])
  }

  /** A placeholder becomes a jump to the position `dist` bytes behind its start. */
  function Filled(chunk: seq<Byte>, dist: int): (r: seq<Byte>)
    requires IsChunk(chunk)
    ensures |r| == |chunk|
  {
    if chunk[0] == PLACEHOLDER then [OP_JUMP, Hi(dist - 3), Lo(dist - 3)] else chunk
  }

  function FillAll(chunks: seq<seq<Byte>>, dist: int): (r: seq<seq<Byte>>)
    requires AllChunks(chunks)
    ensures |r| == |chunks|
  {
    if chunks == [] then [] else [Filled(chunks[0], dist)] + FillAll(chunks[1..], dist - |chunks[0]|)
  }

  lemma {:induction false} FillKeepsSize(chunks: seq<seq<Byte>>, dist: int)
    requires AllChunks(chunks)
    ensures |Flat(FillAll(chunks, dist))| == |Flat(chunks)|
  {
    if chunks != [] {
      FillKeepsSize(chunks[1..], dist - |chunks[0]|);
    }
  }

  lemma {:induction false} FlatAppend(a: seq<seq<Byte>>, b: seq<seq<Byte>>)
    ensures Flat(a + b) == Flat(a) + Flat(b)
  {
    if a == [] {
      assert a + b == b;
    } else {
      assert (a + b)[0] == a[0] && (a + b)[1..] == a[1..] + b;
      FlatAppend(a[1..], b);
    }
  }

  /**
    What filling does to the k-th instruction: if it is a placeholder it becomes an OP_JUMP
    that lands exactly `dist` bytes behind the start of the code, otherwise it is untouched,
    whatever bytes its operands hold. No placeholder is left.
   */
  lemma {:induction false} FillExact(chunks: seq<seq<Byte>>, dist: int, k: nat)
    requires AllChunks(chunks) && k < |chunks|
    ensures var at, r := |Flat(chunks[..k])|, FillAll(chunks, dist)[k];
            if chunks[k][0] != PLACEHOLDER then r == chunks[k]
            else |r| == 3 && r[0] == OP_JUMP &&
                 (3 <= dist - at <= 65538 ==> at + 3 + Short(r[1], r[2]) == dist)
    ensures IsChunk(FillAll(chunks, dist)[k]) && FillAll(chunks, dist)[k][0] != PLACEHOLDER
  {
    if k == 0 {
      assert chunks[..0] == [];
      if 3 <= dist <= 65538 {
        ShortOfHiLo(dist - 3);
      }
    } else {
      FillExact(chunks[1..], dist - |chunks[0]|, k - 1);
      assert chunks[..k] == [chunks[0]] + chunks[1..][..k - 1];
      assert chunks[..k][1..] == chunks[1..][..k - 1];
    }
  }

  /** The instructions of the fragment are chunks. */
  function Chunks(ins: seq<Instr>): (r: seq<seq<Byte>>)
    ensures |r| == |ins|
  {
    if ins == [] then [] else [Encode(ins[0])] + Chunks(ins[1..])
  }

  lemma EncodedIsChunk(i: Instr)
    ensures IsChunk(Encode(i)) && (Encode(i)[0] == PLACEHOLDER <==> i == BreakHole)
  {
    if i.Binary? {
      BinaryIsChunk(i.op);
    }
  }

  lemma BinaryIsChunk(op: BinOp)
    ensures IsChunk([BinOpCode(op)]) && BinOpCode(op) != PLACEHOLDER
  {
  }

  lemma {:induction false} ChunksFlat(ins: seq<Instr>)
    ensures AllChunks(Chunks(ins)) && Flat(Chunks(ins)) == EncodeAll(ins)
  {
    hide IsChunk, Encode;
    if ins != [] {
      EncodedIsChunk(ins[0]);
      ChunksFlat(ins[1..]);
    }
  }

  /** Filling the bytes is what patching the instructions means. */
  lemma {:induction false} FillIsPatch(ins: seq<Instr>, dist: int)
    requires AllChunks(Chunks(ins))
    ensures FillAll(Chunks(ins), dist) == Chunks(Patch(ins, dist))
  {
    if ins != [] {
      EncodedIsChunk(ins[0]);
      ChunksFlat(ins[1..]);
      FillIsPatch(ins[1..], dist - Len(ins[0]));
      FillOne(ins[0], dist);
    }
  }

  lemma FillOne(i: Instr, dist: int)
    requires IsChunk(Encode(i))
    ensures Filled(Encode(i), dist) == Encode(Fill(i, dist))
  {
    EncodedIsChunk(i);
  }

  /** Every jump that filling makes is short enough for its operand. */
  predicate HolesFit(chunks: seq<seq<Byte>>, dist: int)
    requires AllChunks(chunks)
  {
    chunks == [] ||
    ((chunks[0][0] == PLACEHOLDER ==> dist - 3 <= 65535) && HolesFit(chunks[1..], dist - |chunks[0]|))
  }

  lemma {:induction false} PatchFits(ins: seq<Instr>, dist: int)
    requires dist >= Size(ins) && AllChunks(Chunks(ins))
    ensures AllFit(Patch(ins, dist)) <==> AllFit(ins) && HolesFit(Chunks(ins), dist)
  {
    hide Encode, IsChunk, AllFit;
    if ins == [] {
      FitNone();
    } else {
      EncodedIsChunk(ins[0]);
      ChunksFlat(ins[1..]);
      PatchFits(ins[1..], dist - Len(ins[0]));
      FitCons(ins);
      FitCons(Patch(ins, dist));
      assert Chunks(ins)[1..] == Chunks(ins[1..]) && Patch(ins, dist)[1..] == Patch(ins[1..], dist - Len(ins[0]));
      assert ins[0] == BreakHole ==> Len(ins[0]) == 3 && dist >= 3;
    }
  }

  lemma FitNone()
    ensures AllFit([])
  {
  }

  lemma FitCons(ins: seq<Instr>)
    requires ins != []
    ensures AllFit(ins) <==> Fits(ins[0]) && AllFit(ins[1..])
  {
    if Fits(ins[0]) && AllFit(ins[1..]) {
      forall i | 0 <= i < |ins|
        ensures Fits(ins[i])
      {
        if i > 0 {
          assert ins[i] == ins[1..][i - 1];
        }
      }
    }
  }
}
