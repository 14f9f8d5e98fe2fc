/** Grouping completed lines into AMI blocks, for one data event and for a whole connection. */
module AmiFraming {
  import opened CrlfLines

  type Block = seq<string>

  /** The blocks that the data handler's nested loops hand over when `cur` is already collected
      and `lines` are still queued. */
  function BlocksFrom(cur: Block, lines: seq<string>): seq<Block>
    decreases |lines|
  {
    if lines == [] then Flush(cur)
    else if lines[0] == "" then Flush(cur) + BlocksFrom([], lines[1..])
    else BlocksFrom(cur + [lines[0]], lines[1..])
  }

  function Flush(cur: Block): seq<Block> {
    if cur == [] then [] else [cur]
  }

  /** The blocks of a list of completed lines: its maximal runs of non-empty lines. */
  function Blocks(lines: seq<string>): seq<Block> {
    BlocksFrom([], lines)
  }

  function Flatten(blocks: seq<Block>): seq<string> {
    if blocks == [] then [] else blocks[0] + Flatten(blocks[1..])
  }

  function NonEmpty(lines: seq<string>): seq<string> {
    if lines == [] then []
    else if lines[0] == "" then NonEmpty(lines[1..])
    else [lines[0]] + NonEmpty(lines[1..])
  }

  /** A line boundary that lies inside a run of non-empty lines. */
  predicate Seam(a: seq<string>, b: seq<string>) {
    a != [] && b != [] && a[|a| - 1] != "" && b[0] != ""
  }

  // ---- grouping and concatenation -------------------------------------------------------

  lemma {:induction false} CountIgnoresHead(c1: Block, c2: Block, lines: seq<string>)
    requires c1 != [] && c2 != []
    ensures |BlocksFrom(c1, lines)| == |BlocksFrom(c2, lines)|
    decreases |lines|
  {
    if lines != [] && lines[0] != "" {
      CountIgnoresHead(c1 + [lines[0]], c2 + [lines[0]], lines[1..]);
    }
  }

  lemma ContinueOpen(cur: Block, b: seq<string>)
    requires cur != []
    ensures b == [] || b[0] == "" ==> BlocksFrom(cur, b) == [cur] + Blocks(b)
    ensures b != [] && b[0] != "" ==> |BlocksFrom(cur, b)| == |Blocks(b)|
  {
    if b != [] && b[0] != "" {
      var none: Block := [];
      CountIgnoresHead(cur + [b[0]], [b[0]], b[1..]);
      assert none + [b[0]] == [b[0]];
    }
  }

  lemma {:induction false} AppendFrom(cur: Block, a: seq<string>, b: seq<string>)
    requires cur != [] || a != []
    ensures var open := a == [] || a[|a| - 1] != "";
            var whole, parts := BlocksFrom(cur, a + b), BlocksFrom(cur, a) + Blocks(b);
            if open && b != [] && b[0] != "" then |whole| == |parts| - 1 else whole == parts
    decreases |a|
  {
    if a == [] {
      assert a + b == b;
      ContinueOpen(cur, b);
    } else {
      assert (a + b)[1..] == a[1..] + b;
      var next := if a[0] == "" then [] else cur + [a[0]];
      if next == [] && a[1..] == [] {
        assert a[1..] + b == b;
      } else {
        AppendFrom(next, a[1..], b);
      }
    }
  }

  /** Grouping two batches separately gives one block too many exactly when the cut is a seam. */
  lemma BlocksAppend(a: seq<string>, b: seq<string>)
    ensures !Seam(a, b) ==> Blocks(a + b) == Blocks(a) + Blocks(b)
    ensures Seam(a, b) ==> |Blocks(a + b)| == |Blocks(a)| + |Blocks(b)| - 1
  {
    if a == [] {
      assert a + b == b;
    } else {
      AppendFrom([], a, b);
    }
  }

  lemma FlattenCons(block: Block, rest: seq<Block>)
    ensures Flatten([block] + rest) == block + Flatten(rest)
  {
    assert ([block] + rest)[1..] == rest;
  }

  lemma {:induction false} FlattenAppend(a: seq<Block>, b: seq<Block>)
    ensures Flatten(a + b) == Flatten(a) + Flatten(b)
  {
    if a == [] {
      assert a + b == b;
    } else {
      FlattenAppend(a[1..], b);
      FlattenCons(a[0], a[1..]);
      FlattenCons(a[0], a[1..] + b);
      assert a == [a[0]] + a[1..] && a + b == [a[0]] + (a[1..] + b);
    }
  }

  lemma NonEmptyCons(l: string, rest: seq<string>)
    ensures NonEmpty([l] + rest) == (if l == "" then [] else [l]) + NonEmpty(rest)
  {
    assert ([l] + rest)[1..] == rest;
  }

  lemma {:induction false} NonEmptyAppend(a: seq<string>, b: seq<string>)
    ensures NonEmpty(a + b) == NonEmpty(a) + NonEmpty(b)
  {
    if a == [] {
      assert a + b == b;
    } else {
      NonEmptyAppend(a[1..], b);
      NonEmptyCons(a[0], a[1..]);
      NonEmptyCons(a[0], a[1..] + b);
      assert a == [a[0]] + a[1..] && a + b == [a[0]] + (a[1..] + b);
    }
  }

  lemma {:induction false} BlocksFromKeepLines(cur: Block, lines: seq<string>)
    requires "" !in cur
    ensures Flatten(BlocksFrom(cur, lines)) == cur + NonEmpty(lines)
    ensures forall b :: b in BlocksFrom(cur, lines) ==> b != [] && "" !in b
    decreases |lines|
  {
    assert Flatten(Flush(cur)) == cur;
    if lines != [] {
      if lines[0] == "" {
        BlocksFromKeepLines([], lines[1..]);
        FlattenAppend(Flush(cur), BlocksFrom([], lines[1..]));
      } else {
        BlocksFromKeepLines(cur + [lines[0]], lines[1..]);
      }
    }
  }

  // ---- a whole connection ---------------------------------------------------------------

  function Received(chunks: seq<string>): string {
    if chunks == [] then "" else Received(chunks[..|chunks| - 1]) + chunks[|chunks| - 1]
  }

  /** The blocks handed over in the course of the data events `chunks`. Each event splits what
      the previous events left in the buffer plus its own text, and groups on its own. */
  function Handled(chunks: seq<string>): seq<Block> {
    if chunks == [] then []
    else
      var before := chunks[..|chunks| - 1];
      Handled(before) + Blocks(Lines(Tail(Received(before)) + chunks[|chunks| - 1]))
  }

  /** A cut after `p` characters falls at or behind the CRLF that ends some header line `k - 1` of
      a block and before the CRLF that ends the next header line `k` of the same block. */
  ghost predicate CutsBlock(stream: string, p: nat) {
    var lines := Lines(stream);
    exists k :: 0 < k < |lines| && lines[k - 1] != "" && lines[k] != ""
                && Offset(lines, k) <= p < Offset(lines, k + 1)
  }

  ghost predicate NoCutInsideBlock(chunks: seq<string>) {
    forall i :: 0 < i < |chunks| ==> !CutsBlock(Received(chunks), |Received(chunks[..i])|)
  }

  /** Every line of every handled block, in order, is a non-empty completed line of the stream,
      and none is lost or doubled, whatever the cuts. */
  lemma {:induction false} HandledConservesLines(chunks: seq<string>)
    ensures Flatten(Handled(chunks)) == NonEmpty(Lines(Received(chunks)))
    ensures forall b :: b in Handled(chunks) ==> b != [] && "" !in b
  {
    if chunks != [] {
      var before, c := chunks[..|chunks| - 1], chunks[|chunks| - 1];
      HandledConservesLines(before);
      var s := Received(before);
      FeedResumes(s, c);
      var batch := Lines(Tail(s) + c);
      BlocksFromKeepLines([], batch);
      FlattenAppend(Handled(before), Blocks(batch));
      NonEmptyAppend(Lines(s), batch);
    }
  }

  lemma {:induction false} ReceivedPrefix(chunks: seq<string>, i: nat)
    requires i <= |chunks|
    ensures Received(chunks[..i]) <= Received(chunks)
    decreases |chunks|
  {
    if i < |chunks| {
      ReceivedPrefix(chunks[..|chunks| - 1], i);
      assert chunks[..|chunks| - 1][..i] == chunks[..i];
    } else {
      assert chunks[..i] == chunks;
    }
  }

  /** Only the boundary at the number of lines completed by `p` matters. */
  lemma CutsBlockByCount(stream: string, p: nat)
    requires p <= |stream|
    ensures Lines(stream[..p]) <= Lines(stream)
    ensures var k := |Lines(stream[..p])|;
            CutsBlock(stream, p) <==> Seam(Lines(stream)[..k], Lines(stream)[k..])
  {
    CompletedAt(stream, p);
    var lines, k := Lines(stream), |Lines(stream[..p])|;
    forall j | 0 < j < |lines| && Offset(lines, j) <= p < Offset(lines, j + 1)
      ensures j == k
    {
      if j < k { OffsetMonotone(lines, j + 1, k); }
      else if k < j { OffsetMonotone(lines, k + 1, j); }
    }
  }

  /** Extending the stream keeps every old verdict except at the very end of the old stream. */
  lemma CutsBlockExtend(s: string, c: string, p: nat)
    requires p <= |s|
    ensures CutsBlock(s, p) ==> CutsBlock(s + c, p)
    ensures CutsBlock(s + c, p) ==> CutsBlock(s, p) || CutsBlock(s + c, |s|)
  {
    CutsBlockByCount(s, p);
    CutsBlockByCount(s + c, p);
    CutsBlockByCount(s + c, |s|);
    assert (s + c)[..p] == s[..p];
    assert (s + c)[..|s|] == s;
    var k := |Lines(s[..p])|;
    var a, b := Lines(s), Lines(s + c);
    assert a == b[..|a|];
    if k < |a| {
      assert a[k..][0] == b[k..][0];
    }
  }

  lemma NoCutSnoc(before: seq<string>, c: string)
    requires before != []
    ensures NoCutInsideBlock(before + [c]) <==>
              NoCutInsideBlock(before) && !CutsBlock(Received(before + [c]), |Received(before)|)
  {
    var chunks, n := before + [c], |before|;
    var s := Received(before);
    assert chunks[..n] == before;
    assert Received(chunks) == s + c;
    forall i | 0 < i < n
      ensures Received(chunks[..i]) == Received(before[..i])
      ensures CutsBlock(s, |Received(before[..i])|) ==> CutsBlock(s + c, |Received(before[..i])|)
      ensures CutsBlock(s + c, |Received(before[..i])|) ==>
                CutsBlock(s, |Received(before[..i])|) || CutsBlock(s + c, |s|)
    {
      assert chunks[..i] == before[..i];
      ReceivedPrefix(before, i);
      CutsBlockExtend(s, c, |Received(before[..i])|);
    }
  }

  /** The incremental parser agrees with parsing the whole stream at once exactly when no cut
      falls inside a block; otherwise it hands over more, shorter blocks. */
  lemma {:induction false} ChunkingTheorem(chunks: seq<string>)
    ensures Handled(chunks) == Blocks(Lines(Received(chunks))) <==> NoCutInsideBlock(chunks)
    ensures !NoCutInsideBlock(chunks) ==> |Handled(chunks)| > |Blocks(Lines(Received(chunks)))|
  {
    if |chunks| == 0 {
    } else {
      var before, c := chunks[..|chunks| - 1], chunks[|chunks| - 1];
      var s := Received(before);
      assert before + [c] == chunks;
      FeedResumes(s, c);
      var batch := Lines(Tail(s) + c);
      BlocksAppend(Lines(s), batch);
      ChunkingTheorem(before);
      CutsBlockByCount(s + c, |s|);
      assert (s + c)[..|s|] == s;
      assert Lines(s + c)[..|Lines(s)|] == Lines(s) && Lines(s + c)[|Lines(s)|..] == batch;
      if before == [] {
        assert Lines(s) == [];
      } else {
        NoCutSnoc(before, c);
      }
    }
  }

  // ---- the sender's side ----------------------------------------------------------------

  /** A block as the manager interface writes it: its lines, then an empty line. */
  function Encode(blocks: seq<Block>): seq<string> {
    if blocks == [] then [] else blocks[0] + [""] + Encode(blocks[1..])
  }

  ghost predicate Sendable(blocks: seq<Block>) {
    forall b :: b in blocks ==> b != [] && forall l :: l in b ==> l != "" && !HasCrlf(l)
  }

  lemma {:induction false} CollectBlock(cur: Block, b: Block, rest: seq<string>)
    requires cur + b != [] && "" !in b
    ensures BlocksFrom(cur, b + [""] + rest) == [cur + b] + Blocks(rest)
    decreases |b|
  {
    var lines := b + [""] + rest;
    if b == [] {
      assert lines[1..] == rest;
      assert cur + b == cur;
    } else {
      assert lines[1..] == b[1..] + [""] + rest;
      CollectBlock(cur + [b[0]], b[1..], rest);
      assert cur + [b[0]] + b[1..] == cur + b;
    }
  }

  lemma {:induction false} BlocksOfEncode(blocks: seq<Block>)
    requires Sendable(blocks)
    ensures Blocks(Encode(blocks)) == blocks
    ensures forall l :: l in Encode(blocks) ==> !HasCrlf(l)
  {
    if blocks != [] {
      assert forall b :: b in blocks[1..] ==> b in blocks;
      BlocksOfEncode(blocks[1..]);
      assert blocks[0] in blocks;
      CollectBlock([], blocks[0], Encode(blocks[1..]));
      assert [] + blocks[0] == blocks[0];
    }
  }

  /** Round trip: blocks written as lines, an empty line after each, come back unchanged under
      every cutting of the bytes that stays out of the blocks, and only then. */
  lemma WireRoundTrip(blocks: seq<Block>, chunks: seq<string>)
    requires Sendable(blocks)
    requires Received(chunks) == Join(Encode(blocks) + [""])
    ensures Handled(chunks) == blocks <==> NoCutInsideBlock(chunks)
  {
    BlocksOfEncode(blocks);
    SplitJoin(Encode(blocks) + [""]);
    assert Lines(Received(chunks)) == Encode(blocks);
    ChunkingTheorem(chunks);
  }
}
