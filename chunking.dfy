/** The chunker of the knowledge-retrieval engine
    (`chunk_text` in app/core/services/embeddings_service.py): blank-line
    paragraphs are packed greedily into chunks of about `chunkSize`
    characters, each new chunk starting with the last `overlap` characters
    of the previous one. */
module Chunking {
  import opened Text

  /** The paragraph boundary. */
  const ParagraphBreak: string := "\n\n"

  /** The loop state: the chunks emitted so far and the open buffer. */
  datatype Buffer = Buffer(chunks: seq<string>, current: string)

  /** The stripped, non-empty pieces among `pieces`, in order. */
  function NonEmptyStripped(pieces: seq<string>): (r: seq<string>)
    ensures |r| <= |pieces|
    ensures forall i :: 0 <= i < |r| ==> Trimmed(r[i])
  {
    if pieces == [] then []
    else
      var rest := NonEmptyStripped(pieces[..|pieces| - 1]);
      var p := Strip(pieces[|pieces| - 1]);
      if p == [] then rest else rest + [p]
  }

  /** The paragraphs `chunk_text` packs: the stripped, non-empty pieces of
      `text.split("\n\n")`. */
  function Paragraphs(text: string): seq<string>
  {
    NonEmptyStripped(Split(text, ParagraphBreak))
  }

  /** Feeding one stripped, non-empty paragraph to the buffer: flush when the
      buffer is non-empty and would grow past `chunkSize`, carrying the last
      `overlap` characters over into the new buffer. */
  function Step(b: Buffer, p: string, chunkSize: int, overlap: int): Buffer
  {
    if |b.current| + |p| > chunkSize && b.current != [] then
      Buffer(b.chunks + [Strip(b.current)],
             if overlap > 0 && |b.current| > overlap
             then b.current[|b.current| - overlap..] + ParagraphBreak + p
             else p)
    else
      Buffer(b.chunks, if b.current != [] then b.current + ParagraphBreak + p else p)
  }

  /** The state after the loop has seen the raw pieces `pieces`; a piece that
      strips to nothing is skipped. */
  function Run(pieces: seq<string>, chunkSize: int, overlap: int): Buffer
  {
    if pieces == [] then Buffer([], [])
    else
      var b := Run(pieces[..|pieces| - 1], chunkSize, overlap);
      var p := Strip(pieces[|pieces| - 1]);
      if p == [] then b else Step(b, p, chunkSize, overlap)
  }

  /** The final flush of the open buffer. */
  function Finish(b: Buffer): seq<string>
  {
    if Strip(b.current) != [] then b.chunks + [Strip(b.current)] else b.chunks
  }

  /** The chunks of `text`: what `chunk_text(text, chunkSize, overlap)` returns. */
  function Chunks(text: string, chunkSize: int, overlap: int): seq<string>
  {
    if Strip(text) == [] then []
    else Finish(Run(Split(text, ParagraphBreak), chunkSize, overlap))
  }

  /** One more piece: the fold takes one step, or none for a blank piece. */
  lemma RunNext(pieces: seq<string>, i: nat, chunkSize: int, overlap: int)
    requires i < |pieces|
    ensures Run(pieces[..i + 1], chunkSize, overlap)
         == if Strip(pieces[i]) == [] then Run(pieces[..i], chunkSize, overlap)
            else Step(Run(pieces[..i], chunkSize, overlap), Strip(pieces[i]), chunkSize, overlap)
  {
    assert pieces[..i + 1][..i] == pieces[..i];
  }

  /** The body of the paragraph loop for one stripped, non-empty paragraph. */
  method AddParagraph(chunks: seq<string>, current: string, paragraph: string, chunkSize: int, overlap: int)
    returns (chunks': seq<string>, current': string)
    ensures Buffer(chunks', current') == Step(Buffer(chunks, current), paragraph, chunkSize, overlap)
  {
    chunks', current' := chunks, current;
    if |current'| + |paragraph| > chunkSize && current' != [] {
      chunks' := chunks' + [Strip(current')];
      if overlap > 0 && |current'| > overlap {
        current' := current'[|current'| - overlap..] + ParagraphBreak + paragraph;
      } else {
        current' := paragraph;
      }
    } else {
      if current' != [] {
        current' := current' + ParagraphBreak + paragraph;
      } else {
        current' := paragraph;
      }
    }
  }

  /** `chunk_text`: the paragraph loop, mutating the open buffer and the list
      of chunks. */
  method ChunkText(text: string, chunkSize: int, overlap: int) returns (chunks: seq<string>)
    ensures chunks == Chunks(text, chunkSize, overlap)
  {
    if Strip(text) == [] {
      return [];
    }
    var paragraphs := Split(text, ParagraphBreak);
    chunks := [];
    var current := "";
    var i := 0;
    while i < |paragraphs|
      invariant 0 <= i <= |paragraphs|
      invariant Buffer(chunks, current) == Run(paragraphs[..i], chunkSize, overlap)
    {
      RunNext(paragraphs, i, chunkSize, overlap);
      var paragraph := Strip(paragraphs[i]);
      if paragraph != [] {
        chunks, current := AddParagraph(chunks, current, paragraph, chunkSize, overlap);
      }
      i := i + 1;
    }
    assert paragraphs[..i] == paragraphs;
    if Strip(current) != [] {
      chunks := chunks + [Strip(current)];
    }
  }

  // ---------------------------------------------------------------------------
  // The flush rule

  /** A chunk is emitted exactly when the buffer is non-empty and adding the
      paragraph would take it past `chunkSize`; the chunk is the stripped
      buffer, and the next buffer then starts with the buffer's last
      `overlap` characters when overlap is positive and the buffer longer. */
  lemma FlushRule(b: Buffer, p: string, chunkSize: int, overlap: int)
    ensures var b' := Step(b, p, chunkSize, overlap);
      && (b'.chunks != b.chunks <==> b.current != [] && |b.current| + |p| > chunkSize)
      && (b'.chunks != b.chunks ==> b'.chunks == b.chunks + [Strip(b.current)])
      && (b'.chunks != b.chunks && overlap > 0 && |b.current| > overlap ==>
            b'.current == b.current[|b.current| - overlap..] + ParagraphBreak + p)
      && (b'.chunks == b.chunks ==> b'.current == if b.current == [] then p else b.current + ParagraphBreak + p)
  {
    var b' := Step(b, p, chunkSize, overlap);
    if b.current != [] && |b.current| + |p| > chunkSize {
      assert |b'.chunks| == |b.chunks| + 1;
    }
  }

  // ---------------------------------------------------------------------------
  // Invariants of the fold

  /** The open buffer is empty or ends with a paragraph's last character. */
  predicate OpenBufferEndsWell(b: Buffer) {
    b.current == [] || !IsSpace(b.current[|b.current| - 1])
  }

  /** Every emitted chunk is non-empty and has no whitespace at its ends. */
  predicate ChunksTrimmed(chunks: seq<string>) {
    forall i :: 0 <= i < |chunks| ==> Trimmed(chunks[i])
  }

  /** A buffer that ends with a non-blank character strips to a non-empty chunk. */
  lemma StripOfWellEnded(s: string)
    requires s != [] && !IsSpace(s[|s| - 1])
    ensures Strip(s) != []
  {
    StripEmptyIff(s);
  }

  /** The open buffer ends well and every emitted chunk is trimmed. */
  lemma {:induction false} RunTrimmed(pieces: seq<string>, chunkSize: int, overlap: int)
    ensures var b := Run(pieces, chunkSize, overlap);
      OpenBufferEndsWell(b) && ChunksTrimmed(b.chunks)
  {
    if pieces != [] {
      var init := pieces[..|pieces| - 1];
      RunTrimmed(init, chunkSize, overlap);
      var b := Run(init, chunkSize, overlap);
      var p := Strip(pieces[|pieces| - 1]);
      if p != [] {
        if |b.current| + |p| > chunkSize && b.current != [] {
          StripOfWellEnded(b.current);
          assert ChunksTrimmed(b.chunks + [Strip(b.current)]);
        }
      }
    }
  }

  /** Each paragraph adds at most one chunk or opens the buffer; the state
      is empty exactly when no paragraph has been fed. */
  lemma {:induction false} RunSize(pieces: seq<string>, chunkSize: int, overlap: int)
    ensures var b := Run(pieces, chunkSize, overlap);
      && |b.chunks| + (if b.current == [] then 0 else 1) <= |NonEmptyStripped(pieces)|
      && (b.chunks == [] && b.current == [] <==> NonEmptyStripped(pieces) == [])
  {
    if pieces != [] {
      var init := pieces[..|pieces| - 1];
      RunSize(init, chunkSize, overlap);
      var p := Strip(pieces[|pieces| - 1]);
      if p != [] {
        assert NonEmptyStripped(pieces) == NonEmptyStripped(init) + [p];
        assert Run(pieces, chunkSize, overlap) == Step(Run(init, chunkSize, overlap), p, chunkSize, overlap);
      } else {
        assert NonEmptyStripped(pieces) == NonEmptyStripped(init);
        assert Run(pieces, chunkSize, overlap) == Run(init, chunkSize, overlap);
      }
    }
  }

  /** The invariants every state of the fold enjoys. */
  lemma RunInvariant(pieces: seq<string>, chunkSize: int, overlap: int)
    ensures var b := Run(pieces, chunkSize, overlap);
      && OpenBufferEndsWell(b)
      && ChunksTrimmed(b.chunks)
      && |b.chunks| + (if b.current == [] then 0 else 1) <= |NonEmptyStripped(pieces)|
      && (b.chunks == [] && b.current == [] <==> NonEmptyStripped(pieces) == [])
  {
    RunTrimmed(pieces, chunkSize, overlap);
    RunSize(pieces, chunkSize, overlap);
  }

  // ---------------------------------------------------------------------------
  // Properties of chunk_text

  /** Empty or whitespace-only text, and only such text, yields no chunks. */
  lemma ChunksEmptyIff(text: string, chunkSize: int, overlap: int)
    ensures Chunks(text, chunkSize, overlap) == [] <==> AllSpace(text)
  {
    StripEmptyIff(text);
    if Strip(text) != [] {
      var pieces := Split(text, ParagraphBreak);
      var i := NonBlankPiece(text);
      NonEmptyStrippedOfNonBlank(pieces, i);
      RunInvariant(pieces, chunkSize, overlap);
      var b := Run(pieces, chunkSize, overlap);
      if b.current != [] {
        StripOfWellEnded(b.current);
      }
    }
  }

  /** Text that is not all whitespace has a piece that is not all whitespace. */
  lemma NonBlankPiece(text: string) returns (i: nat)
    requires !AllSpace(text)
    ensures i < |Split(text, ParagraphBreak)| && !AllSpace(Split(text, ParagraphBreak)[i])
  {
    var pieces := Split(text, ParagraphBreak);
    JoinSplit(text, ParagraphBreak);
    if forall j :: 0 <= j < |pieces| ==> AllSpace(pieces[j]) {
      JoinOfBlank(pieces, ParagraphBreak);
      assert false;
    }
    var j :| 0 <= j < |pieces| && !AllSpace(pieces[j]);
    i := j;
  }

  /** Joining blank parts with a blank separator gives blank text. */
  lemma {:induction false} JoinOfBlank(parts: seq<string>, sep: string)
    requires AllSpace(sep)
    requires forall j :: 0 <= j < |parts| ==> AllSpace(parts[j])
    ensures AllSpace(Join(parts, sep))
    decreases |parts|
  {
    if |parts| >= 2 {
      JoinOfBlank(parts[1..], sep);
      var rest := Join(parts[1..], sep);
      assert Join(parts, sep) == parts[0] + sep + rest;
      forall k | 0 <= k < |Join(parts, sep)| ensures IsSpace(Join(parts, sep)[k]) {
        if k < |parts[0]| {
        } else if k < |parts[0]| + |sep| {
          assert Join(parts, sep)[k] == sep[k - |parts[0]|];
        } else {
          assert Join(parts, sep)[k] == rest[k - |parts[0]| - |sep|];
        }
      }
    }
  }

  /** A piece that is not blank contributes a paragraph. */
  lemma {:induction false} NonEmptyStrippedOfNonBlank(pieces: seq<string>, i: nat)
    requires i < |pieces| && !AllSpace(pieces[i])
    ensures NonEmptyStripped(pieces) != []
    decreases |pieces|
  {
    var last := |pieces| - 1;
    StripEmptyIff(pieces[last]);
    if i < last && Strip(pieces[last]) == [] {
      assert pieces[..last][i] == pieces[i];
      NonEmptyStrippedOfNonBlank(pieces[..last], i);
    }
  }

  /** Every chunk is non-empty and carries no leading or trailing whitespace. */
  lemma ChunksAreTrimmed(text: string, chunkSize: int, overlap: int)
    ensures ChunksTrimmed(Chunks(text, chunkSize, overlap))
  {
    if Strip(text) != [] {
      RunInvariant(Split(text, ParagraphBreak), chunkSize, overlap);
    }
  }

  /** There are never more chunks than non-empty paragraphs. */
  lemma ChunkCountBound(text: string, chunkSize: int, overlap: int)
    ensures |Chunks(text, chunkSize, overlap)| <= |Paragraphs(text)|
  {
    if Strip(text) != [] {
      var pieces := Split(text, ParagraphBreak);
      RunInvariant(pieces, chunkSize, overlap);
      var b := Run(pieces, chunkSize, overlap);
      if b.current == [] {
        assert Strip(b.current) == [];
      }
    }
  }

  // ---------------------------------------------------------------------------
  // No paragraph is split or lost

  /** `q` lies whole inside an emitted chunk or inside the open buffer. */
  predicate Covered(b: Buffer, q: string) {
    || (exists j :: 0 <= j < |b.chunks| && Contains(b.chunks[j], q))
    || Contains(b.current, q)
  }

  /** The new buffer always ends with the paragraph just fed. */
  lemma StepCoversNew(b: Buffer, p: string, chunkSize: int, overlap: int)
    ensures Covered(Step(b, p, chunkSize, overlap), p)
  {
    var c := Step(b, p, chunkSize, overlap).current;
    assert c[|c| - |p|..] == p;
    assert SubstringAt(c, p, |c| - |p|);
  }

  /** Feeding a paragraph keeps every covered paragraph covered. */
  lemma StepKeepsCovered(b: Buffer, p: string, q: string, chunkSize: int, overlap: int)
    requires Trimmed(q) && Covered(b, q)
    ensures Covered(Step(b, p, chunkSize, overlap), q)
  {
    var b' := Step(b, p, chunkSize, overlap);
    if j :| 0 <= j < |b.chunks| && Contains(b.chunks[j], q) {
      assert b'.chunks[j] == b.chunks[j];
    } else {
      var k: nat :| k <= |b.current| && SubstringAt(b.current, q, k);
      if |b.current| + |p| > chunkSize && b.current != [] {
        StripKeepsInner(b.current, q, k);
        assert b'.chunks[|b.chunks|] == Strip(b.current);
      } else {
        SubstringAtExtended([], b.current, ParagraphBreak + p, q, k);
        assert [] + b.current + (ParagraphBreak + p) == b'.current;
      }
    }
  }

  /** Every paragraph fed so far is covered by the state of the fold. */
  lemma {:induction false} RunCovers(pieces: seq<string>, chunkSize: int, overlap: int, i: nat)
    requires i < |NonEmptyStripped(pieces)|
    ensures Covered(Run(pieces, chunkSize, overlap), NonEmptyStripped(pieces)[i])
    decreases |pieces|
  {
    var init := pieces[..|pieces| - 1];
    var b := Run(init, chunkSize, overlap);
    var p := Strip(pieces[|pieces| - 1]);
    var ps := NonEmptyStripped(init);
    if i < |ps| {
      RunCovers(init, chunkSize, overlap, i);
      if p != [] {
        StepKeepsCovered(b, p, ps[i], chunkSize, overlap);
      }
    } else {
      assert p != [] && NonEmptyStripped(pieces)[i] == p;
      StepCoversNew(b, p, chunkSize, overlap);
    }
  }

  /** Every non-empty paragraph appears whole inside some chunk: a paragraph
      longer than `chunkSize` is never split. */
  lemma ParagraphInSomeChunk(text: string, chunkSize: int, overlap: int, i: nat)
    requires i < |Paragraphs(text)|
    ensures exists j :: 0 <= j < |Chunks(text, chunkSize, overlap)|
                        && Contains(Chunks(text, chunkSize, overlap)[j], Paragraphs(text)[i])
  {
    var pieces := Split(text, ParagraphBreak);
    var q := Paragraphs(text)[i];
    if Strip(text) == [] {
      StripEmptyIff(text);
      var t :| 0 <= t < |q|;
      assert false by {
        SplitOfBlank(text, ParagraphBreak, 0);
        NonEmptyStrippedOfBlank(pieces, text);
      }
    }
    RunCovers(pieces, chunkSize, overlap, i);
    var b := Run(pieces, chunkSize, overlap);
    var cs := Chunks(text, chunkSize, overlap);
    if j :| 0 <= j < |b.chunks| && Contains(b.chunks[j], q) {
      assert cs[j] == b.chunks[j];
    } else {
      var k: nat :| k <= |b.current| && SubstringAt(b.current, q, k);
      StripKeepsInner(b.current, q, k);
      assert cs[|b.chunks|] == Strip(b.current);
    }
  }

  /** A blank text has no paragraphs. */
  lemma NonEmptyStrippedOfBlank(pieces: seq<string>, text: string)
    requires AllSpace(text) && pieces == Split(text, ParagraphBreak)
    ensures NonEmptyStripped(pieces) == []
  {
    forall j | 0 <= j < |pieces| ensures AllSpace(pieces[j]) {
      SplitOfBlank(text, ParagraphBreak, j);
    }
    AllBlankHasNoParagraphs(pieces);
  }

  lemma {:induction false} AllBlankHasNoParagraphs(pieces: seq<string>)
    requires forall j :: 0 <= j < |pieces| ==> AllSpace(pieces[j])
    ensures NonEmptyStripped(pieces) == []
    decreases |pieces|
  {
    if pieces != [] {
      StripEmptyIff(pieces[|pieces| - 1]);
      AllBlankHasNoParagraphs(pieces[..|pieces| - 1]);
    }
  }

  // ---------------------------------------------------------------------------
  // Without overlap, the chunks are the paragraphs regrouped

  /** The emitted chunks followed by the open buffer, if any. */
  function Flat(b: Buffer): seq<string> {
    b.chunks + (if b.current == [] then [] else [b.current])
  }

  /** Gluing a paragraph to a non-empty open buffer. */
  lemma GlueRegroups(chunks: seq<string>, current: string, p: string)
    requires Trimmed(p) && Trimmed(current)
    ensures Trimmed(current + ParagraphBreak + p)
    ensures Join(chunks + [current + ParagraphBreak + p], ParagraphBreak)
         == Join(chunks + [current] + [p], ParagraphBreak)
  {
    var glued := current + ParagraphBreak + p;
    assert glued[0] == current[0] && glued[|glued| - 1] == p[|p| - 1];
    JoinSnoc(chunks, glued, ParagraphBreak);
    JoinSnoc(chunks, current, ParagraphBreak);
    JoinSnoc(chunks + [current], p, ParagraphBreak);
  }

  /** With `overlap = 0`, one step appends the paragraph to the regrouped
      sequence: either as a chunk of its own or glued to the open buffer. */
  lemma StepRegroups(b: Buffer, p: string, chunkSize: int)
    requires Trimmed(p)
    requires b.current == [] || Trimmed(b.current)
    ensures var b' := Step(b, p, chunkSize, 0);
      && (b'.current == [] || Trimmed(b'.current))
      && Join(Flat(b'), ParagraphBreak) == Join(Flat(b) + [p], ParagraphBreak)
  {
    if b.current == [] {
      assert Step(b, p, chunkSize, 0) == Buffer(b.chunks, p);
      assert Flat(b) == b.chunks;
    } else if |b.current| + |p| > chunkSize {
      StripTrimmed(b.current);
      assert Step(b, p, chunkSize, 0) == Buffer(b.chunks + [b.current], p);
      assert Flat(b) == b.chunks + [b.current];
    } else {
      assert Step(b, p, chunkSize, 0) == Buffer(b.chunks, b.current + ParagraphBreak + p);
      assert Flat(b) == b.chunks + [b.current];
      GlueRegroups(b.chunks, b.current, p);
    }
  }

  /** With `overlap = 0`, every buffer is a "\n\n"-join of whole paragraphs. */
  lemma {:induction false} RunRegroups(pieces: seq<string>, chunkSize: int)
    ensures var b := Run(pieces, chunkSize, 0);
      && (b.current == [] || Trimmed(b.current))
      && Join(Flat(b), ParagraphBreak) == Join(NonEmptyStripped(pieces), ParagraphBreak)
  {
    if pieces != [] {
      var init := pieces[..|pieces| - 1];
      RunRegroups(init, chunkSize);
      RunInvariant(init, chunkSize, 0);
      var b := Run(init, chunkSize, 0);
      var p := Strip(pieces[|pieces| - 1]);
      if p != [] {
        StepRegroups(b, p, chunkSize);
        JoinSnoc(Flat(b), p, ParagraphBreak);
        JoinSnoc(NonEmptyStripped(init), p, ParagraphBreak);
      }
    }
  }

  /** With `overlap = 0`, joining the chunks with "\n\n" gives the non-empty
      stripped paragraphs joined with "\n\n": order is kept and nothing is
      dropped or duplicated. */
  lemma NoOverlapJoin(text: string, chunkSize: int)
    ensures Join(Chunks(text, chunkSize, 0), ParagraphBreak) == Join(Paragraphs(text), ParagraphBreak)
  {
    var pieces := Split(text, ParagraphBreak);
    if Strip(text) == [] {
      StripEmptyIff(text);
      NonEmptyStrippedOfBlank(pieces, text);
    } else {
      RunRegroups(pieces, chunkSize);
      var b := Run(pieces, chunkSize, 0);
      if b.current != [] {
        StripTrimmed(b.current);
      }
      assert Finish(b) == Flat(b);
    }
  }

  /** A text with a single paragraph becomes exactly that paragraph, whatever
      its length relative to `chunkSize`. */
  lemma SingleParagraph(text: string, chunkSize: int, overlap: int)
    requires |Paragraphs(text)| == 1
    ensures Chunks(text, chunkSize, overlap) == Paragraphs(text)
  {
    var pieces := Split(text, ParagraphBreak);
    if Strip(text) == [] {
      StripEmptyIff(text);
      NonEmptyStrippedOfBlank(pieces, text);
    } else {
      SingleParagraphChunk(pieces, chunkSize, overlap);
      var b := Run(pieces, chunkSize, overlap);
      StripTrimmed(b.current);
    }
  }

  /** With one paragraph the buffer never flushes before the end, and holds
      exactly that paragraph. */
  lemma {:induction false} SingleParagraphChunk(pieces: seq<string>, chunkSize: int, overlap: int)
    requires |NonEmptyStripped(pieces)| == 1
    ensures Run(pieces, chunkSize, overlap).chunks == []
    ensures Run(pieces, chunkSize, overlap).current == NonEmptyStripped(pieces)[0]
    decreases |pieces|
  {
    var init := pieces[..|pieces| - 1];
    var p := Strip(pieces[|pieces| - 1]);
    if p == [] {
      SingleParagraphChunk(init, chunkSize, overlap);
    } else {
      RunInvariant(init, chunkSize, overlap);
    }
  }
}
