/**
 * The text helpers of the professor commands: `splitResponse`, which cuts a
 * model answer into chunks for message windows by greedily packing
 * paragraphs and, inside an oversized paragraph, sentences; and `truncate`.
 *
 * `SplitResponse` is the loop of the source; it is proved equal to
 * `ResponseChunks`, a left fold of one paragraph step (and, inside it, one
 * sentence step) over the split text. The lemmas below state what the code
 * actually guarantees about the chunks, including where the nominal
 * `maxLength` is exceeded.
 */
module ProfessorBase {
  import opened Wrappers
  import opened JsText

  const ParagraphBreak: string := "\n\n"
  const SentenceBreak: string := ". "

  /** The loop state of `splitResponse`: the `chunks` pushed so far and `currentChunk`. */
  datatype Chunking = Chunking(chunks: seq<string>, current: string)

  const Start := Chunking([], "")

  // ---------------------------------------------------------------------------
  // The specification: one step per sentence and per paragraph, folded left
  // ---------------------------------------------------------------------------

  /** One iteration of the sentence loop. The fit test reserves two characters
   *  and ignores the separator; a flushed group gets a period appended. */
  function SentenceStep(st: Chunking, sentence: string, maxLength: nat): Chunking
  {
    if |st.current + sentence| <= maxLength - 2 then
      Chunking(st.chunks, st.current + (if st.current != "" then SentenceBreak else "") + sentence)
    else
      Chunking(if st.current != "" then st.chunks + [st.current + "."] else st.chunks, sentence)
  }

  function SentenceLoop(st: Chunking, sentences: seq<string>, maxLength: nat): Chunking
    decreases |sentences|
  {
    if sentences == [] then st
    else SentenceStep(SentenceLoop(st, sentences[..|sentences| - 1], maxLength), sentences[|sentences| - 1], maxLength)
  }

  /** One iteration of the paragraph loop. The fit test ignores the two
   *  characters of the separator. An oversized paragraph restarts the current
   *  chunk and is packed sentence by sentence; its last group stays current. */
  function ParagraphStep(st: Chunking, para: string, maxLength: nat): Chunking
  {
    if |st.current + para| <= maxLength then
      Chunking(st.chunks, st.current + (if st.current != "" then ParagraphBreak else "") + para)
    else
      var flushed := if st.current != "" then st.chunks + [st.current] else st.chunks;
      if |para| <= maxLength then Chunking(flushed, para)
      else SentenceLoop(Chunking(flushed, ""), Split(para, SentenceBreak), maxLength)
  }

  function ParagraphLoop(st: Chunking, paras: seq<string>, maxLength: nat): Chunking
    decreases |paras|
  {
    if paras == [] then st
    else ParagraphStep(ParagraphLoop(st, paras[..|paras| - 1], maxLength), paras[|paras| - 1], maxLength)
  }

  /** The chunks after the final flush of the current chunk. */
  function Flush(st: Chunking): seq<string>
  {
    if st.current != "" then st.chunks + [st.current] else st.chunks
  }

  /** The chunks the paragraph loop produces for `text`. */
  function PackedChunks(text: string, maxLength: nat): seq<string>
  {
    Flush(ParagraphLoop(Start, Split(text, ParagraphBreak), maxLength))
  }

  /** What `splitResponse(text, maxLength)` returns. */
  function ResponseChunks(text: string, maxLength: nat): seq<string>
  {
    if |text| <= maxLength then [text]
    else
      var packed := PackedChunks(text, maxLength);
      if |packed| > 0 then packed else [Take(text, maxLength)]
  }

  // ---------------------------------------------------------------------------
  // The operations
  // ---------------------------------------------------------------------------

  /** `splitResponse`: nested loops over paragraphs and sentences that update
   *  the current chunk and push finished chunks. */
  method SplitResponse(text: string, maxLength: nat) returns (chunks: seq<string>)
    ensures chunks == ResponseChunks(text, maxLength)
    ensures |chunks| >= 1
    ensures |text| <= maxLength ==> chunks == [text]
  {
    if |text| <= maxLength {
      return [text];
    }
    chunks := [];
    var currentChunk := "";
    var paragraphs := Split(text, ParagraphBreak);
    var i := 0;
    while i < |paragraphs|
      invariant 0 <= i <= |paragraphs|
      invariant Chunking(chunks, currentChunk) == ParagraphLoop(Start, paragraphs[..i], maxLength)
    {
      var para := paragraphs[i];
      ghost var before := Chunking(chunks, currentChunk);
      if |currentChunk + para| <= maxLength {
        currentChunk := currentChunk + (if currentChunk != "" then ParagraphBreak else "") + para;
      } else {
        if currentChunk != "" {
          chunks := chunks + [currentChunk];
        }
        if |para| <= maxLength {
          currentChunk := para;
        } else {
          var sentences := Split(para, SentenceBreak);
          currentChunk := "";
          ghost var restart := Chunking(chunks, "");
          var j := 0;
          while j < |sentences|
            invariant 0 <= j <= |sentences|
            invariant Chunking(chunks, currentChunk) == SentenceLoop(restart, sentences[..j], maxLength)
          {
            var sentence := sentences[j];
            if |currentChunk + sentence| <= maxLength - 2 {
              currentChunk := currentChunk + (if currentChunk != "" then SentenceBreak else "") + sentence;
            } else {
              if currentChunk != "" {
                chunks := chunks + [currentChunk + "."];
              }
              currentChunk := sentence;
            }
            assert sentences[..j + 1][..j] == sentences[..j];
            j := j + 1;
          }
          assert sentences[..j] == sentences;
        }
      }
      assert Chunking(chunks, currentChunk) == ParagraphStep(before, para, maxLength);
      assert paragraphs[..i + 1][..i] == paragraphs[..i];
      i := i + 1;
    }
    assert paragraphs[..i] == paragraphs;
    if currentChunk != "" {
      chunks := chunks + [currentChunk];
    }
    if |chunks| == 0 {
      chunks := [Take(text, maxLength)];
    }
  }

  /** `truncate`: the text itself when it fits, otherwise its first
   *  `maxLength - 3` characters followed by an ellipsis. */
  function Truncate(text: string, maxLength: nat): (r: string)
    ensures |text| <= maxLength ==> r == text
    ensures |text| > maxLength ==> |r| == (if maxLength >= 3 then maxLength else 3)
    ensures |text| > maxLength ==> r[..|r| - 3] <= text && r[|r| - 3..] == "..."
  {
    if |text| <= maxLength then text
    else Take(text, if maxLength >= 3 then maxLength - 3 else 0) + "..."
  }

  /** Truncating twice with the same limit (of at least 3) truncates once. */
  lemma TruncateIdempotent(text: string, maxLength: nat)
    requires maxLength >= 3
    ensures Truncate(Truncate(text, maxLength), maxLength) == Truncate(text, maxLength)
    ensures |Truncate(text, maxLength)| <= maxLength
  {
  }

  // ---------------------------------------------------------------------------
  // Non-empty chunks, and exactly when the fallback is taken
  // ---------------------------------------------------------------------------

  predicate NoEmpty(xs: seq<string>)
  {
    forall k :: 0 <= k < |xs| ==> xs[k] != ""
  }

  lemma {:induction false} SentenceLoopNoEmpty(st: Chunking, sentences: seq<string>, maxLength: nat)
    requires NoEmpty(st.chunks)
    ensures NoEmpty(SentenceLoop(st, sentences, maxLength).chunks)
    decreases |sentences|
  {
    if sentences != [] {
      SentenceLoopNoEmpty(st, sentences[..|sentences| - 1], maxLength);
    }
  }

  lemma {:induction false} ParagraphLoopNoEmpty(st: Chunking, paras: seq<string>, maxLength: nat)
    requires NoEmpty(st.chunks)
    ensures NoEmpty(ParagraphLoop(st, paras, maxLength).chunks)
    decreases |paras|
  {
    if paras != [] {
      var prev := ParagraphLoop(st, paras[..|paras| - 1], maxLength);
      ParagraphLoopNoEmpty(st, paras[..|paras| - 1], maxLength);
      var para := paras[|paras| - 1];
      if |prev.current + para| > maxLength && |para| > maxLength {
        var flushed := if prev.current != "" then prev.chunks + [prev.current] else prev.chunks;
        SentenceLoopNoEmpty(Chunking(flushed, ""), Split(para, SentenceBreak), maxLength);
      }
    }
  }

  /** The result is never empty, and every chunk except the fallback prefix is
   *  non-empty. */
  lemma ResponseChunksNonEmpty(text: string, maxLength: nat)
    ensures |ResponseChunks(text, maxLength)| >= 1
    ensures |text| > maxLength && PackedChunks(text, maxLength) != [] ==>
              ResponseChunks(text, maxLength) == PackedChunks(text, maxLength)
    ensures NoEmpty(PackedChunks(text, maxLength))
  {
    ParagraphLoopNoEmpty(Start, Split(text, ParagraphBreak), maxLength);
  }

  /** A paragraph that contributes nothing: an empty one that fits, or an
   *  oversized one all of whose `". "`-separated sentences are empty. */
  predicate Blank(para: string, maxLength: nat)
  {
    if |para| <= maxLength then para == ""
    else forall s :: s in Split(para, SentenceBreak) ==> s == ""
  }

  predicate Idle(st: Chunking)
  {
    st.chunks == [] && st.current == ""
  }

  /** Once the state holds text, a sentence step keeps it holding text. */
  lemma SentenceStepStaysBusy(st: Chunking, sentence: string, maxLength: nat)
    requires !Idle(st)
    ensures !Idle(SentenceStep(st, sentence, maxLength))
  {
  }

  lemma {:induction false} SentenceLoopStaysBusy(st: Chunking, sentences: seq<string>, maxLength: nat)
    requires !Idle(st)
    ensures !Idle(SentenceLoop(st, sentences, maxLength))
    decreases |sentences|
  {
    if sentences != [] {
      SentenceLoopStaysBusy(st, sentences[..|sentences| - 1], maxLength);
      SentenceStepStaysBusy(SentenceLoop(st, sentences[..|sentences| - 1], maxLength), sentences[|sentences| - 1], maxLength);
    }
  }

  lemma ParagraphStepStaysBusy(st: Chunking, para: string, maxLength: nat)
    requires !Idle(st)
    ensures !Idle(ParagraphStep(st, para, maxLength))
  {
    if |st.current + para| > maxLength && |para| > maxLength {
      var flushed := if st.current != "" then st.chunks + [st.current] else st.chunks;
      SentenceLoopStaysBusy(Chunking(flushed, ""), Split(para, SentenceBreak), maxLength);
    }
  }

  lemma {:induction false} SentenceLoopIdle(sentences: seq<string>, maxLength: nat)
    ensures Idle(SentenceLoop(Start, sentences, maxLength)) <==> forall s :: s in sentences ==> s == ""
    decreases |sentences|
  {
    if sentences != [] {
      var init := sentences[..|sentences| - 1];
      var last := sentences[|sentences| - 1];
      assert sentences == init + [last];
      assert forall s :: s in sentences <==> s in init || s == last;
      SentenceLoopIdle(init, maxLength);
      var prev := SentenceLoop(Start, init, maxLength);
      if Idle(prev) {
        assert "" + last == last;
        assert Idle(SentenceStep(prev, last, maxLength)) <==> last == "";
        assert SentenceLoop(Start, sentences, maxLength) == SentenceStep(prev, last, maxLength);
        assert forall s :: s in init ==> s == "";
        assert last in sentences;
      } else {
        SentenceStepStaysBusy(prev, last, maxLength);
      }
    }
  }

  lemma {:induction false} ParagraphLoopIdle(paras: seq<string>, maxLength: nat)
    ensures Idle(ParagraphLoop(Start, paras, maxLength)) <==> forall p :: p in paras ==> Blank(p, maxLength)
    decreases |paras|
  {
    if paras != [] {
      var init := paras[..|paras| - 1];
      var para := paras[|paras| - 1];
      assert paras == init + [para];
      assert forall p :: p in paras <==> p in init || p == para;
      ParagraphLoopIdle(init, maxLength);
      var prev := ParagraphLoop(Start, init, maxLength);
      if Idle(prev) {
        assert prev == Start;
        assert "" + para == para;
        assert para in paras;
        if |para| > maxLength {
          SentenceLoopIdle(Split(para, SentenceBreak), maxLength);
          assert ParagraphStep(prev, para, maxLength) == SentenceLoop(Start, Split(para, SentenceBreak), maxLength);
        }
      } else {
        ParagraphStepStaysBusy(prev, para, maxLength);
      }
    }
  }

  /** The hard-truncation fallback is taken exactly when the text is longer
   *  than `maxLength` and every paragraph is blank (for instance, a text made
   *  only of `"\n\n"` separators). */
  lemma FallbackExactly(text: string, maxLength: nat)
    ensures (|text| > maxLength && PackedChunks(text, maxLength) == []) <==>
            (|text| > maxLength && forall p :: p in Split(text, ParagraphBreak) ==> Blank(p, maxLength))
    ensures PackedChunks(text, maxLength) == [] && |text| > maxLength ==>
            ResponseChunks(text, maxLength) == [text[..maxLength]]
  {
    ParagraphLoopIdle(Split(text, ParagraphBreak), maxLength);
  }

  /** Two separators in a row leave three empty paragraphs. */
  lemma SplitTwoBreaks()
    ensures Split("\n\n\n\n", ParagraphBreak) == ["", "", ""]
  {
    var text := "\n\n\n\n";
    assert text[..0] == "" && text[0..2] == ParagraphBreak && text[2..] == ParagraphBreak;
    SplitAtFirst(text, ParagraphBreak, 0);
    assert ParagraphBreak[..0] == "" && ParagraphBreak[2..] == "";
    SplitAtFirst(ParagraphBreak, ParagraphBreak, 0);
    SplitWithoutFirstChar("", ParagraphBreak);
  }

  /** An instance: four newlines with a limit of 3 give the first three. */
  lemma FallbackExample()
    ensures ResponseChunks("\n\n\n\n", 3) == ["\n\n\n"]
  {
    var text := "\n\n\n\n";
    SplitTwoBreaks();
    assert forall p :: p in Split(text, ParagraphBreak) ==> Blank(p, 3);
    FallbackExactly(text, 3);
    assert text[..3] == "\n\n\n";
  }

  // ---------------------------------------------------------------------------
  // Length bounds
  // ---------------------------------------------------------------------------

  predicate AllAtMost(xs: seq<string>, bound: int)
  {
    forall k :: 0 <= k < |xs| ==> |xs[k]| <= bound
  }

  function Max(a: int, b: int): int
  {
    if a >= b then a else b
  }

  /** Every sentence of an oversized paragraph is at most `bound` long. */
  predicate SentencesAtMost(para: string, maxLength: nat, bound: int)
  {
    |para| > maxLength ==> AllAtMost(Split(para, SentenceBreak), bound)
  }

  lemma {:induction false} SentenceLoopBound(st: Chunking, sentences: seq<string>, maxLength: nat, bound: int)
    requires AllAtMost(st.chunks, Max(maxLength + 2, bound + 1))
    requires |st.current| <= Max(maxLength, bound)
    requires AllAtMost(sentences, bound)
    ensures AllAtMost(SentenceLoop(st, sentences, maxLength).chunks, Max(maxLength + 2, bound + 1))
    ensures |SentenceLoop(st, sentences, maxLength).current| <= Max(maxLength, bound)
    decreases |sentences|
  {
    if sentences != [] {
      SentenceLoopBound(st, sentences[..|sentences| - 1], maxLength, bound);
    }
  }

  /** The tight bound on sentence groups. The fit test reserves two
   *  characters but ignores the two of `". "`, so a group of several sentences
   *  can reach `maxLength`, and `maxLength + 1` with its period. Every group
   *  pushed is that short or is a single sentence with its period, and the
   *  group left current is at most `maxLength` long or is a single sentence. */
  lemma {:induction false} SentenceGroupsBound(st: Chunking, sentences: seq<string>, maxLength: nat)
    requires st.current == ""
    ensures var r := SentenceLoop(st, sentences, maxLength);
            && st.chunks <= r.chunks
            && (forall k :: |st.chunks| <= k < |r.chunks| ==>
                  |r.chunks[k]| <= maxLength + 1 || (|r.chunks[k]| > 0 && r.chunks[k][..|r.chunks[k]| - 1] in sentences))
            && (|r.current| <= maxLength || r.current in sentences)
    decreases |sentences|
  {
    if sentences != [] {
      var init := sentences[..|sentences| - 1];
      var last := sentences[|sentences| - 1];
      assert sentences == init + [last];
      SentenceGroupsBound(st, init, maxLength);
      var prev := SentenceLoop(st, init, maxLength);
      var r := SentenceLoop(st, sentences, maxLength);
      assert r == SentenceStep(prev, last, maxLength);
      if |prev.current + last| > maxLength - 2 && prev.current != "" {
        var pushed := prev.current + ".";
        assert r.chunks == prev.chunks + [pushed];
        assert pushed[..|pushed| - 1] == prev.current;
      }
    }
  }

  /** The bound `maxLength + 1` is reached: under a limit of 6, `"ab"` and
   *  `"cd"` pass the fit test together, and `"efghij"` then flushes the
   *  7-character group `"ab. cd."`. */
  lemma SentenceGroupOverrun()
    ensures SentenceLoop(Start, ["ab", "cd", "efghij"], 6).chunks == ["ab. cd."]
    ensures |"ab. cd."| == 6 + 1
  {
    var three := ["ab", "cd", "efghij"];
    assert three[..2] == ["ab", "cd"] && three[2] == "efghij";
    SentenceLoopPair("ab", "cd", 6);
    SentenceStepFromStart("ab", 6);
    SentenceStepJoin("ab", "cd", 6);
    assert "ab" + SentenceBreak + "cd" == "ab. cd";
    SentenceStepFlush("ab. cd", "efghij", 6);
    assert "ab. cd" + "." == "ab. cd.";
  }

  lemma {:induction false} ParagraphLoopBound(st: Chunking, paras: seq<string>, maxLength: nat, bound: int)
    requires AllAtMost(st.chunks, Max(maxLength + 2, bound + 1))
    requires |st.current| <= Max(maxLength + 2, bound + 1)
    requires forall k :: 0 <= k < |paras| ==> SentencesAtMost(paras[k], maxLength, bound)
    ensures AllAtMost(ParagraphLoop(st, paras, maxLength).chunks, Max(maxLength + 2, bound + 1))
    ensures |ParagraphLoop(st, paras, maxLength).current| <= Max(maxLength + 2, bound + 1)
    decreases |paras|
  {
    if paras != [] {
      var init := paras[..|paras| - 1];
      var prev := ParagraphLoop(st, init, maxLength);
      ParagraphLoopBound(st, init, maxLength, bound);
      var para := paras[|paras| - 1];
      assert SentencesAtMost(para, maxLength, bound);
      if |prev.current + para| > maxLength && |para| > maxLength {
        var flushed := if prev.current != "" then prev.chunks + [prev.current] else prev.chunks;
        SentenceLoopBound(Chunking(flushed, ""), Split(para, SentenceBreak), maxLength, bound);
      }
    }
  }

  /** What the code guarantees about chunk lengths: if every sentence of every
   *  oversized paragraph is at most `bound` long, no chunk is longer than
   *  `maxLength + 2` (paragraph joins) or `bound + 1` (a long sentence with
   *  its period). */
  lemma ChunkLengthBound(text: string, maxLength: nat, bound: int)
    requires forall p :: p in Split(text, ParagraphBreak) ==> SentencesAtMost(p, maxLength, bound)
    ensures AllAtMost(ResponseChunks(text, maxLength), Max(maxLength + 2, bound + 1))
  {
    var paras := Split(text, ParagraphBreak);
    assert forall k :: 0 <= k < |paras| ==> paras[k] in paras;
    ParagraphLoopBound(Start, paras, maxLength, bound);
  }

  /** When every paragraph fits, every chunk is at most `maxLength + 2` long. */
  lemma FittingParagraphsBound(text: string, maxLength: nat)
    requires forall p :: p in Split(text, ParagraphBreak) ==> |p| <= maxLength
    ensures AllAtMost(ResponseChunks(text, maxLength), maxLength + 2)
  {
    ChunkLengthBound(text, maxLength, 0);
  }

  /** A first sentence that fits becomes the current group. */
  lemma SentenceStepFromStart(a: string, maxLength: nat)
    requires |a| <= maxLength - 2
    ensures SentenceStep(Start, a, maxLength) == Chunking([], a)
  {
    assert "" + "" + a == a;
  }

  /** A sentence that fits is joined to a non-empty current group. */
  lemma SentenceStepJoin(cur: string, b: string, maxLength: nat)
    requires cur != "" && |cur + b| <= maxLength - 2
    ensures SentenceStep(Chunking([], cur), b, maxLength) == Chunking([], cur + SentenceBreak + b)
  {
  }

  /** A sentence that does not fit flushes the current group with a period. */
  lemma SentenceStepFlush(cur: string, b: string, maxLength: nat)
    requires cur != "" && |cur + b| > maxLength - 2
    ensures SentenceStep(Chunking([], cur), b, maxLength) == Chunking([cur + "."], b)
  {
    assert [] + [cur + "."] == [cur + "."];
  }

  /** A first paragraph that fits becomes the current chunk. */
  lemma ParagraphStepFromStart(a: string, maxLength: nat)
    requires |a| <= maxLength
    ensures ParagraphStep(Start, a, maxLength) == Chunking([], a)
  {
    assert "" + "" + a == a;
  }

  /** A first paragraph that does not fit is packed sentence by sentence. */
  lemma ParagraphStepOversized(a: string, maxLength: nat)
    requires |a| > maxLength
    ensures ParagraphStep(Start, a, maxLength) == SentenceLoop(Start, Split(a, SentenceBreak), maxLength)
  {
    assert "" + a == a;
  }

  /** A paragraph that fits is joined to a non-empty current chunk. */
  lemma ParagraphStepJoin(chunks: seq<string>, cur: string, b: string, maxLength: nat)
    requires cur != "" && |cur + b| <= maxLength
    ensures ParagraphStep(Chunking(chunks, cur), b, maxLength) == Chunking(chunks, cur + ParagraphBreak + b)
  {
  }

  /** A second paragraph that fits is joined to what the first one left
   *  current. */
  lemma JoinSecondParagraph(first: string, second: string, chunks: seq<string>, cur: string, maxLength: nat)
    requires ParagraphStep(Start, first, maxLength) == Chunking(chunks, cur)
    requires cur != "" && |cur + second| <= maxLength
    ensures ParagraphLoop(Start, [first, second], maxLength) == Chunking(chunks, cur + ParagraphBreak + second)
  {
    ParagraphLoopPair(first, second, maxLength);
    ParagraphStepJoin(chunks, cur, second, maxLength);
  }

  /** Two paragraphs from the start are two steps. */
  lemma ParagraphLoopPair(a: string, b: string, maxLength: nat)
    ensures ParagraphLoop(Start, [a, b], maxLength) == ParagraphStep(ParagraphStep(Start, a, maxLength), b, maxLength)
  {
    assert [a][..0] == [];
    assert ParagraphLoop(Start, [a], maxLength) == ParagraphStep(Start, a, maxLength);
    assert [a, b][..1] == [a] && [a, b][1] == b;
  }

  /** Two sentences from the start are two steps. */
  lemma SentenceLoopPair(a: string, b: string, maxLength: nat)
    ensures SentenceLoop(Start, [a, b], maxLength) == SentenceStep(SentenceStep(Start, a, maxLength), b, maxLength)
  {
    assert [a][..0] == [];
    assert SentenceLoop(Start, [a], maxLength) == SentenceStep(Start, a, maxLength);
    assert [a, b][..1] == [a] && [a, b][1] == b;
  }

  /** The bound `maxLength + 2` is reached: the fit test of `"ab"` and `"c"`
   *  under a limit of 3 ignores the separator, giving a 5-character chunk. */
  lemma SeparatorOverrun()
    ensures ResponseChunks("ab\n\nc", 3) == ["ab\n\nc"]
  {
    SplitAtSecond();
    ParagraphLoopPair("ab", "c", 3);
    ParagraphStepFromStart("ab", 3);
    ParagraphStepJoin([], "ab", "c", 3);
    assert "ab" + ParagraphBreak + "c" == "ab\n\nc";
  }

  lemma SplitAtSecond()
    ensures Split("ab\n\nc", ParagraphBreak) == ["ab", "c"]
  {
    assert "ab\n\nc" == "ab" + ParagraphBreak + "c";
    assert '\n' !in "ab" && '\n' !in "c";
    SplitPair("ab", "c", ParagraphBreak);
  }

  // ---------------------------------------------------------------------------
  // Sentence groups
  // ---------------------------------------------------------------------------

  /** The sentence loop only appends chunks, and every chunk it appends is a
   *  group of sentences with a period added. */
  lemma {:induction false} SentenceLoopPeriods(st: Chunking, sentences: seq<string>, maxLength: nat)
    ensures var r := SentenceLoop(st, sentences, maxLength);
            st.chunks <= r.chunks &&
            forall k :: |st.chunks| <= k < |r.chunks| ==> |r.chunks[k]| >= 2 && r.chunks[k][|r.chunks[k]| - 1] == '.'
    decreases |sentences|
  {
    if sentences != [] {
      SentenceLoopPeriods(st, sentences[..|sentences| - 1], maxLength);
    }
  }

  /** The last group of an oversized first paragraph is not flushed: it
   *  stays current and a second paragraph that fits is joined to it. With a
   *  limit of 4, `FirstParagraphExample` and `SplitParagraphsExample` meet its
   *  premises for `"ab. cd\n\ne"`, whose chunks are then `"ab."` and
   *  `"cd\n\ne"`. */
  lemma LastGroupJoinsNextParagraph(text: string, first: string, second: string, maxLength: nat)
    requires Split(text, ParagraphBreak) == [first, second]
    requires |text| > maxLength && |first| > maxLength
    ensures var st := SentenceLoop(Start, Split(first, SentenceBreak), maxLength);
            st.current != "" && |st.current + second| <= maxLength ==>
            ResponseChunks(text, maxLength) == st.chunks + [st.current + ParagraphBreak + second]
  {
    var st := SentenceLoop(Start, Split(first, SentenceBreak), maxLength);
    if st.current != "" && |st.current + second| <= maxLength {
      ParagraphStepOversized(first, maxLength);
      JoinSecondParagraph(first, second, st.chunks, st.current, maxLength);
    }
  }

  lemma FirstParagraphExample()
    ensures ParagraphStep(Start, "ab. cd", 4) == Chunking(["ab."], "cd")
  {
    SplitSentencesExample();
    ParagraphStepOversized("ab. cd", 4);
    SentenceLoopPair("ab", "cd", 4);
    SentenceStepFromStart("ab", 4);
    SentenceStepFlush("ab", "cd", 4);
    assert "ab" + "." == "ab.";
  }

  lemma SplitParagraphsExample()
    ensures Split("ab. cd\n\ne", ParagraphBreak) == ["ab. cd", "e"]
  {
    assert "ab. cd\n\ne" == "ab. cd" + ParagraphBreak + "e";
    assert '\n' !in "ab. cd" && '\n' !in "e";
    SplitPair("ab. cd", "e", ParagraphBreak);
  }

  lemma SplitSentencesExample()
    ensures Split("ab. cd", SentenceBreak) == ["ab", "cd"]
  {
    assert "ab. cd" == "ab" + SentenceBreak + "cd";
    assert '.' !in "ab" && '.' !in "cd";
    SplitPair("ab", "cd", SentenceBreak);
  }

  // ---------------------------------------------------------------------------
  // Texts without breaks
  // ---------------------------------------------------------------------------

  /** A single sentence longer than the limit is emitted whole: a text with no
   *  `"\n\n"` and no `". "` comes back as one chunk, whatever its length. */
  lemma NoBreaksSingleChunk(text: string, maxLength: nat)
    requires !Contains(text, ParagraphBreak) && !Contains(text, SentenceBreak)
    ensures ResponseChunks(text, maxLength) == [text]
  {
    if |text| > maxLength {
      SplitWithoutSeparator(text, ParagraphBreak);
      SplitWithoutSeparator(text, SentenceBreak);
      assert [text][..0] == [];
      assert SentenceLoop(Chunking([], ""), [text], maxLength) == Chunking([], text);
      assert ParagraphLoop(Start, [text], maxLength) == Chunking([], text);
    }
  }

  /** 5000 repetitions of `A` under a limit of 4000 are one 5000-character chunk. */
  lemma LongRunIsOneChunk()
    ensures var text := seq(5000, _ => 'A'); ResponseChunks(text, 4000) == [text]
  {
    var text := seq(5000, _ => 'A');
    forall i ensures !OccursAt(text, ParagraphBreak, i) && !OccursAt(text, SentenceBreak, i) {
      if 0 <= i && i + 2 <= |text| {
        assert text[i..i + 2][0] == 'A';
      }
    }
    NoBreaksSingleChunk(text, 4000);
  }

  // ---------------------------------------------------------------------------
  // Runs of paragraphs
  // ---------------------------------------------------------------------------

  /** Every paragraph is non-empty and fits. */
  predicate ParagraphsFit(paras: seq<string>, maxLength: nat)
  {
    forall k :: 0 <= k < |paras| ==> 0 < |paras[k]| <= maxLength
  }

  /** `cuts` splits `0..n` into consecutive non-empty runs. */
  predicate Cuts(cuts: seq<int>, n: int)
  {
    && |cuts| >= 1
    && cuts[0] == 0
    && (forall a, b :: 0 <= a < b < |cuts| ==> cuts[a] < cuts[b])
    && (forall k :: 0 <= k < |cuts| ==> 0 <= cuts[k] <= n)
  }

  /** Chunk `k` is the join of paragraphs `cuts[k]` up to `cuts[k + 1]`. */
  predicate RunsOf(chunks: seq<string>, paras: seq<string>, cuts: seq<int>)
    requires Cuts(cuts, |paras|) && |cuts| == |chunks| + 1
  {
    forall k :: 0 <= k < |chunks| ==> chunks[k] == Join(paras[cuts[k]..cuts[k + 1]], ParagraphBreak)
  }

  /** The state after `n` paragraphs: pushed chunks are runs ending at the
   *  cuts, and the current chunk is the run from the last cut to `n`. */
  predicate RunsState(st: Chunking, paras: seq<string>, n: nat, cuts: seq<int>)
  {
    && n <= |paras|
    && Cuts(cuts, |paras|) && cuts[|cuts| - 1] < n
    && |cuts| == |st.chunks| + 1
    && RunsOf(st.chunks, paras, cuts)
    && st.current == Join(paras[cuts[|cuts| - 1]..n], ParagraphBreak)
  }

  /** A paragraph that fits is appended to the current run. */
  lemma RunsExtend(st: Chunking, paras: seq<string>, n: nat, cuts: seq<int>, maxLength: nat)
    requires ParagraphsFit(paras, maxLength) && n < |paras| && RunsState(st, paras, n, cuts)
    requires |st.current + paras[n]| <= maxLength
    ensures RunsState(ParagraphStep(st, paras[n], maxLength), paras, n + 1, cuts)
  {
    var last := cuts[|cuts| - 1];
    JoinNonEmpty(paras[last..n]);
    assert paras[last..n + 1] == paras[last..n] + [paras[n]];
    JoinSnoc(paras[last..n], paras[n], ParagraphBreak);
  }

  /** A paragraph that does not fit flushes the current run and starts the
   *  next one. */
  lemma RunsCut(st: Chunking, paras: seq<string>, n: nat, cuts: seq<int>, maxLength: nat)
    requires ParagraphsFit(paras, maxLength) && n < |paras| && RunsState(st, paras, n, cuts)
    requires |st.current + paras[n]| > maxLength
    ensures RunsState(ParagraphStep(st, paras[n], maxLength), paras, n + 1, cuts + [n])
  {
    var last := cuts[|cuts| - 1];
    JoinNonEmpty(paras[last..n]);
    var next := ParagraphStep(st, paras[n], maxLength);
    assert next == Chunking(st.chunks + [st.current], paras[n]);
    var cuts' := cuts + [n];
    assert paras[n..n + 1] == [paras[n]];
    forall a, b | 0 <= a < b < |cuts'| ensures cuts'[a] < cuts'[b] {
      assert cuts'[a] == cuts[a];
      if b < |cuts| {
        assert cuts'[b] == cuts[b];
      }
    }
    assert RunsOf(next.chunks, paras, cuts') by {
      forall k | 0 <= k < |next.chunks|
        ensures next.chunks[k] == Join(paras[cuts'[k]..cuts'[k + 1]], ParagraphBreak)
      {
        if k < |st.chunks| {
          assert next.chunks[k] == st.chunks[k] && cuts'[k] == cuts[k] && cuts'[k + 1] == cuts[k + 1];
        }
      }
    }
  }

  /** After `n >= 1` fitting paragraphs, the pushed chunks and the current
   *  chunk are joins of consecutive runs of them. */
  lemma {:induction false} ParagraphRuns(paras: seq<string>, n: nat, maxLength: nat) returns (cuts: seq<int>)
    requires ParagraphsFit(paras, maxLength) && 1 <= n <= |paras|
    ensures Cuts(cuts, |paras|) && cuts[|cuts| - 1] < n
    ensures |cuts| == |ParagraphLoop(Start, paras[..n], maxLength).chunks| + 1
    ensures RunsOf(ParagraphLoop(Start, paras[..n], maxLength).chunks, paras, cuts)
    ensures ParagraphLoop(Start, paras[..n], maxLength).current
            == Join(paras[cuts[|cuts| - 1]..n], ParagraphBreak)
    decreases n
  {
    var para := paras[n - 1];
    assert paras[..n][..n - 1] == paras[..n - 1];
    var st := ParagraphLoop(Start, paras[..n], maxLength);
    if n == 1 {
      assert paras[..0] == [];
      cuts := [0];
      assert paras[0..1] == [para];
    } else {
      var prevCuts := ParagraphRuns(paras, n - 1, maxLength);
      var prev := ParagraphLoop(Start, paras[..n - 1], maxLength);
      assert st == ParagraphStep(prev, para, maxLength);
      if |prev.current + para| <= maxLength {
        cuts := prevCuts;
        RunsExtend(prev, paras, n - 1, prevCuts, maxLength);
      } else {
        cuts := prevCuts + [n - 1];
        RunsCut(prev, paras, n - 1, prevCuts, maxLength);
      }
      assert RunsState(st, paras, n, cuts);
    }
  }

  lemma JoinNonEmpty(parts: seq<string>)
    requires |parts| > 0 && parts[0] != ""
    ensures Join(parts, ParagraphBreak) != ""
  {
  }

  /** Joining runs taken along `cuts` gives the join of everything they cover. */
  lemma {:induction false} JoinRuns(chunks: seq<string>, paras: seq<string>, cuts: seq<int>, m: nat)
    requires Cuts(cuts, |paras|) && |cuts| == |chunks| + 1 && RunsOf(chunks, paras, cuts)
    requires 1 <= m <= |chunks|
    ensures Join(chunks[..m], ParagraphBreak) == Join(paras[..cuts[m]], ParagraphBreak)
    decreases m
  {
    if m == 1 {
      assert chunks[..1] == [chunks[0]];
      assert paras[..cuts[1]] == paras[cuts[0]..cuts[1]];
    } else {
      JoinRuns(chunks, paras, cuts, m - 1);
      assert chunks[..m] == chunks[..m - 1] + [chunks[m - 1]];
      JoinSnoc(chunks[..m - 1], chunks[m - 1], ParagraphBreak);
      var a, b := cuts[m - 1], cuts[m];
      assert paras[..b] == paras[..a] + paras[a..b];
      JoinAppend(paras[..a], paras[a..b], ParagraphBreak);
    }
  }

  /** The packed chunks of fitting paragraphs are runs that cover them all. */
  lemma PackedRuns(paras: seq<string>, maxLength: nat) returns (cuts: seq<int>)
    requires ParagraphsFit(paras, maxLength) && |paras| >= 1
    ensures Cuts(cuts, |paras|) && cuts[|cuts| - 1] == |paras|
    ensures |cuts| == |Flush(ParagraphLoop(Start, paras, maxLength))| + 1
    ensures RunsOf(Flush(ParagraphLoop(Start, paras, maxLength)), paras, cuts)
  {
    var pre := ParagraphRuns(paras, |paras|, maxLength);
    assert paras[..|paras|] == paras;
    var st := ParagraphLoop(Start, paras, maxLength);
    var last := pre[|pre| - 1];
    JoinNonEmpty(paras[last..|paras|]);
    var r := Flush(st);
    assert r == st.chunks + [st.current];
    cuts := pre + [|paras|];
    forall a, b | 0 <= a < b < |cuts| ensures cuts[a] < cuts[b] {
      assert cuts[a] == pre[a];
      if b < |pre| { assert cuts[b] == pre[b]; }
    }
    assert RunsOf(r, paras, cuts) by {
      forall k | 0 <= k < |r| ensures r[k] == Join(paras[cuts[k]..cuts[k + 1]], ParagraphBreak) {
        if k < |st.chunks| {
          assert r[k] == st.chunks[k];
        }
      }
    }
  }

  /** When every `"\n\n"`-separated paragraph is non-empty and fits, each
   *  chunk is a run of consecutive paragraphs, and joining the chunks with
   *  `"\n\n"` gives back the text. */
  lemma ParagraphChunksRejoin(text: string, maxLength: nat) returns (cuts: seq<int>)
    requires ParagraphsFit(Split(text, ParagraphBreak), maxLength)
    ensures Cuts(cuts, |Split(text, ParagraphBreak)|)
    ensures |cuts| == |ResponseChunks(text, maxLength)| + 1
    ensures cuts[|cuts| - 1] == |Split(text, ParagraphBreak)|
    ensures RunsOf(ResponseChunks(text, maxLength), Split(text, ParagraphBreak), cuts)
    ensures Join(ResponseChunks(text, maxLength), ParagraphBreak) == text
  {
    var paras := Split(text, ParagraphBreak);
    var r := ResponseChunks(text, maxLength);
    JoinSplit(text, ParagraphBreak);
    assert paras[..|paras|] == paras;
    if |text| <= maxLength {
      cuts := [0, |paras|];
      assert paras[0..|paras|] == paras;
    } else {
      cuts := PackedRuns(paras, maxLength);
      assert r == Flush(ParagraphLoop(Start, paras, maxLength));
      JoinRuns(r, paras, cuts, |r|);
      assert r[..|r|] == r;
    }
  }
}
