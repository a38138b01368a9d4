/** The answer-generation service of backend/app/services/gemini_speculative_rag.py:
    query expansion, re-ranking of the retrieved chunks, the two answer
    shapes that do not need the language model (no documents, extractive
    fallback) and the choice between the model's answer and the fallback.
    Calls to the Gemini model are parameters: the text it returned, or None
    when the call raised. */
module SpeculativeRag {
  import opened Wrappers
  import opened Text
  import opened StableSort

  /** A retrieved chunk. `similarity` is None when the chunk carries no
      vector-similarity score. */
  datatype Chunk = Chunk(id: int, documentId: int, content: string, similarity: Option<real>)

  datatype Source = Source(chunkId: int, documentId: int, content: string, contentPreview: string)

  datatype Answer = Answer(answer: string, confidence: real, sources: seq<Source>, model: string)

  const MaxAlternatives: nat := 2
  const MinAlternativeLength: nat := 10
  const TopChunks: nat := 8
  const PreviewLength: nat := 200
  const ExtractedChunks: nat := 5
  const ExcerptLength: nat := 500
  const MinAnswerLength: nat := 20

  // ---------------------------------------------------------------------
  // expand_query
  // ---------------------------------------------------------------------

  /** Each line, stripped. */
  function StripAll(lines: seq<string>): (r: seq<string>)
    ensures |r| == |lines|
    ensures forall i :: 0 <= i < |lines| ==> r[i] == PyStrip(lines[i])
  {
    seq(|lines|, i requires 0 <= i < |lines| => PyStrip(lines[i]))
  }

  /** The lines longer than ten characters, in order. (Python's separate
      test that the stripped line is non-empty is implied.) */
  function KeepLong(lines: seq<string>): seq<string> {
    if lines == [] then []
    else
      var rest := KeepLong(lines[..|lines| - 1]);
      var line := lines[|lines| - 1];
      if |line| > MinAlternativeLength then rest + [line] else rest
  }

  /** The alternative phrasings found in the model's reply: its stripped
      lines longer than ten characters. */
  function Alternatives(reply: string): seq<string> {
    KeepLong(StripAll(SplitOn(PyStrip(reply), '\n')))
  }

  /** Filtering distributes over concatenation, so line order is kept. */
  lemma {:induction false} KeepLongConcat(a: seq<string>, b: seq<string>)
    ensures KeepLong(a + b) == KeepLong(a) + KeepLong(b)
  {
    if b != [] {
      assert (a + b)[..|a + b| - 1] == a + b[..|b| - 1];
      KeepLongConcat(a, b[..|b| - 1]);
    } else {
      assert a + b == a;
    }
  }

  /** A line is kept exactly when it is longer than ten characters. */
  lemma {:induction false} KeepLongMembers(lines: seq<string>, x: string)
    ensures x in KeepLong(lines) <==> x in lines && |x| > MinAlternativeLength
  {
    if lines != [] {
      var init := lines[..|lines| - 1];
      KeepLongMembers(init, x);
      assert lines == init + [lines[|lines| - 1]];
    }
  }

  /** Filtering keeps only lines it was given. */
  lemma {:induction false} KeepLongSubset(lines: seq<string>, x: string)
    requires x in KeepLong(lines)
    ensures x in lines
  {
    var init := lines[..|lines| - 1];
    if x != lines[|lines| - 1] {
      KeepLongSubset(init, x);
      assert init[..] == lines[..|lines| - 1];
    }
  }

  lemma StrippedLine(lines: seq<string>, x: string)
    requires x in StripAll(lines)
    ensures PyStrip(x) == x
    ensures exists i :: 0 <= i < |lines| && x == PyStrip(lines[i])
  {
    var i :| 0 <= i < |lines| && StripAll(lines)[i] == x;
    TrimIdempotent(lines[i], IsPySpace);
  }

  /** Every alternative is a stripped line of the reply. */
  lemma AlternativesAreStrippedLines(reply: string, x: string)
    requires x in Alternatives(reply)
    ensures PyStrip(x) == x
    ensures exists line :: line in SplitOn(PyStrip(reply), '\n') && x == PyStrip(line)
  {
    var lines := SplitOn(PyStrip(reply), '\n');
    KeepLongSubset(StripAll(lines), x);
    StrippedLine(lines, x);
  }

  /** Every alternative is longer than ten characters. */
  lemma AlternativesAreLong(reply: string, x: string)
    requires x in Alternatives(reply)
    ensures |x| > MinAlternativeLength
  {
    KeepLongMembers(StripAll(SplitOn(PyStrip(reply), '\n')), x);
  }

  /** `expand_query`: the original query first, then at most two
      alternatives from the model. Without the model, or when the call
      fails, only the query. */
  function ExpandQuery(query: string, available: bool, reply: Option<string>): (r: seq<string>)
    ensures 1 <= |r| <= 1 + MaxAlternatives && r[0] == query
    ensures !available || reply.None? ==> r == [query]
    ensures available && reply.Some? ==> r[1..] == Prefix(Alternatives(reply.value), MaxAlternatives)
  {
    if !available then [query]
    else match reply
      case None => [query]
      case Some(text) => [query] + Prefix(Alternatives(text), MaxAlternatives)
  }

  /** Every added query is one of the reply's alternatives, taken in the
      reply's order. */
  lemma ExpandedQueriesAreAlternatives(query: string, reply: string, k: nat)
    requires 1 <= k < |ExpandQuery(query, true, Some(reply))|
    ensures ExpandQuery(query, true, Some(reply))[k] == Alternatives(reply)[k - 1]
    ensures ExpandQuery(query, true, Some(reply))[k] in Alternatives(reply)
  {
    var alts := Alternatives(reply);
    assert ExpandQuery(query, true, Some(reply))[k] == alts[k - 1];
  }

  /** A reply made of two long lines with nothing to strip gives exactly
      those two alternatives. */
  lemma TwoCleanLines(a: string, b: string)
    requires a != [] && !IsPySpace(a[0]) && !IsPySpace(a[|a| - 1])
    requires b != [] && !IsPySpace(b[0]) && !IsPySpace(b[|b| - 1])
    requires '\n' !in a && '\n' !in b
    requires |a| > MinAlternativeLength && |b| > MinAlternativeLength
    ensures Alternatives(a + "\n" + b) == [a, b]
  {
    CleanLinesSplit(a, b);
    KeptLines(a, b);
  }

  lemma CleanLinesSplit(a: string, b: string)
    requires a != [] && !IsPySpace(a[0]) && !IsPySpace(a[|a| - 1])
    requires b != [] && !IsPySpace(b[0]) && !IsPySpace(b[|b| - 1])
    requires '\n' !in a && '\n' !in b
    ensures StripAll(SplitOn(PyStrip(a + "\n" + b), '\n')) == [a, b]
  {
    JoinedStripsToItself(a, b);
    TwoPieces(a, b);
    StripAllClean(a, b);
  }

  lemma JoinedStripsToItself(a: string, b: string)
    requires a != [] && !IsPySpace(a[0])
    requires b != [] && !IsPySpace(b[|b| - 1])
    ensures PyStrip(a + "\n" + b) == a + "\n" + b
  {
    var s := a + "\n" + b;
    assert s[0] == a[0] && s[|s| - 1] == b[|b| - 1];
    TrimOfTrimmed(s, IsPySpace);
  }

  lemma TwoPieces(a: string, b: string)
    requires '\n' !in a && '\n' !in b
    ensures SplitOn(a + "\n" + b, '\n') == [a, b]
  {
    assert Join([a, b], '\n') == a + "\n" + b by {
      assert [a, b][1..] == [b];
    }
    SplitOnJoin([a, b], '\n');
  }

  lemma StripAllClean(a: string, b: string)
    requires a != [] && !IsPySpace(a[0]) && !IsPySpace(a[|a| - 1])
    requires b != [] && !IsPySpace(b[0]) && !IsPySpace(b[|b| - 1])
    ensures StripAll([a, b]) == [a, b]
  {
    TrimOfTrimmed(a, IsPySpace);
    TrimOfTrimmed(b, IsPySpace);
    assert StripAll([a, b])[0] == a && StripAll([a, b])[1] == b;
  }

  lemma KeptLines(a: string, b: string)
    requires |a| > MinAlternativeLength && |b| > MinAlternativeLength
    ensures KeepLong([a, b]) == [a, b]
  {
    assert [a, b][..1] == [a];
    assert [a][..0] == [];
    assert KeepLong([a]) == [a];
  }

  // ---------------------------------------------------------------------
  // _select_best_chunks
  // ---------------------------------------------------------------------

  /** The similarity bonus: twice the score when it is present and not
      zero (Python treats a missing, None or 0.0 score as false). */
  function SimilarityBonus(c: Chunk): real {
    match c.similarity
    case Some(s) => if s != 0.0 then s * 2.0 else 0.0
    case None => 0.0
  }

  /** The summed word-overlap ratios of the first queries against `c`. */
  function SumOverlap(queries: seq<string>, c: Chunk, overlap: (string, Chunk) -> real): real {
    if queries == [] then 0.0
    else SumOverlap(queries[..|queries| - 1], c, overlap) + overlap(queries[|queries| - 1], c)
  }

  function ChunkScore(queries: seq<string>, c: Chunk, overlap: (string, Chunk) -> real): real {
    SumOverlap(queries, c, overlap) + SimilarityBonus(c)
  }

  /** The `chunk_scores` dictionary after the first chunks: keyed by chunk
      id, a later chunk with the same id overwriting an earlier one. */
  function ScoreTable(queries: seq<string>, chunks: seq<Chunk>, overlap: (string, Chunk) -> real): map<int, real> {
    if chunks == [] then map[]
    else
      var last := chunks[|chunks| - 1];
      ScoreTable(queries, chunks[..|chunks| - 1], overlap)[last.id := ChunkScore(queries, last, overlap)]
  }

  /** The sort key, `chunk_scores.get(c.id, 0)`. */
  function ScoreKey(table: map<int, real>): Chunk -> real {
    (c: Chunk) => if c.id in table then table[c.id] else 0.0
  }

  /** The table holds exactly the ids of the chunks. */
  lemma {:induction false} ScoreTableKeys(queries: seq<string>, chunks: seq<Chunk>, overlap: (string, Chunk) -> real)
    ensures ScoreTable(queries, chunks, overlap).Keys == set c | c in chunks :: c.id
  {
    if chunks != [] {
      var init := chunks[..|chunks| - 1];
      ScoreTableKeys(queries, init, overlap);
      assert chunks == init + [chunks[|chunks| - 1]];
    }
  }

  /** A chunk's entry is its own score unless a LATER chunk shares its id. */
  lemma {:induction false} ScoreTableLastWins(queries: seq<string>, chunks: seq<Chunk>, overlap: (string, Chunk) -> real, i: nat)
    requires i < |chunks|
    requires forall j :: i < j < |chunks| ==> chunks[j].id != chunks[i].id
    ensures chunks[i].id in ScoreTable(queries, chunks, overlap)
    ensures ScoreTable(queries, chunks, overlap)[chunks[i].id] == ChunkScore(queries, chunks[i], overlap)
  {
    if i < |chunks| - 1 {
      var init := chunks[..|chunks| - 1];
      assert init[i] == chunks[i];
      ScoreTableLastWins(queries, init, overlap, i);
    }
  }

  /** `_select_best_chunks`: at most eight chunks are returned unchanged;
      otherwise the eight with the highest score, best first, ties in
      input order. */
  method SelectBestChunks(originalQuery: string, queries: seq<string>, chunks: seq<Chunk>,
                          overlap: (string, Chunk) -> real)
    returns (best: seq<Chunk>)
    ensures |chunks| <= TopChunks ==> best == chunks
    ensures |chunks| > TopChunks ==>
      best == Prefix(SortDesc(chunks, ScoreKey(ScoreTable(queries, chunks, overlap))), TopChunks)
  {
    if |chunks| <= TopChunks {
      return chunks;
    }
    var scores: map<int, real> := map[];
    var i := 0;
    while i < |chunks|
      invariant 0 <= i <= |chunks|
      invariant scores == ScoreTable(queries, chunks[..i], overlap)
    {
      var chunk := chunks[i];
      var score := 0.0;
      var j := 0;
      while j < |queries|
        invariant 0 <= j <= |queries|
        invariant score == SumOverlap(queries[..j], chunk, overlap)
      {
        assert queries[..j + 1][..j] == queries[..j];
        score := score + overlap(queries[j], chunk);
        j := j + 1;
      }
      assert queries[..j] == queries;
      if chunk.similarity.Some? && chunk.similarity.value != 0.0 {
        score := score + chunk.similarity.value * 2.0;
      }
      assert chunks[..i + 1][..i] == chunks[..i];
      scores := scores[chunk.id := score];
      i := i + 1;
    }
    assert chunks[..i] == chunks;
    var sorted := SortDesc(chunks, ScoreKey(scores));
    best := Prefix(sorted, TopChunks);
  }

  /** What the selection guarantees when it cuts: eight chunks drawn from
      the input, best first, none left out scoring higher than one kept,
      and chunks with equal scores in their input order. */
  lemma TopChunksProperties(queries: seq<string>, chunks: seq<Chunk>, overlap: (string, Chunk) -> real)
    requires |chunks| > TopChunks
    ensures var key := ScoreKey(ScoreTable(queries, chunks, overlap));
            var sorted := SortDesc(chunks, key);
            var best := Prefix(sorted, TopChunks);
            && |best| == TopChunks
            && NonIncreasing(best, key)
            && multiset(best) <= multiset(chunks)
            && (forall i, j :: 0 <= i < TopChunks <= j < |sorted| ==> key(sorted[j]) <= key(best[i]))
            && (forall k: real :: WithKey(best, key, k) <= WithKey(chunks, key, k))
  {
    var key := ScoreKey(ScoreTable(queries, chunks, overlap));
    var sorted := SortDesc(chunks, key);
    SortDescPermutes(chunks, key);
    SortDescSorted(chunks, key);
    assert |sorted| == |chunks| by {
      assert |multiset(sorted)| == |multiset(chunks)|;
    }
    var best := Prefix(sorted, TopChunks);
    assert sorted == best + sorted[TopChunks..];
    assert multiset(sorted) == multiset(best) + multiset(sorted[TopChunks..]);
    forall k: real ensures WithKey(best, key, k) <= WithKey(chunks, key, k) {
      SortDescStable(chunks, key, k);
      WithKeyOfPrefix(sorted, key, k, TopChunks);
    }
  }

  // ---------------------------------------------------------------------
  // Answers
  // ---------------------------------------------------------------------

  function SourceOf(c: Chunk): Source {
    Source(c.id, c.documentId, c.content, Prefix(c.content, PreviewLength))
  }

  /** `_extract_sources`: one source per chunk, in order, with the full
      content and a preview of its first 200 characters. */
  function ExtractSources(chunks: seq<Chunk>): (r: seq<Source>)
    ensures |r| == |chunks|
    ensures forall i :: 0 <= i < |chunks| ==>
      && r[i].chunkId == chunks[i].id && r[i].documentId == chunks[i].documentId
      && r[i].content == chunks[i].content
      && r[i].contentPreview <= chunks[i].content
      && |r[i].contentPreview| == Min(PreviewLength, |chunks[i].content|)
  {
    seq(|chunks|, i requires 0 <= i < |chunks| => SourceOf(chunks[i]))
  }

  /** Sources of a concatenation are the concatenated sources. */
  lemma ExtractSourcesConcat(a: seq<Chunk>, b: seq<Chunk>)
    ensures ExtractSources(a + b) == ExtractSources(a) + ExtractSources(b)
  {
    var l := ExtractSources(a + b);
    var r := ExtractSources(a) + ExtractSources(b);
    forall i | 0 <= i < |l| ensures l[i] == r[i] {
      if i < |a| { assert (a + b)[i] == a[i]; } else { assert (a + b)[i] == b[i - |a|]; }
    }
  }

  /** `_no_docs_response`. */
  function NoDocsResponse(query: string): (r: Answer)
    ensures r.sources == [] && r.confidence == 0.1 && r.model == "no-documents"
    ensures NoDocsIntro + query <= r.answer
    ensures EndsWith(r.answer, "'. Please upload documents first.")
    ensures |r.answer| == |NoDocsIntro| + |query| + |"'. Please upload documents first."|
  {
    Answer(NoDocsIntro + query + "'. Please upload documents first.", 0.1, [], "no-documents")
  }

  const NoDocsIntro: string := "I don't have any relevant documents to answer your question: '"

  function Header(query: string): string {
    "Based on the available documents, here's what I found regarding '" + query + "':\n"
  }

  /** The numbered excerpt for the chunk at position `n` (from 1). */
  function Excerpt(n: nat, c: Chunk): string {
    "\n" + NatToString(n) + ". From document section " + IntToString(c.id) + ":\n"
      + Prefix(c.content, ExcerptLength) + "..."
  }

  function Footer(count: nat): string {
    "\n\nThis information is compiled from " + NatToString(count) + " relevant document sections."
  }

  /** The excerpts for the given chunks, numbered from 1. */
  function Excerpts(chunks: seq<Chunk>): (r: seq<string>)
    ensures |r| == |chunks|
    ensures forall i :: 0 <= i < |chunks| ==> r[i] == Excerpt(i + 1, chunks[i])
  {
    seq(|chunks|, i requires 0 <= i < |chunks| => Excerpt(i + 1, chunks[i]))
  }

  /** `"".join(parts)`. */
  function Concat(parts: seq<string>): string {
    if parts == [] then [] else parts[0] + Concat(parts[1..])
  }

  /** The answer of the extractive fallback: a header, one excerpt for
      each of the first five chunks, and a footer that counts ALL chunks. */
  function ExtractionParts(query: string, chunks: seq<Chunk>): seq<string> {
    [Header(query)] + Excerpts(Prefix(chunks, ExtractedChunks)) + [Footer(|chunks|)]
  }

  /** `_enhanced_extraction`, with its loop over the first five chunks. */
  method EnhancedExtraction(query: string, chunks: seq<Chunk>) returns (r: Answer)
    ensures r.answer == Concat(ExtractionParts(query, chunks))
    ensures r.confidence == 0.75 && r.model == "enhanced-extraction"
    ensures |r.sources| == Min(ExtractedChunks, |chunks|)
    ensures r.sources == ExtractSources(chunks[..|r.sources|])
  {
    var used := Prefix(chunks, ExtractedChunks);
    var parts := [Header(query)];
    var i := 0;
    while i < |used|
      invariant 0 <= i <= |used|
      invariant parts == [Header(query)] + Excerpts(used[..i])
    {
      var content := Prefix(used[i].content, ExcerptLength);
      var excerpt := "\n" + NatToString(i + 1) + ". From document section " + IntToString(used[i].id)
                     + ":\n" + content + "...";
      assert Excerpts(used[..i + 1]) == Excerpts(used[..i]) + [excerpt];
      parts := parts + [excerpt];
      i := i + 1;
    }
    assert used[..i] == used;
    parts := parts + [Footer(|chunks|)];
    r := Answer(Concat(parts), 0.75, ExtractSources(used), "enhanced-extraction");
  }

  /** The fallback's answer starts with the header and ends with the
      footer. */
  lemma {:induction false} ConcatAppend(a: seq<string>, b: seq<string>)
    ensures Concat(a + b) == Concat(a) + Concat(b)
  {
    if a != [] {
      assert (a + b)[1..] == a[1..] + b;
      ConcatAppend(a[1..], b);
    } else {
      assert a + b == b;
    }
  }

  lemma ExtractionFraming(query: string, chunks: seq<Chunk>)
    ensures Header(query) <= Concat(ExtractionParts(query, chunks))
    ensures EndsWith(Concat(ExtractionParts(query, chunks)), Footer(|chunks|))
  {
    var mid := Excerpts(Prefix(chunks, ExtractedChunks));
    ConcatAppend([Header(query)] + mid, [Footer(|chunks|)]);
    ConcatAppend([Header(query)], mid);
    assert Concat([Footer(|chunks|)]) == Footer(|chunks|);
    assert Concat([Header(query)]) == Header(query);
  }

  /** The model's answer is accepted only when it is non-empty and, once
      stripped, at least twenty characters long. */
  predicate Acceptable(text: string) {
    text != [] && |PyStrip(text)| >= MinAnswerLength
  }

  /** `generate_answer`. `available` says whether the model was configured;
      `expansion` and `generation` are the model's replies to the two
      prompts (None when the call raised); `overlap` is the word-overlap
      ratio of a query against a chunk and `confidence` the value of
      `_calculate_confidence` for the generated answer. */
  method GenerateAnswer(query: string, chunks: seq<Chunk>, available: bool,
                        expansion: Option<string>, overlap: (string, Chunk) -> real,
                        generation: Option<string>, confidence: real, verifierModel: string)
    returns (r: Answer)
    ensures chunks == [] ==> r == NoDocsResponse(query)
    ensures chunks != [] ==>
      var best := SelectedChunks(query, chunks, available, expansion, overlap);
      if available && generation.Some? && Acceptable(generation.value)
      then r == Answer(generation.value, confidence, ExtractSources(best), verifierModel)
      else r == Answer(Concat(ExtractionParts(query, best)), 0.75,
                       ExtractSources(best[..Min(ExtractedChunks, |best|)]), "enhanced-extraction")
  {
    if chunks == [] {
      return NoDocsResponse(query);
    }
    var queries := ExpandQuery(query, available, expansion);
    var best := SelectBestChunks(query, queries, chunks, overlap);
    if available && generation.Some? {
      var text := generation.value;
      if Acceptable(text) {
        return Answer(text, confidence, ExtractSources(best), verifierModel);
      }
    }
    r := EnhancedExtraction(query, best);
  }

  /** The chunks `generate_answer` answers from. */
  function SelectedChunks(query: string, chunks: seq<Chunk>, available: bool,
                          expansion: Option<string>, overlap: (string, Chunk) -> real): (r: seq<Chunk>)
    ensures |chunks| <= TopChunks ==> r == chunks
    ensures |chunks| > TopChunks ==> |r| == TopChunks
  {
    var queries := ExpandQuery(query, available, expansion);
    if |chunks| <= TopChunks then chunks
    else
      TopChunksProperties(queries, chunks, overlap);
      Prefix(SortDesc(chunks, ScoreKey(ScoreTable(queries, chunks, overlap))), TopChunks)
  }

  /** Every source of a generated answer comes from one of the retrieved
      chunks, and a non-empty retrieval always yields between one and eight
      sources. */
  lemma AnswerSourcesComeFromChunks(query: string, chunks: seq<Chunk>, available: bool,
                                    expansion: Option<string>, overlap: (string, Chunk) -> real,
                                    generation: Option<string>, confidence: real, verifierModel: string,
                                    r: Answer)
    requires chunks != []
    requires var best := SelectedChunks(query, chunks, available, expansion, overlap);
      if available && generation.Some? && Acceptable(generation.value)
      then r == Answer(generation.value, confidence, ExtractSources(best), verifierModel)
      else r == Answer(Concat(ExtractionParts(query, best)), 0.75,
                       ExtractSources(best[..Min(ExtractedChunks, |best|)]), "enhanced-extraction")
    ensures 1 <= |r.sources| <= TopChunks
    ensures forall i :: 0 <= i < |r.sources| ==>
      exists j :: 0 <= j < |chunks| && r.sources[i] == SourceOf(chunks[j])
  {
    var best := SelectedChunks(query, chunks, available, expansion, overlap);
    var queries := ExpandQuery(query, available, expansion);
    assert multiset(best) <= multiset(chunks) by {
      if |chunks| > TopChunks {
        TopChunksProperties(queries, chunks, overlap);
      }
    }
    forall i | 0 <= i < |r.sources|
      ensures exists j :: 0 <= j < |chunks| && r.sources[i] == SourceOf(chunks[j])
    {
      assert r.sources[i] == SourceOf(best[i]);
      assert best[i] in multiset(chunks);
      var j :| 0 <= j < |chunks| && chunks[j] == best[i];
    }
  }
}
