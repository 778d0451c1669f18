/** The extraction activity of `apps/workers/src/activities/extraction-pipeline.ts`: evidence spans
    come back from the model relative to a chunk, are translated to the source document, and are
    kept only when they quote it verbatim.  What the model answers for a chunk is a parameter.  */
module Extraction {
  import opened Options
  import opened Chunker

  type RunId = string
  type SourceId = string

  datatype Evidence = Evidence(quote: string, charStart: Option<int>, charEnd: Option<int>)

  datatype Fact = Fact(summary: string, evidence: seq<Evidence>)

  datatype Span = Span(from: nat, to: nat)

  datatype FactRow = FactRow(id: nat, run: RunId, summary: string)

  datatype EvidenceRow = EvidenceRow(run: RunId, factId: nat, quote: string, span: Option<Span>)

  datatype EmbeddingRow = EmbeddingRow(source: SourceId, ref: ChunkRef)

  type Model = string -> seq<Fact>

  /** The source-document span of a piece of evidence, when it is a true quote. */
  function Locate(text: string, offset: nat, ev: Evidence): Option<Span> {
    if ev.charStart.None? || ev.charEnd.None? then None
    else
      var s, e := ev.charStart.value + offset, ev.charEnd.value + offset;
      if 0 <= s < e <= |text| && text[s..e] == ev.quote then Some(Span(s, e)) else None
  }

  /** A span was given and dropped. */
  predicate Unlocatable(text: string, offset: nat, ev: Evidence) {
    ev.charStart.Some? && ev.charEnd.Some? && Locate(text, offset, ev).None?
  }

  predicate Verbatim(text: string, row: EvidenceRow) {
    row.span.Some? ==>
      row.span.value.from < row.span.value.to <= |text|
      && text[row.span.value.from..row.span.value.to] == row.quote
  }

  /** An honest quote from a chunk is always located, at the place it was taken from. */
  lemma {:induction false} HonestQuoteIsLocated(text: string, c: Chunk, s: nat, e: nat)
    requires SliceOf(text, c) && s < e <= |c.text|
    ensures Locate(text, c.offset, Evidence(c.text[s..e], Some(s), Some(e))) == Some(Span(c.offset + s, c.offset + e))
  {
    assert c.text[s..e] == text[c.offset + s..c.offset + e];
  }

  /** Quoting `text[s..e]` from this chunk leads back to `s` and `e`. */
  predicate Cites(text: string, c: Chunk, s: nat, e: nat) {
    && c.offset <= s < e <= End(c) && SliceOf(text, c)
    && c.text[s - c.offset..e - c.offset] == text[s..e]
    && Locate(text, c.offset, Evidence(text[s..e], Some(s - c.offset), Some(e - c.offset))) == Some(Span(s, e))
  }

  lemma HolderCites(text: string, c: Chunk, s: nat, e: nat)
    requires SliceOf(text, c) && c.offset <= s < e <= End(c)
    ensures Cites(text, c, s, e)
  {
    HonestQuoteIsLocated(text, c, s - c.offset, e - c.offset);
    assert c.text[s - c.offset..e - c.offset] == text[s..e];
  }

  /** Every short passage of the source can be quoted from some chunk and is then found again. */
  lemma {:induction false} ShortPassageCanBeCited(digest: string, text: string, maxChars: nat, overlapChars: nat,
      s: nat, e: nat)
    requires overlapChars < maxChars && 2 * overlapChars <= maxChars + 1
    requires s < e <= |text| && e - s <= overlapChars + 1
    ensures exists c :: c in ChunksOf(digest, text, maxChars, overlapChars) && Cites(text, c, s, e)
  {
    var chunks := ChunksOf(digest, text, maxChars, overlapChars);
    ChunksAreFaithful(digest, text, maxChars, overlapChars);
    assert Holds(chunks, s, e);
    ChunksAreSlices(digest, text, maxChars, overlapChars);
    var c :| c in chunks && c.offset <= s && e <= End(c);
    HolderCites(text, c, s, e);
  }

  lemma ChunksAreSlices(digest: string, text: string, maxChars: nat, overlapChars: nat)
    requires maxChars > 0
    ensures forall c :: c in ChunksOf(digest, text, maxChars, overlapChars) ==> SliceOf(text, c)
  {
    if text != "" {
      ChunksCover(digest, text, maxChars, overlapChars, 0, 0);
    }
  }

  // ---------------------------------------------------------------------------
  // The rows one run writes
  // ---------------------------------------------------------------------------

  function EvidenceOf(text: string, run: RunId, factId: nat, offset: nat, evs: seq<Evidence>): seq<EvidenceRow> {
    if evs == [] then []
    else
      var ev := evs[|evs| - 1];
      EvidenceOf(text, run, factId, offset, evs[..|evs| - 1])
        + [EvidenceRow(run, factId, ev.quote, Locate(text, offset, ev))]
  }

  function Misses(text: string, offset: nat, evs: seq<Evidence>): nat {
    if evs == [] then 0
    else Misses(text, offset, evs[..|evs| - 1]) + if Unlocatable(text, offset, evs[|evs| - 1]) then 1 else 0
  }

  /** What has been written so far by this run, and the id of its next fact. */
  datatype Written = Written(facts: seq<FactRow>, evidence: seq<EvidenceRow>, missed: nat, nextId: nat)

  function AddFact(text: string, run: RunId, offset: nat, w: Written, fact: Fact): Written {
    Written(w.facts + [FactRow(w.nextId, run, fact.summary)],
            w.evidence + EvidenceOf(text, run, w.nextId, offset, fact.evidence),
            w.missed + Misses(text, offset, fact.evidence),
            w.nextId + 1)
  }

  function AddFacts(text: string, run: RunId, offset: nat, w: Written, facts: seq<Fact>): Written {
    if facts == [] then w
    else AddFact(text, run, offset, AddFacts(text, run, offset, w, facts[..|facts| - 1]), facts[|facts| - 1])
  }

  function AddChunks(text: string, run: RunId, model: Model, w: Written, chunks: seq<Chunk>): Written {
    if chunks == [] then w
    else
      var c := chunks[|chunks| - 1];
      AddFacts(text, run, c.offset, AddChunks(text, run, model, w, chunks[..|chunks| - 1]), model(c.text))
  }

  function Embedded(source: SourceId, chunks: seq<Chunk>): seq<EmbeddingRow> {
    if chunks == [] then []
    else Embedded(source, chunks[..|chunks| - 1]) + [EmbeddingRow(source, chunks[|chunks| - 1].ref)]
  }

  /** Fact ids are consecutive from `first`, and each row belongs to `run`. */
  ghost predicate OwnRows(text: string, run: RunId, first: nat, w: Written) {
    && w.nextId == first + |w.facts|
    && (forall i :: 0 <= i < |w.facts| ==> w.facts[i].run == run && w.facts[i].id == first + i)
    && (forall row :: row in w.evidence ==> row.run == run && first <= row.factId < w.nextId && Verbatim(text, row))
  }

  lemma {:induction false} EvidenceIsOwn(text: string, run: RunId, factId: nat, offset: nat, evs: seq<Evidence>)
    ensures forall row :: row in EvidenceOf(text, run, factId, offset, evs) ==>
      row.run == run && row.factId == factId && Verbatim(text, row)
  {
    if evs != [] {
      EvidenceIsOwn(text, run, factId, offset, evs[..|evs| - 1]);
    }
  }

  lemma {:induction false} FactsAreOwn(text: string, run: RunId, first: nat, offset: nat, w: Written, facts: seq<Fact>)
    requires OwnRows(text, run, first, w)
    ensures OwnRows(text, run, first, AddFacts(text, run, offset, w, facts))
  {
    if facts != [] {
      FactsAreOwn(text, run, first, offset, w, facts[..|facts| - 1]);
      var w' := AddFacts(text, run, offset, w, facts[..|facts| - 1]);
      EvidenceIsOwn(text, run, w'.nextId, offset, facts[|facts| - 1].evidence);
    }
  }

  /** Whatever the model answers: no stored span misquotes the source, and no evidence is stored
      for a fact of another run. */
  lemma {:induction false} RunWritesOwnRows(text: string, run: RunId, model: Model, first: nat, chunks: seq<Chunk>)
    ensures OwnRows(text, run, first, AddChunks(text, run, model, Written([], [], 0, first), chunks))
  {
    if chunks != [] {
      RunWritesOwnRows(text, run, model, first, chunks[..|chunks| - 1]);
      var w := AddChunks(text, run, model, Written([], [], 0, first), chunks[..|chunks| - 1]);
      FactsAreOwn(text, run, first, chunks[|chunks| - 1].offset, w, model(chunks[|chunks| - 1].text));
    }
  }

  // ---------------------------------------------------------------------------
  // ... field by field
  // ---------------------------------------------------------------------------

  /** A fact the model gave, with the place of the chunk it was given for. */
  datatype Answer = Answer(fact: Fact, offset: nat)

  function Answers(offset: nat, facts: seq<Fact>): seq<Answer> {
    seq(|facts|, i requires 0 <= i < |facts| => Answer(facts[i], offset))
  }

  /** All facts the model gives for the chunks, in order. */
  function AllAnswers(model: Model, chunks: seq<Chunk>): seq<Answer> {
    if chunks == [] then []
    else
      var last := chunks[|chunks| - 1];
      AllAnswers(model, chunks[..|chunks| - 1]) + Answers(last.offset, model(last.text))
  }

  /** `row` records `ev`: its quote, and the place it names, moved by `offset`, when that is where the quote
      stands in the text. */
  ghost predicate Records(text: string, offset: nat, ev: Evidence, row: EvidenceRow) {
    && row.quote == ev.quote
    && (row.span.Some? <==>
          && ev.charStart.Some? && ev.charEnd.Some?
          && 0 <= ev.charStart.value + offset < ev.charEnd.value + offset <= |text|
          && text[ev.charStart.value + offset..ev.charEnd.value + offset] == ev.quote)
    && (row.span.Some? ==>
          row.span.value.from == ev.charStart.value + offset && row.span.value.to == ev.charEnd.value + offset)
  }

  /** One piece of evidence, with the number of its fact and the place of its chunk. */
  datatype Item = Item(fact: nat, offset: nat, evidence: Evidence)

  function ItemsOf(fact: nat, answer: Answer): seq<Item> {
    seq(|answer.fact.evidence|, k requires 0 <= k < |answer.fact.evidence| =>
      Item(fact, answer.offset, answer.fact.evidence[k]))
  }

  /** All pieces of evidence, in order. */
  function Items(answers: seq<Answer>): seq<Item> {
    if answers == [] then [] else Items(answers[..|answers| - 1]) + ItemsOf(|answers| - 1, answers[|answers| - 1])
  }

  /** One row for each piece, under the id of its fact. */
  ghost predicate RecordsAll(text: string, first: nat, items: seq<Item>, rows: seq<EvidenceRow>) {
    && |rows| == |items|
    && forall j :: 0 <= j < |items| ==>
         rows[j].factId == first + items[j].fact && Records(text, items[j].offset, items[j].evidence, rows[j])
  }

  /** One row per fact with its summary, one per piece of evidence under its fact, all in order. */
  ghost predicate Stores(text: string, answers: seq<Answer>, first: nat, w: Written) {
    && |w.facts| == |answers| && w.nextId == first + |answers|
    && (forall i :: 0 <= i < |answers| ==> w.facts[i].summary == answers[i].fact.summary && w.facts[i].id == first + i)
    && RecordsAll(text, first, Items(answers), w.evidence)
  }

  lemma RecordsAppend(text: string, first: nat, items: seq<Item>, rows: seq<EvidenceRow>, items': seq<Item>,
      rows': seq<EvidenceRow>)
    requires RecordsAll(text, first, items, rows) && RecordsAll(text, first, items', rows')
    ensures RecordsAll(text, first, items + items', rows + rows')
  {
  }

  lemma {:induction false} EvidenceRows(text: string, run: RunId, factId: nat, offset: nat, evs: seq<Evidence>)
    ensures var rows := EvidenceOf(text, run, factId, offset, evs);
      && |rows| == |evs|
      && forall k :: 0 <= k < |evs| ==> rows[k].factId == factId && Records(text, offset, evs[k], rows[k])
  {
    if evs != [] {
      EvidenceRows(text, run, factId, offset, evs[..|evs| - 1]);
    }
  }

  lemma OneFactMore(text: string, run: RunId, answers: seq<Answer>, first: nat, w: Written, answer: Answer)
    requires Stores(text, answers, first, w)
    ensures Stores(text, answers + [answer], first, AddFact(text, run, answer.offset, w, answer.fact))
  {
    var more := EvidenceOf(text, run, w.nextId, answer.offset, answer.fact.evidence);
    EvidenceRows(text, run, w.nextId, answer.offset, answer.fact.evidence);
    RecordsAppend(text, first, Items(answers), w.evidence, ItemsOf(|answers|, answer), more);
    assert (answers + [answer])[..|answers|] == answers;
  }

  lemma {:induction false} FactsStored(text: string, run: RunId, answers: seq<Answer>, first: nat, w: Written,
      offset: nat, facts: seq<Fact>)
    requires Stores(text, answers, first, w)
    ensures Stores(text, answers + Answers(offset, facts), first, AddFacts(text, run, offset, w, facts))
  {
    if facts == [] {
      assert answers + Answers(offset, facts) == answers;
    } else {
      var n := |facts| - 1;
      FactsStored(text, run, answers, first, w, offset, facts[..n]);
      var before := answers + Answers(offset, facts[..n]);
      OneFactMore(text, run, before, first, AddFacts(text, run, offset, w, facts[..n]), Answer(facts[n], offset));
      AnswersSnoc(answers, offset, facts);
    }
  }

  lemma AnswersSnoc(answers: seq<Answer>, offset: nat, facts: seq<Fact>)
    requires facts != []
    ensures var n := |facts| - 1;
      answers + Answers(offset, facts) == answers + Answers(offset, facts[..n]) + [Answer(facts[n], offset)]
  {
  }

  /** A run stores what the model answered: each fact's summary under the next id, and each piece of
      evidence, under its fact, with its quote and with its place in the source when it is really there. */
  lemma {:induction false} RunStoresAnswers(text: string, run: RunId, model: Model, first: nat, chunks: seq<Chunk>)
    ensures Stores(text, AllAnswers(model, chunks), first,
      AddChunks(text, run, model, Written([], [], 0, first), chunks))
  {
    if chunks != [] {
      var n := |chunks| - 1;
      var w := AddChunks(text, run, model, Written([], [], 0, first), chunks[..n]);
      RunStoresAnswers(text, run, model, first, chunks[..n]);
      FactsStored(text, run, AllAnswers(model, chunks[..n]), first, w, chunks[n].offset, model(chunks[n].text));
    }
  }

  /** A place was given and is not where the quote stands. */
  ghost predicate IsDropped(text: string, offset: nat, ev: Evidence) {
    && ev.charStart.Some? && ev.charEnd.Some?
    && !(0 <= ev.charStart.value + offset < ev.charEnd.value + offset <= |text|
         && text[ev.charStart.value + offset..ev.charEnd.value + offset] == ev.quote)
  }

  ghost function Dropped(text: string, offset: nat, evs: seq<Evidence>): set<nat> {
    set k: nat | k < |evs| && IsDropped(text, offset, evs[k])
  }

  lemma DroppedIsUnlocatable(text: string, offset: nat, ev: Evidence)
    ensures IsDropped(text, offset, ev) <==> Unlocatable(text, offset, ev)
  {
  }

  /** The spans that were given and dropped are counted. */
  lemma {:induction false} MissesExactly(text: string, offset: nat, evs: seq<Evidence>)
    ensures Misses(text, offset, evs) == |Dropped(text, offset, evs)|
  {
    if evs != [] {
      var n := |evs| - 1;
      MissesExactly(text, offset, evs[..n]);
      DroppedIsUnlocatable(text, offset, evs[n]);
      DroppedSnoc(text, offset, evs);
    }
  }

  lemma DroppedSnoc(text: string, offset: nat, evs: seq<Evidence>)
    requires evs != []
    ensures var n := |evs| - 1;
      && n !in Dropped(text, offset, evs[..n])
      && Dropped(text, offset, evs) ==
         Dropped(text, offset, evs[..n]) + if IsDropped(text, offset, evs[n]) then {n} else {}
  {
    forall k: nat | k < |evs| - 1 ensures evs[..|evs| - 1][k] == evs[k] {
    }
  }

  // ---------------------------------------------------------------------------
  // Wiping what an earlier attempt wrote
  // ---------------------------------------------------------------------------

  /** The wipe takes the run's facts and evidence and the source's embeddings, and nothing else. */
  lemma {:induction false} WipeContents(run: RunId, source: SourceId, facts: seq<FactRow>, evidence: seq<EvidenceRow>,
      embeddings: seq<EmbeddingRow>)
    ensures forall r :: r in FactsWithout(run, facts) <==> r in facts && r.run != run
    ensures forall r :: r in EvidenceWithout(run, evidence) <==> r in evidence && r.run != run
    ensures forall r :: r in EmbeddingsWithout(source, embeddings) <==> r in embeddings && r.source != source
  {
    FactsWithoutContents(run, facts);
    EvidenceWithoutContents(run, evidence);
    EmbeddingsWithoutContents(source, embeddings);
  }

  lemma {:induction false} FactsWithoutContents(run: RunId, rows: seq<FactRow>)
    ensures forall r :: r in FactsWithout(run, rows) <==> r in rows && r.run != run
  {
    if rows != [] {
      FactsWithoutContents(run, rows[..|rows| - 1]);
      assert rows == rows[..|rows| - 1] + [rows[|rows| - 1]];
    }
  }

  lemma {:induction false} EvidenceWithoutContents(run: RunId, rows: seq<EvidenceRow>)
    ensures forall r :: r in EvidenceWithout(run, rows) <==> r in rows && r.run != run
  {
    if rows != [] {
      EvidenceWithoutContents(run, rows[..|rows| - 1]);
      assert rows == rows[..|rows| - 1] + [rows[|rows| - 1]];
    }
  }

  lemma {:induction false} EmbeddingsWithoutContents(source: SourceId, rows: seq<EmbeddingRow>)
    ensures forall r :: r in EmbeddingsWithout(source, rows) <==> r in rows && r.source != source
  {
    if rows != [] {
      EmbeddingsWithoutContents(source, rows[..|rows| - 1]);
      assert rows == rows[..|rows| - 1] + [rows[|rows| - 1]];
    }
  }

  /** One embedding per chunk, under the source. */
  lemma {:induction false} EmbeddedContents(source: SourceId, chunks: seq<Chunk>)
    ensures |Embedded(source, chunks)| == |chunks|
    ensures forall i :: 0 <= i < |chunks| ==>
      Embedded(source, chunks)[i].source == source && Embedded(source, chunks)[i].ref == chunks[i].ref
  {
    if chunks != [] {
      EmbeddedContents(source, chunks[..|chunks| - 1]);
    }
  }

  function FactsWithout(run: RunId, rows: seq<FactRow>): seq<FactRow> {
    if rows == [] then []
    else FactsWithout(run, rows[..|rows| - 1]) + if rows[|rows| - 1].run == run then [] else [rows[|rows| - 1]]
  }

  function EvidenceWithout(run: RunId, rows: seq<EvidenceRow>): seq<EvidenceRow> {
    if rows == [] then []
    else EvidenceWithout(run, rows[..|rows| - 1]) + if rows[|rows| - 1].run == run then [] else [rows[|rows| - 1]]
  }

  function EmbeddingsWithout(source: SourceId, rows: seq<EmbeddingRow>): seq<EmbeddingRow> {
    if rows == [] then []
    else
      var last := rows[|rows| - 1];
      EmbeddingsWithout(source, rows[..|rows| - 1]) + if last.source == source then [] else [last]
  }

  lemma {:induction false} FactsWiped(run: RunId, kept: seq<FactRow>, own: seq<FactRow>)
    requires forall r :: r in own ==> r.run == run
    ensures FactsWithout(run, kept + own) == FactsWithout(run, kept)
  {
    if own == [] {
      assert kept + own == kept;
    } else {
      FactsWiped(run, kept, own[..|own| - 1]);
      assert (kept + own)[..|kept + own| - 1] == kept + own[..|own| - 1];
      assert own[|own| - 1] in own;
    }
  }

  lemma {:induction false} FactsWithoutTwice(run: RunId, rows: seq<FactRow>)
    ensures FactsWithout(run, FactsWithout(run, rows)) == FactsWithout(run, rows)
  {
    if rows != [] {
      var rest, last := FactsWithout(run, rows[..|rows| - 1]), rows[|rows| - 1];
      FactsWithoutTwice(run, rows[..|rows| - 1]);
      if last.run != run {
        assert (rest + [last])[..|rest|] == rest;
        assert FactsWithout(run, rest + [last]) == FactsWithout(run, rest) + [last];
      } else {
        assert rest + [] == rest;
      }
    }
  }

  lemma {:induction false} EvidenceWiped(run: RunId, kept: seq<EvidenceRow>, own: seq<EvidenceRow>)
    requires forall r :: r in own ==> r.run == run
    ensures EvidenceWithout(run, kept + own) == EvidenceWithout(run, kept)
  {
    if own == [] {
      assert kept + own == kept;
    } else {
      EvidenceWiped(run, kept, own[..|own| - 1]);
      assert (kept + own)[..|kept + own| - 1] == kept + own[..|own| - 1];
      assert own[|own| - 1] in own;
    }
  }

  lemma {:induction false} EvidenceWithoutTwice(run: RunId, rows: seq<EvidenceRow>)
    ensures EvidenceWithout(run, EvidenceWithout(run, rows)) == EvidenceWithout(run, rows)
  {
    if rows != [] {
      var rest, last := EvidenceWithout(run, rows[..|rows| - 1]), rows[|rows| - 1];
      EvidenceWithoutTwice(run, rows[..|rows| - 1]);
      if last.run != run {
        assert (rest + [last])[..|rest|] == rest;
        assert EvidenceWithout(run, rest + [last]) == EvidenceWithout(run, rest) + [last];
      } else {
        assert rest + [] == rest;
      }
    }
  }

  class Store {
    var facts: seq<FactRow>
    var evidence: seq<EvidenceRow>
    var embeddings: seq<EmbeddingRow>
    var nextId: nat

    method InsertFact(text: string, run: RunId, offset: nat, fact: Fact, ghost facts0: seq<FactRow>,
        ghost evidence0: seq<EvidenceRow>, ghost w: Written)
      returns (missed: nat)
      requires facts == facts0 + w.facts && evidence == evidence0 + w.evidence && nextId == w.nextId
      modifies this`facts, this`evidence, this`nextId
      ensures var w' := AddFact(text, run, offset, w, fact);
        facts == facts0 + w'.facts && evidence == evidence0 + w'.evidence && nextId == w'.nextId
          && w.missed + missed == w'.missed
    {
      var id := nextId;
      facts := facts + [FactRow(id, run, fact.summary)];
      nextId := nextId + 1;
      missed := 0;
      for k := 0 to |fact.evidence|
        invariant evidence == old(evidence) + EvidenceOf(text, run, id, offset, fact.evidence[..k])
        invariant missed == Misses(text, offset, fact.evidence[..k])
        invariant facts == old(facts) + [FactRow(id, run, fact.summary)] && nextId == id + 1
      {
        assert fact.evidence[..k + 1][..k] == fact.evidence[..k];
        var ev := fact.evidence[k];
        var span: Option<Span> := None;
        if ev.charStart.Some? && ev.charEnd.Some? {
          var s, e := ev.charStart.value + offset, ev.charEnd.value + offset;
          if s >= 0 && e <= |text| && s < e && text[s..e] == ev.quote {
            span := Some(Span(s, e));
          } else {
            missed := missed + 1;
          }
        }
        evidence := evidence + [EvidenceRow(run, id, ev.quote, span)];
      }
      assert fact.evidence[..|fact.evidence|] == fact.evidence;
      assert facts0 + w.facts + [FactRow(id, run, fact.summary)] ==
        facts0 + (w.facts + [FactRow(id, run, fact.summary)]);
      ghost var rows := EvidenceOf(text, run, id, offset, fact.evidence);
      assert evidence0 + w.evidence + rows == evidence0 + (w.evidence + rows);
    }

    method InsertFacts(text: string, run: RunId, offset: nat, extracted: seq<Fact>, ghost facts0: seq<FactRow>,
        ghost evidence0: seq<EvidenceRow>, ghost w: Written)
      returns (missed: nat)
      requires facts == facts0 + w.facts && evidence == evidence0 + w.evidence && nextId == w.nextId
      modifies this`facts, this`evidence, this`nextId
      ensures var w' := AddFacts(text, run, offset, w, extracted);
        facts == facts0 + w'.facts && evidence == evidence0 + w'.evidence && nextId == w'.nextId
          && w.missed + missed == w'.missed
    {
      missed := 0;
      for j := 0 to |extracted|
        invariant var w' := AddFacts(text, run, offset, w, extracted[..j]);
          facts == facts0 + w'.facts && evidence == evidence0 + w'.evidence && nextId == w'.nextId
            && w.missed + missed == w'.missed
      {
        assert extracted[..j + 1][..j] == extracted[..j];
        var more := InsertFact(text, run, offset, extracted[j], facts0, evidence0,
          AddFacts(text, run, offset, w, extracted[..j]));
        missed := missed + more;
      }
      assert extracted[..|extracted|] == extracted;
    }

    /** `runExtractionActivity`: an attempt replaces whatever an earlier attempt of the same run left. */
    method RunExtraction(run: RunId, source: SourceId, text: string, chunks: seq<Chunk>, model: Model)
      returns (factCount: nat, embeddingCount: nat, unlocatable: nat)
      modifies this
      ensures var w := AddChunks(text, run, model, Written([], [], 0, old(nextId)), chunks);
        && facts == FactsWithout(run, old(facts)) + w.facts
        && evidence == EvidenceWithout(run, old(evidence)) + w.evidence
        && embeddings == EmbeddingsWithout(source, old(embeddings)) + Embedded(source, chunks)
        && nextId == w.nextId
        && factCount == |w.facts| && embeddingCount == |chunks| && unlocatable == w.missed
    {
      evidence := EvidenceWithout(run, evidence);
      facts := FactsWithout(run, facts);
      embeddings := EmbeddingsWithout(source, embeddings);
      ghost var facts0, evidence0, embeddings0 := facts, evidence, embeddings;
      ghost var w0 := Written([], [], 0, nextId);
      factCount, embeddingCount, unlocatable := 0, 0, 0;
      for i := 0 to |chunks|
        invariant var w := AddChunks(text, run, model, w0, chunks[..i]);
          facts == facts0 + w.facts && evidence == evidence0 + w.evidence && nextId == w.nextId
            && factCount == |w.facts| && unlocatable == w.missed
        invariant embeddings == embeddings0 + Embedded(source, chunks[..i]) && embeddingCount == i
      {
        EmbeddedSnoc(source, chunks, i);
        embeddings := embeddings + [EmbeddingRow(source, chunks[i].ref)];
        embeddingCount := embeddingCount + 1;
        ghost var w := AddChunks(text, run, model, w0, chunks[..i]);
        var extracted := model(chunks[i].text);
        var missed := InsertFacts(text, run, chunks[i].offset, extracted, facts0, evidence0, w);
        OneChunkMore(text, run, model, w0, chunks, i);
        factCount, unlocatable := factCount + |extracted|, unlocatable + missed;
      }
      assert chunks[..|chunks|] == chunks;
    }
  }

  lemma EmbeddedSnoc(source: SourceId, chunks: seq<Chunk>, i: nat)
    requires i < |chunks|
    ensures Embedded(source, chunks[..i + 1]) == Embedded(source, chunks[..i]) + [EmbeddingRow(source, chunks[i].ref)]
  {
    assert chunks[..i + 1][..i] == chunks[..i];
  }

  lemma OneChunkMore(text: string, run: RunId, model: Model, w: Written, chunks: seq<Chunk>, i: nat)
    requires i < |chunks|
    ensures var (before, extracted) := (AddChunks(text, run, model, w, chunks[..i]), model(chunks[i].text));
      && AddChunks(text, run, model, w, chunks[..i + 1]) == AddFacts(text, run, chunks[i].offset, before, extracted)
      && |AddFacts(text, run, chunks[i].offset, before, extracted).facts| == |before.facts| + |extracted|
  {
    assert chunks[..i + 1][..i] == chunks[..i];
    AddFactsCount(text, run, chunks[i].offset, AddChunks(text, run, model, w, chunks[..i]), model(chunks[i].text));
  }

  lemma {:induction false} AddFactsCount(text: string, run: RunId, offset: nat, w: Written, facts: seq<Fact>)
    ensures |AddFacts(text, run, offset, w, facts).facts| == |w.facts| + |facts|
  {
    if facts != [] {
      AddFactsCount(text, run, offset, w, facts[..|facts| - 1]);
    }
  }

  /** A second attempt finds, below its own rows, exactly what the first attempt found. */
  lemma {:induction false} RetryReplaces(text: string, run: RunId, model: Model, chunks: seq<Chunk>, nextId: nat,
      facts: seq<FactRow>, evidence: seq<EvidenceRow>)
    ensures var w := AddChunks(text, run, model, Written([], [], 0, nextId), chunks);
      && FactsWithout(run, FactsWithout(run, facts) + w.facts) == FactsWithout(run, facts)
      && EvidenceWithout(run, EvidenceWithout(run, evidence) + w.evidence) == EvidenceWithout(run, evidence)
  {
    var w := AddChunks(text, run, model, Written([], [], 0, nextId), chunks);
    RunWritesOwnRows(text, run, model, nextId, chunks);
    FactsWiped(run, FactsWithout(run, facts), w.facts);
    FactsWithoutTwice(run, facts);
    EvidenceWiped(run, EvidenceWithout(run, evidence), w.evidence);
    EvidenceWithoutTwice(run, evidence);
  }
}
