/**
 * `run_sentiment_analysis` and `process_batch` without the sentiment model:
 * each review is split on `.`, `!` and `?`, the non-empty stripped pieces are
 * gathered into batches of `batch_size` together with the hotel, rating and
 * review they came from, and each batch yields one output row per
 * (sentence, label) pair.
 */
module SentimentBatching {
  import opened Text
  import Classifier

  // ---------------------------------------------------------------------------
  // Sentence splitting: `re.split(r'[.!?]', review)`.
  // ---------------------------------------------------------------------------

  predicate IsDelimiter(c: char) { c == '.' || c == '!' || c == '?' }

  predicate NoDelimiter(s: string) { forall i :: 0 <= i < |s| ==> !IsDelimiter(s[i]) }

  /** The pieces between delimiters, including the empty ones before, between and
      after delimiters, as `re.split` returns them. */
  function SplitSentences(s: string): (r: seq<string>)
    ensures |r| >= 1
    ensures forall k :: 0 <= k < |r| ==> NoDelimiter(r[k])
    decreases |s|
  {
    if s == [] then [""]
    else
      var rest := SplitSentences(s[1..]);
      if IsDelimiter(s[0]) then [""] + rest
      else [[s[0]] + rest[0]] + rest[1..]
  }

  /** The delimiter characters of `s`, in order. */
  function Delimiters(s: string): seq<char>
    decreases |s|
  {
    if s == [] then []
    else if IsDelimiter(s[0]) then [s[0]] + Delimiters(s[1..])
    else Delimiters(s[1..])
  }

  /** The pieces joined again with the delimiters between them. */
  function Interleave(pieces: seq<string>, delims: seq<char>): string
    requires |pieces| == |delims| + 1
    decreases |delims|
  {
    if delims == [] then pieces[0]
    else pieces[0] + [delims[0]] + Interleave(pieces[1..], delims[1..])
  }

  lemma InterleaveConsFirst(c: char, pieces: seq<string>, delims: seq<char>)
    requires |pieces| == |delims| + 1
    ensures Interleave([[c] + pieces[0]] + pieces[1..], delims) == [c] + Interleave(pieces, delims)
  {
    var ps := [[c] + pieces[0]] + pieces[1..];
    assert ps[1..] == pieces[1..];
  }

  /** Splitting loses nothing: there is one piece more than there are delimiters,
      and putting the delimiters back between the pieces gives the review again. */
  lemma {:induction false} SplitSentencesJoin(s: string)
    ensures |SplitSentences(s)| == |Delimiters(s)| + 1
    ensures Interleave(SplitSentences(s), Delimiters(s)) == s
    decreases |s|
  {
    if s != [] {
      SplitSentencesJoin(s[1..]);
      var rest := SplitSentences(s[1..]);
      if IsDelimiter(s[0]) {
        assert ([""] + rest)[1..] == rest;
        assert s == [] + [s[0]] + s[1..];
      } else {
        InterleaveConsFirst(s[0], rest, Delimiters(s[1..]));
        assert s == [s[0]] + s[1..];
      }
    }
  }

  // ---------------------------------------------------------------------------
  // The sentences of a review and where they came from.
  // ---------------------------------------------------------------------------

  /** The stripped pieces that are not empty, in order (`if sentence.strip()`). */
  function NonEmptyStripped(pieces: seq<string>): (r: seq<string>)
    ensures |r| <= |pieces|
  {
    if pieces == [] then []
    else NonEmptyStripped(pieces[..|pieces| - 1]) + Kept(pieces[|pieces| - 1])
  }

  /** What one piece contributes: its strip, unless that is empty. */
  function Kept(piece: string): (r: seq<string>)
    ensures |r| <= 1
  {
    var sentence := Trim(piece);
    if sentence != [] then [sentence] else []
  }

  /** The sentences one review contributes. */
  function Sentences(review: string): seq<string> {
    NonEmptyStripped(SplitSentences(review))
  }

  /** The three columns of the scraper's file the analysis reads. */
  datatype InputRow = InputRow(hotelName: string, rating: string, review: string)

  /** An entry of `batch_review_data`. */
  datatype ReviewData = ReviewData(hotelName: string, rating: string, review: string)

  function DataOf(row: InputRow): ReviewData {
    ReviewData(row.hotelName, row.rating, row.review)
  }

  function Repeat(d: ReviewData, n: nat): (r: seq<ReviewData>)
    ensures |r| == n
  {
    seq(n, _ => d)
  }

  /** All sentences of all rows, in reading order. */
  function AllSentences(rows: seq<InputRow>): seq<string> {
    if rows == [] then []
    else AllSentences(rows[..|rows| - 1]) + Sentences(rows[|rows| - 1].review)
  }

  /** For each of those sentences, the data of the row it came from. */
  function AllData(rows: seq<InputRow>): seq<ReviewData> {
    if rows == [] then []
    else
      var last := rows[|rows| - 1];
      AllData(rows[..|rows| - 1]) + Repeat(DataOf(last), |Sentences(last.review)|)
  }

  /** Every gathered sentence is non-empty and already stripped. */
  lemma {:induction false} NonEmptyStrippedShape(pieces: seq<string>)
    ensures forall k :: 0 <= k < |NonEmptyStripped(pieces)| ==>
      NonEmptyStripped(pieces)[k] != [] && Trim(NonEmptyStripped(pieces)[k]) == NonEmptyStripped(pieces)[k]
  {
    if pieces != [] {
      NonEmptyStrippedShape(pieces[..|pieces| - 1]);
      TrimIdempotent(pieces[|pieces| - 1]);
    }
  }

  lemma {:induction false} AllSentencesShape(rows: seq<InputRow>)
    ensures forall k :: 0 <= k < |AllSentences(rows)| ==>
      AllSentences(rows)[k] != [] && Trim(AllSentences(rows)[k]) == AllSentences(rows)[k]
  {
    if rows != [] {
      AllSentencesShape(rows[..|rows| - 1]);
      NonEmptyStrippedShape(SplitSentences(rows[|rows| - 1].review));
    }
  }

  /** There is one data entry per sentence. */
  lemma {:induction false} AllDataLength(rows: seq<InputRow>)
    ensures |AllData(rows)| == |AllSentences(rows)|
  {
    if rows != [] {
      AllDataLength(rows[..|rows| - 1]);
    }
  }

  lemma ConcatTail<T>(a: seq<T>, b: seq<T>, k: int)
    requires |a| <= k < |a| + |b|
    ensures (a + b)[k] == b[k - |a|] && b[k - |a|] in b
  {
  }

  /** A sentence of the last row sits beside that row's data. */
  lemma LastRowAligned(rows: seq<InputRow>, k: nat)
    requires rows != [] && |AllSentences(rows[..|rows| - 1])| <= k < |AllSentences(rows)|
    ensures k < |AllData(rows)| && AllData(rows)[k] == DataOf(rows[|rows| - 1])
    ensures AllSentences(rows)[k] == Sentences(rows[|rows| - 1].review)[k - |AllSentences(rows[..|rows| - 1])|]
  {
    var n := |rows| - 1;
    var ss := Sentences(rows[n].review);
    var sentences, data := AllSentences(rows[..n]), AllData(rows[..n]);
    AllDataLength(rows[..n]);
    AllDataLength(rows);
    ConcatTail(sentences, ss, k);
    ConcatTail(data, Repeat(DataOf(rows[n]), |ss|), k);
  }

  /** The sentences and data of the first `m` rows begin those of all rows. */
  lemma {:induction false} AllPrefix(rows: seq<InputRow>, m: nat)
    requires m <= |rows|
    ensures AllSentences(rows[..m]) <= AllSentences(rows)
    ensures AllData(rows[..m]) <= AllData(rows)
    decreases |rows|
  {
    if m < |rows| {
      var init := rows[..|rows| - 1];
      assert rows[..m] == init[..m];
      AllPrefix(init, m);
      assert AllSentences(init) <= AllSentences(rows);
      assert AllData(init) <= AllData(rows);
    } else {
      assert rows[..m] == rows;
    }
  }

  /** The sum of the first `r` counts. */
  function Total(counts: seq<nat>, r: nat): nat
    requires r <= |counts|
  {
    if r == 0 then 0 else Total(counts, r - 1) + counts[r - 1]
  }

  /** How many sentences each row contributes. */
  function SentenceCounts(rows: seq<InputRow>): (c: seq<nat>)
    ensures |c| == |rows|
  {
    seq(|rows|, i requires 0 <= i < |rows| => |Sentences(rows[i].review)|)
  }

  /** How many sentences the rows before row `r` contribute. */
  function SentencesBefore(rows: seq<InputRow>, r: nat): nat
    requires r <= |rows|
  {
    Total(SentenceCounts(rows), r)
  }

  lemma AllSentencesSnoc(rows: seq<InputRow>, m: nat)
    requires m < |rows|
    ensures AllSentences(rows[..m + 1]) == AllSentences(rows[..m]) + Sentences(rows[m].review)
  {
    assert rows[..m + 1][..m] == rows[..m];
  }

  lemma {:induction false} SentencesBeforeCounts(rows: seq<InputRow>, m: nat)
    requires m <= |rows|
    ensures SentencesBefore(rows, m) == |AllSentences(rows[..m])|
  {
    if m > 0 {
      SentencesBeforeCounts(rows, m - 1);
      AllSentencesSnoc(rows, m - 1);
    }
  }

  /** Sentence `k` of all rows, when it is among the sentences of row `r`, is that
      row's sentence at the same offset and sits beside that row's data. */
  lemma AllDataAligned(rows: seq<InputRow>, r: nat, k: nat)
    requires r < |rows|
    requires SentencesBefore(rows, r) <= k < SentencesBefore(rows, r + 1)
    ensures k < |AllSentences(rows)| && k < |AllData(rows)|
    ensures AllData(rows)[k] == DataOf(rows[r])
    ensures AllSentences(rows)[k] == Sentences(rows[r].review)[k - SentencesBefore(rows, r)]
  {
    SentencesBeforeCounts(rows, r);
    SentencesBeforeCounts(rows, r + 1);
    var upto := rows[..r + 1];
    assert upto[..r] == rows[..r] && upto[r] == rows[r];
    AllSentencesSnoc(rows, r);
    LastRowAligned(upto, k);
    AllPrefix(rows, r + 1);
  }

  /** Each position below the total of the first `m` counts lies in the span of one of them. */
  lemma {:induction false} BlockBelow(counts: seq<nat>, m: nat, k: nat) returns (r: nat)
    requires m <= |counts| && k < Total(counts, m)
    ensures r < m && Total(counts, r) <= k < Total(counts, r + 1)
  {
    if k >= Total(counts, m - 1) {
      r := m - 1;
    } else {
      r := BlockBelow(counts, m - 1, k);
    }
  }

  lemma {:induction false} TotalMonotone(counts: seq<nat>, a: nat, b: nat)
    requires a <= b <= |counts|
    ensures Total(counts, a) <= Total(counts, b)
    decreases b
  {
    if a < b {
      TotalMonotone(counts, a, b - 1);
    }
  }

  /** The spans of two different counts do not overlap. */
  lemma BlockUnique(counts: seq<nat>, r1: nat, r2: nat, k: nat)
    requires r1 < |counts| && r2 < |counts|
    requires Total(counts, r1) <= k < Total(counts, r1 + 1)
    requires Total(counts, r2) <= k < Total(counts, r2 + 1)
    ensures r1 == r2
  {
    if r1 < r2 {
      TotalMonotone(counts, r1 + 1, r2);
    } else if r2 < r1 {
      TotalMonotone(counts, r2 + 1, r1);
    }
  }

  /** Every sentence lies in the block of some row. */
  lemma SentenceBlock(rows: seq<InputRow>, k: nat) returns (r: nat)
    requires k < |AllSentences(rows)|
    ensures r < |rows| && SentencesBefore(rows, r) <= k < SentencesBefore(rows, r + 1)
  {
    SentencesBeforeCounts(rows, |rows|);
    assert rows[..|rows|] == rows;
    r := BlockBelow(SentenceCounts(rows), |rows|, k);
  }

  /** No sentence lies in the blocks of two rows. */
  lemma SentenceBlockUnique(rows: seq<InputRow>, r1: nat, r2: nat, k: nat)
    requires r1 < |rows| && SentencesBefore(rows, r1) <= k < SentencesBefore(rows, r1 + 1)
    requires r2 < |rows| && SentencesBefore(rows, r2) <= k < SentencesBefore(rows, r2 + 1)
    ensures r1 == r2
  {
    BlockUnique(SentenceCounts(rows), r1, r2, k);
  }

  // ---------------------------------------------------------------------------
  // `process_batch`: one row per (sentence, label) pair.
  // ---------------------------------------------------------------------------

  /** The classifier `process_batch` applies to each sentence of a batch. */
  type Classify = string -> seq<Classifier.Label>

  /** The columns of an output row other than the sentiment scores. */
  datatype OutRow = OutRow(hotelName: string, rating: string, review: string, sentence: string, code: string)

  /** One row per label of `labels`, in order, each with the text `text`. */
  function LabelRows(labels: seq<Classifier.Label>, text: string, d: ReviewData): (r: seq<OutRow>)
    ensures |r| == |labels|
  {
    if labels == [] then []
    else
      LabelRows(labels[..|labels| - 1], text, d)
        + [OutRow(d.hotelName, d.rating, d.review, text, Classifier.Code(labels[|labels| - 1]))]
  }

  /** The rows one sentence yields: one per label, none when it has no label;
      each carries `sentence.strip()`. */
  function SentenceRows(classify: Classify, sentence: string, d: ReviewData): seq<OutRow> {
    LabelRows(classify(sentence), Trim(sentence), d)
  }

  /** The rows of the sentences from position `k` on: `zip` of sentences and
      data, stopping at the shorter. */
  function BatchRowsFrom(classify: Classify, sentences: seq<string>, data: seq<ReviewData>, k: nat): seq<OutRow>
    decreases |sentences| - k
  {
    if k >= |sentences| || k >= |data| then []
    else SentenceRows(classify, sentences[k], data[k]) + BatchRowsFrom(classify, sentences, data, k + 1)
  }

  /** The rows `process_batch` writes for a batch. */
  function BatchRows(classify: Classify, sentences: seq<string>, data: seq<ReviewData>): seq<OutRow> {
    BatchRowsFrom(classify, sentences, data, 0)
  }

  /** The body of the `zip` loop of `process_batch` for one sentence. */
  method WriteSentenceRows(classify: Classify, sentence: string, d: ReviewData) returns (rows: seq<OutRow>)
    ensures rows == SentenceRows(classify, sentence, d)
  {
    var labels := classify(sentence);
    var text := Trim(sentence);
    rows := [];
    if labels != [] {
      for j := 0 to |labels|
        invariant rows == LabelRows(labels[..j], text, d)
      {
        assert labels[..j + 1][..j] == labels[..j];
        rows := rows + [OutRow(d.hotelName, d.rating, d.review, text, Classifier.Code(labels[j]))];
      }
      assert labels[..|labels|] == labels;
    }
  }

  lemma BatchRowsFromStep(classify: Classify, sentences: seq<string>, data: seq<ReviewData>, k: nat,
                          out: seq<OutRow>, rows: seq<OutRow>)
    requires k < |sentences| && k < |data| && rows == SentenceRows(classify, sentences[k], data[k])
    ensures out + BatchRowsFrom(classify, sentences, data, k) == out + rows + BatchRowsFrom(classify, sentences, data, k + 1)
  {
    Associate(out, rows, BatchRowsFrom(classify, sentences, data, k + 1));
  }

  /** `process_batch(batch_sentences, batch_review_data, ...)` without the scores. */
  method ProcessBatch(classify: Classify, sentences: seq<string>, data: seq<ReviewData>) returns (out: seq<OutRow>)
    ensures out == BatchRows(classify, sentences, data)
  {
    out := [];
    var k := 0;
    while k < |sentences| && k < |data|
      invariant 0 <= k <= |sentences| && k <= |data|
      invariant out + BatchRowsFrom(classify, sentences, data, k) == BatchRows(classify, sentences, data)
    {
      var rows := WriteSentenceRows(classify, sentences[k], data[k]);
      BatchRowsFromStep(classify, sentences, data, k, out, rows);
      out := out + rows;
      k := k + 1;
    }
  }

  /** The `j`-th row belongs to the `j`-th label. */
  lemma {:induction false} LabelRowAt(labels: seq<Classifier.Label>, text: string, d: ReviewData, j: nat)
    requires j < |labels|
    ensures LabelRows(labels, text, d)[j] == OutRow(d.hotelName, d.rating, d.review, text, Classifier.Code(labels[j]))
  {
    if j < |labels| - 1 {
      var init := labels[..|labels| - 1];
      LabelRowAt(init, text, d, j);
      assert labels[j] == init[j];
    }
  }

  lemma LabelRowsAt(labels: seq<Classifier.Label>, text: string, d: ReviewData)
    ensures forall j :: 0 <= j < |labels| ==>
      LabelRows(labels, text, d)[j] == OutRow(d.hotelName, d.rating, d.review, text, Classifier.Code(labels[j]))
  {
    forall j | 0 <= j < |labels|
      ensures LabelRows(labels, text, d)[j] == OutRow(d.hotelName, d.rating, d.review, text, Classifier.Code(labels[j]))
    {
      LabelRowAt(labels, text, d, j);
    }
  }

  /** A sentence yields one row for each of its labels and no other row: each
      carries its stripped text, its row's data and the code of a label. */
  lemma SentenceRowsPerLabel(classify: Classify, sentence: string, d: ReviewData)
    ensures |SentenceRows(classify, sentence, d)| == |classify(sentence)|
    ensures forall l :: l in classify(sentence) ==>
      OutRow(d.hotelName, d.rating, d.review, Trim(sentence), Classifier.Code(l)) in SentenceRows(classify, sentence, d)
    ensures forall row :: row in SentenceRows(classify, sentence, d) ==>
      exists l :: (l in classify(sentence)
        && row == OutRow(d.hotelName, d.rating, d.review, Trim(sentence), Classifier.Code(l)))
    ensures classify(sentence) == [] ==> SentenceRows(classify, sentence, d) == []
  {
    var labels := classify(sentence);
    var rows := SentenceRows(classify, sentence, d);
    LabelRowsAt(labels, Trim(sentence), d);
    forall l | l in labels
      ensures OutRow(d.hotelName, d.rating, d.review, Trim(sentence), Classifier.Code(l)) in rows
    {
      var j :| 0 <= j < |labels| && labels[j] == l;
      assert rows[j] == OutRow(d.hotelName, d.rating, d.review, Trim(sentence), Classifier.Code(l));
    }
    forall row | row in rows
      ensures exists l :: (l in labels
        && row == OutRow(d.hotelName, d.rating, d.review, Trim(sentence), Classifier.Code(l)))
    {
      var j :| 0 <= j < |rows| && rows[j] == row;
      assert labels[j] in labels;
    }
  }

  /** Rows past a prefix of the batch are the rows of the rest. */
  lemma {:induction false} BatchRowsFromShift(classify: Classify, a: seq<string>, c: seq<ReviewData>,
                                               b: seq<string>, e: seq<ReviewData>, j: nat)
    requires |a| == |c|
    ensures BatchRowsFrom(classify, a + b, c + e, |a| + j) == BatchRowsFrom(classify, b, e, j)
    decreases |b| - j
  {
    if j < |b| && j < |e| {
      assert (a + b)[|a| + j] == b[j] && (c + e)[|a| + j] == e[j];
      BatchRowsFromShift(classify, a, c, b, e, j + 1);
    }
  }

  lemma {:induction false} BatchRowsFromAppend(classify: Classify, s1: seq<string>, d1: seq<ReviewData>,
                                                s2: seq<string>, d2: seq<ReviewData>, k: nat)
    requires |s1| == |d1| && k <= |s1|
    ensures BatchRowsFrom(classify, s1 + s2, d1 + d2, k) ==
      BatchRowsFrom(classify, s1, d1, k) + BatchRowsFrom(classify, s2, d2, 0)
    decreases |s1| - k
  {
    if k < |s1| {
      assert (s1 + s2)[k] == s1[k] && (d1 + d2)[k] == d1[k];
      BatchRowsFromAppend(classify, s1, d1, s2, d2, k + 1);
      Associate(SentenceRows(classify, s1[k], d1[k]), BatchRowsFrom(classify, s1, d1, k + 1),
                BatchRowsFrom(classify, s2, d2, 0));
    } else {
      BatchRowsFromShift(classify, s1, d1, s2, d2, 0);
    }
  }

  /** Splitting a batch in two splits its rows the same way. */
  lemma BatchRowsAppend(classify: Classify, s1: seq<string>, d1: seq<ReviewData>, s2: seq<string>, d2: seq<ReviewData>)
    requires |s1| == |d1|
    ensures BatchRows(classify, s1 + s2, d1 + d2) == BatchRows(classify, s1, d1) + BatchRows(classify, s2, d2)
  {
    BatchRowsFromAppend(classify, s1, d1, s2, d2, 0);
  }

  // ---------------------------------------------------------------------------
  // `run_sentiment_analysis`: the batching loop.
  // ---------------------------------------------------------------------------

  /** One call of `process_batch`: the sentences and their data. */
  datatype Batch = Batch(sentences: seq<string>, data: seq<ReviewData>)

  function FlatSentences(batches: seq<Batch>): seq<string> {
    if batches == [] then []
    else FlatSentences(batches[..|batches| - 1]) + batches[|batches| - 1].sentences
  }

  function FlatData(batches: seq<Batch>): seq<ReviewData> {
    if batches == [] then []
    else FlatData(batches[..|batches| - 1]) + batches[|batches| - 1].data
  }

  /** The rows written for the batches, one `process_batch` call after another. */
  function RowsOfBatches(classify: Classify, batches: seq<Batch>): seq<OutRow> {
    if batches == [] then []
    else
      var b := batches[|batches| - 1];
      RowsOfBatches(classify, batches[..|batches| - 1]) + BatchRows(classify, b.sentences, b.data)
  }

  /** Writing batch by batch gives the rows of one batch holding everything. */
  lemma {:induction false} RowsOfBatchesFlat(classify: Classify, batches: seq<Batch>)
    requires forall k :: 0 <= k < |batches| ==> |batches[k].sentences| == |batches[k].data|
    ensures |FlatSentences(batches)| == |FlatData(batches)|
    ensures RowsOfBatches(classify, batches) == BatchRows(classify, FlatSentences(batches), FlatData(batches))
  {
    if batches != [] {
      var init := batches[..|batches| - 1];
      var b := batches[|batches| - 1];
      RowsOfBatchesFlat(classify, init);
      BatchRowsAppend(classify, FlatSentences(init), FlatData(init), b.sentences, b.data);
    }
  }

  lemma AppendBatch(classify: Classify, batches: seq<Batch>, b: Batch)
    ensures FlatSentences(batches + [b]) == FlatSentences(batches) + b.sentences
    ensures FlatData(batches + [b]) == FlatData(batches) + b.data
    ensures RowsOfBatches(classify, batches + [b]) == RowsOfBatches(classify, batches) + BatchRows(classify, b.sentences, b.data)
  {
    assert (batches + [b])[..|batches|] == batches;
  }

  lemma NextRow(rows: seq<InputRow>, r: nat)
    requires r < |rows|
    ensures AllSentences(rows[..r + 1]) == AllSentences(rows[..r]) + Sentences(rows[r].review)
    ensures AllData(rows[..r + 1]) == AllData(rows[..r]) + Repeat(DataOf(rows[r]), |Sentences(rows[r].review)|)
  {
    assert rows[..r + 1][..r] == rows[..r];
  }

  lemma NextPiece(pieces: seq<string>, p: nat)
    requires p < |pieces|
    ensures NonEmptyStripped(pieces[..p + 1]) == NonEmptyStripped(pieces[..p]) + Kept(pieces[p])
  {
    assert pieces[..p + 1][..p] == pieces[..p];
  }

  /** What every batch handed over inside the loop has: exactly `batchSize`
      sentences, each with its data. */
  predicate FullBatches(batches: seq<Batch>, batchSize: nat) {
    forall k :: 0 <= k < |batches| ==>
      |batches[k].sentences| == batchSize && |batches[k].data| == batchSize
  }

  /** The body of the inner loop: keep the piece if its strip is not empty, then
      hand the batch over once it holds `batchSize` sentences. */
  method Gather(classify: Classify, batches: seq<Batch>, sentences: seq<string>, data: seq<ReviewData>, written: seq<OutRow>,
                piece: string, d: ReviewData, batchSize: nat)
    returns (batches': seq<Batch>, sentences': seq<string>, data': seq<ReviewData>, written': seq<OutRow>)
    requires batchSize >= 1 && FullBatches(batches, batchSize)
    requires |sentences| == |data| < batchSize && written == RowsOfBatches(classify, batches)
    ensures FullBatches(batches', batchSize)
    ensures |sentences'| == |data'| < batchSize && written' == RowsOfBatches(classify, batches')
    ensures FlatSentences(batches') + sentences' == FlatSentences(batches) + sentences + Kept(piece)
    ensures FlatData(batches') + data' == FlatData(batches) + data + Repeat(d, |Kept(piece)|)
  {
    batches', sentences', data', written' := batches, sentences, data, written;
    var sentence := Trim(piece);
    if sentence != [] {
      sentences' := sentences' + [sentence];
      data' := data' + [d];
    }
    if |sentences'| >= batchSize {
      batches', written' := HandOver(classify, batches', sentences', data', written');
      sentences', data' := [], [];
    }
  }

  /** `process_batch` on the gathered sentences, and the batch recorded as handed over. */
  method HandOver(classify: Classify, batches: seq<Batch>, sentences: seq<string>, data: seq<ReviewData>, written: seq<OutRow>)
    returns (batches': seq<Batch>, written': seq<OutRow>)
    requires written == RowsOfBatches(classify, batches)
    ensures batches' == batches + [Batch(sentences, data)]
    ensures FlatSentences(batches') == FlatSentences(batches) + sentences
    ensures FlatData(batches') == FlatData(batches) + data
    ensures written' == RowsOfBatches(classify, batches')
  {
    var out := ProcessBatch(classify, sentences, data);
    AppendBatch(classify, batches, Batch(sentences, data));
    batches' := batches + [Batch(sentences, data)];
    written' := written + out;
  }

  lemma RepeatAppend(d: ReviewData, n: nat, m: nat)
    ensures Repeat(d, n + m) == Repeat(d, n) + Repeat(d, m)
  {
  }

  lemma Associate<T>(a: seq<T>, b: seq<T>, c: seq<T>)
    ensures a + (b + c) == a + b + c
  {
  }

  /** The body of the outer loop: split one review and gather its pieces. */
  method GatherReview(classify: Classify, batches: seq<Batch>, sentences: seq<string>, data: seq<ReviewData>,
                      written: seq<OutRow>, row: InputRow, batchSize: nat)
    returns (batches': seq<Batch>, sentences': seq<string>, data': seq<ReviewData>, written': seq<OutRow>)
    requires batchSize >= 1 && FullBatches(batches, batchSize)
    requires |sentences| == |data| < batchSize && written == RowsOfBatches(classify, batches)
    ensures FullBatches(batches', batchSize)
    ensures |sentences'| == |data'| < batchSize && written' == RowsOfBatches(classify, batches')
    ensures FlatSentences(batches') + sentences' == FlatSentences(batches) + sentences + Sentences(row.review)
    ensures FlatData(batches') + data' ==
      FlatData(batches) + data + Repeat(DataOf(row), |Sentences(row.review)|)
  {
    batches', sentences', data', written' := batches, sentences, data, written;
    var pieces := SplitSentences(row.review);
    var d := DataOf(row);
    ghost var baseS, baseD := FlatSentences(batches) + sentences, FlatData(batches) + data;
    ghost var count := 0;
    for p := 0 to |pieces|
      invariant FullBatches(batches', batchSize)
      invariant |sentences'| == |data'| < batchSize && written' == RowsOfBatches(classify, batches')
      invariant count == |NonEmptyStripped(pieces[..p])|
      invariant FlatSentences(batches') + sentences' == baseS + NonEmptyStripped(pieces[..p])
      invariant FlatData(batches') + data' == baseD + Repeat(d, count)
    {
      NextPiece(pieces, p);
      RepeatAppend(d, count, |Kept(pieces[p])|);
      Associate(baseS, NonEmptyStripped(pieces[..p]), Kept(pieces[p]));
      Associate(baseD, Repeat(d, count), Repeat(d, |Kept(pieces[p])|));
      batches', sentences', data', written' := Gather(classify, batches', sentences', data', written', pieces[p], d, batchSize);
      count := count + |Kept(pieces[p])|;
    }
    assert pieces[..|pieces|] == pieces;
  }

  /** Full batches followed by at most one smaller, non-empty one, which
      together hold the sentences `allS` and their data `allD`. */
  lemma LastBatchShape(classify: Classify, full: seq<Batch>, last: Batch, batches: seq<Batch>, batchSize: nat,
                       allS: seq<string>, allD: seq<ReviewData>)
    requires batchSize >= 1 && FullBatches(full, batchSize)
    requires |last.sentences| == |last.data| < batchSize
    requires batches == if last.sentences == [] then full else full + [last]
    requires FlatSentences(full) + last.sentences == allS && FlatData(full) + last.data == allD
    ensures forall k :: 0 <= k < |batches| ==>
      1 <= |batches[k].sentences| <= batchSize && |batches[k].data| == |batches[k].sentences|
    ensures forall k :: 0 <= k < |batches| - 1 ==> |batches[k].sentences| == batchSize
    ensures FlatSentences(batches) == allS && FlatData(batches) == allD
    ensures RowsOfBatches(classify, batches) == BatchRows(classify, allS, allD)
  {
    if last.sentences == [] {
      assert FlatSentences(full) + last.sentences == FlatSentences(full);
      assert FlatData(full) + last.data == FlatData(full);
    } else {
      AppendBatch(classify, full, last);
    }
    RowsOfBatchesFlat(classify, batches);
  }

  /** The batching loop of `run_sentiment_analysis` for `batch_size >= 1`: the
      batches handed to `process_batch` and the rows it writes, for any
      classifier of sentences. */
  method RunBatches(classify: Classify, rows: seq<InputRow>, batchSize: nat)
    returns (batches: seq<Batch>, written: seq<OutRow>)
    requires batchSize >= 1
    ensures forall k :: 0 <= k < |batches| ==>
      1 <= |batches[k].sentences| <= batchSize && |batches[k].data| == |batches[k].sentences|
    ensures forall k :: 0 <= k < |batches| - 1 ==> |batches[k].sentences| == batchSize
    ensures FlatSentences(batches) == AllSentences(rows)
    ensures FlatData(batches) == AllData(rows)
    ensures written == RowsOfBatches(classify, batches)
    ensures written == BatchRows(classify, AllSentences(rows), AllData(rows))
  {
    var sentences, data;
    batches, sentences, data, written := GatherAll(classify, rows, batchSize);
    ghost var full := batches;
    if sentences != [] {
      batches, written := HandOver(classify, batches, sentences, data, written);
    }
    LastBatchShape(classify, full, Batch(sentences, data), batches, batchSize, AllSentences(rows), AllData(rows));
  }

  /** The batches handed over and the pending sentences after every row. */
  method GatherAll(classify: Classify, rows: seq<InputRow>, batchSize: nat)
    returns (batches: seq<Batch>, sentences: seq<string>, data: seq<ReviewData>, written: seq<OutRow>)
    requires batchSize >= 1
    ensures FullBatches(batches, batchSize)
    ensures |sentences| == |data| < batchSize && written == RowsOfBatches(classify, batches)
    ensures FlatSentences(batches) + sentences == AllSentences(rows)
    ensures FlatData(batches) + data == AllData(rows)
  {
    batches, sentences, data, written := [], [], [], [];
    for r := 0 to |rows|
      invariant FullBatches(batches, batchSize)
      invariant |sentences| == |data| < batchSize && written == RowsOfBatches(classify, batches)
      invariant FlatSentences(batches) + sentences == AllSentences(rows[..r])
      invariant FlatData(batches) + data == AllData(rows[..r])
    {
      NextRow(rows, r);
      batches, sentences, data, written := GatherReview(classify, batches, sentences, data, written, rows[r], batchSize);
    }
    assert rows[..|rows|] == rows;
  }

  /** `run_sentiment_analysis` with `classify_sentence` as the classifier. */
  method RunSentimentAnalysis(rows: seq<InputRow>, batchSize: nat) returns (batches: seq<Batch>, written: seq<OutRow>)
    requires batchSize >= 1
    ensures forall k :: 0 <= k < |batches| ==>
      1 <= |batches[k].sentences| <= batchSize && |batches[k].data| == |batches[k].sentences|
    ensures forall k :: 0 <= k < |batches| - 1 ==> |batches[k].sentences| == batchSize
    ensures FlatSentences(batches) == AllSentences(rows)
    ensures FlatData(batches) == AllData(rows)
    ensures written == BatchRows(Classifier.ClassifySentence, AllSentences(rows), AllData(rows))
  {
    batches, written := RunBatches(Classifier.ClassifySentence, rows, batchSize);
  }
}
