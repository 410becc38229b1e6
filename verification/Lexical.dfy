/** BM25 over tokenized chunks. Tokenization and the logarithm are abstract; arithmetic is over reals. */
module Lexical {
  import opened Domain
  import opened Sorting

  const K1 := 1.5
  const B := 0.75

  /** All that is asked of the natural logarithm. */
  ghost predicate PositiveAboveOne(log: real -> real) {
    forall x: real :: x > 1.0 ==> log(x) > 0.0
  }

  function Occurrences(document: seq<string>, term: string): nat {
    if document == [] then 0
    else Occurrences(document[..|document| - 1], term) + if document[|document| - 1] == term then 1 else 0
  }

  /** In how many documents a term occurs. */
  function Appearances(documents: seq<seq<string>>, term: string): nat {
    if documents == [] then 0
    else Appearances(documents[..|documents| - 1], term) + if term in documents[|documents| - 1] then 1 else 0
  }

  function TotalLength(documents: seq<seq<string>>): nat {
    if documents == [] then 0 else TotalLength(documents[..|documents| - 1]) + |documents[|documents| - 1]|
  }

  ghost predicate CountsTerms(frequency: map<string, nat>, document: seq<string>) {
    && (forall t :: t in frequency <==> t in document)
    && (forall t :: t in frequency ==> frequency[t] == Occurrences(document, t))
  }

  ghost predicate CountsDocuments(df: map<string, nat>, documents: seq<seq<string>>) {
    forall t :: (if t in df then df[t] else 0) == Appearances(documents, t)
  }

  lemma {:induction false} OccursIff(document: seq<string>, term: string)
    ensures Occurrences(document, term) > 0 <==> term in document
  {
    if document != [] {
      var n := |document| - 1;
      OccursIff(document[..n], term);
      assert document == document[..n] + [document[n]];
    }
  }

  lemma {:induction false} AppearancesBounds(documents: seq<seq<string>>, term: string)
    ensures Appearances(documents, term) <= |documents|
    ensures Appearances(documents, term) > 0 <==> exists i :: 0 <= i < |documents| && term in documents[i]
  {
    if documents != [] {
      var n := |documents| - 1;
      AppearancesBounds(documents[..n], term);
      assert forall i :: 0 <= i < n ==> documents[..n][i] == documents[i];
    }
  }

  /** `Counter(document)` */
  method Counter(document: seq<string>) returns (m: map<string, nat>)
    ensures CountsTerms(m, document)
  {
    m := map[];
    for k := 0 to |document|
      invariant CountsTerms(m, document[..k])
    {
      var t := document[k];
      assert document[..k + 1] == document[..k] + [t];
      assert document[..k + 1][..k] == document[..k];
      OccursIff(document[..k], t);
      m := m[t := if t in m then m[t] + 1 else 1];
    }
    assert document[..|document|] == document;
  }

  /** `counter.update(keys)` */
  function Bumped(df: map<string, nat>, keys: set<string>): map<string, nat> {
    map t | t in df.Keys + keys :: (if t in df then df[t] else 0) + (if t in keys then 1 else 0)
  }

  function Idf(log: real -> real, total: nat, appearances: nat): real {
    log(1.0 + (total as real - appearances as real + 0.5) / (appearances as real + 0.5))
  }

  lemma Quotient(a: real, b: real)
    requires a > 0.0 && b > 0.0
    ensures a / b > 0.0
  {
  }

  function LengthNorm(length: nat, average: real): (r: real)
    requires average >= 0.0
    ensures r > 0.0
  {
    var a := if average == 0.0 then 1.0 else average;
    assert length as real / a >= 0.0 by { if length > 0 { Quotient(length as real, a); } }
    1.0 - B + B * (length as real / a)
  }

  function TermScore(idf: real, occurrences: nat, norm: real): real
    requires norm > 0.0
  {
    idf * (occurrences as real * (K1 + 1.0)) / (occurrences as real + K1 * norm)
  }

  /** A term found in at most all documents always has a positive weight. */
  lemma IdfPositive(log: real -> real, total: nat, appearances: nat)
    requires PositiveAboveOne(log) && appearances <= total
    ensures Idf(log, total, appearances) > 0.0
  {
    Quotient(total as real - appearances as real + 0.5, appearances as real + 0.5);
  }

  lemma TermScorePositive(idf: real, occurrences: nat, norm: real)
    requires idf > 0.0 && norm > 0.0 && occurrences > 0
    ensures TermScore(idf, occurrences, norm) > 0.0
  {
    var top := idf * (occurrences as real * (K1 + 1.0));
    assert occurrences as real * (K1 + 1.0) > 0.0;
    assert top > 0.0;
    Quotient(top, occurrences as real + K1 * norm);
  }

  function AverageLength(documents: seq<seq<string>>): (r: real)
    ensures r >= 0.0
  {
    if documents == [] then 0.0 else TotalLength(documents) as real / |documents| as real
  }

  /** The BM25 sum, term by term, from direct counts. */
  ghost function Score(log: real -> real, documents: seq<seq<string>>, terms: seq<string>, i: nat): real
    requires i < |documents|
  {
    if terms == [] then 0.0
    else
      var n := |terms| - 1;
      var occurrences := Occurrences(documents[i], terms[n]);
      var norm := LengthNorm(|documents[i]|, AverageLength(documents));
      Score(log, documents, terms[..n], i) +
      if occurrences == 0 then 0.0
      else TermScore(Idf(log, |documents|, Appearances(documents, terms[n])), occurrences, norm)
  }

  ghost predicate Shares(document: seq<string>, terms: seq<string>) {
    exists t :: t in terms && t in document
  }

  /** The score is positive exactly for the documents that share a token with the query. */
  lemma {:induction false} ScorePositiveIffShared(log: real -> real, documents: seq<seq<string>>,
                                                  terms: seq<string>, i: nat)
    requires PositiveAboveOne(log) && i < |documents|
    ensures Score(log, documents, terms, i) >= 0.0
    ensures Score(log, documents, terms, i) > 0.0 <==> Shares(documents[i], terms)
  {
    if terms != [] {
      var n := |terms| - 1;
      ScorePositiveIffShared(log, documents, terms[..n], i);
      assert terms == terms[..n] + [terms[n]];
      OccursIff(documents[i], terms[n]);
      if terms[n] in documents[i] {
        AppearancesBounds(documents, terms[n]);
        IdfPositive(log, |documents|, Appearances(documents, terms[n]));
        TermScorePositive(Idf(log, |documents|, Appearances(documents, terms[n])),
                          Occurrences(documents[i], terms[n]), LengthNorm(|documents[i]|, AverageLength(documents)));
        assert terms[n] in terms;
      }
    }
  }

  datatype Scored = Scored(chunk: nat, score: real)

  function HigherFirst(a: Scored, b: Scored): bool {
    a.score >= b.score
  }

  /** Positively scored chunks among the first `n`, in index order. */
  ghost function Hits(log: real -> real, documents: seq<seq<string>>, terms: seq<string>, n: nat): seq<Scored>
    requires n <= |documents|
  {
    if n == 0 then []
    else
      Hits(log, documents, terms, n - 1) +
      var score := Score(log, documents, terms, n - 1);
      if score > 0.0 then [Scored(n - 1, score)] else []
  }

  class LexicalIndex {
    var documents: seq<seq<string>>
    var frequencies: seq<map<string, nat>>
    var lengths: seq<nat>
    var averageLength: real
    var documentFrequency: map<string, nat>

    ghost predicate Valid()
      reads this
    {
      && |frequencies| == |lengths| == |documents|
      && (forall i :: 0 <= i < |documents| ==>
          CountsTerms(frequencies[i], documents[i]) && lengths[i] == |documents[i]|)
      && averageLength == AverageLength(documents)
      && CountsDocuments(documentFrequency, documents)
    }

    constructor (documents: seq<seq<string>>)
      ensures Valid() && this.documents == documents
    {
      var frequencies: seq<map<string, nat>> := [];
      var lengths: seq<nat> := [];
      var total: nat := 0;
      var df: map<string, nat> := map[];
      for k := 0 to |documents|
        invariant |frequencies| == |lengths| == k && total == TotalLength(documents[..k])
        invariant forall i :: 0 <= i < k ==> CountsTerms(frequencies[i], documents[i]) && lengths[i] == |documents[i]|
        invariant CountsDocuments(df, documents[..k])
      {
        assert documents[..k + 1][..k] == documents[..k];
        var frequency := Counter(documents[k]);
        frequencies := frequencies + [frequency];
        lengths := lengths + [|documents[k]|];
        total := total + |documents[k]|;
        df := Bumped(df, frequency.Keys);
      }
      assert documents[..|documents|] == documents;
      this.documents, this.frequencies, this.lengths, this.documentFrequency := documents, frequencies, lengths, df;
      this.averageLength := if |lengths| == 0 then 0.0 else total as real / |lengths| as real;
    }

    method ScoreOf(log: real -> real, terms: seq<string>, i: nat) returns (score: real)
      requires Valid() && i < |documents|
      ensures score == Score(log, documents, terms, i)
    {
      score := 0.0;
      for k := 0 to |terms|
        invariant score == Score(log, documents, terms[..k], i)
      {
        var term := terms[k];
        assert terms[..k + 1][..k] == terms[..k];
        OccursIff(documents[i], term);
        var occurrences := if term in frequencies[i] then frequencies[i][term] else 0;
        if occurrences == 0 { continue; }
        var appearances := if term in documentFrequency then documentFrequency[term] else 0;
        var idf := Idf(log, |documents|, appearances);
        var norm := LengthNorm(lengths[i], averageLength);
        score := score + TermScore(idf, occurrences, norm);
      }
      assert terms[..|terms|] == terms;
    }

    method Search(log: real -> real, terms: seq<string>, limit: int) returns (results: seq<Scored>)
      requires Valid()
      ensures results == Take(Sort(Hits(log, documents, terms, |documents|), HigherFirst), limit)
    {
      hide Valid, Score, Sort, Take, HigherFirst;
      if terms == [] || documents == [] {
        NoTermsNoHits(log, documents, terms, |documents|);
        SortedNothing(limit);
        return [];
      }
      results := [];
      for i := 0 to |documents|
        invariant results == Hits(log, documents, terms, i)
      {
        var score := ScoreOf(log, terms, i);
        if score > 0.0 {
          results := results + [Scored(i, score)];
        }
      }
      results := Take(Sort(results, HigherFirst), limit);
    }
  }

  lemma SortedNothing(limit: int)
    ensures Take(Sort([], HigherFirst), limit) == []
  {
  }

  lemma {:induction false} NoTermsNoHits(log: real -> real, documents: seq<seq<string>>, terms: seq<string>, n: nat)
    requires (terms == [] || documents == []) && n <= |documents|
    ensures Hits(log, documents, terms, n) == []
  {
    if n > 0 { NoTermsNoHits(log, documents, terms, n - 1); }
  }

  lemma {:induction false} HitsExact(log: real -> real, documents: seq<seq<string>>,
                                     terms: seq<string>, n: nat, h: Scored)
    requires PositiveAboveOne(log) && n <= |documents|
    ensures h in Hits(log, documents, terms, n) <==>
      h.chunk < n && h.score == Score(log, documents, terms, h.chunk) && Shares(documents[h.chunk], terms)
  {
    hide Score;
    if n > 0 {
      HitsExact(log, documents, terms, n - 1, h);
      ScorePositiveIffShared(log, documents, terms, n - 1);
    }
  }

  ghost function Ranked(log: real -> real, documents: seq<seq<string>>, terms: seq<string>): seq<Scored> {
    Sort(Hits(log, documents, terms, |documents|), HigherFirst)
  }

  /** Unlimited, the search returns exactly the chunks that share a token with the query. */
  lemma SearchExact(log: real -> real, documents: seq<seq<string>>, terms: seq<string>, h: Scored)
    requires PositiveAboveOne(log)
    ensures h in Ranked(log, documents, terms) <==>
      h.chunk < |documents| && h.score == Score(log, documents, terms, h.chunk) && Shares(documents[h.chunk], terms)
  {
    var hits := Hits(log, documents, terms, |documents|);
    HitsExact(log, documents, terms, |documents|, h);
    SortPermutes(hits, HigherFirst);
    assert h in Ranked(log, documents, terms) <==> h in multiset(Ranked(log, documents, terms));
    assert h in hits <==> h in multiset(hits);
  }

  /** Otherwise a descending top-k: everything kept is in order and nothing left out scores higher. */
  lemma SearchTopK(log: real -> real, documents: seq<seq<string>>, terms: seq<string>, limit: int, h: Scored, kept: nat)
    ensures var all := Ranked(log, documents, terms); var top := Take(all, limit);
      && Ordered(top, HigherFirst)
      && (limit >= |all| ==> top == all)
      && (0 <= limit <= |all| ==> |top| == limit)
      && (kept < |top| && h in all[|top|..] ==> top[kept].score >= h.score)
  {
    var hits := Hits(log, documents, terms, |documents|);
    SortOrdered(hits, HigherFirst);
    var all := Ranked(log, documents, terms);
    var top := Take(all, limit);
    if kept < |top| && h in all[|top|..] {
      var j :| 0 <= j < |all[|top|..]| && all[|top|..][j] == h;
      assert all[|top| + j] == h;
    }
  }

  // What the numbers mean

  /** `Occurrences` counts with repetition. */
  lemma {:induction false} OccurrencesCount(document: seq<string>, term: string)
    ensures Occurrences(document, term) == multiset(document)[term]
  {
    if document != [] {
      var n := |document| - 1;
      OccurrencesCount(document[..n], term);
      assert document == document[..n] + [document[n]];
    }
  }

  /** The document frequency of a term is the number of documents that contain it. */
  lemma {:induction false} AppearancesCount(documents: seq<seq<string>>, term: string)
    ensures Appearances(documents, term) == |set i | 0 <= i < |documents| && term in documents[i]|
  {
    var all := set i | 0 <= i < |documents| && term in documents[i];
    if documents == [] {
      assert all == {};
    } else {
      var n := |documents| - 1;
      AppearancesCount(documents[..n], term);
      var before := set i | 0 <= i < n && term in documents[..n][i];
      assert all == if term in documents[n] then before + {n} else before;
    }
  }

  function Flat(documents: seq<seq<string>>): seq<string> {
    if documents == [] then [] else documents[0] + Flat(documents[1..])
  }

  lemma {:induction false} FlatLast(documents: seq<seq<string>>, document: seq<string>)
    ensures Flat(documents + [document]) == Flat(documents) + document
  {
    if documents == [] {
      assert ([] + [document])[1..] == [];
    } else {
      FlatLast(documents[1..], document);
      assert (documents + [document])[1..] == documents[1..] + [document];
    }
  }

  lemma {:induction false} TotalIs(documents: seq<seq<string>>)
    ensures TotalLength(documents) == |Flat(documents)|
  {
    if documents != [] {
      var n := |documents| - 1;
      TotalIs(documents[..n]);
      FlatLast(documents[..n], documents[n]);
      assert documents == documents[..n] + [documents[n]];
    }
  }

  /** The average length, taken once per document, is the number of all tokens. */
  lemma AverageIs(documents: seq<seq<string>>)
    ensures AverageLength(documents) * |documents| as real == |Flat(documents)| as real
  {
    hide TotalLength;
    TotalIs(documents);
    if documents == [] {
      assert Flat(documents) == [];
    } else {
      Back(TotalLength(documents) as real, |documents| as real);
    }
  }

  ghost predicate Increasing(log: real -> real) {
    forall x: real, y: real :: 0.0 < x < y ==> log(x) < log(y)
  }

  /** The weight of a term is the logarithm of (N + 1) / (n + 1/2). */
  lemma IdfIs(log: real -> real, total: nat, appearances: nat) returns (x: real)
    ensures Idf(log, total, appearances) == log(x) && x * (appearances as real + 0.5) == total as real + 1.0
  {
    x := 1.0 + (total as real - appearances as real + 0.5) / (appearances as real + 0.5);
    OnePlus(total as real - appearances as real + 0.5, appearances as real + 0.5);
  }

  lemma OnePlus(a: real, b: real)
    requires b > 0.0
    ensures (1.0 + a / b) * b == a + b
  {
  }

  /** A rarer term weighs more. */
  lemma RarerWeighsMore(log: real -> real, total: nat, rare: nat, common: nat)
    requires Increasing(log) && rare < common <= total
    ensures Idf(log, total, rare) > Idf(log, total, common)
  {
    var x := IdfIs(log, total, rare);
    var y := IdfIs(log, total, common);
    SameProduct(x, rare as real + 0.5, y, common as real + 0.5);
  }

  lemma SameProduct(x: real, a: real, y: real, b: real)
    requires x * a == y * b && 0.0 < a < b && x * a > 0.0
    ensures 0.0 < y < x
  {
    assert y <= 0.0 ==> y * b <= 0.0;
    assert y * b - y * a == y * (b - a);
    assert y > 0.0 ==> y * (b - a) > 0.0;
    assert y >= x ==> y * a >= x * a;
  }

  /** A quarter plus three quarters of the length in units of the average. */
  lemma LengthNormIs(length: nat, average: real)
    requires average >= 0.0
    ensures average > 0.0 ==> (LengthNorm(length, average) - 0.25) * average == 0.75 * length as real
    ensures average == 0.0 ==> LengthNorm(length, average) == 0.25 + 0.75 * length as real
  {
    if average > 0.0 { PartOf(length as real, average); }
  }

  lemma PartOf(a: real, b: real)
    requires b > 0.0
    ensures (0.75 * (a / b)) * b == 0.75 * a
  {
    assert a / b * b == a;
  }

  /** A term's share of the score, times (occurrences + 1.5 * norm), is 2.5 * weight * occurrences. */
  lemma TermScoreIs(idf: real, occurrences: nat, norm: real)
    requires norm > 0.0
    ensures TermScore(idf, occurrences, norm) * (occurrences as real + 1.5 * norm) == idf * (occurrences as real * 2.5)
  {
    Back(idf * (occurrences as real * 2.5), occurrences as real + 1.5 * norm);
  }

  lemma Back(a: real, b: real)
    requires b > 0.0
    ensures a / b * b == a
  {
  }

  lemma CrossProduct(a: real, b: real, c: real, d: real)
    requires b > 0.0 && d > 0.0 && a * d < c * b
    ensures a / b < c / d
  {
    var x, y := a / b, c / d;
    assert x * b == a && y * d == c;
    assert x * (b * d) == a * d && y * (b * d) == c * b;
    assert b * d > 0.0;
    SmallerFactor(x, y, b * d);
  }

  /** More occurrences score higher. */
  lemma MoreOccurrencesScoreHigher(idf: real, few: nat, many: nat, norm: real)
    requires idf > 0.0 && norm > 0.0 && few < many
    ensures TermScore(idf, few, norm) < TermScore(idf, many, norm)
  {
    var a, b, w := few as real, many as real, idf * 2.5;
    Gap(w, a, b, norm);
    CrossProduct(idf * (a * 2.5), a + 1.5 * norm, idf * (b * 2.5), b + 1.5 * norm);
  }

  lemma Gap(w: real, a: real, b: real, norm: real)
    requires w > 0.0 && norm > 0.0 && 0.0 <= a < b
    ensures (w * a) * (b + 1.5 * norm) < (w * b) * (a + 1.5 * norm)
  {
    assert (w * b) * (a + 1.5 * norm) - (w * a) * (b + 1.5 * norm) == (w * (1.5 * norm)) * (b - a);
    assert w * (1.5 * norm) > 0.0;
  }

  /** A longer document scores lower for the same occurrences. */
  lemma LongerScoresLower(idf: real, occurrences: nat, short: nat, long: nat, average: real)
    requires idf > 0.0 && occurrences > 0 && short < long && average >= 0.0
    ensures TermScore(idf, occurrences, LengthNorm(long, average)) <
            TermScore(idf, occurrences, LengthNorm(short, average))
  {
    var a, b := LengthNorm(short, average), LengthNorm(long, average);
    LengthNormIs(short, average);
    LengthNormIs(long, average);
    if average > 0.0 { SmallerFactor(a - 0.25, b - 0.25, average); }
    var top, o := idf * (occurrences as real * 2.5), occurrences as real;
    assert o * 2.5 > 0.0;
    assert top > 0.0;
    SmallerPart(top, o + 1.5 * a, o + 1.5 * b);
  }

  lemma SmallerFactor(a: real, b: real, c: real)
    requires c > 0.0 && a * c < b * c
    ensures a < b
  {
  }

  lemma SmallerPart(top: real, a: real, b: real)
    requires top > 0.0 && 0.0 < a < b
    ensures top / b < top / a
  {
    assert top * a < top * b;
    CrossProduct(top, b, top, a);
  }

  /** Scores add up over the query, and one term that occurs gives its share, one that does not gives nothing. */
  lemma {:induction false} ScoreAddsUp(log: real -> real, documents: seq<seq<string>>,
                                       a: seq<string>, b: seq<string>, i: nat)
    requires i < |documents|
    ensures Score(log, documents, a + b, i) == Score(log, documents, a, i) + Score(log, documents, b, i)
  {
    if b == [] {
      assert a + b == a;
    } else {
      var n := |b| - 1;
      ScoreAddsUp(log, documents, a, b[..n], i);
      assert (a + b)[..|a| + n] == a + b[..n] && (a + b)[|a| + n] == b[n];
    }
  }

  lemma ScoreOfTerm(log: real -> real, documents: seq<seq<string>>, term: string, i: nat)
    requires i < |documents|
    ensures term !in documents[i] ==> Score(log, documents, [term], i) == 0.0
    ensures term in documents[i] ==>
      var n := |set k | 0 <= k < |documents| && term in documents[k]|;
      var norm := LengthNorm(|documents[i]|, AverageLength(documents));
      Score(log, documents, [term], i) ==
        TermScore(Idf(log, |documents|, n), multiset(documents[i])[term], norm)
  {
    OccursIff(documents[i], term);
    OccurrencesCount(documents[i], term);
    AppearancesCount(documents, term);
    assert [term][..0] == [];
  }

  ghost predicate Ascends(hits: seq<Scored>) {
    forall a, b :: 0 <= a < b < |hits| ==> hits[a].chunk < hits[b].chunk
  }

  lemma {:induction false} HitsAscend(log: real -> real, documents: seq<seq<string>>, terms: seq<string>, n: nat)
    requires n <= |documents|
    ensures var hits := Hits(log, documents, terms, n);
      Ascends(hits) && forall h :: h in hits ==> h.chunk < n
  {
    hide Score;
    if n > 0 {
      HitsAscend(log, documents, terms, n - 1);
      OneMoreAscends(Hits(log, documents, terms, n - 1), Scored(n - 1, Score(log, documents, terms, n - 1)));
    }
  }

  lemma OneMoreAscends(hits: seq<Scored>, h: Scored)
    requires Ascends(hits) && forall g :: g in hits ==> g.chunk < h.chunk
    ensures Ascends(hits + [h])
  {
    assert forall a :: 0 <= a < |hits| ==> hits[a] in hits;
  }

  ghost function WithScore(q: real): Scored -> bool {
    (h: Scored) => h.score == q
  }

  /** Chunks with the same score are ranked in index order. */
  lemma TiesByIndex(log: real -> real, documents: seq<seq<string>>, terms: seq<string>, q: real)
    ensures Ascends(Matching(Ranked(log, documents, terms), WithScore(q)))
  {
    var hits := Hits(log, documents, terms, |documents|);
    HitsAscend(log, documents, terms, |documents|);
    SortStable(hits, HigherFirst, WithScore(q));
    hide Hits, Sort, Matching, Ascends;
    MatchingAscends(hits, WithScore(q));
  }

  lemma {:induction false} MatchingAscends(hits: seq<Scored>, p: Scored -> bool)
    requires Ascends(hits)
    ensures Ascends(Matching(hits, p)) && forall h :: h in Matching(hits, p) ==> h in hits
  {
    if hits != [] {
      var tail := hits[1..];
      assert forall a :: 0 <= a < |tail| ==> tail[a] == hits[a + 1];
      MatchingAscends(tail, p);
      assert forall h :: h in tail ==> hits[0].chunk < h.chunk;
      FirstAscends(hits[0], Matching(tail, p));
    }
  }

  lemma FirstAscends(h: Scored, hits: seq<Scored>)
    requires Ascends(hits) && forall g :: g in hits ==> h.chunk < g.chunk
    ensures Ascends([h] + hits)
  {
    assert forall a :: 0 <= a < |hits| ==> hits[a] in hits;
  }
}
