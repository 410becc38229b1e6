/** Reciprocal rank fusion and reranking. Scores are reals; the feature score of a chunk is abstract. */
module Fusion {
  import opened Domain
  import opened Sorting

  const RRF_K := 60

  datatype Item = Item(id: string, source: string)

  datatype Candidate = Candidate(id: string, score: real, sources: set<string>)

  function Contribution(position: nat): real {
    1.0 / (RRF_K + position) as real
  }

  /** Sum of 1 / (60 + position) over the places where `id` stands in one list. */
  function ListScore(list: seq<Item>, id: string): real {
    if list == [] then 0.0
    else ListScore(list[..|list| - 1], id) + if list[|list| - 1].id == id then Contribution(|list|) else 0.0
  }

  function FusedScore(lists: seq<seq<Item>>, id: string): real {
    if lists == [] then 0.0 else FusedScore(lists[..|lists| - 1], id) + ListScore(lists[|lists| - 1], id)
  }

  predicate Listed(lists: seq<seq<Item>>, id: string) {
    exists l, p :: 0 <= l < |lists| && 0 <= p < |lists[l]| && lists[l][p].id == id
  }

  predicate InList(list: seq<Item>, id: string) {
    exists p :: 0 <= p < |list| && list[p].id == id
  }

  /** The dictionary being built: insertion order and contents. */
  datatype Fused = Fused(order: seq<string>, entries: map<string, Candidate>)

  ghost predicate WellFormed(f: Fused) {
    && Distinct(f.order) && (forall id :: id in f.order <==> id in f.entries)
    && forall id :: id in f.entries ==> f.entries[id].id == id
  }

  ghost function ScoreIn(f: Fused, id: string): real {
    if id in f.entries then f.entries[id].score else 0.0
  }

  ghost function SourcesIn(f: Fused, id: string): set<string> {
    if id in f.entries then f.entries[id].sources else {}
  }

  /** Some list holds the chunk under this source. */
  ghost predicate FoundBy(lists: seq<seq<Item>>, id: string, source: string) {
    exists l :: 0 <= l < |lists| && Item(id, source) in lists[l]
  }

  /** `seen` and then the ids of one list, each where it first appears. */
  function SeenAfter(seen: seq<string>, list: seq<Item>): seq<string> {
    if list == [] then seen
    else
      var before, id := SeenAfter(seen, list[..|list| - 1]), list[|list| - 1].id;
      if id in before then before else before + [id]
  }

  function FirstSeen(lists: seq<seq<Item>>): seq<string> {
    if lists == [] then [] else SeenAfter(FirstSeen(lists[..|lists| - 1]), lists[|lists| - 1])
  }

  function AddItem(f: Fused, item: Item, position: nat): Fused {
    if item.id in f.entries
    then var c := f.entries[item.id];
         f.(entries := f.entries[item.id :=
             Candidate(c.id, c.score + Contribution(position), c.sources + {item.source})])
    else Fused(f.order + [item.id], f.entries[item.id := Candidate(item.id, Contribution(position), {item.source})])
  }

  /** The incremental map holds exactly the listed chunks, each with the full sum of its contributions and
      exactly the sources that found it. */
  method Fuse(lists: seq<seq<Item>>) returns (f: Fused)
    ensures WellFormed(f) && f.order == FirstSeen(lists)
    ensures forall id :: id in f.entries <==> Listed(lists, id)
    ensures forall id :: ScoreIn(f, id) == FusedScore(lists, id)
    ensures forall id, source :: source in SourcesIn(f, id) <==> FoundBy(lists, id, source)
  {
    f := Fused([], map[]);
    for l := 0 to |lists|
      invariant WellFormed(f) && f.order == FirstSeen(lists[..l])
      invariant forall id :: id in f.entries <==> Listed(lists[..l], id)
      invariant forall id :: ScoreIn(f, id) == FusedScore(lists[..l], id)
      invariant forall id, source :: source in SourcesIn(f, id) <==> FoundBy(lists[..l], id, source)
    {
      var g := FuseList(f, lists[l]);
      assert lists[..l + 1][..l] == lists[..l];
      forall id
        ensures id in g.entries <==> Listed(lists[..l + 1], id)
        ensures ScoreIn(g, id) == FusedScore(lists[..l + 1], id)
      {
        assert MergedAt(f, lists[l], g, id);
        ListedNext(lists, l, id);
      }
      forall id, source ensures source in SourcesIn(g, id) <==> FoundBy(lists[..l + 1], id, source) {
        assert MergedAt(f, lists[l], g, id);
        FoundByNext(lists, l, id, source);
      }
      hide WellFormed, Listed, FoundBy, SourcesIn, ScoreIn, MergedAt;
      f := g;
    }
    assert lists[..|lists|] == lists;
  }

  lemma ListedNext(lists: seq<seq<Item>>, l: nat, id: string)
    requires l < |lists|
    ensures Listed(lists[..l + 1], id) <==> Listed(lists[..l], id) || InList(lists[l], id)
  {
    var next := lists[..l + 1];
    assert next[l] == lists[l] && forall k :: 0 <= k < l ==> next[k] == lists[..l][k];
    if Listed(lists[..l], id) {
      var k, p :| 0 <= k < |lists[..l]| && 0 <= p < |lists[..l][k]| && lists[..l][k][p].id == id;
      assert next[k][p].id == id;
    }
    if InList(lists[l], id) {
      var p :| 0 <= p < |lists[l]| && lists[l][p].id == id;
      assert next[l][p].id == id;
    }
  }

  lemma FoundByNext(lists: seq<seq<Item>>, l: nat, id: string, source: string)
    requires l < |lists|
    ensures FoundBy(lists[..l + 1], id, source) <==> FoundBy(lists[..l], id, source) || Item(id, source) in lists[l]
  {
    var next := lists[..l + 1];
    assert next[l] == lists[l] && forall k :: 0 <= k < l ==> next[k] == lists[..l][k];
  }

  lemma AddItemAdds(f: Fused, item: Item, position: nat, id: string)
    requires WellFormed(f)
    ensures WellFormed(AddItem(f, item, position))
    ensures id in AddItem(f, item, position).entries <==> id in f.entries || id == item.id
    ensures ScoreIn(AddItem(f, item, position), id) ==
            ScoreIn(f, id) + if id == item.id then Contribution(position) else 0.0
    ensures SourcesIn(AddItem(f, item, position), id) ==
            SourcesIn(f, id) + if id == item.id then {item.source} else {}
  {
  }

  lemma InListNext(list: seq<Item>, k: nat, id: string)
    requires k < |list|
    ensures InList(list[..k + 1], id) <==> InList(list[..k], id) || list[k].id == id
  {
    var next := list[..k + 1];
    assert next[k] == list[k] && forall p :: 0 <= p < k ==> next[p] == list[..k][p];
  }

  ghost predicate MergedAt(f: Fused, ranked: seq<Item>, g: Fused, id: string) {
    && (id in g.entries <==> id in f.entries || InList(ranked, id))
    && ScoreIn(g, id) == ScoreIn(f, id) + ListScore(ranked, id)
    && (forall source :: source in SourcesIn(g, id) <==> source in SourcesIn(f, id) || Item(id, source) in ranked)
  }

  /** `g` is `f` with one ranked list added. */
  ghost predicate Merges(f: Fused, ranked: seq<Item>, g: Fused) {
    WellFormed(g) && g.order == SeenAfter(f.order, ranked) && forall id :: MergedAt(f, ranked, g, id)
  }

  lemma MergedAtNext(f: Fused, ranked: seq<Item>, k: nat, g: Fused, id: string)
    requires k < |ranked| && WellFormed(g) && MergedAt(f, ranked[..k], g, id)
    ensures MergedAt(f, ranked[..k + 1], AddItem(g, ranked[k], k + 1), id)
  {
    hide WellFormed, SourcesIn, ScoreIn, AddItem, InList;
    AddItemAdds(g, ranked[k], k + 1, id);
    InListNext(ranked, k, id);
    assert ranked[..k + 1] == ranked[..k] + [ranked[k]];
    assert ranked[..k + 1][..k] == ranked[..k];
  }

  lemma OrderNext(f: Fused, ranked: seq<Item>, k: nat, g: Fused)
    requires k < |ranked| && WellFormed(g) && g.order == SeenAfter(f.order, ranked[..k])
    ensures AddItem(g, ranked[k], k + 1).order == SeenAfter(f.order, ranked[..k + 1])
  {
    assert ranked[..k + 1][..k] == ranked[..k];
  }

  lemma MergesNext(f: Fused, ranked: seq<Item>, k: nat, g: Fused)
    requires k < |ranked| && Merges(f, ranked[..k], g)
    ensures Merges(f, ranked[..k + 1], AddItem(g, ranked[k], k + 1))
  {
    hide WellFormed, MergedAt, AddItem, SeenAfter;
    OrderNext(f, ranked, k, g);
    AddItemAdds(g, ranked[k], k + 1, ranked[k].id);
    var next, h := ranked[..k + 1], AddItem(g, ranked[k], k + 1);
    forall id ensures MergedAt(f, next, h, id) {
      MergedAtNext(f, ranked, k, g, id);
    }
  }

  method FuseList(f: Fused, ranked: seq<Item>) returns (g: Fused)
    requires WellFormed(f)
    ensures Merges(f, ranked, g)
  {
    g := f;
    assert Merges(f, ranked[..0], g);
    hide Merges, WellFormed, AddItem;
    for k := 0 to |ranked|
      invariant Merges(f, ranked[..k], g)
    {
      MergesNext(f, ranked, k, g);
      g := AddItem(g, ranked[k], k + 1);
    }
    assert ranked[..|ranked|] == ranked;
  }

  // The order of the lists does not matter

  lemma {:induction false} TakeOut(lists: seq<seq<Item>>, i: nat, id: string)
    requires i < |lists|
    ensures FusedScore(lists, id) == ListScore(lists[i], id) + FusedScore(lists[..i] + lists[i + 1..], id)
  {
    var n := |lists| - 1;
    if i == n {
      assert lists[..i] + lists[i + 1..] == lists[..n];
    } else {
      TakeOut(lists[..n], i, id);
      var rest := lists[..i] + lists[i + 1..];
      assert rest[..|rest| - 1] == lists[..n][..i] + lists[..n][i + 1..];
      assert rest[|rest| - 1] == lists[n];
    }
  }

  lemma {:induction false} FusionIgnoresListOrder(a: seq<seq<Item>>, b: seq<seq<Item>>, id: string)
    requires multiset(a) == multiset(b)
    ensures FusedScore(a, id) == FusedScore(b, id)
  {
    if a == [] {
      assert |multiset(b)| == 0;
    } else {
      var i := PairFirst(a, b);
      TakeOut(a, 0, id);
      TakeOut(b, i, id);
      assert a[..0] + a[1..] == a[1..];
      FusionIgnoresListOrder(a[1..], b[..i] + b[i + 1..], id);
    }
  }

  // Dominance

  /** Wherever `b` stands it stands once, and `a` stands before it. */
  ghost predicate Ahead(list: seq<Item>, a: string, b: string) {
    && (forall p, q :: 0 <= p < q < |list| && list[p].id == b ==> list[q].id != b)
    && (forall q :: 0 <= q < |list| && list[q].id == b ==> exists p :: 0 <= p < q && list[p].id == a)
  }

  lemma {:induction false} ListScoreAtLeast(list: seq<Item>, id: string, p: nat)
    ensures ListScore(list, id) >= 0.0
    ensures p < |list| && list[p].id == id ==> ListScore(list, id) >= Contribution(p + 1) > 0.0
  {
    if list != [] {
      var n := |list| - 1;
      ListScoreAtLeast(list[..n], id, p);
    }
  }

  lemma {:induction false} ListScoreOfSingle(list: seq<Item>, id: string, q: nat)
    requires forall p :: 0 <= p < |list| && p != q ==> list[p].id != id
    ensures ListScore(list, id) == if q < |list| && list[q].id == id then Contribution(q + 1) else 0.0
  {
    if list != [] { ListScoreOfSingle(list[..|list| - 1], id, q); }
  }

  lemma EarlierCountsMore(p: nat, q: nat)
    requires p < q
    ensures Contribution(p) > Contribution(q)
  {
  }

  lemma AheadScoresMore(list: seq<Item>, a: string, b: string)
    requires Ahead(list, a, b)
    ensures ListScore(list, a) >= ListScore(list, b)
    ensures InList(list, a) ==> ListScore(list, a) > ListScore(list, b)
  {
    ListScoreAtLeast(list, a, 0);
    if InList(list, b) {
      var q :| 0 <= q < |list| && list[q].id == b;
      ListScoreOfSingle(list, b, q);
      var p :| 0 <= p < q && list[p].id == a;
      ListScoreAtLeast(list, a, p);
      EarlierCountsMore(p + 1, q + 1);
    } else {
      ListScoreOfSingle(list, b, 0);
      if InList(list, a) {
        var p :| 0 <= p < |list| && list[p].id == a;
        ListScoreAtLeast(list, a, p);
      }
    }
  }

  /** A chunk ahead of another in every list is fused ahead of it, strictly once it is listed at all. */
  lemma {:induction false} DominanceRespected(lists: seq<seq<Item>>, a: string, b: string)
    requires forall l :: 0 <= l < |lists| ==> Ahead(lists[l], a, b)
    ensures FusedScore(lists, a) >= FusedScore(lists, b)
    ensures Listed(lists, a) ==> FusedScore(lists, a) > FusedScore(lists, b)
  {
    if lists != [] {
      var n := |lists| - 1;
      DominanceRespected(lists[..n], a, b);
      AheadScoresMore(lists[n], a, b);
      ListedNext(lists, n, a);
      assert lists[..n + 1] == lists;
    }
  }

  // Candidates and reranking

  function Ids(candidates: seq<Candidate>): seq<string> {
    seq(|candidates|, i requires 0 <= i < |candidates| => candidates[i].id)
  }

  function HigherFirst(a: Candidate, b: Candidate): bool {
    a.score >= b.score
  }

  function Highest(candidates: seq<Candidate>): real
    requires candidates != []
  {
    var n := |candidates| - 1;
    if n == 0 then candidates[0].score
    else var rest := Highest(candidates[..n]);
         if candidates[n].score > rest then candidates[n].score else rest
  }

  lemma {:induction false} HighestIsMaximum(candidates: seq<Candidate>)
    requires candidates != []
    ensures forall c :: c in candidates ==> c.score <= Highest(candidates)
    ensures exists c :: c in candidates && c.score == Highest(candidates)
  {
    var n := |candidates| - 1;
    assert candidates == candidates[..n] + [candidates[n]];
    if n == 0 {
      assert candidates[0] in candidates;
    } else {
      HighestIsMaximum(candidates[..n]);
      assert candidates[n] in candidates;
    }
  }

  /** Normalized fusion score plus the feature score of the chunk. */
  function Rescored(feature: string -> real, highest: real, c: Candidate): Candidate {
    c.(score := c.score / (if highest == 0.0 then 1.0 else highest) + feature(c.id))
  }

  function RescoredAll(feature: string -> real, highest: real, candidates: seq<Candidate>): seq<Candidate> {
    seq(|candidates|, i requires 0 <= i < |candidates| => Rescored(feature, highest, candidates[i]))
  }

  function Reranked(feature: string -> real, candidates: seq<Candidate>): seq<Candidate> {
    if candidates == [] then []
    else Sort(RescoredAll(feature, Highest(candidates), candidates), HigherFirst)
  }

  method SortInPlace(a: array<Candidate>)
    modifies a
    ensures a[..] == Sort(old(a[..]), HigherFirst)
  {
    var sorted := Sort(a[..], HigherFirst);
    SortLength(a[..], HigherFirst);
    hide Sort;
    for i := 0 to a.Length
      invariant forall k :: 0 <= k < i ==> a[k] == sorted[k]
    {
      a[i] := sorted[i];
    }
    assert a[..] == sorted;
  }

  method FindHighest(a: array<Candidate>) returns (highest: real)
    requires a.Length > 0
    ensures highest == Highest(a[..])
  {
    highest := a[0].score;
    for i := 1 to a.Length
      invariant highest == Highest(a[..i])
    {
      assert a[..i + 1][..i] == a[..i];
      if a[i].score > highest {
        highest := a[i].score;
      }
    }
    assert a[..a.Length] == a[..];
  }

  method Rescore(feature: string -> real, highest: real, a: array<Candidate>)
    modifies a
    ensures a[..] == RescoredAll(feature, highest, old(a[..]))
  {
    hide Rescored;
    for i := 0 to a.Length
      invariant forall k :: i <= k < a.Length ==> a[k] == old(a[k])
      invariant forall k :: 0 <= k < i ==> a[k] == Rescored(feature, highest, old(a[k]))
    {
      a[i] := Rescored(feature, highest, a[i]);
    }
  }

  /** Overwrites the scores of the candidates and sorts them, in place. */
  method Rerank(feature: string -> real, a: array<Candidate>)
    modifies a
    ensures a[..] == Reranked(feature, old(a[..]))
  {
    hide RescoredAll, Sort, Highest, HigherFirst;
    if a.Length == 0 {
      return;
    }
    var highest := FindHighest(a);
    Rescore(feature, highest, a);
    SortInPlace(a);
  }

  ghost function ScoredAt(q: real): Candidate -> bool {
    (c: Candidate) => c.score == q
  }

  ghost function FusedAt(lists: seq<seq<Item>>, q: real): string -> bool {
    id => FusedScore(lists, id) == q
  }

  /** Chunks with the same score stand in the order in which the lists first named them. */
  ghost predicate TiesAsSeen(lists: seq<seq<Item>>, all: seq<Candidate>) {
    forall q :: Ids(Matching(all, ScoredAt(q))) == Matching(FirstSeen(lists), FusedAt(lists, q))
  }

  lemma {:induction false} IdsMatching(lists: seq<seq<Item>>, candidates: seq<Candidate>, q: real)
    requires forall i :: 0 <= i < |candidates| ==> candidates[i].score == FusedScore(lists, candidates[i].id)
    ensures Ids(Matching(candidates, ScoredAt(q))) == Matching(Ids(candidates), FusedAt(lists, q))
  {
    if candidates != [] {
      IdsMatching(lists, candidates[1..], q);
      assert Ids(candidates)[1..] == Ids(candidates[1..]);
    }
  }

  lemma TiesKept(lists: seq<seq<Item>>, candidates: seq<Candidate>)
    requires Ids(candidates) == FirstSeen(lists)
    requires forall i :: 0 <= i < |candidates| ==> candidates[i].score == FusedScore(lists, candidates[i].id)
    ensures TiesAsSeen(lists, Sort(candidates, HigherFirst))
  {
    forall q ensures Ids(Matching(Sort(candidates, HigherFirst), ScoredAt(q))) ==
                     Matching(FirstSeen(lists), FusedAt(lists, q))
    {
      SortStable(candidates, HigherFirst, ScoredAt(q));
      IdsMatching(lists, candidates, q);
    }
  }

  /** All listed chunks, once each, with score and sources, best first and ties as first seen. */
  ghost predicate Ranks(lists: seq<seq<Item>>, all: seq<Candidate>) {
    && Ordered(all, HigherFirst) && Distinct(Ids(all)) && TiesAsSeen(lists, all)
    && (forall c :: c in all ==> Listed(lists, c.id) && c.score == FusedScore(lists, c.id))
    && (forall c, source :: c in all ==> (source in c.sources <==> FoundBy(lists, c.id, source)))
    && (forall id :: Listed(lists, id) ==> id in Ids(all))
  }

  method Search(feature: string -> real, lists: seq<seq<Item>>, limit: int) returns (result: seq<Candidate>)
    ensures exists all :: Ranks(lists, all) && result == Take(Reranked(feature, Take(all, limit * 3)), limit)
  {
    hide Ranks, Reranked, Take, Sort;
    var sorted := SortedCandidates(lists);
    var kept := Take(sorted, limit * 3);
    var a := new Candidate[|kept|](i requires 0 <= i < |kept| => kept[i]);
    assert a[..] == kept;
    Rerank(feature, a);
    result := Take(a[..], limit);
  }

  method SortedCandidates(lists: seq<seq<Item>>) returns (sorted: seq<Candidate>)
    ensures Ranks(lists, sorted)
  {
    var f := Fuse(lists);
    var candidates :=
      seq(|f.order|, i requires 0 <= i < |f.order| && f.order[i] in f.entries => f.entries[f.order[i]]);
    sorted := Sort(candidates, HigherFirst);
    CandidatesSorted(lists, f, candidates);
  }

  lemma InFused(f: Fused, candidates: seq<Candidate>, c: Candidate) returns (id: string)
    requires WellFormed(f) && |candidates| == |f.order| && c in Sort(candidates, HigherFirst)
    requires forall i :: 0 <= i < |f.order| ==> f.order[i] in f.entries && candidates[i] == f.entries[f.order[i]]
    ensures id == c.id && id in f.entries && f.entries[id] == c
  {
    SortPermutes(candidates, HigherFirst);
    assert c in multiset(Sort(candidates, HigherFirst));
    var i :| 0 <= i < |candidates| && candidates[i] == c;
    id := f.order[i];
  }

  /** The candidates are the entries of the finished map, in insertion order. */
  ghost predicate FromMap(lists: seq<seq<Item>>, f: Fused, candidates: seq<Candidate>) {
    && WellFormed(f) && f.order == FirstSeen(lists) && |candidates| == |f.order|
    && (forall i :: 0 <= i < |f.order| ==> f.order[i] in f.entries && candidates[i] == f.entries[f.order[i]])
  }

  lemma CandidatesSorted(lists: seq<seq<Item>>, f: Fused, candidates: seq<Candidate>)
    requires FromMap(lists, f, candidates)
    requires forall id :: id in f.entries <==> Listed(lists, id)
    requires forall id :: ScoreIn(f, id) == FusedScore(lists, id)
    requires forall id, source :: source in SourcesIn(f, id) <==> FoundBy(lists, id, source)
    ensures Ranks(lists, Sort(candidates, HigherFirst))
  {
    var all := Sort(candidates, HigherFirst);
    SortOrdered(candidates, HigherFirst);
    IdsSorted(lists, f, candidates);
    CandidatesScored(lists, f, candidates);
    TiesKept(lists, candidates);
    CandidatesSourced(lists, f, candidates);
    hide TiesAsSeen, Sort, Ordered, Distinct, FusedScore, Ids, FirstSeen, Listed, FoundBy, HigherFirst;
  }

  lemma CandidatesScored(lists: seq<seq<Item>>, f: Fused, candidates: seq<Candidate>)
    requires FromMap(lists, f, candidates)
    requires forall id :: id in f.entries <==> Listed(lists, id)
    requires forall id :: ScoreIn(f, id) == FusedScore(lists, id)
    ensures forall c :: c in Sort(candidates, HigherFirst) ==> Listed(lists, c.id) && c.score == FusedScore(lists, c.id)
    ensures forall i :: 0 <= i < |candidates| ==> candidates[i].score == FusedScore(lists, candidates[i].id)
  {
    hide Sort, FusedScore, Listed, FirstSeen;
    forall i | 0 <= i < |candidates| ensures candidates[i].score == FusedScore(lists, candidates[i].id) {
      assert ScoreIn(f, f.order[i]) == FusedScore(lists, f.order[i]);
    }
    forall c | c in Sort(candidates, HigherFirst) ensures Listed(lists, c.id) && c.score == FusedScore(lists, c.id) {
      var id := InFused(f, candidates, c);
      assert ScoreIn(f, id) == FusedScore(lists, id);
    }
  }

  lemma CandidatesSourced(lists: seq<seq<Item>>, f: Fused, candidates: seq<Candidate>)
    requires FromMap(lists, f, candidates)
    requires forall id, source :: source in SourcesIn(f, id) <==> FoundBy(lists, id, source)
    ensures forall c, source :: c in Sort(candidates, HigherFirst) ==>
      (source in c.sources <==> FoundBy(lists, c.id, source))
  {
    hide Sort, FoundBy, FirstSeen;
    forall c, source | c in Sort(candidates, HigherFirst)
        ensures source in c.sources <==> FoundBy(lists, c.id, source) {
      var id := InFused(f, candidates, c);
      assert source in SourcesIn(f, id) <==> FoundBy(lists, id, source);
    }
  }

  lemma IdsSorted(lists: seq<seq<Item>>, f: Fused, candidates: seq<Candidate>)
    requires FromMap(lists, f, candidates)
    ensures Ids(candidates) == FirstSeen(lists)
    ensures Distinct(Ids(Sort(candidates, HigherFirst)))
    ensures forall id :: id in f.entries ==> id in Ids(Sort(candidates, HigherFirst))
  {
    var all := Sort(candidates, HigherFirst);
    assert Ids(candidates) == f.order;
    SortPermutes(candidates, HigherFirst);
    IdsPermuted(candidates, all);
    DistinctPermuted(f.order, Ids(all));
    hide Sort, Ids, Distinct;
    forall id | id in f.entries ensures id in Ids(all) {
      assert id in f.order && id in multiset(f.order) && id in multiset(Ids(all));
    }
  }

  lemma IdsWithout(xs: seq<Candidate>, i: nat)
    requires i < |xs|
    ensures multiset(Ids(xs)) == multiset(Ids(xs[..i] + xs[i + 1..])) + multiset{xs[i].id}
  {
    var front, back := Ids(xs[..i]), Ids(xs[i + 1..]);
    assert Ids(xs) == front + [xs[i].id] + back;
    assert Ids(xs[..i] + xs[i + 1..]) == front + back;
  }

  lemma {:induction false} IdsPermuted(a: seq<Candidate>, b: seq<Candidate>)
    requires multiset(a) == multiset(b)
    ensures multiset(Ids(a)) == multiset(Ids(b))
  {
    if a == [] {
      assert |multiset(b)| == 0;
    } else {
      var i := PairFirst(a, b);
      IdsPermuted(a[1..], b[..i] + b[i + 1..]);
      IdsWithout(b, i);
      assert Ids(a) == [a[0].id] + Ids(a[1..]);
    }
  }

  lemma DistinctOnce(a: seq<string>, x: string)
    requires Distinct(a)
    ensures multiset(a)[x] <= 1
  {
    if x in a {
      var k :| 0 <= k < |a| && a[k] == x;
      RemoveOne(a, k);
      assert x !in a[..k] + a[k + 1..];
      assert multiset(a[..k] + a[k + 1..])[x] == 0;
    }
  }

  lemma RepeatedTwice(b: seq<string>, i: nat, j: nat)
    requires i < j < |b| && b[i] == b[j]
    ensures multiset(b)[b[i]] >= 2
  {
    RemoveOne(b, j);
    assert (b[..j] + b[j + 1..])[i] == b[i];
    assert b[i] in multiset(b[..j] + b[j + 1..]);
  }

  lemma DistinctPermuted(a: seq<string>, b: seq<string>)
    requires Distinct(a) && multiset(a) == multiset(b)
    ensures Distinct(b)
  {
    forall i, j | 0 <= i < j < |b| ensures b[i] != b[j] {
      DistinctOnce(a, b[i]);
      if b[i] == b[j] { RepeatedTwice(b, i, j); }
    }
  }

  /** Reranking permutes the candidates it is given, orders them by the new score, and keeps ids distinct. */
  lemma RerankedPermutes(feature: string -> real, kept: seq<Candidate>)
    ensures multiset(Ids(Reranked(feature, kept))) == multiset(Ids(kept)) && |Reranked(feature, kept)| == |kept|
    ensures Ordered(Reranked(feature, kept), HigherFirst)
    ensures Distinct(Ids(kept)) ==> Distinct(Ids(Reranked(feature, kept)))
    ensures forall c :: c in Reranked(feature, kept) ==>
      exists k :: k in kept && c == Rescored(feature, Highest(kept), k)
  {
    if kept != [] {
      var rescored := RescoredAll(feature, Highest(kept), kept);
      var r := Reranked(feature, kept);
      SortPermutes(rescored, HigherFirst);
      SortOrdered(rescored, HigherFirst);
      IdsPermuted(rescored, r);
      assert Ids(rescored) == Ids(kept);
      assert |r| == |multiset(r)| == |multiset(rescored)|;
      if Distinct(Ids(kept)) { DistinctPermuted(Ids(kept), Ids(r)); }
      forall c | c in r ensures exists k :: k in kept && c == Rescored(feature, Highest(kept), k) {
        assert c in multiset(rescored);
        var i :| 0 <= i < |rescored| && rescored[i] == c;
        assert kept[i] in kept;
      }
    }
  }

  lemma CutKeepsOrder(xs: seq<Candidate>, limit: int)
    requires Ordered(xs, HigherFirst) && Distinct(Ids(xs))
    ensures Ordered(Take(xs, limit), HigherFirst) && Distinct(Ids(Take(xs, limit)))
  {
    var top := Take(xs, limit);
    assert forall i :: 0 <= i < |top| ==> Ids(top)[i] == Ids(xs)[i];
  }

  lemma NothingCutScoredHigher(lists: seq<seq<Item>>, all: seq<Candidate>, limit: int)
    requires Ranks(lists, all)
    ensures var kept := Take(all, limit); forall i, j :: 0 <= i < |kept| <= j < |all| ==>
      FusedScore(lists, kept[i].id) >= FusedScore(lists, all[j].id)
  {
    var kept := Take(all, limit);
    forall i, j | 0 <= i < |kept| <= j < |all| ensures FusedScore(lists, kept[i].id) >= FusedScore(lists, all[j].id) {
      assert kept[i] == all[i] && all[i] in all && all[j] in all;
    }
  }

  // The new scores, and what they depend on

  ghost predicate IsMaximum(candidates: seq<Candidate>, m: real) {
    (exists c :: c in candidates && c.score == m) && forall c :: c in candidates ==> c.score <= m
  }

  lemma MaximumIsHighest(candidates: seq<Candidate>, m: real)
    requires candidates != [] && IsMaximum(candidates, m)
    ensures m == Highest(candidates)
  {
    HighestIsMaximum(candidates);
  }

  lemma Rescaled(score: real, m: real, extra: real)
    requires m != 0.0
    ensures (score / m + extra - extra) * m == score
  {
  }

  /** Every result is a kept candidate whose score, taken as a part of the highest one, is raised by its features:
      what the features add apart, the score is back when multiplied by that maximum. */
  lemma NewScores(feature: string -> real, kept: seq<Candidate>, m: real, c: Candidate)
    requires kept != [] && IsMaximum(kept, m) && c in Reranked(feature, kept)
    ensures exists k :: k in kept && NewScoreOf(feature, m, k, c)
  {
    MaximumIsHighest(kept, m);
    RerankedPermutes(feature, kept);
    hide Reranked, Highest, Rescored, Ordered;
    var k :| k in kept && c == Rescored(feature, Highest(kept), k);
    RescoredIsNew(feature, m, k);
  }

  lemma RescoredIsNew(feature: string -> real, m: real, k: Candidate)
    ensures NewScoreOf(feature, m, k, Rescored(feature, m, k))
  {
    if m != 0.0 { Rescaled(k.score, m, feature(k.id)); }
  }

  predicate NewScoreOf(feature: string -> real, m: real, k: Candidate, c: Candidate) {
    && k.id == c.id && k.sources == c.sources
    && if m == 0.0 then c.score == k.score + feature(c.id) else (c.score - feature(c.id)) * m == k.score
  }

  function Scaled(candidates: seq<Candidate>, q: real): seq<Candidate> {
    seq(|candidates|, i requires 0 <= i < |candidates| => candidates[i].(score := q * candidates[i].score))
  }

  lemma PartIsKept(score: real, m: real, q: real)
    requires m != 0.0 && q > 0.0
    ensures q * m != 0.0 && (q * score) / (q * m) == score / m
  {
    assert q * m != 0.0;
    var part := score / m;
    assert part * m == score;
    assert part * (q * m) == q * score;
  }

  lemma ScaledMaximum(candidates: seq<Candidate>, m: real, q: real)
    requires candidates != [] && IsMaximum(candidates, m) && q > 0.0
    ensures IsMaximum(Scaled(candidates, q), q * m)
  {
    var s := Scaled(candidates, q);
    var c :| c in candidates && c.score == m;
    var i :| 0 <= i < |candidates| && candidates[i] == c;
    assert s[i] in s && s[i].score == q * m;
    forall d | d in s ensures d.score <= q * m {
      var j :| 0 <= j < |s| && s[j] == d;
      assert candidates[j] in candidates;
      Times(candidates[j].score, m, q);
    }
  }

  lemma Times(a: real, b: real, q: real)
    requires a <= b && q > 0.0
    ensures q * a <= q * b
  {
  }

  /** Only the proportions of the fused scores matter: one positive factor for all of them changes nothing. */
  lemma ScaleDoesNotMatter(feature: string -> real, kept: seq<Candidate>, m: real, q: real)
    requires kept != [] && IsMaximum(kept, m) && m != 0.0 && q > 0.0
    ensures Reranked(feature, Scaled(kept, q)) == Reranked(feature, kept)
  {
    hide Highest, Sort, RescoredAll, Scaled, IsMaximum;
    ScaledMaximum(kept, m, q);
    MaximumIsHighest(kept, m);
    ScaledNonempty(kept, q);
    MaximumIsHighest(Scaled(kept, q), q * m);
    RescoredAllSame(feature, kept, m, q);
  }

  lemma ScaledNonempty(kept: seq<Candidate>, q: real)
    ensures |Scaled(kept, q)| == |kept|
  {
  }

  lemma RescoredAllSame(feature: string -> real, kept: seq<Candidate>, m: real, q: real)
    requires m != 0.0 && q > 0.0
    ensures RescoredAll(feature, q * m, Scaled(kept, q)) == RescoredAll(feature, m, kept)
  {
    hide Rescored;
    var qm, scaled := q * m, Scaled(kept, q);
    var a, b := RescoredAll(feature, qm, scaled), RescoredAll(feature, m, kept);
    assert |a| == |b| == |kept|;
    forall i | 0 <= i < |kept| ensures a[i] == b[i] {
      RescoredSame(feature, m, q, kept[i], qm, scaled[i]);
      assert a[i] == Rescored(feature, qm, scaled[i]);
    }
  }

  lemma RescoredSame(feature: string -> real, m: real, q: real, k: Candidate, qm: real, scaled: Candidate)
    requires m != 0.0 && q > 0.0 && qm == q * m && scaled == k.(score := q * k.score)
    ensures Rescored(feature, qm, scaled) == Rescored(feature, m, k)
  {
    PartIsKept(k.score, m, q);
  }

  // The fused score, place by place

  /** A chunk that stands in a list once, at position p counted from zero, gets 1 / (61 + p) for it. */
  lemma OnePlace(list: seq<Item>, id: string, p: nat)
    requires p < |list| && forall k :: 0 <= k < |list| ==> (list[k].id == id <==> k == p)
    ensures ListScore(list, id) == 1.0 / ((61 + p) as real)
  {
    ListScoreOfSingle(list, id, p);
  }

  lemma {:induction false} MoreListsAdd(a: seq<seq<Item>>, b: seq<seq<Item>>, id: string)
    ensures FusedScore(a + b, id) == FusedScore(a, id) + FusedScore(b, id)
    ensures |b| == 1 ==> FusedScore(b, id) == ListScore(b[0], id)
  {
    if b == [] {
      assert a + b == a;
    } else {
      var n := |b| - 1;
      MoreListsAdd(a, b[..n], id);
      assert (a + b)[..|a| + n] == a + b[..n];
    }
  }

  // The order of first appearance

  function Named(list: seq<Item>): seq<string> {
    seq(|list|, i requires 0 <= i < |list| => list[i].id)
  }

  /** All ids in the order in which the lists name them. */
  function NamedInAll(lists: seq<seq<Item>>): seq<string> {
    if lists == [] then [] else NamedInAll(lists[..|lists| - 1]) + Named(lists[|lists| - 1])
  }

  /** Somewhere in `all`, `x` stands and `y` has not stood yet. */
  ghost predicate NamedBefore(all: seq<string>, x: string, y: string) {
    exists p :: 0 <= p < |all| && all[p] == x && y !in all[..p + 1]
  }

  /** `seen` lists the ids of `all`, each once, in the order of first appearance. */
  ghost predicate InOrderOf(seen: seq<string>, all: seq<string>) {
    && Distinct(seen) && (forall id :: id in seen <==> id in all)
    && forall i, j :: 0 <= i < j < |seen| ==> NamedBefore(all, seen[i], seen[j])
  }

  lemma NextInOrder(seen: seq<string>, all: seq<string>, id: string)
    requires InOrderOf(seen, all)
    ensures InOrderOf(if id in seen then seen else seen + [id], all + [id])
  {
    var next := all + [id];
    forall x, y | NamedBefore(all, x, y) ensures NamedBefore(next, x, y) {
      var p :| 0 <= p < |all| && all[p] == x && y !in all[..p + 1];
      assert next[..p + 1] == all[..p + 1];
      assert next[p] == x;
    }
    if id !in seen {
      forall x | x in seen ensures NamedBefore(next, x, id) {
        var p :| 0 <= p < |all| && all[p] == x;
        assert next[p] == x && next[..p + 1] == all[..p + 1];
      }
    }
  }

  lemma {:induction false} SeenInOrder(seen: seq<string>, all: seq<string>, list: seq<Item>)
    requires InOrderOf(seen, all)
    ensures InOrderOf(SeenAfter(seen, list), all + Named(list))
  {
    hide InOrderOf;
    if list == [] {
      assert all + Named(list) == all;
    } else {
      var n := |list| - 1;
      SeenInOrder(seen, all, list[..n]);
      NextInOrder(SeenAfter(seen, list[..n]), all + Named(list[..n]), list[n].id);
      assert Named(list) == Named(list[..n]) + [list[n].id];
      assert all + Named(list) == all + Named(list[..n]) + [list[n].id];
    }
  }

  /** Ties are kept in this order: each listed id once, by where the lists first name it. */
  lemma {:induction false} FirstSeenInOrder(lists: seq<seq<Item>>)
    ensures InOrderOf(FirstSeen(lists), NamedInAll(lists))
  {
    if lists != [] {
      var n := |lists| - 1;
      FirstSeenInOrder(lists[..n]);
      SeenInOrder(FirstSeen(lists[..n]), NamedInAll(lists[..n]), lists[n]);
    }
  }

  /** The whole search: what it returns, whatever ranking `Search` started from. */
  lemma SearchResultSound(feature: string -> real, lists: seq<seq<Item>>, all: seq<Candidate>, limit: nat)
    requires Ranks(lists, all)
    ensures var kept := Take(all, limit * 3); var result := Take(Reranked(feature, kept), limit);
      && Distinct(Ids(result)) && Ordered(result, HigherFirst)
      && |result| == (if limit <= |all| then limit else |all|)
      && (forall c :: c in result ==> Listed(lists, c.id))
      && (forall i, j :: 0 <= i < |kept| <= j < |all| ==> FusedScore(lists, kept[i].id) >= FusedScore(lists, all[j].id))
  {
    var kept := Take(all, limit * 3);
    var reranked := Reranked(feature, kept);
    var result := Take(reranked, limit);
    NothingCutScoredHigher(lists, all, limit * 3);
    CutKeepsOrder(all, limit * 3);
    RerankedPermutes(feature, kept);
    CutKeepsOrder(reranked, limit);
    hide Reranked, Highest, FusedScore, Ordered, Distinct, Ids;
    forall c | c in result ensures Listed(lists, c.id) {
      assert c in reranked;
      var k :| k in kept && c == Rescored(feature, Highest(kept), k);
      assert k in all;
    }
  }
}
