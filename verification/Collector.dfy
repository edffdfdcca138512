/** The collector's candidate pipeline: drop duplicate stories, score the rest and
    take the best. Times are seconds, and scores and weights are reals. */
module Collector {
  import opened WorkflowTypes

  datatype StorySource = HackerNews

  datatype Draft = Draft(
    source: StorySource,
    sourceId: string,
    collectedAt: real,
    observation: string,
    score: Option<int>,
    comments: Option<int>,
    publishedAt: Option<real>,
    rankScore: Option<real>)

  /** What is kept of a story that was rejected as a duplicate. */
  datatype Rejection = Rejection(source: StorySource, sourceId: string, collectedAt: real, observation: string)

  datatype Identity = Identity(source: StorySource, sourceId: string)

  function IdentityOf(d: Draft): Identity {
    Identity(d.source, d.sourceId)
  }

  function RejectionOf(d: Draft): Rejection {
    Rejection(d.source, d.sourceId, d.collectedAt, d.observation)
  }

  // --- Duplicates ---

  /** Position i holds the first story with its identity. */
  predicate First(s: seq<Draft>, i: nat)
    requires i < |s|
  {
    forall j :: 0 <= j < i ==> IdentityOf(s[j]) != IdentityOf(s[i])
  }

  /** The positions below n that hold first stories (or that do not), in order. */
  function Positions(s: seq<Draft>, first: bool, n: nat): seq<nat>
    requires n <= |s|
  {
    if n == 0 then []
    else Positions(s, first, n - 1) + if First(s, n - 1) == first then [n - 1] else []
  }

  function Kept(s: seq<Draft>, n: nat): seq<Draft>
    requires n <= |s|
  {
    if n == 0 then [] else Kept(s, n - 1) + if First(s, n - 1) then [s[n - 1]] else []
  }

  function Rejected(s: seq<Draft>, n: nat): seq<Rejection>
    requires n <= |s|
  {
    if n == 0 then [] else Rejected(s, n - 1) + if First(s, n - 1) then [] else [RejectionOf(s[n - 1])]
  }

  method Dedupe(accepted: seq<Draft>) returns (kept: seq<Draft>, rejected: seq<Rejection>)
    ensures kept == Kept(accepted, |accepted|)
    ensures rejected == Rejected(accepted, |accepted|)
  {
    var seen: set<Identity> := {};
    kept, rejected := [], [];
    for n := 0 to |accepted|
      invariant forall i :: 0 <= i < n ==> IdentityOf(accepted[i]) in seen
      invariant forall k :: k in seen ==> exists i :: 0 <= i < n && IdentityOf(accepted[i]) == k
      invariant kept == Kept(accepted, n) && rejected == Rejected(accepted, n)
    {
      var key := IdentityOf(accepted[n]);
      if key in seen {
        rejected := rejected + [RejectionOf(accepted[n])];
      } else {
        seen := seen + {key};
        kept := kept + [accepted[n]];
      }
    }
  }

  ghost predicate Ascending(p: seq<nat>, n: nat) {
    && (forall k :: 0 <= k < |p| ==> p[k] < n)
    && (forall j, k :: 0 <= j < k < |p| ==> p[j] < p[k])
  }

  lemma AscendingGrows(p: seq<nat>, n: nat)
    requires Ascending(p, n)
    ensures Ascending(p, n + 1) && Ascending(p + [n], n + 1)
  {
    var q := p + [n];
    forall j, k | 0 <= j < k < |q| ensures q[j] < q[k] {
      assert q[j] == p[j];
    }
  }

  lemma {:induction false} PositionsAscend(s: seq<Draft>, first: bool, n: nat)
    requires n <= |s|
    ensures Ascending(Positions(s, first, n), n)
  {
    if n > 0 {
      PositionsAscend(s, first, n - 1);
      AscendingGrows(Positions(s, first, n - 1), n - 1);
    }
  }

  /** The positions are in order, and exactly those asked for. */
  lemma {:induction false} PositionsAreExact(s: seq<Draft>, first: bool, n: nat)
    requires n <= |s|
    ensures Ascending(Positions(s, first, n), n)
    ensures forall i: nat :: i < n ==> (i in Positions(s, first, n) <==> First(s, i) == first)
  {
    PositionsAscend(s, first, n);
    if n > 0 {
      PositionsAreExact(s, first, n - 1);
      PositionsAscend(s, first, n - 1);
      PositionsStep(s, first, n);
    }
  }

  lemma {:induction false} PositionsStep(s: seq<Draft>, first: bool, n: nat)
    requires 0 < n <= |s|
    ensures forall i: nat ::
      i in Positions(s, first, n) <==> i in Positions(s, first, n - 1) || (i == n - 1 && First(s, i) == first)
  {
  }

  ghost predicate KeptAt(s: seq<Draft>, positions: seq<nat>, kept: seq<Draft>) {
    && |kept| == |positions|
    && forall k :: 0 <= k < |positions| ==> positions[k] < |s| && kept[k] == s[positions[k]]
  }

  lemma KeptAtGrows(s: seq<Draft>, positions: seq<nat>, kept: seq<Draft>, i: nat)
    requires KeptAt(s, positions, kept) && i < |s|
    ensures KeptAt(s, positions + [i], kept + [s[i]])
  {
  }

  /** The kept stories are exactly the first ones, in input order. */
  lemma {:induction false} KeepsExactlyTheFirst(s: seq<Draft>, n: nat)
    requires n <= |s|
    ensures KeptAt(s, Positions(s, true, n), Kept(s, n))
  {
    if n > 0 {
      KeepsExactlyTheFirst(s, n - 1);
      KeptAtGrows(s, Positions(s, true, n - 1), Kept(s, n - 1), n - 1);
      KeptStep(s, n);
    }
  }

  lemma KeptStep(s: seq<Draft>, n: nat)
    requires 0 < n <= |s|
    ensures
      || (Positions(s, true, n) == Positions(s, true, n - 1) && Kept(s, n) == Kept(s, n - 1))
      || (Positions(s, true, n) == Positions(s, true, n - 1) + [n - 1] && Kept(s, n) == Kept(s, n - 1) + [s[n - 1]])
  {
    var first := First(s, n - 1);
  }

  ghost predicate RejectedAt(s: seq<Draft>, positions: seq<nat>, rejected: seq<Rejection>) {
    && |rejected| == |positions|
    && forall k :: 0 <= k < |positions| ==> positions[k] < |s| && rejected[k] == RejectionOf(s[positions[k]])
  }

  lemma RejectedAtGrows(s: seq<Draft>, positions: seq<nat>, rejected: seq<Rejection>, i: nat)
    requires RejectedAt(s, positions, rejected) && i < |s|
    ensures RejectedAt(s, positions + [i], rejected + [RejectionOf(s[i])])
  {
  }

  /** The rejections are exactly the others, in input order. */
  lemma {:induction false} RejectsExactlyTheOthers(s: seq<Draft>, n: nat)
    requires n <= |s|
    ensures RejectedAt(s, Positions(s, false, n), Rejected(s, n))
  {
    if n > 0 {
      RejectsExactlyTheOthers(s, n - 1);
      RejectedAtGrows(s, Positions(s, false, n - 1), Rejected(s, n - 1), n - 1);
      RejectionStep(s, n);
    }
  }

  lemma RejectionStep(s: seq<Draft>, n: nat)
    requires 0 < n <= |s|
    ensures
      || (Positions(s, false, n) == Positions(s, false, n - 1) && Rejected(s, n) == Rejected(s, n - 1))
      || (Positions(s, false, n) == Positions(s, false, n - 1) + [n - 1]
          && Rejected(s, n) == Rejected(s, n - 1) + [RejectionOf(s[n - 1])])
  {
    var first := First(s, n - 1);
  }

  function Rejections(s: seq<Draft>): (r: seq<Rejection>)
    ensures |r| == |s| && forall i :: 0 <= i < |s| ==> r[i] == RejectionOf(s[i])
  {
    seq(|s|, i requires 0 <= i < |s| => RejectionOf(s[i]))
  }

  function Bag(s: seq<Draft>): multiset<Rejection> {
    multiset(Rejections(s))
  }

  /** Deduplication in the fields themselves: a story is first exactly when no earlier
      one has its source and source id, and a rejection repeats the story's source,
      source id, time and observation. */
  lemma DuplicatesMean(s: seq<Draft>, i: nat)
    requires i < |s|
    ensures First(s, i) <==>
      forall j :: 0 <= j < i ==> !(s[j].source == s[i].source && s[j].sourceId == s[i].sourceId)
    ensures
      var r := RejectionOf(s[i]);
      && r.source == s[i].source && r.sourceId == s[i].sourceId
      && r.collectedAt == s[i].collectedAt && r.observation == s[i].observation
  {
  }

  /** Nothing is lost: what is kept and what is rejected together are the input. */
  lemma {:induction false} DedupeConserves(s: seq<Draft>, n: nat)
    requires n <= |s|
    ensures Bag(Kept(s, n)) + multiset(Rejected(s, n)) == Bag(s[..n])
  {
    if n > 0 {
      DedupeConserves(s, n - 1);
      var d := s[n - 1];
      assert s[..n] == s[..n - 1] + [d];
      BagOfLast(s[..n - 1], d);
      BagOfLast(Kept(s, n - 1), d);
      Balance(Bag(Kept(s, n - 1)), multiset(Rejected(s, n - 1)), Bag(s[..n - 1]), RejectionOf(d));
      assert Bag(s[..n]) == Bag(s[..n - 1]) + multiset{RejectionOf(d)};
      if First(s, n - 1) {
        assert Kept(s, n) == Kept(s, n - 1) + [d];
        assert Rejected(s, n) == Rejected(s, n - 1);
      } else {
        assert Kept(s, n) == Kept(s, n - 1);
        assert Rejected(s, n) == Rejected(s, n - 1) + [RejectionOf(d)];
        assert multiset(Rejected(s, n)) == multiset(Rejected(s, n - 1)) + multiset{RejectionOf(d)};
      }
    } else {
      assert s[..0] == [];
    }
  }

  lemma Balance(kept: multiset<Rejection>, rejected: multiset<Rejection>, all: multiset<Rejection>, r: Rejection)
    requires kept + rejected == all
    ensures (kept + multiset{r}) + rejected == all + multiset{r}
    ensures kept + (rejected + multiset{r}) == all + multiset{r}
  {
  }

  lemma BagOfLast(s: seq<Draft>, d: Draft)
    ensures Bag(s + [d]) == Bag(s) + multiset{RejectionOf(d)}
  {
    assert Rejections(s + [d]) == Rejections(s) + [RejectionOf(d)];
  }

  /** Every identity of the input is kept exactly once. */
  lemma {:induction false} KeptIdentitiesAreDistinct(s: seq<Draft>, n: nat)
    requires n <= |s|
    ensures DistinctIdentities(Kept(s, n))
    ensures forall i :: 0 <= i < n ==> HasIdentity(Kept(s, n), IdentityOf(s[i]))
  {
    PositionsAreExact(s, true, n);
    KeepsExactlyTheFirst(s, n);
    FirstsAreDistinct(s, Positions(s, true, n), Kept(s, n), n);
    forall i: nat | i < n ensures HasIdentity(Kept(s, n), IdentityOf(s[i])) {
      var f := FirstOf(s, i);
      KeptHasIdentity(s, Positions(s, true, n), Kept(s, n), f);
    }
  }

  ghost predicate DistinctIdentities(kept: seq<Draft>) {
    forall i, j :: 0 <= i < j < |kept| ==> IdentityOf(kept[i]) != IdentityOf(kept[j])
  }

  ghost predicate HasIdentity(kept: seq<Draft>, id: Identity) {
    exists k :: 0 <= k < |kept| && IdentityOf(kept[k]) == id
  }

  lemma {:induction false} FirstsAreDistinct(s: seq<Draft>, p: seq<nat>, kept: seq<Draft>, n: nat)
    requires n <= |s| && KeptAt(s, p, kept) && Ascending(p, n)
    requires forall i: nat :: i < n ==> (i in p <==> First(s, i) == true)
    ensures DistinctIdentities(kept)
  {
    forall i, j | 0 <= i < j < |kept| ensures IdentityOf(kept[i]) != IdentityOf(kept[j]) {
      assert p[j] in p && p[i] < p[j];
      FirstDiffers(s, p[i], p[j]);
    }
  }

  lemma FirstDiffers(s: seq<Draft>, i: nat, j: nat)
    requires i < j < |s| && First(s, j)
    ensures IdentityOf(s[i]) != IdentityOf(s[j])
  {
  }

  lemma KeptHasIdentity(s: seq<Draft>, p: seq<nat>, kept: seq<Draft>, f: nat)
    requires KeptAt(s, p, kept) && f in p
    ensures f < |s| && HasIdentity(kept, IdentityOf(s[f]))
  {
    var k :| 0 <= k < |p| && p[k] == f;
    assert IdentityOf(kept[k]) == IdentityOf(s[f]);
  }

  lemma {:induction false} FirstOf(s: seq<Draft>, i: nat) returns (f: nat)
    requires i < |s|
    ensures f <= i && First(s, f) && IdentityOf(s[f]) == IdentityOf(s[i])
  {
    f := i;
    if !First(s, i) {
      var j :| 0 <= j < i && IdentityOf(s[j]) == IdentityOf(s[i]);
      f := FirstOf(s, j);
    }
  }

  // --- Scoring ---

  datatype Weights = Weights(score: real, comments: real, recency: real)

  function Signal(n: Option<int>): real {
    if n.Some? then n.value as real else 0.0
  }

  function Recency(publishedAt: Option<real>, reference: Option<real>): real {
    if publishedAt.None? || reference.None? then 0.0
    else
      var hours := (reference.value - publishedAt.value) / 3600.0;
      1.0 / (1.0 + if hours >= 0.0 then hours else 0.0)
  }

  function Blend(w: Weights, score: real, comments: real, recency: real): real {
    w.score * score + w.comments * comments + w.recency * recency
  }

  function RankScore(d: Draft, w: Weights, reference: Option<real>): real {
    Blend(w, Signal(d.score), Signal(d.comments), Recency(d.publishedAt, reference))
  }

  /** The recency of a story is 1 for the newest, falls with age and is never
      negative; stories without a time get none. */
  lemma RecencyFavoursTheNew(a: real, b: real, reference: real)
    requires a <= b <= reference
    ensures 0.0 < Recency(Some(a), Some(reference)) <= Recency(Some(b), Some(reference)) <= 1.0
    ensures Recency(Some(b), Some(reference)) == 1.0 <==> b == reference
    ensures Recency(None, Some(reference)) == 0.0
  {
    var x, y := 1.0 + (reference - a) / 3600.0, 1.0 + (reference - b) / 3600.0;
    InverseFalls(y, x);
  }

  lemma InverseFalls(x: real, y: real)
    requires 1.0 <= x <= y
    ensures 0.0 < 1.0 / y <= 1.0 / x <= 1.0
    ensures 1.0 / x == 1.0 <==> x == 1.0
  {
    assert 1.0 / x * x == 1.0 && 1.0 / y * y == 1.0;
  }

  /** The exact recency: one half after an hour, one third after two, and so on. */
  lemma RecencyIsExact(publishedAt: real, reference: real)
    requires publishedAt <= reference
    ensures Recency(Some(publishedAt), Some(reference)) * (1.0 + (reference - publishedAt) / 3600.0) == 1.0
    ensures Recency(Some(publishedAt), None) == 0.0
  {
    var x := 1.0 + (reference - publishedAt) / 3600.0;
    assert x >= 1.0;
    assert 1.0 / x * x == 1.0;
  }

  /** The score is the weighted sum of points, comments and recency, each counted as
      zero when it is missing. */
  lemma ScoreIsTheWeightedSum(d: Draft, w: Weights, reference: Option<real>)
    ensures RankScore(d, Weights(1.0, 0.0, 0.0), reference) == if d.score.Some? then d.score.value as real else 0.0
    ensures RankScore(d, Weights(0.0, 1.0, 0.0), reference)
         == if d.comments.Some? then d.comments.value as real else 0.0
    ensures RankScore(d, Weights(0.0, 0.0, 1.0), reference) == Recency(d.publishedAt, reference)
    ensures RankScore(d, w, reference) ==
      w.score * RankScore(d, Weights(1.0, 0.0, 0.0), reference)
      + w.comments * RankScore(d, Weights(0.0, 1.0, 0.0), reference)
      + w.recency * RankScore(d, Weights(0.0, 0.0, 1.0), reference)
  {
    UnitBlends(Signal(d.score), Signal(d.comments), Recency(d.publishedAt, reference));
    WeightedBlends(w, Signal(d.score), Signal(d.comments), Recency(d.publishedAt, reference));
  }

  lemma WeightedBlends(w: Weights, s: real, c: real, r: real)
    ensures Blend(w, s, c, r) ==
      w.score * Blend(Weights(1.0, 0.0, 0.0), s, c, r)
      + w.comments * Blend(Weights(0.0, 1.0, 0.0), s, c, r)
      + w.recency * Blend(Weights(0.0, 0.0, 1.0), s, c, r)
  {
    UnitBlends(s, c, r);
  }

  lemma UnitBlends(s: real, c: real, r: real)
    ensures Blend(Weights(1.0, 0.0, 0.0), s, c, r) == s
    ensures Blend(Weights(0.0, 1.0, 0.0), s, c, r) == c
    ensures Blend(Weights(0.0, 0.0, 1.0), s, c, r) == r
  {
  }

  /** Scoring fills in the score and changes nothing else. */
  lemma ScoringKeepsTheStory(d: Draft, w: Weights, reference: Option<real>)
    ensures Scored(d, w, reference).rankScore == Some(RankScore(d, w, reference))
    ensures Scored(d, w, reference).(rankScore := d.rankScore) == d
  {
  }

  /** With weights that are not negative, a story that is no worse in points,
      comments and age never scores less. */
  lemma {:induction false} BetterStoriesScoreNoLess(a: Draft, b: Draft, w: Weights, reference: Option<real>)
    requires w.score >= 0.0 && w.comments >= 0.0 && w.recency >= 0.0
    requires Signal(a.score) <= Signal(b.score) && Signal(a.comments) <= Signal(b.comments)
    requires Recency(a.publishedAt, reference) <= Recency(b.publishedAt, reference)
    ensures RankScore(a, w, reference) <= RankScore(b, w, reference)
  {
    BlendIsMonotone(w, Signal(a.score), Signal(a.comments), Recency(a.publishedAt, reference),
                    Signal(b.score), Signal(b.comments), Recency(b.publishedAt, reference));
  }

  lemma BlendIsMonotone(w: Weights, s: real, c: real, r: real, s': real, c': real, r': real)
    requires w.score >= 0.0 && w.comments >= 0.0 && w.recency >= 0.0 && s <= s' && c <= c' && r <= r'
    ensures Blend(w, s, c, r) <= Blend(w, s', c', r')
  {
    Weighted(w.score, s, s');
    Weighted(w.comments, c, c');
    Weighted(w.recency, r, r');
  }

  lemma Weighted(weight: real, a: real, b: real)
    requires weight >= 0.0 && a <= b
    ensures weight * a <= weight * b
  {
  }

  /** `reference` is the latest publication time, if any story has one. */
  ghost predicate Latest(stories: multiset<Draft>, reference: Option<real>) {
    if reference.None? then forall d :: d in stories ==> d.publishedAt.None?
    else
      && (exists d :: d in stories && d.publishedAt == reference)
      && (forall d :: d in stories && d.publishedAt.Some? ==> d.publishedAt.value <= reference.value)
  }

  /** The latest publication time as a function of the stories. */
  function ReferenceOf(stories: seq<Draft>): (reference: Option<real>)
    ensures Latest(multiset(stories), reference)
  {
    if stories == [] then None
    else
      var before, last := ReferenceOf(stories[..|stories| - 1]), stories[|stories| - 1];
      assert stories == stories[..|stories| - 1] + [last];
      if last.publishedAt.Some? && (before.None? || before.value < last.publishedAt.value) then last.publishedAt
      else before
  }

  method ReferencePublishedAt(stories: seq<Draft>) returns (reference: Option<real>)
    ensures Latest(multiset(stories), reference)
  {
    reference := None;
    for n := 0 to |stories|
      invariant Latest(multiset(stories[..n]), reference)
    {
      var d := stories[n];
      assert stories[..n + 1] == stories[..n] + [d];
      if d.publishedAt.Some? && (reference.None? || reference.value < d.publishedAt.value) {
        reference := d.publishedAt;
      }
    }
    assert stories[..|stories|] == stories;
  }

  lemma LatestIsUnique(stories: multiset<Draft>, a: Option<real>, b: Option<real>)
    requires Latest(stories, a) && Latest(stories, b)
    ensures a == b
  {
  }

  function Scored(d: Draft, w: Weights, reference: Option<real>): Draft {
    d.(rankScore := Some(RankScore(d, w, reference)))
  }

  // --- Order ---

  /** Python's order on strings. */
  predicate StringLeq(a: string, b: string) {
    a == "" || (b != "" && (a[0] < b[0] || (a[0] == b[0] && StringLeq(a[1..], b[1..]))))
  }

  /** Character by character: the first difference decides, and a prefix comes first. */
  lemma {:induction false} StringLeqMeans(a: string, b: string, k: nat)
    requires k <= |a| && k <= |b| && a[..k] == b[..k]
    requires k < |a| && k < |b| ==> a[k] != b[k]
    ensures StringLeq(a, b) <==> k == |a| || (k < |b| && a[k] < b[k])
    decreases k
  {
    if k > 0 {
      assert a[0] == a[..k][0] && b[0] == b[..k][0];
      assert a[1..][..k - 1] == a[..k][1..] && b[1..][..k - 1] == b[..k][1..];
      StringLeqMeans(a[1..], b[1..], k - 1);
    }
  }

  lemma {:induction false} StringLeqIsTotal(a: string, b: string)
    ensures StringLeq(a, b) || StringLeq(b, a)
    decreases |a|
  {
    if a != "" && b != "" {
      StringLeqIsTotal(a[1..], b[1..]);
    }
  }

  lemma {:induction false} StringLeqIsAntisymmetric(a: string, b: string)
    requires StringLeq(a, b) && StringLeq(b, a)
    ensures a == b
    decreases |a|
  {
    if a != "" {
      StringLeqIsAntisymmetric(a[1..], b[1..]);
      assert a == [a[0]] + a[1..] && b == [b[0]] + b[1..];
    }
  }

  lemma {:induction false} StringLeqIsTransitive(a: string, b: string, c: string)
    requires StringLeq(a, b) && StringLeq(b, c)
    ensures StringLeq(a, c)
    decreases |a|
  {
    if a != "" && a[0] == b[0] == c[0] {
      StringLeqIsTransitive(a[1..], b[1..], c[1..]);
    }
  }

  function ScoreOf(d: Draft): real {
    if d.rankScore.Some? then d.rankScore.value else 0.0
  }

  /** Higher scores first, ties by source id. */
  predicate Before(a: Draft, b: Draft) {
    ScoreOf(a) > ScoreOf(b) || (ScoreOf(a) == ScoreOf(b) && StringLeq(a.sourceId, b.sourceId))
  }

  lemma BeforeIsTotal(a: Draft, b: Draft)
    ensures Before(a, b) || Before(b, a)
  {
    StringLeqIsTotal(a.sourceId, b.sourceId);
  }

  lemma BeforeIsTransitive(a: Draft, b: Draft, c: Draft)
    requires Before(a, b) && Before(b, c)
    ensures Before(a, c)
  {
    if StringLeq(a.sourceId, b.sourceId) && StringLeq(b.sourceId, c.sourceId) {
      StringLeqIsTransitive(a.sourceId, b.sourceId, c.sourceId);
    }
  }

  ghost predicate Sorted(s: seq<Draft>) {
    forall i, j :: 0 <= i < j < |s| ==> Before(s[i], s[j])
  }

  /** Insert behind everything that is not after it, as a stable sort does. */
  function Insert(s: seq<Draft>, d: Draft): seq<Draft> {
    if s == [] then [d]
    else if Before(s[|s| - 1], d) then s + [d]
    else Insert(s[..|s| - 1], d) + [s[|s| - 1]]
  }

  function Sort(s: seq<Draft>): seq<Draft> {
    if s == [] then [] else Insert(Sort(s[..|s| - 1]), s[|s| - 1])
  }

  lemma {:induction false} InsertKeeps(s: seq<Draft>, d: Draft)
    ensures multiset(Insert(s, d)) == multiset(s) + multiset{d}
  {
    if s != [] && !Before(s[|s| - 1], d) {
      InsertKeeps(s[..|s| - 1], d);
      assert s == s[..|s| - 1] + [s[|s| - 1]];
    }
  }

  lemma {:induction false} InsertSorts(s: seq<Draft>, d: Draft)
    requires Sorted(s)
    ensures Sorted(Insert(s, d))
  {
    if s != [] {
      var init, last := s[..|s| - 1], s[|s| - 1];
      if Before(last, d) {
        forall i | 0 <= i < |s| ensures Before(s[i], d) {
          if i < |s| - 1 {
            BeforeIsTransitive(s[i], last, d);
          }
        }
      } else {
        BeforeIsTotal(last, d);
        InsertSorts(init, d);
        InsertKeeps(init, d);
        var front := Insert(init, d);
        forall i | 0 <= i < |front| ensures Before(front[i], last) {
          assert front[i] in multiset(init) + multiset{d};
          assert front[i] in init || front[i] == d;
        }
      }
    }
  }

  lemma {:induction false} SortKeeps(s: seq<Draft>)
    ensures multiset(Sort(s)) == multiset(s)
  {
    if s != [] {
      var init, last := s[..|s| - 1], s[|s| - 1];
      SortKeeps(init);
      InsertKeeps(Sort(init), last);
      Last(s);
      assert multiset(Sort(s)) == multiset(Insert(Sort(init), last));
    }
  }

  lemma Last(s: seq<Draft>)
    requires s != []
    ensures multiset(s) == multiset(s[..|s| - 1]) + multiset{s[|s| - 1]}
  {
    assert s == s[..|s| - 1] + [s[|s| - 1]];
  }

  lemma {:induction false} SortOrders(s: seq<Draft>)
    ensures Sorted(Sort(s))
  {
    if s != [] {
      SortOrders(s[..|s| - 1]);
      InsertSorts(Sort(s[..|s| - 1]), s[|s| - 1]);
    }
  }

  /** The result of the sort is a sorted permutation. */
  lemma {:induction false} SortIsSorted(s: seq<Draft>)
    ensures Sorted(Sort(s)) && multiset(Sort(s)) == multiset(s)
  {
    SortKeeps(s);
    SortOrders(s);
  }

  // --- Ranking ---

  function Map(f: Draft -> Draft, s: seq<Draft>): (r: seq<Draft>)
    ensures |r| == |s| && forall i :: 0 <= i < |s| ==> r[i] == f(s[i])
  {
    seq(|s|, i requires 0 <= i < |s| => f(s[i]))
  }

  function Scorer(w: Weights, reference: Option<real>): Draft -> Draft {
    d => Scored(d, w, reference)
  }

  /** `candidateCount` is a positive configuration value. */
  method Rank(stories: seq<Draft>, candidateCount: nat, w: Weights) returns (ranked: seq<Draft>, candidates: seq<Draft>)
    ensures ranked == Sort(Map(Scorer(w, ReferenceOf(stories)), stories))
    ensures multiset(ranked) == multiset(Map(Scorer(w, ReferenceOf(stories)), stories)) && |ranked| == |stories|
    ensures forall i :: 0 <= i < |ranked| ==> ranked[i].rankScore.Some?
    ensures forall i, j :: 0 <= i < j < |ranked| ==>
      || ranked[i].rankScore.value > ranked[j].rankScore.value
      || (ranked[i].rankScore == ranked[j].rankScore && StringLeq(ranked[i].sourceId, ranked[j].sourceId))
    ensures candidates <= ranked
    ensures |candidates| == candidateCount || (|candidates| == |ranked| && |ranked| < candidateCount)
    ensures forall i, j :: 0 <= i < |candidates| <= j < |ranked| ==>
      candidates[i].rankScore.value >= ranked[j].rankScore.value
  {
    var reference := ReferencePublishedAt(stories);
    LatestIsUnique(multiset(stories), reference, ReferenceOf(stories));
    var scored := ScoreAll(stories, w, reference);
    ranked := Sort(scored);
    candidates := ranked[..Smaller(candidateCount, |ranked|)];
    RankingIsByScore(scored);
  }

  method ScoreAll(stories: seq<Draft>, w: Weights, reference: Option<real>) returns (scored: seq<Draft>)
    ensures scored == Map(Scorer(w, reference), stories)
    ensures forall i :: 0 <= i < |scored| ==> scored[i].rankScore.Some?
  {
    scored := [];
    for n := 0 to |stories|
      invariant scored == Map(Scorer(w, reference), stories[..n])
      invariant forall i :: 0 <= i < |scored| ==> scored[i].rankScore.Some?
    {
      scored := scored + [Scored(stories[n], w, reference)];
    }
    assert stories[..|stories|] == stories;
  }

  /** What a ranking looks like, in terms of the scores themselves. */
  lemma {:induction false} RankingIsByScore(scored: seq<Draft>)
    requires forall i :: 0 <= i < |scored| ==> scored[i].rankScore.Some?
    ensures
      var ranked := Sort(scored);
      && |ranked| == |scored| && multiset(ranked) == multiset(scored)
      && (forall i :: 0 <= i < |ranked| ==> ranked[i].rankScore.Some?)
      && (forall i, j :: 0 <= i < j < |ranked| ==>
            || ranked[i].rankScore.value > ranked[j].rankScore.value
            || (ranked[i].rankScore == ranked[j].rankScore && StringLeq(ranked[i].sourceId, ranked[j].sourceId)))
  {
    var ranked := Sort(scored);
    SortIsSorted(scored);
    SameSize(ranked, scored);
    forall i | 0 <= i < |ranked| ensures ranked[i].rankScore.Some? {
      assert ranked[i] in multiset(scored);
    }
    assert forall i, j :: 0 <= i < j < |ranked| ==> Before(ranked[i], ranked[j]);
  }

  function Smaller(a: nat, b: nat): nat {
    if a <= b then a else b
  }

  ghost predicate DistinctIds(s: seq<Draft>) {
    forall i, j :: 0 <= i < j < |s| ==> s[i].sourceId != s[j].sourceId
  }

  lemma SameIdSameDraft(s: seq<Draft>, a: Draft, b: Draft)
    requires DistinctIds(s) && a in s && b in s && a.sourceId == b.sourceId
    ensures a == b
  {
  }

  /** There is one way only to sort stories with distinct ids. */
  lemma {:induction false} SortedIsUnique(a: seq<Draft>, b: seq<Draft>)
    requires Sorted(a) && Sorted(b) && DistinctIds(a) && multiset(a) == multiset(b)
    ensures a == b
    decreases |a|
  {
    SameSize(a, b);
    if a != [] {
      SameHead(a, b);
      SameTail(a, b);
      SortedIsUnique(a[1..], b[1..]);
      assert a == [a[0]] + a[1..] && b == [b[0]] + b[1..];
    }
  }

  lemma SameSize(a: seq<Draft>, b: seq<Draft>)
    requires multiset(a) == multiset(b)
    ensures |a| == |b|
  {
    assert |multiset(a)| == |multiset(b)|;
  }

  lemma SameHead(a: seq<Draft>, b: seq<Draft>)
    requires Sorted(a) && Sorted(b) && DistinctIds(a) && multiset(a) == multiset(b) && |a| == |b| > 0
    ensures a[0] == b[0]
  {
    assert b[0] in multiset(a) && a[0] in multiset(b);
    FirstIsLeast(a, b[0]);
    FirstIsLeast(b, a[0]);
    if a[0] != b[0] {
      StringLeqIsAntisymmetric(a[0].sourceId, b[0].sourceId);
    }
  }

  lemma SameTail(a: seq<Draft>, b: seq<Draft>)
    requires multiset(a) == multiset(b) && |a| == |b| > 0 && a[0] == b[0]
    ensures multiset(a[1..]) == multiset(b[1..])
  {
    Tail(a);
    Tail(b);
  }

  lemma Tail(s: seq<Draft>)
    requires s != []
    ensures multiset(s[1..]) == multiset(s) - multiset{s[0]}
  {
    assert s == [s[0]] + s[1..];
  }

  lemma Without(s: seq<Draft>, k: nat)
    requires k < |s|
    ensures multiset(s[..k] + s[k + 1..]) == multiset(s) - multiset{s[k]}
  {
    assert s == s[..k] + [s[k]] + s[k + 1..];
  }

  lemma FirstIsLeast(s: seq<Draft>, d: Draft)
    requires Sorted(s) && d in s
    ensures s[0] == d || Before(s[0], d)
  {
  }

  /** What is done to each story separately does not depend on the order either. */
  lemma {:induction false} MapIgnoresOrder(f: Draft -> Draft, a: seq<Draft>, b: seq<Draft>)
    requires multiset(a) == multiset(b)
    ensures multiset(Map(f, a)) == multiset(Map(f, b))
    decreases |a|
  {
    SameSize(a, b);
    if a != [] {
      var ra := Remove(f, a, a[0]);
      assert a[0] in multiset(b);
      var rb := Remove(f, b, a[0]);
      MapIgnoresOrder(f, ra, rb);
    } else {
      assert a == b;
    }
  }

  lemma Remove(f: Draft -> Draft, s: seq<Draft>, d: Draft) returns (rest: seq<Draft>)
    requires d in s
    ensures |rest| < |s| && multiset(rest) == multiset(s) - multiset{d}
    ensures multiset(Map(f, s)) == multiset(Map(f, rest)) + multiset{f(d)}
  {
    var k :| 0 <= k < |s| && s[k] == d;
    rest := s[..k] + s[k + 1..];
    Without(s, k);
    MapWithout(f, s, k);
  }

  lemma MapWithout(f: Draft -> Draft, s: seq<Draft>, k: nat)
    requires k < |s|
    ensures multiset(Map(f, s)) == multiset(Map(f, s[..k] + s[k + 1..])) + multiset{f(s[k])}
  {
    var all := Map(f, s);
    Without(all, k);
    assert Map(f, s[..k] + s[k + 1..]) == all[..k] + all[k + 1..];
    assert all[k] in multiset(all);
  }

  /** Deterministic top-k: for stories with distinct identities, as deduplication
      leaves them, the ranking is the same whatever order they arrive in. */
  lemma {:induction false} RankIgnoresOrder(
    a: seq<Draft>, b: seq<Draft>, w: Weights, ra: Option<real>, rb: Option<real>)
    requires multiset(a) == multiset(b)
    requires DistinctIdentities(a)
    requires Latest(multiset(a), ra) && Latest(multiset(b), rb)
    ensures Sort(Map(Scorer(w, ra), a)) == Sort(Map(Scorer(w, rb), b))
  {
    LatestIsUnique(multiset(a), ra, rb);
    MapIgnoresOrder(Scorer(w, ra), a, b);
    var s, t := Map(Scorer(w, ra), a), Map(Scorer(w, ra), b);
    SortIsSorted(s);
    SortIsSorted(t);
    assert DistinctIds(s) by {
      forall i, j | 0 <= i < j < |s| ensures s[i].sourceId != s[j].sourceId {
        assert IdentityOf(a[i]) != IdentityOf(a[j]);
      }
    }
    DistinctIdsIgnoreOrder(s, Sort(s));
    SortedIsUnique(Sort(s), Sort(t));
  }

  lemma {:induction false} DistinctIdsIgnoreOrder(s: seq<Draft>, t: seq<Draft>)
    requires DistinctIds(s) && multiset(s) == multiset(t)
    ensures DistinctIds(t)
  {
    forall i, j | 0 <= i < j < |t| ensures t[i].sourceId != t[j].sourceId {
      assert t[i] in multiset(s) && t[j] in multiset(s);
      if t[i].sourceId == t[j].sourceId {
        SameIdSameDraft(s, t[i], t[j]);
        TwiceIn(t, i, j);
        OnceIn(s, t[i]);
      }
    }
  }

  lemma TwiceIn(t: seq<Draft>, i: nat, j: nat)
    requires i < j < |t| && t[i] == t[j]
    ensures multiset(t)[t[i]] >= 2
  {
    assert t == t[..i] + [t[i]] + t[i + 1..j] + [t[j]] + t[j + 1..];
  }

  lemma {:induction false} OnceIn(s: seq<Draft>, d: Draft)
    requires DistinctIds(s)
    ensures multiset(s)[d] <= 1
  {
    if d in s {
      var k :| 0 <= k < |s| && s[k] == d;
      assert s == s[..k] + [d] + s[k + 1..];
      assert d !in s[..k] && d !in s[k + 1..];
    }
  }

  /** The candidates are the k best stories: they are in order, and nobody left
      out comes before any of them. */
  lemma CandidatesAreTheBest(stories: seq<Draft>, k: nat, i: nat, j: nat)
    requires i < Smaller(k, |Sort(stories)|) <= j < |Sort(stories)|
    ensures Before(Sort(stories)[..Smaller(k, |Sort(stories)|)][i], Sort(stories)[j])
    ensures |Sort(stories)| == |stories|
  {
    SortIsSorted(stories);
    assert |multiset(Sort(stories))| == |multiset(stories)|;
  }
}
