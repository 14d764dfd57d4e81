/**
 The breach history of the autoscaler: the timestamped threshold breaches
 kept in ScalingState.breach_history, the filters the autoscaler applies to
 that list (pruning by the stabilization window, clearing one direction after
 an action) and the time-decayed breach score summed over it.
 */
module History {

  /** Direction of a threshold breach or of a scaling action ("up" / "down"). */
  datatype Dir = Up | Down

  function Other(d: Dir): Dir {
    if d == Up then Down else Up
  }

  /** One entry `(timestamp, direction)` of the breach history. */
  datatype Breach = Breach(ts: real, dir: Dir)

  /** The criteria the autoscaler filters the breach history by. */
  datatype Keep =
    | After(start: real)  // entries strictly newer than `start` (window pruning)
    | Except(d: Dir)      // entries whose direction is not `d` (clearing after an action)
    | Only(d: Dir)        // entries whose direction is `d` (the ones a score sums over)

  predicate Kept(k: Keep, e: Breach) {
    match k
    case After(start) => e.ts > start
    case Except(d) => e.dir != d
    case Only(d) => e.dir == d
  }

  /** The entries of `h` that `k` keeps, in their original order. */
  function Filter(h: seq<Breach>, k: Keep): (r: seq<Breach>)
    ensures |r| <= |h|
    ensures forall i :: 0 <= i < |r| ==> Kept(k, r[i])
    decreases |h|
  {
    if h == [] then []
    else if Kept(k, h[|h| - 1]) then Filter(h[..|h| - 1], k) + [h[|h| - 1]]
    else Filter(h[..|h| - 1], k)
  }

  /** Number of breaches of direction `d` in `h`. */
  function Count(h: seq<Breach>, d: Dir): nat {
    |Filter(h, Only(d))|
  }

  lemma FilterSnoc(h: seq<Breach>, e: Breach, k: Keep)
    ensures Filter(h + [e], k) == if Kept(k, e) then Filter(h, k) + [e] else Filter(h, k)
  {
    assert (h + [e])[..|h|] == h;
  }

  /** Filtering distributes over concatenation: it keeps the original order. */
  lemma {:induction false} FilterAppend(a: seq<Breach>, b: seq<Breach>, k: Keep)
    ensures Filter(a + b, k) == Filter(a, k) + Filter(b, k)
    decreases |b|
  {
    if b == [] {
      assert a + b == a;
    } else {
      var b', e := b[..|b| - 1], b[|b| - 1];
      assert b == b' + [e];
      assert a + b == (a + b') + [e];
      FilterAppend(a, b', k);
      FilterSnoc(a + b', e, k);
      FilterSnoc(b', e, k);
    }
  }

  /** Filtering keeps every kept entry with its multiplicity and drops every other one. */
  lemma {:induction false} FilterCounts(h: seq<Breach>, k: Keep, e: Breach)
    ensures multiset(Filter(h, k))[e] == if Kept(k, e) then multiset(h)[e] else 0
    decreases |h|
  {
    if h != [] {
      var h', x := h[..|h| - 1], h[|h| - 1];
      assert h == h' + [x];
      FilterCounts(h', k, e);
      FilterSnoc(h', x, k);
    }
  }

  /** A list whose every entry is kept passes the filter unchanged. */
  lemma {:induction false} FilterKeepsAll(h: seq<Breach>, k: Keep)
    requires forall i :: 0 <= i < |h| ==> Kept(k, h[i])
    ensures Filter(h, k) == h
    decreases |h|
  {
    if h != [] {
      var h', x := h[..|h| - 1], h[|h| - 1];
      assert h == h' + [x];
      FilterKeepsAll(h', k);
      FilterSnoc(h', x, k);
    }
  }

  /** A list none of whose entries is kept filters to nothing. */
  lemma {:induction false} FilterDropsAll(h: seq<Breach>, k: Keep)
    requires forall i :: 0 <= i < |h| ==> !Kept(k, h[i])
    ensures Filter(h, k) == []
    decreases |h|
  {
    if h != [] {
      var h', x := h[..|h| - 1], h[|h| - 1];
      assert h == h' + [x];
      FilterDropsAll(h', k);
      FilterSnoc(h', x, k);
    }
  }

  /** Filtering by a stricter criterion after a weaker one is filtering by the stricter one. */
  lemma {:induction false} FilterFilter(h: seq<Breach>, k1: Keep, k2: Keep)
    requires forall e :: Kept(k2, e) ==> Kept(k1, e)
    ensures Filter(Filter(h, k1), k2) == Filter(h, k2)
    decreases |h|
  {
    if h != [] {
      var h', x := h[..|h| - 1], h[|h| - 1];
      assert h == h' + [x];
      FilterFilter(h', k1, k2);
      FilterSnoc(h', x, k1);
      FilterSnoc(h', x, k2);
      var mid := if Kept(k1, x) then [x] else [];
      FilterAppend(Filter(h', k1), mid, k2);
      if Kept(k1, x) {
        FilterSnoc([], x, k2);
      }
    }
  }

  /**
   Pruning twice is pruning once: a second pruning with a window that starts
   no earlier (in particular, at the same `now`) keeps exactly what pruning
   with that later window alone keeps, and at the same window removes nothing more.
   */
  lemma PruningIsIdempotent(h: seq<Breach>, start: real, laterStart: real)
    requires start <= laterStart
    ensures Filter(Filter(h, After(start)), After(laterStart)) == Filter(h, After(laterStart))
    ensures Filter(Filter(h, After(start)), After(start)) == Filter(h, After(start))
  {
    FilterFilter(h, After(start), After(laterStart));
    FilterFilter(h, After(start), After(start));
  }

  /** Two filters commute. */
  lemma {:induction false} FilterCommute(h: seq<Breach>, k1: Keep, k2: Keep)
    ensures Filter(Filter(h, k1), k2) == Filter(Filter(h, k2), k1)
    decreases |h|
  {
    if h != [] {
      var h', x := h[..|h| - 1], h[|h| - 1];
      assert h == h' + [x];
      FilterCommute(h', k1, k2);
      FilterSnoc(h', x, k1);
      FilterSnoc(h', x, k2);
      FilterAppend(Filter(h', k1), if Kept(k1, x) then [x] else [], k2);
      FilterAppend(Filter(h', k2), if Kept(k2, x) then [x] else [], k1);
      FilterSnoc([], x, k1);
      FilterSnoc([], x, k2);
    }
  }

  /**
   What the source's weight `0.5 ** x` provides, `x` being a breach's age
   measured in half-lives: weight 1 at age 0, one half after one half-life,
   within (0, 1] for every age that is not negative, and non-increasing in age.
   */
  ghost predicate IsHalvingDecay(decay: real -> real) {
    && decay(0.0) == 1.0
    && decay(1.0) == 0.5
    && (forall x :: 0.0 <= x ==> 0.0 < decay(x) <= 1.0)
    && (forall x, y :: 0.0 <= x <= y ==> decay(y) <= decay(x))
  }

  /**
   Weight of one breach at time `now`: within (0, 1] for a breach not in the
   future, 1 for one recorded at `now` and one half for one a half-life old.
   */
  function Weight(e: Breach, now: real, halfLife: real, decay: real -> real): (w: real)
    requires halfLife > 0.0
    ensures IsHalvingDecay(decay) && e.ts <= now ==> 0.0 < w <= 1.0
    ensures IsHalvingDecay(decay) && e.ts == now ==> w == 1.0
    ensures IsHalvingDecay(decay) && now - e.ts == halfLife ==> w == 0.5
  {
    assert e.ts <= now ==> 0.0 <= (now - e.ts) / halfLife;
    assert now - e.ts == halfLife ==> (now - e.ts) / halfLife == 1.0;
    decay((now - e.ts) / halfLife)
  }

  /**
   Sum of the weights of the breaches of direction `d` in `h`, summed oldest
   first; with every breach at or before `now` it lies between 0 and the
   number of breaches.
   */
  function Score(h: seq<Breach>, d: Dir, now: real, halfLife: real, decay: real -> real): (score: real)
    requires halfLife > 0.0
    ensures IsHalvingDecay(decay) && (forall i :: 0 <= i < |h| ==> h[i].ts <= now) ==> 0.0 <= score <= |h| as real
    decreases |h|
  {
    if h == [] then 0.0
    else
      var e := h[|h| - 1];
      Score(h[..|h| - 1], d, now, halfLife, decay) + (if e.dir == d then Weight(e, now, halfLife, decay) else 0.0)
  }

  lemma ScoreSnoc(h: seq<Breach>, e: Breach, d: Dir, now: real, halfLife: real, decay: real -> real)
    requires halfLife > 0.0
    ensures Score(h + [e], d, now, halfLife, decay)
         == Score(h, d, now, halfLife, decay) + (if e.dir == d then Weight(e, now, halfLife, decay) else 0.0)
  {
    assert (h + [e])[..|h|] == h;
  }

  /** The score of a concatenation is the sum of the scores. */
  lemma {:induction false} ScoreAppend(a: seq<Breach>, b: seq<Breach>, d: Dir, now: real, halfLife: real, decay: real -> real)
    requires halfLife > 0.0
    ensures Score(a + b, d, now, halfLife, decay)
         == Score(a, d, now, halfLife, decay) + Score(b, d, now, halfLife, decay)
    decreases |b|
  {
    if b == [] {
      assert a + b == a;
    } else {
      var b', e := b[..|b| - 1], b[|b| - 1];
      assert b == b' + [e];
      assert a + b == (a + b') + [e];
      ScoreAppend(a, b', d, now, halfLife, decay);
      ScoreSnoc(a + b', e, d, now, halfLife, decay);
      ScoreSnoc(b', e, d, now, halfLife, decay);
    }
  }

  /**
   With every breach at or before `now`, the score is at least 0, at most the
   number of breaches of that direction, and positive when there is one.
   */
  lemma {:induction false} ScoreBounds(h: seq<Breach>, d: Dir, now: real, halfLife: real, decay: real -> real)
    requires halfLife > 0.0 && IsHalvingDecay(decay)
    requires forall i :: 0 <= i < |h| ==> h[i].ts <= now
    ensures 0.0 <= Score(h, d, now, halfLife, decay) <= Count(h, d) as real
    ensures Count(h, d) > 0 ==> Score(h, d, now, halfLife, decay) > 0.0
    decreases |h|
  {
    if h != [] {
      var h', e := h[..|h| - 1], h[|h| - 1];
      assert h == h' + [e];
      ScoreBounds(h', d, now, halfLife, decay);
      FilterSnoc(h', e, Only(d));
    }
  }

  /** Breaches of the other direction contribute nothing to a direction's score. */
  lemma {:induction false} ScoreOnlyMatching(h: seq<Breach>, d: Dir, now: real, halfLife: real, decay: real -> real)
    requires halfLife > 0.0
    ensures Score(h, d, now, halfLife, decay) == Score(Filter(h, Only(d)), d, now, halfLife, decay)
    ensures Filter(h, Only(d)) == [] ==> Score(h, d, now, halfLife, decay) == 0.0
    decreases |h|
  {
    if h != [] {
      var h', e := h[..|h| - 1], h[|h| - 1];
      assert h == h' + [e];
      ScoreOnlyMatching(h', d, now, halfLife, decay);
      FilterSnoc(h', e, Only(d));
      ScoreSnoc(h', e, d, now, halfLife, decay);
      if e.dir == d {
        ScoreSnoc(Filter(h', Only(d)), e, d, now, halfLife, decay);
      }
      if Filter(h, Only(d)) == [] {
        assert e.dir != d;
        assert Filter(h', Only(d)) == [];
      }
    }
  }

  /** A breach recorded at `now` adds exactly 1 to the score of its direction at `now`. */
  lemma NewBreachScoresOne(h: seq<Breach>, d: Dir, now: real, halfLife: real, decay: real -> real)
    requires halfLife > 0.0 && IsHalvingDecay(decay)
    ensures Score(h + [Breach(now, d)], d, now, halfLife, decay) == Score(h, d, now, halfLife, decay) + 1.0
  {
    ScoreSnoc(h, Breach(now, d), d, now, halfLife, decay);
  }

  /** What one breach adds to a pruned score can only shrink as time passes and the window moves on. */
  lemma ContributionDecays(
    e: Breach, d: Dir, now: real, later: real, start: real, laterStart: real,
    halfLife: real, decay: real -> real)
    requires halfLife > 0.0 && IsHalvingDecay(decay)
    requires e.ts <= now <= later && start <= laterStart
    ensures (if Kept(After(laterStart), e) && e.dir == d then Weight(e, later, halfLife, decay) else 0.0)
         <= (if Kept(After(start), e) && e.dir == d then Weight(e, now, halfLife, decay) else 0.0)
  {
    var x, y := (now - e.ts) / halfLife, (later - e.ts) / halfLife;
    assert 0.0 <= x <= y by {
      assert now - e.ts <= later - e.ts;
    }
    assert Weight(e, later, halfLife, decay) <= Weight(e, now, halfLife, decay);
  }

  /**
   Scoring is non-increasing in time: scoring the same breaches later, pruned
   by a window that starts no earlier, never gives a higher score.
   */
  lemma {:induction false} ScoreDecaysOverTime(
    h: seq<Breach>, d: Dir, now: real, later: real, start: real, laterStart: real,
    halfLife: real, decay: real -> real)
    requires halfLife > 0.0 && IsHalvingDecay(decay)
    requires forall i :: 0 <= i < |h| ==> h[i].ts <= now
    requires now <= later && start <= laterStart
    ensures Score(Filter(h, After(laterStart)), d, later, halfLife, decay)
         <= Score(Filter(h, After(start)), d, now, halfLife, decay)
    decreases |h|
  {
    if h != [] {
      var h', e := h[..|h| - 1], h[|h| - 1];
      assert h == h' + [e];
      ScoreDecaysOverTime(h', d, now, later, start, laterStart, halfLife, decay);
      var a, b := Filter(h', After(start)), Filter(h', After(laterStart));
      FilterSnoc(h', e, After(start));
      FilterSnoc(h', e, After(laterStart));
      ScoreSnoc(a, e, d, now, halfLife, decay);
      ScoreSnoc(b, e, d, later, halfLife, decay);
      ContributionDecays(e, d, now, later, start, laterStart, halfLife, decay);
    }
  }
}
