/** The builder's two loops, for any generator and any duplicate key: the
    inner loop redraws while the key has been seen, at most 52 times, and the
    outer loop fills the slots one pick at a time. */
module Builder {
  import opened Utils
  import opened Generators

  /** The problem the builder keeps for one slot and the number of generator
      calls it took (guard + 1). */
  datatype Pick = Pick(drawn: Drawn, passes: nat)

  /** The inner loop from guard value `guard` on, with generator `step` and
      duplicate key `key`: a problem whose key is new is kept at once; after
      51 rejections the 52nd is kept anyway. */
  function PickSpec(step: Rng -> Drawn, key: Problem -> string, g: Rng, seen: set<string>, guard: nat): (p: Pick)
    requires guard <= 51
    ensures guard < p.passes <= 52
    ensures p.passes < 52 ==> key(p.drawn.problem) !in seen
    decreases 51 - guard
  {
    var d := step(g);
    if key(d.problem) !in seen || guard > 50 then Pick(d, guard + 1)
    else PickSpec(step, key, d.rest, seen, guard + 1)
  }

  /** The source before generator call j (counted from 0) of the inner loop. */
  function CallSource(step: Rng -> Drawn, g: Rng, j: nat): Rng
    decreases j
  {
    if j == 0 then g else CallSource(step, step(g).rest, j - 1)
  }

  /** The inner loop keeps the first problem whose key is new: every call
      before the last drew a problem whose key had been seen, and the kept
      problem is the one the last call drew. In particular a first call with
      a new key is kept at once. */
  lemma {:induction false} PickFirst(step: Rng -> Drawn, key: Problem -> string, g: Rng, seen: set<string>, guard: nat)
    requires guard <= 51
    ensures var p := PickSpec(step, key, g, seen, guard);
      && p.drawn == step(CallSource(step, g, p.passes - guard - 1))
      && (forall j: nat | guard + j + 1 < p.passes :: key(step(CallSource(step, g, j)).problem) in seen)
      && (key(step(g).problem) !in seen ==> p.passes == guard + 1)
    decreases 51 - guard
  {
    var d := step(g);
    if !(key(d.problem) !in seen || guard > 50) {
      PickFirst(step, key, d.rest, seen, guard + 1);
      var p := PickSpec(step, key, g, seen, guard);
      assert CallSource(step, g, p.passes - guard - 1) == CallSource(step, d.rest, p.passes - guard - 2);
      forall j: nat | guard + j + 1 < p.passes
        ensures key(step(CallSource(step, g, j)).problem) in seen
      {
        if j > 0 {
          assert CallSource(step, g, j) == CallSource(step, d.rest, j - 1);
        }
      }
    }
  }

  /** The kept problem is one the generator produced, whichever pass kept it:
      whatever every draw of the generator satisfies, the pick satisfies. */
  lemma {:induction false} PickKeeps(P: Drawn -> bool, step: Rng -> Drawn, key: Problem -> string,
                                     g: Rng, seen: set<string>, guard: nat)
    requires guard <= 51
    requires forall h :: P(step(h))
    ensures P(PickSpec(step, key, g, seen, guard).drawn)
    decreases 51 - guard
  {
    var d := step(g);
    if !(key(d.problem) !in seen || guard > 50) {
      PickKeeps(P, step, key, d.rest, seen, guard + 1);
    }
  }

  /** The outer loop with `count` slots left: each slot is one pick, and its
      key joins `seen`. */
  function FillSpec(step: Rng -> Drawn, key: Problem -> string, g: Rng, seen: set<string>, count: nat): (ps: seq<Pick>)
    ensures |ps| == count
    decreases count
  {
    if count == 0 then []
    else
      var p := PickSpec(step, key, g, seen, 0);
      [p] + FillSpec(step, key, p.drawn.rest, seen + {key(p.drawn.problem)}, count - 1)
  }

  /** Every pick of the outer loop satisfies what every draw of the generator
      satisfies, and took one to 52 generator calls. */
  lemma {:induction false} FillKeeps(P: Drawn -> bool, step: Rng -> Drawn, key: Problem -> string,
                                     g: Rng, seen: set<string>, count: nat)
    requires forall h :: P(step(h))
    ensures forall i | 0 <= i < count ::
      P(FillSpec(step, key, g, seen, count)[i].drawn) && 1 <= FillSpec(step, key, g, seen, count)[i].passes <= 52
    decreases count
  {
    if count > 0 {
      var p := PickSpec(step, key, g, seen, 0);
      var rest := FillSpec(step, key, p.drawn.rest, seen + {key(p.drawn.problem)}, count - 1);
      PickKeeps(P, step, key, g, seen, 0);
      FillKeeps(P, step, key, p.drawn.rest, seen + {key(p.drawn.problem)}, count - 1);
      var ps := FillSpec(step, key, g, seen, count);
      assert ps == [p] + rest;
      forall i | 0 <= i < count
        ensures P(ps[i].drawn) && 1 <= ps[i].passes <= 52
      {
        if i > 0 {
          assert ps[i] == rest[i - 1];
        }
      }
    }
  }

  /** A problem the outer loop keeps before the 52nd call is new: its key is
      neither in the initial `seen` nor that of an earlier one. */
  lemma {:induction false} FillFresh(step: Rng -> Drawn, key: Problem -> string,
                                     g: Rng, seen: set<string>, count: nat)
    ensures forall i | 0 <= i < count :: FillSpec(step, key, g, seen, count)[i].passes < 52 ==>
      key(FillSpec(step, key, g, seen, count)[i].drawn.problem) !in seen
    ensures forall i, j | 0 <= j < i < count :: FillSpec(step, key, g, seen, count)[i].passes < 52 ==>
      key(FillSpec(step, key, g, seen, count)[i].drawn.problem) != key(FillSpec(step, key, g, seen, count)[j].drawn.problem)
    decreases count
  {
    if count > 0 {
      var p := PickSpec(step, key, g, seen, 0);
      var seen' := seen + {key(p.drawn.problem)};
      var rest := FillSpec(step, key, p.drawn.rest, seen', count - 1);
      FillFresh(step, key, p.drawn.rest, seen', count - 1);
      var ps := FillSpec(step, key, g, seen, count);
      assert ps == [p] + rest;
      forall i | 0 < i < count
        ensures ps[i] == rest[i - 1]
      {
      }
      forall i, j | 0 <= j < i < count && ps[i].passes < 52
        ensures key(ps[i].drawn.problem) != key(ps[j].drawn.problem)
      {
        if j == 0 {
          assert key(rest[i - 1].drawn.problem) !in seen';
        } else {
          assert key(rest[i - 1].drawn.problem) != key(rest[j - 1].drawn.problem);
        }
      }
    }
  }
  /** The problems of a list of picks, in order. */
  function ProblemsOf(ps: seq<Pick>): (problems: seq<Problem>)
    ensures |problems| == |ps|
    ensures forall i | 0 <= i < |ps| :: problems[i] == ps[i].drawn.problem
  {
    if ps == [] then [] else [ps[0].drawn.problem] + ProblemsOf(ps[1..])
  }

  /** One pass of the outer loop: the problems of the remaining slots are
      the next pick's problem followed by those of the slots after it. */
  lemma FillProblemsStep(step: Rng -> Drawn, key: Problem -> string, g: Rng, seen: set<string>, count: nat,
                         p: Pick, seen': set<string>, count': nat)
    requires count == count' + 1
    requires p == PickSpec(step, key, g, seen, 0)
    requires seen' == seen + {key(p.drawn.problem)}
    ensures ProblemsOf(FillSpec(step, key, g, seen, count))
         == [p.drawn.problem] + ProblemsOf(FillSpec(step, key, p.drawn.rest, seen', count'))
  {
    var ps := FillSpec(step, key, g, seen, count);
    var later := FillSpec(step, key, p.drawn.rest, seen', count');
    assert ps == [p] + later;
    assert ps[0] == p && ps[1..] == later;
    assert ProblemsOf(ps) == [ps[0].drawn.problem] + ProblemsOf(ps[1..]);
  }
}
