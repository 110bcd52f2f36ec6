/** The randomised reordering both quiz components use, with every draw of
    `Math.random()` supplied by the caller:

    - the per-question option reshuffle: take the correct option out, run a
      Fisher-Yates pass over the other three, and splice the correct option back
      in at a random slot;
    - a reordering of the question list, given as the sequence of
      transpositions that produces it (every permutation is one). */
module Shuffle {
  import opened Domain

  /** Draws for a Fisher-Yates pass over `n` elements: the k-th draw is the
      `j = Math.floor(Math.random() * (i + 1))` of the step with `i = n - 1 - k`,
      so it lies in [0, i]. */
  predicate ValidFisherYatesDraws(draws: seq<nat>, n: nat) {
    && |draws| == (if n == 0 then 0 else n - 1)
    && forall k :: 0 <= k < |draws| ==> draws[k] <= n - 1 - k
  }

  /** The in-place Fisher-Yates pass: `for (i = n - 1; i > 0; i--)` swap
      `a[i]` with `a[j]`. It only rearranges the elements. */
  method ShuffleInPlace(a: array<string>, draws: seq<nat>)
    requires ValidFisherYatesDraws(draws, a.Length)
    modifies a
    ensures multiset(a[..]) == old(multiset(a[..]))
  {
    var i := a.Length - 1;
    while i > 0
      invariant -1 <= i < a.Length
      invariant multiset(a[..]) == old(multiset(a[..]))
    {
      var j := draws[a.Length - 1 - i];
      a[i], a[j] := a[j], a[i];
      i := i - 1;
    }
  }

  /** The random draws one option reshuffle consumes: two Fisher-Yates draws
      for the three other options, then the slot of the correct option,
      `Math.floor(Math.random() * 4)`. */
  datatype OptionDraw = OptionDraw(swaps: seq<nat>, slot: nat)

  predicate ValidOptionDraw(d: OptionDraw) {
    ValidFisherYatesDraws(d.swaps, 3) && d.slot < 4
  }

  /** `s.filter((_, idx) => idx !== k)` for a position `k` of `s`. */
  function RemoveAt<T>(s: seq<T>, k: nat): (r: seq<T>)
    requires k < |s|
    ensures |r| == |s| - 1
    ensures multiset(r) + multiset{s[k]} == multiset(s)
  {
    assert s == s[..k] + [s[k]] + s[k + 1..];
    s[..k] + s[k + 1..]
  }

  /** `s.splice(k, 0, x)` for `k <= s.length`: `x` lands at position `k`. */
  function InsertAt<T>(s: seq<T>, k: nat, x: T): (r: seq<T>)
    requires k <= |s|
    ensures |r| == |s| + 1 && r[k] == x
    ensures multiset(r) == multiset(s) + multiset{x}
  {
    assert s == s[..k] + s[k..];
    s[..k] + [x] + s[k..]
  }

  /** `r` is `q` with its options rearranged so that the correct one sits at
      `slot`: same prompt, same explanation, same option multiset, same correct
      text. */
  predicate Reshuffled(r: ValidQuestion, q: ValidQuestion, slot: nat) {
    && r.question == q.question && r.explanation == q.explanation
    && r.correctIndex == slot
    && CorrectText(r) == CorrectText(q)
    && multiset(r.options) == multiset(q.options)
  }

  /** Moves the correct option of `q` to slot `d.slot` and shuffles the
      others around it. */
  method Rebalance(q: ValidQuestion, d: OptionDraw) returns (r: ValidQuestion)
    requires ValidOptionDraw(d)
    ensures r.question == q.question && r.explanation == q.explanation
    ensures r.correctIndex == d.slot
    ensures CorrectText(r) == CorrectText(q)
    ensures multiset(r.options) == multiset(q.options)
  {
    var correctOption := q.options[q.correctIndex];
    var others := RemoveAt(q.options, q.correctIndex);
    var a := new string[3];
    a[0], a[1], a[2] := others[0], others[1], others[2];
    assert a[..] == others;
    ShuffleInPlace(a, d.swaps);
    var newOptions := InsertAt(a[..], d.slot, correctOption);
    r := q.(options := newOptions, correctIndex := d.slot);
  }

  /** Every transposition names two positions of a list of length `n`. */
  predicate SwapsInRange(swaps: seq<(nat, nat)>, n: nat) {
    forall k :: 0 <= k < |swaps| ==> swaps[k].0 < n && swaps[k].1 < n
  }

  /** The list after applying the transpositions in order. */
  function ApplySwaps<T>(s: seq<T>, swaps: seq<(nat, nat)>): (r: seq<T>)
    requires SwapsInRange(swaps, |s|)
    ensures |r| == |s|
    ensures multiset(r) == multiset(s)
    decreases |swaps|
  {
    if swaps == [] then s
    else
      var i, j := swaps[0].0, swaps[0].1;
      var u := s[i := s[j]];
      var t := u[j := s[i]];
      assert multiset(t) == multiset(s) by {
        assert multiset(u) == multiset(s) - multiset{s[i]} + multiset{s[j]};
        assert u[j] == s[j];
        assert multiset(t) == multiset(u) - multiset{s[j]} + multiset{s[i]};
      }
      ApplySwaps(t, swaps[1..])
  }
}
