/**
  The grace throttle: a conditional UPDATE that overwrites a nullable timestamp only
  when it is null or older than the caller's own cutoff. Each caller captured its
  reference instant earlier, so attempts reach the row in any order of references.
 */
module Throttle {
  import opened Stamps

  /** One attempted claim: the reference its caller captured and the grace it applies. */
  datatype Attempt = Attempt(now: int, grace: nat)

  predicate Wins(stamp: Stamp, a: Attempt) {
    OlderThan(stamp, a.now - a.grace)
  }

  /** The row after one atomic attempt. */
  function Claim(stamp: Stamp, a: Attempt): Stamp {
    if Wins(stamp, a) then Some(a.now) else stamp
  }

  /** The row after attempts served in this order. */
  function StampAfter(stamp: Stamp, attempts: seq<Attempt>): Stamp
    decreases |attempts|
  {
    if attempts == [] then stamp
    else StampAfter(Claim(stamp, attempts[0]), attempts[1..])
  }

  /** The attempts that won, in the order the row served them. */
  function Winners(stamp: Stamp, attempts: seq<Attempt>): seq<Attempt>
    decreases |attempts|
  {
    if attempts == [] then []
    else (if Wins(stamp, attempts[0]) then [attempts[0]] else [])
         + Winners(Claim(stamp, attempts[0]), attempts[1..])
  }

  // ---------------------------------------------------------------- safety

  /** Every winner is later than the stamp it overwrote by more than its own grace. */
  ghost predicate Throttled(stamp: Stamp, wins: seq<Attempt>) {
    && (wins != [] && stamp.Some? ==> wins[0].now > stamp.value + wins[0].grace)
    && forall i, j | 0 <= i < j < |wins| && j == i + 1 :: wins[j].now > wins[i].now + wins[j].grace
  }

  /**
    Whatever the order of the references, each win exceeds the stamp it found by more
    than the winner's grace, and the row ends at the last winner's reference.
   */
  lemma {:induction false} WinnersAreThrottled(stamp: Stamp, attempts: seq<Attempt>)
    ensures Throttled(stamp, Winners(stamp, attempts))
    ensures var w := Winners(stamp, attempts);
            StampAfter(stamp, attempts) == if w == [] then stamp else Some(w[|w| - 1].now)
    decreases |attempts|
  {
    if attempts == [] {
    } else {
      WinnersAreThrottled(Claim(stamp, attempts[0]), attempts[1..]);
    }
  }

  /**
    Throttled winners are strictly increasing, and `n` wins that all apply a grace of
    at least `g` span more than `(n - 1) * g`.
   */
  lemma {:induction false} WinnersSpan(stamp: Stamp, wins: seq<Attempt>, g: nat, i: nat, j: nat)
    requires Throttled(stamp, wins)
    requires forall k | 0 <= k < |wins| :: wins[k].grace >= g
    requires i < j < |wins|
    ensures wins[j].now - wins[i].now > (j - i) * g
    ensures wins[i].now < wins[j].now
    decreases j
  {
    assert wins[j].now > wins[j - 1].now + g;
    if j == i + 1 {
    } else {
      WinnersSpan(stamp, wins, g, i, j - 1);
      MultiplyStep(j - 1 - i, g);
    }
  }

  lemma MultiplyStep(n: nat, g: nat)
    ensures (n + 1) * g == n * g + g
  {
  }

  // ------------------------------------------------- many rows, many workers

  /** A step of the whole system: some worker attempts a claim on row `id`. */
  datatype RowAttempt = RowAttempt(id: int, attempt: Attempt)

  /** The stamp table after an interleaving; an attempt on a deleted row hits nothing. */
  function TableAfter(table: map<int, Stamp>, steps: seq<RowAttempt>): map<int, Stamp> {
    if steps == [] then table
    else
      var s := steps[0];
      TableAfter(if s.id in table then table[s.id := Claim(table[s.id], s.attempt)] else table, steps[1..])
  }

  /** The steps of an interleaving that won, in order. */
  function TableWins(table: map<int, Stamp>, steps: seq<RowAttempt>): seq<RowAttempt> {
    if steps == [] then []
    else
      var s := steps[0];
      if s.id !in table then TableWins(table, steps[1..])
      else
        (if Wins(table[s.id], s.attempt) then [s] else [])
        + TableWins(table[s.id := Claim(table[s.id], s.attempt)], steps[1..])
  }

  function OnRow(id: int, steps: seq<RowAttempt>): seq<Attempt> {
    if steps == [] then []
    else (if steps[0].id == id then [steps[0].attempt] else []) + OnRow(id, steps[1..])
  }

  /**
    Any interleaving of any number of workers over any number of rows is, row by row,
    the single-row throttle applied to that row's own attempts.
   */
  lemma {:induction false} RowsAreIndependent(table: map<int, Stamp>, steps: seq<RowAttempt>, id: int)
    requires id in table
    ensures TableAfter(table, steps).Keys == table.Keys
    ensures TableAfter(table, steps)[id] == StampAfter(table[id], OnRow(id, steps))
    ensures OnRow(id, TableWins(table, steps)) == Winners(table[id], OnRow(id, steps))
  {
    if steps == [] {
    } else {
      var s := steps[0];
      var next := if s.id in table then table[s.id := Claim(table[s.id], s.attempt)] else table;
      assert next.Keys == table.Keys;
      RowsAreIndependent(next, steps[1..], id);
      if s.id == id {
        assert OnRow(id, steps)[1..] == OnRow(id, steps[1..]);
      } else {
        assert OnRow(id, steps) == OnRow(id, steps[1..]);
      }
      if s.id in table && Wins(table[s.id], s.attempt) {
        var later := TableWins(next, steps[1..]);
        assert TableWins(table, steps) == [s] + later;
        assert ([s] + later)[1..] == later;
      } else {
        assert TableWins(table, steps) == TableWins(next, steps[1..]);
      }
    }
  }

  lemma {:induction false} WinnersAreAttempts(stamp: Stamp, attempts: seq<Attempt>)
    ensures forall a | a in Winners(stamp, attempts) :: a in attempts
    decreases |attempts|
  {
    if attempts == [] {
    } else {
      WinnersAreAttempts(Claim(stamp, attempts[0]), attempts[1..]);
    }
  }

  /**
    Concurrent dispatchers: over every interleaving, the wins on one row have strictly
    increasing references, `n` of them span more than `(n - 1) * g` when every attempt
    on that row applies a grace of at least `g`, and the row ends at the last winner.
   */
  lemma ConcurrentClaimsAreThrottled(table: map<int, Stamp>, steps: seq<RowAttempt>, id: int, g: nat, i: nat, j: nat)
    requires id in table
    requires forall a | a in OnRow(id, steps) :: a.grace >= g
    requires i < j < |OnRow(id, TableWins(table, steps))|
    ensures var w := OnRow(id, TableWins(table, steps));
            && w[i].now < w[j].now
            && w[j].now - w[i].now > (j - i) * g
            && id in TableAfter(table, steps)
            && TableAfter(table, steps)[id] == Some(w[|w| - 1].now)
  {
    RowsAreIndependent(table, steps, id);
    var row := OnRow(id, steps);
    WinnersAreThrottled(table[id], row);
    WinnersAreAttempts(table[id], row);
    var w := Winners(table[id], row);
    forall k | 0 <= k < |w| ensures w[k].grace >= g { assert w[k] in w; }
    WinnersSpan(table[id], w, g, i, j);
  }

  // ------------------------------------------------------------ optimality

  function Attempts(times: seq<int>, grace: nat): (r: seq<Attempt>)
    ensures |r| == |times|
  {
    if times == [] then [] else [Attempt(times[0], grace)] + Attempts(times[1..], grace)
  }

  function Times(attempts: seq<Attempt>): (r: seq<int>)
    ensures |r| == |attempts|
  {
    if attempts == [] then [] else [attempts[0].now] + Times(attempts[1..])
  }

  /** References at which readings of one alert win, when each is served at its own time. */
  function WinningTimes(stamp: Stamp, times: seq<int>, grace: nat): seq<int> {
    Times(Winners(stamp, Attempts(times, grace)))
  }

  lemma WinningTimesStep(stamp: Stamp, times: seq<int>, grace: nat)
    requires times != []
    ensures WinningTimes(stamp, times, grace)
            == if OlderThan(stamp, times[0] - grace)
               then [times[0]] + WinningTimes(Some(times[0]), times[1..], grace)
               else WinningTimes(stamp, times[1..], grace)
  {
    var a := Attempts(times, grace);
    var w := Winners(stamp, a);
    assert a[0] == Attempt(times[0], grace) && a[1..] == Attempts(times[1..], grace);
    if OlderThan(stamp, times[0] - grace) {
      assert w[1..] == Winners(Some(times[0]), a[1..]);
    } else {
      assert w == Winners(stamp, a[1..]);
    }
  }

  /** Serving one more reading appends it exactly when the row it finds is old enough. */
  lemma {:induction false} WinningTimesSnoc(stamp: Stamp, times: seq<int>, grace: nat, t: int)
    ensures StampAfter(stamp, Attempts(times + [t], grace))
            == Claim(StampAfter(stamp, Attempts(times, grace)), Attempt(t, grace))
    ensures WinningTimes(stamp, times + [t], grace)
            == WinningTimes(stamp, times, grace)
               + if OlderThan(StampAfter(stamp, Attempts(times, grace)), t - grace) then [t] else []
    decreases |times|
  {
    WinningTimesStep(stamp, times + [t], grace);
    if times == [] {
      assert times + [t] == [t];
    } else {
      var a := Attempt(times[0], grace);
      assert (times + [t])[1..] == times[1..] + [t];
      WinningTimesStep(stamp, times, grace);
      WinningTimesSnoc(Claim(stamp, a), times[1..], grace, t);
      assert Attempts(times, grace)[0] == a && Attempts(times, grace)[1..] == Attempts(times[1..], grace);
      assert Attempts(times + [t], grace)[0] == a && Attempts(times + [t], grace)[1..] == Attempts(times[1..] + [t], grace);
    }
  }

  /** The row always carries the last winning time. */
  lemma {:induction false} StampIsLastWin(stamp: Stamp, times: seq<int>, grace: nat)
    ensures var w := WinningTimes(stamp, times, grace);
            StampAfter(stamp, Attempts(times, grace)) == if w == [] then stamp else Some(w[|w| - 1])
    decreases |times|
  {
    if times == [] {
    } else {
      var next := Claim(stamp, Attempt(times[0], grace));
      var a := Attempts(times, grace);
      WinningTimesStep(stamp, times, grace);
      StampIsLastWin(next, times[1..], grace);
      assert a[0] == Attempt(times[0], grace) && a[1..] == Attempts(times[1..], grace);
    }
  }

  /** `s` keeps the grace from `stamp` on: what a legal notification history looks like. */
  ghost predicate Spaced(stamp: Stamp, s: seq<int>, grace: nat) {
    && (s != [] && stamp.Some? ==> s[0] > stamp.value + grace)
    && forall i, j | 0 <= i < j < |s| && j == i + 1 :: s[j] > s[i] + grace
  }

  /** A nonempty history is spaced when its head is and the rest is spaced from its head. */
  lemma SpacedCons(stamp: Stamp, s: seq<int>, grace: nat)
    requires s != []
    ensures Spaced(stamp, s, grace)
            <==> (stamp.Some? ==> s[0] > stamp.value + grace) && Spaced(Some(s[0]), s[1..], grace)
  {
    var tail := s[1..];
    assert forall i {:trigger tail[i]} :: 0 <= i < |tail| ==> tail[i] == s[i + 1];
    if Spaced(Some(s[0]), tail, grace) {
      forall i, j | 0 <= i < j < |s| && j == i + 1
        ensures s[j] > s[i] + grace
      {
        assert s[j] == tail[i];
        assert i > 0 ==> tail[i] > tail[i - 1] + grace;
      }
    }
  }

  /** The grace holds between any two entries of a legal history, not only neighbours. */
  lemma {:induction false} SpacedPairs(stamp: Stamp, s: seq<int>, grace: nat, i: nat, j: nat)
    requires Spaced(stamp, s, grace) && i < j < |s|
    ensures s[i] + grace < s[j]
    decreases j
  {
    assert s[j - 1] + grace < s[j];
    if j == i + 1 {
    } else {
      SpacedPairs(stamp, s, grace, i, j - 1);
    }
  }

  ghost predicate Subsequence<T>(s: seq<T>, of: seq<T>) {
    s == [] || (of != [] && ((s[0] == of[0] && Subsequence(s[1..], of[1..])) || Subsequence(s, of[1..])))
  }

  ghost predicate Ordered(times: seq<int>) {
    forall i, j :: 0 <= i <= j < |times| ==> times[i] <= times[j]
  }

  /** Index of the earliest reading the grace allows, or the length when none is left. */
  function NextAllowed(stamp: Stamp, times: seq<int>, grace: nat): (k: nat)
    ensures k <= |times|
    ensures forall i :: 0 <= i < k ==> !OlderThan(stamp, times[i] - grace)
    ensures k < |times| ==> OlderThan(stamp, times[k] - grace)
  {
    if times == [] || OlderThan(stamp, times[0] - grace) then 0
    else 1 + NextAllowed(stamp, times[1..], grace)
  }

  /** Greedy thinning: keep the earliest allowed reading, then thin what follows it. */
  function Thinning(stamp: Stamp, times: seq<int>, grace: nat): seq<int>
    decreases |times|
  {
    var k := NextAllowed(stamp, times, grace);
    if k == |times| then [] else [times[k]] + Thinning(Some(times[k]), times[k + 1..], grace)
  }

  /** The conditional claim computes exactly the greedy thinning. */
  lemma {:induction false} ClaimIsThinning(stamp: Stamp, times: seq<int>, grace: nat)
    ensures WinningTimes(stamp, times, grace) == Thinning(stamp, times, grace)
    decreases |times|
  {
    if times == [] {
    } else {
      WinningTimesStep(stamp, times, grace);
      if OlderThan(stamp, times[0] - grace) {
        ClaimIsThinning(Some(times[0]), times[1..], grace);
      } else {
        ClaimIsThinning(stamp, times[1..], grace);
        var k := NextAllowed(stamp, times[1..], grace);
        if k < |times[1..]| {
          assert times[1..][k + 1..] == times[k + 2..];
        }
      }
    }
  }

  /** What the throttle sends is itself a legal history drawn from the readings. */
  lemma {:induction false} WinningTimesAreLegal(stamp: Stamp, times: seq<int>, grace: nat)
    ensures Subsequence(WinningTimes(stamp, times, grace), times)
    ensures Spaced(stamp, WinningTimes(stamp, times, grace), grace)
    decreases |times|
  {
    if times == [] {
    } else {
      WinningTimesStep(stamp, times, grace);
      if OlderThan(stamp, times[0] - grace) {
        WinningTimesAreLegal(Some(times[0]), times[1..], grace);
        var w := WinningTimes(stamp, times, grace);
        assert w[1..] == WinningTimes(Some(times[0]), times[1..], grace);
        SpacedCons(stamp, w, grace);
      } else {
        WinningTimesAreLegal(stamp, times[1..], grace);
      }
    }
  }

  /**
    The throttle is optimal: over time-ordered triggering readings no legal history
    drawn from them is longer than the one the claim produces (exchange argument).
   */
  lemma {:induction false} ThrottleIsOptimal(stamp: Stamp, times: seq<int>, grace: nat, s: seq<int>)
    requires Ordered(times)
    requires Subsequence(s, times) && Spaced(stamp, s, grace)
    ensures |s| <= |WinningTimes(stamp, times, grace)|
    decreases |times|
  {
    if s == [] {
    } else {
      var rest := times[1..];
      OrderedTail(times);
      WinningTimesStep(stamp, times, grace);
      if OlderThan(stamp, times[0] - grace) {
        SubsequenceTail(s, times);
        SubsequenceHead(s, times);
        SpacedCons(stamp, s, grace);
        ThrottleIsOptimal(Some(times[0]), rest, grace, s[1..]);
      } else {
        assert s[0] != times[0];
        ThrottleIsOptimal(stamp, rest, grace, s);
      }
    }
  }

  /** Dropping the first element of a nonempty subsequence lets the source drop one too. */
  lemma {:induction false} SubsequenceTail<T>(s: seq<T>, of: seq<T>)
    requires s != [] && Subsequence(s, of)
    ensures Subsequence(s[1..], of[1..])
  {
    if s[0] == of[0] && Subsequence(s[1..], of[1..]) {
    } else {
      SubsequenceTail(s, of[1..]);
    }
  }

  lemma OrderedTail(times: seq<int>)
    requires Ordered(times) && times != []
    ensures Ordered(times[1..])
  {
    assert forall i :: 0 <= i < |times[1..]| ==> times[1..][i] == times[i + 1];
  }

  lemma {:induction false} SubsequenceHead(s: seq<int>, of: seq<int>)
    requires s != [] && Subsequence(s, of) && Ordered(of)
    ensures of != [] && s[0] >= of[0]
  {
    if s[0] == of[0] {
    } else {
      OrderedTail(of);
      SubsequenceHead(s, of[1..]);
    }
  }

  /** Without time order the greedy claim can fall short of the best legal history. */
  lemma OptimalityNeedsOrder()
    ensures exists times, s: seq<int> ::
              Subsequence(s, times) && Spaced(None, s, 1) && |s| > |WinningTimes(None, times, 1)|
  {
    var times := [9, 0, 2];
    var s := [0, 2];
    assert times[1..] == [0, 2] && s[1..] == [2] && times[1..][1..] == [2];
    assert Subsequence(s, times);
    assert Attempts(times, 1) == [Attempt(9, 1), Attempt(0, 1), Attempt(2, 1)];
    assert Winners(Some(9), [Attempt(2, 1)]) == [];
    assert Winners(Some(9), [Attempt(0, 1), Attempt(2, 1)]) == [];
    assert |WinningTimes(None, times, 1)| == 1;
  }
}
