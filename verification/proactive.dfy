/**
  The proactive-nudge protocol of one customer: overlapping scans share the ledger
  column `last_sent`. Each scan captures its reference, reads the prior stamp, claims
  with a conditional UPDATE, sends, and on a failed send overwrites the column with the
  stamp it had read. Every database statement is one atomic step; anything may happen
  between two steps of a scan, including its worker dying.
 */
module Proactive {
  import opened Stamps
  import Throttle

  const COOLDOWN: nat := 24 * HOUR

  datatype Phase =
    | Idle
    | Captured(reference: int)
    | Read(reference: int, prev: Stamp)
    | Claimed(reference: int, prev: Stamp)
    | Failed(reference: int, prev: Stamp)
  {
    /** The worker's claim is on the row and its outcome is not settled. */
    predicate Holding() { Claimed? || Failed? }
  }

  /** A nudge that went out: the reference of its scan, and when it was sent. */
  datatype Nudge = Nudge(reference: int, at: int)

  datatype State = State(
    clock: int,
    lastSent: Stamp,
    workers: map<nat, Phase>,
    delivered: seq<Nudge>)   // in order of sending
  {
    function PhaseOf(w: nat): Phase { if w in workers then workers[w] else Idle }

    function With(w: nat, p: Phase): State { this.(workers := workers[w := p]) }
  }

  datatype Step =
    | Advance(to: int)
    | Capture(w: nat)
    | ReadStamp(w: nat)
    | TryClaim(w: nat)
    | Send(w: nat, ok: bool)
    | Restore(w: nat)
    | Crash(w: nat)

  predicate Enabled(s: State, step: Step) {
    match step
    case Advance(to) => s.clock <= to
    case Capture(w) => s.PhaseOf(w).Idle?
    case ReadStamp(w) => s.PhaseOf(w).Captured?
    case TryClaim(w) => s.PhaseOf(w).Read?
    case Send(w, _) => s.PhaseOf(w).Claimed?
    case Restore(w) => s.PhaseOf(w).Failed?
    case Crash(w) => !s.PhaseOf(w).Idle?
  }

  function Apply(s: State, step: Step): State
    requires Enabled(s, step)
  {
    match step
    case Advance(to) => s.(clock := to)
    case Capture(w) => s.With(w, Captured(s.clock))
    case ReadStamp(w) => s.With(w, Read(s.PhaseOf(w).reference, s.lastSent))
    case TryClaim(w) =>
      var p := s.PhaseOf(w);
      if OlderThan(s.lastSent, p.reference - COOLDOWN)
      then s.With(w, Claimed(p.reference, p.prev)).(lastSent := Some(p.reference))
      else s.With(w, Idle)
    case Send(w, ok) =>
      var p := s.PhaseOf(w);
      if ok
      then s.With(w, Idle).(delivered := s.delivered + [Nudge(p.reference, s.clock)])
      else s.With(w, Failed(p.reference, p.prev))
    case Restore(w) => s.With(w, Idle).(lastSent := s.PhaseOf(w).prev)
    case Crash(w) => s.With(w, Idle)
  }

  /** No attempt in flight is older than `bound`. */
  ghost predicate OnTime(s: State, bound: nat) {
    forall w | !s.PhaseOf(w).Idle? :: s.clock <= s.PhaseOf(w).reference + bound
  }

  ghost predicate Init(s: State) {
    (forall w :: s.PhaseOf(w).Idle?) && s.delivered == []
  }

  /** Every step can be taken and leaves every attempt within `bound` of its reference. */
  ghost predicate ValidRun(s: State, steps: seq<Step>, bound: nat)
    decreases |steps|
  {
    steps == [] || (Enabled(s, steps[0])
                    && OnTime(Apply(s, steps[0]), bound)
                    && ValidRun(Apply(s, steps[0]), steps[1..], bound))
  }

  ghost function Final(s: State, steps: seq<Step>, bound: nat): State
    requires ValidRun(s, steps, bound)
    decreases |steps|
  {
    if steps == [] then s else Final(Apply(s, steps[0]), steps[1..], bound)
  }

  /** Any two delivered nudges have references more than the cooldown apart. */
  ghost predicate DeliveriesSpaced(s: State) {
    forall i, j | 0 <= i < j < |s.delivered| :: s.delivered[j].reference > s.delivered[i].reference + COOLDOWN
  }

  // ------------------------------------------------------------ invariant

  /** `stamp` is no earlier than the last delivered nudge. */
  ghost predicate CoversDeliveries(stamp: Stamp, s: State) {
    s.delivered != [] ==> AtLeast(stamp, s.delivered[|s.delivered| - 1].reference)
  }

  /** The last delivery is too recent for a claim with this reference to win. */
  ghost predicate TooRecent(s: State, reference: int) {
    s.delivered != [] && s.delivered[|s.delivered| - 1].reference >= reference - COOLDOWN
  }

  ghost predicate References(s: State) {
    forall w | !s.PhaseOf(w).Idle? :: s.PhaseOf(w).reference <= s.clock <= s.PhaseOf(w).reference + COOLDOWN
  }

  ghost predicate MutualExclusion(s: State) {
    forall v, w | s.PhaseOf(v).Holding() && s.PhaseOf(w).Holding() :: v == w
  }

  ghost predicate HoldersOwnTheRow(s: State) {
    forall w | s.PhaseOf(w).Holding() ::
      && s.lastSent == Some(s.PhaseOf(w).reference)
      && CoversDeliveries(s.PhaseOf(w).prev, s)
      && !TooRecent(s, s.PhaseOf(w).reference)
  }

  ghost predicate ReadersAreSafe(s: State) {
    forall w | s.PhaseOf(w).Read? ::
      CoversDeliveries(s.PhaseOf(w).prev, s) || TooRecent(s, s.PhaseOf(w).reference)
  }

  ghost predicate Inv(s: State) {
    && References(s)
    && MutualExclusion(s)
    && HoldersOwnTheRow(s)
    && CoversDeliveries(s.lastSent, s)
    && ReadersAreSafe(s)
    && DeliveriesSpaced(s)
  }

  /** Steps that move neither the ledger column nor the list of deliveries. */
  lemma QuietStepKeepsInv(s: State, step: Step)
    requires Inv(s) && Enabled(s, step) && OnTime(Apply(s, step), COOLDOWN)
    requires step.Advance? || step.Capture? || step.ReadStamp? || step.Crash?
    ensures Inv(Apply(s, step))
  {
    var t := Apply(s, step);
    assert step.Advance? ==> forall v :: t.PhaseOf(v) == s.PhaseOf(v);
    assert !step.Advance? ==> forall v :: v != step.w ==> t.PhaseOf(v) == s.PhaseOf(v);
  }

  /** A claim that wins proves nobody held the row: a holder's reference is too recent. */
  lemma ClaimKeepsInv(s: State, w: nat)
    requires Inv(s) && s.PhaseOf(w).Read? && OnTime(Apply(s, TryClaim(w)), COOLDOWN)
    ensures Inv(Apply(s, TryClaim(w)))
  {
    var t := Apply(s, TryClaim(w));
    assert forall v :: v != w ==> t.PhaseOf(v) == s.PhaseOf(v);
    if OlderThan(s.lastSent, s.PhaseOf(w).reference - COOLDOWN) {
      forall v ensures !s.PhaseOf(v).Holding() {
        assert s.PhaseOf(w).reference <= s.clock;
      }
      assert !TooRecent(s, s.PhaseOf(w).reference);
      assert CoversDeliveries(s.PhaseOf(w).prev, t);
    }
  }

  /** A delivery is recent for every reader, because the claim it settles was on time. */
  lemma SendKeepsInv(s: State, w: nat, ok: bool)
    requires Inv(s) && s.PhaseOf(w).Claimed? && OnTime(Apply(s, Send(w, ok)), COOLDOWN)
    ensures Inv(Apply(s, Send(w, ok)))
  {
    var t := Apply(s, Send(w, ok));
    assert forall v :: v != w ==> t.PhaseOf(v) == s.PhaseOf(v);
    if ok {
      var reference := s.PhaseOf(w).reference;
      assert t.delivered[|t.delivered| - 1] == Nudge(reference, s.clock);
      assert DeliveriesSpaced(t) by {
        forall i, j | 0 <= i < j < |t.delivered|
          ensures t.delivered[j].reference > t.delivered[i].reference + COOLDOWN
        {
          assert i < |s.delivered| && t.delivered[i] == s.delivered[i];
          if i < |s.delivered| - 1 {
            assert s.delivered[|s.delivered| - 1].reference > s.delivered[i].reference + COOLDOWN;
          }
        }
      }
    }
  }

  /** Restoring the stamp a holder read keeps every delivery covered. */
  lemma RestoreKeepsInv(s: State, w: nat)
    requires Inv(s) && s.PhaseOf(w).Failed?
    ensures Inv(Apply(s, Restore(w)))
  {
    var t := Apply(s, Restore(w));
    assert forall v :: v != w ==> t.PhaseOf(v) == s.PhaseOf(v);
  }

  /** Every step of an on-time run keeps the invariant. */
  lemma StepKeepsInv(s: State, step: Step, bound: nat)
    requires bound <= COOLDOWN
    requires Inv(s) && Enabled(s, step) && OnTime(Apply(s, step), bound)
    ensures Inv(Apply(s, step))
  {
    match step
    case TryClaim(w) => ClaimKeepsInv(s, w);
    case Send(w, ok) => SendKeepsInv(s, w, ok);
    case Restore(w) => RestoreKeepsInv(s, w);
    case _ => QuietStepKeepsInv(s, step);
  }

  lemma {:induction false} RunKeepsInv(s: State, steps: seq<Step>, bound: nat)
    requires bound <= COOLDOWN
    requires Inv(s) && ValidRun(s, steps, bound)
    ensures Inv(Final(s, steps, bound))
    decreases |steps|
  {
    if steps == [] {
    } else {
      StepKeepsInv(s, steps[0], bound);
      RunKeepsInv(Apply(s, steps[0]), steps[1..], bound);
    }
  }

  /**
    Safety over every run: when each attempt finishes within the cooldown of its own
    reference, delivered nudges have references more than one cooldown apart.
   */
  lemma NudgesAreSpaced(s: State, steps: seq<Step>, bound: nat)
    requires bound <= COOLDOWN
    requires Init(s) && ValidRun(s, steps, bound)
    ensures DeliveriesSpaced(Final(s, steps, bound))
  {
    RunKeepsInv(s, steps, bound);
  }

  // -------------------------------------------- the deadline is necessary

  /** A row and two of its scans, written out. */
  function Two(clock: int, lastSent: Stamp, zero: Phase, one: Phase, delivered: seq<Nudge>): State {
    State(clock, lastSent, map[0 := zero, 1 := one], delivered)
  }

  /** Prepending a step to a run, between states that are written out. */
  lemma RunCons(s: State, step: Step, t: State, rest: seq<Step>, bound: nat)
    requires Enabled(s, step) && Apply(s, step) == t
    requires OnTime(t, bound) && ValidRun(t, rest, bound)
    ensures ValidRun(s, [step] + rest, bound)
    ensures Final(s, [step] + rest, bound) == Final(t, rest, bound)
  {
    assert ([step] + rest)[1..] == rest;
  }

  /**
    A scan that stalls past the cooldown: its claim expires, a second scan claims and
    delivers, then the first one's failed send restores the null it had read, and the
    row is free for a third nudge at once.
   */
  const STALLED_SCAN: seq<Step> :=
    [Capture(0)] + ([ReadStamp(0)] + ([TryClaim(0)] + STALLED_THEN))
  const STALLED_THEN: seq<Step> :=
    [Advance(COOLDOWN + 1)] + ([Capture(1)] + ([ReadStamp(1)] + ([TryClaim(1)] + ([Send(1, true)] + STALLED_LAST))))
  const STALLED_LAST: seq<Step> :=
    [Send(0, false)] + ([Restore(0)] + ([Capture(1)] + ([ReadStamp(1)] + ([TryClaim(1)] + ([Send(1, true)] + [])))))

  const FRESH := Two(0, None, Idle, Idle, [])
  const LATE: int := COOLDOWN + 1

  lemma StalledLast(bound: nat)
    requires bound > COOLDOWN
    ensures var s := Two(LATE, Some(LATE), Claimed(0, None), Idle, [Nudge(LATE, LATE)]);
            && ValidRun(s, STALLED_LAST, bound)
            && Final(s, STALLED_LAST, bound).delivered == [Nudge(LATE, LATE), Nudge(LATE, LATE)]
  {
    var s0 := Two(LATE, Some(LATE), Claimed(0, None), Idle, [Nudge(LATE, LATE)]);
    var s1 := Two(LATE, Some(LATE), Failed(0, None), Idle, [Nudge(LATE, LATE)]);
    var s2 := Two(LATE, None, Idle, Idle, [Nudge(LATE, LATE)]);
    var s3 := Two(LATE, None, Idle, Captured(LATE), [Nudge(LATE, LATE)]);
    var s4 := Two(LATE, None, Idle, Read(LATE, None), [Nudge(LATE, LATE)]);
    var s5 := Two(LATE, Some(LATE), Idle, Claimed(LATE, None), [Nudge(LATE, LATE)]);
    var s6 := Two(LATE, Some(LATE), Idle, Idle, [Nudge(LATE, LATE), Nudge(LATE, LATE)]);
    var r5 := [Send(1, true)] + [];
    RunCons(s5, Send(1, true), s6, [], bound);
    var r4 := [TryClaim(1)] + r5;
    RunCons(s4, TryClaim(1), s5, r5, bound);
    var r3 := [ReadStamp(1)] + r4;
    RunCons(s3, ReadStamp(1), s4, r4, bound);
    var r2 := [Capture(1)] + r3;
    RunCons(s2, Capture(1), s3, r3, bound);
    var r1 := [Restore(0)] + r2;
    RunCons(s1, Restore(0), s2, r2, bound);
    RunCons(s0, Send(0, false), s1, r1, bound);
  }

  lemma StalledThen(bound: nat)
    requires bound > COOLDOWN
    ensures var s := Two(0, Some(0), Claimed(0, None), Idle, []);
            && ValidRun(s, STALLED_THEN, bound)
            && Final(s, STALLED_THEN, bound).delivered == [Nudge(LATE, LATE), Nudge(LATE, LATE)]
  {
    var s0 := Two(0, Some(0), Claimed(0, None), Idle, []);
    var s1 := Two(LATE, Some(0), Claimed(0, None), Idle, []);
    var s2 := Two(LATE, Some(0), Claimed(0, None), Captured(LATE), []);
    var s3 := Two(LATE, Some(0), Claimed(0, None), Read(LATE, Some(0)), []);
    var s4 := Two(LATE, Some(LATE), Claimed(0, None), Claimed(LATE, Some(0)), []);
    var s5 := Two(LATE, Some(LATE), Claimed(0, None), Idle, [Nudge(LATE, LATE)]);
    StalledLast(bound);
    var r4 := [Send(1, true)] + STALLED_LAST;
    RunCons(s4, Send(1, true), s5, STALLED_LAST, bound);
    var r3 := [TryClaim(1)] + r4;
    RunCons(s3, TryClaim(1), s4, r4, bound);
    var r2 := [ReadStamp(1)] + r3;
    RunCons(s2, ReadStamp(1), s3, r3, bound);
    var r1 := [Capture(1)] + r2;
    RunCons(s1, Capture(1), s2, r2, bound);
    RunCons(s0, Advance(LATE), s1, r1, bound);
  }

  lemma StalledScanDeliversTwice(bound: nat)
    requires bound > COOLDOWN
    ensures ValidRun(FRESH, STALLED_SCAN, bound)
    ensures Final(FRESH, STALLED_SCAN, bound).delivered == [Nudge(LATE, LATE), Nudge(LATE, LATE)]
  {
    var s1 := Two(0, None, Captured(0), Idle, []);
    var s2 := Two(0, None, Read(0, None), Idle, []);
    var s3 := Two(0, Some(0), Claimed(0, None), Idle, []);
    StalledThen(bound);
    var r2 := [TryClaim(0)] + STALLED_THEN;
    RunCons(s2, TryClaim(0), s3, STALLED_THEN, bound);
    var r1 := [ReadStamp(0)] + r2;
    RunCons(s1, ReadStamp(0), s2, r2, bound);
    RunCons(FRESH, Capture(0), s1, r1, bound);
  }

  /**
    The exact deadline: references are spaced over every run whose attempts finish within
    `bound` of them if and only if `bound` is at most the cooldown.
   */
  lemma SpacedExactlyWithinDeadline(bound: nat)
    ensures (forall s: State, steps: seq<Step> | Init(s) && ValidRun(s, steps, bound)
               :: DeliveriesSpaced(Final(s, steps, bound)))
            <==> bound <= COOLDOWN
  {
    if bound <= COOLDOWN {
      forall s: State, steps: seq<Step> | Init(s) && ValidRun(s, steps, bound)
        ensures DeliveriesSpaced(Final(s, steps, bound))
      {
        NudgesAreSpaced(s, steps, bound);
      }
    } else {
      StalledScanDeliversTwice(bound);
      var t := Final(FRESH, STALLED_SCAN, bound);
      assert Init(FRESH) && t.delivered[0] == t.delivered[1];
    }
  }

  // ------------------------------------------------ the instants of sending

  /** Every nudge went out at or after its reference, and within `bound` of it. */
  ghost predicate Punctual(s: State, bound: nat) {
    && OnTime(s, bound)
    && (forall w | !s.PhaseOf(w).Idle? :: s.PhaseOf(w).reference <= s.clock)
    && forall n | n in s.delivered :: n.reference <= n.at <= n.reference + bound
  }

  lemma {:induction false} RunKeepsPunctual(s: State, steps: seq<Step>, bound: nat)
    requires Punctual(s, bound) && ValidRun(s, steps, bound)
    ensures Punctual(Final(s, steps, bound), bound)
    decreases |steps|
  {
    if steps == [] {
    } else {
      var t := Apply(s, steps[0]);
      assert steps[0].Advance? ==> forall v :: t.PhaseOf(v) == s.PhaseOf(v);
      assert !steps[0].Advance? ==> forall v :: v != steps[0].w ==> t.PhaseOf(v) == s.PhaseOf(v);
      RunKeepsPunctual(t, steps[1..], bound);
    }
  }

  /** Any two nudges leave more than `gap` apart. */
  ghost predicate SendsSpaced(s: State, gap: nat) {
    forall i, j | 0 <= i < j < |s.delivered| :: s.delivered[j].at > s.delivered[i].at + gap
  }

  /** A nudge sent `bound` after its reference, and the next one sent at once. */
  function LateThenPrompt(bound: nat): seq<Step> {
    [Capture(0)] + ([ReadStamp(0)] + ([TryClaim(0)] + LateSend(bound)))
  }
  function LateSend(bound: nat): seq<Step> {
    [Advance(bound)] + ([Send(0, true)] + PROMPT)
  }
  const PROMPT: seq<Step> :=
    [Advance(LATE)] + ([Capture(0)] + ([ReadStamp(0)] + ([TryClaim(0)] + ([Send(0, true)] + []))))

  lemma PromptSend(bound: nat)
    requires bound <= COOLDOWN
    ensures var s := Two(bound, Some(0), Idle, Idle, [Nudge(0, bound)]);
            && ValidRun(s, PROMPT, bound)
            && Final(s, PROMPT, bound).delivered == [Nudge(0, bound), Nudge(LATE, LATE)]
  {
    var first := [Nudge(0, bound)];
    var s1 := Two(LATE, Some(0), Idle, Idle, first);
    var s2 := Two(LATE, Some(0), Captured(LATE), Idle, first);
    var s3 := Two(LATE, Some(0), Read(LATE, Some(0)), Idle, first);
    var s4 := Two(LATE, Some(LATE), Claimed(LATE, Some(0)), Idle, first);
    var s5 := Two(LATE, Some(LATE), Idle, Idle, [Nudge(0, bound), Nudge(LATE, LATE)]);
    var r4 := [Send(0, true)] + [];
    RunCons(s4, Send(0, true), s5, [], bound);
    var r3 := [TryClaim(0)] + r4;
    RunCons(s3, TryClaim(0), s4, r4, bound);
    var r2 := [ReadStamp(0)] + r3;
    RunCons(s2, ReadStamp(0), s3, r3, bound);
    RunCons(s1, Capture(0), s2, r2, bound);
    RunCons(Two(bound, Some(0), Idle, Idle, first), Advance(LATE), s1, [Capture(0)] + r2, bound);
  }

  lemma LateSendRuns(bound: nat)
    requires bound <= COOLDOWN
    ensures var s := Two(0, Some(0), Claimed(0, None), Idle, []);
            && ValidRun(s, LateSend(bound), bound)
            && Final(s, LateSend(bound), bound).delivered == [Nudge(0, bound), Nudge(LATE, LATE)]
  {
    var s1 := Two(bound, Some(0), Claimed(0, None), Idle, []);
    var s2 := Two(bound, Some(0), Idle, Idle, [Nudge(0, bound)]);
    PromptSend(bound);
    RunCons(s1, Send(0, true), s2, PROMPT, bound);
    RunCons(Two(0, Some(0), Claimed(0, None), Idle, []), Advance(bound), s1, [Send(0, true)] + PROMPT, bound);
  }

  lemma LateThenPromptRuns(bound: nat)
    requires bound <= COOLDOWN
    ensures ValidRun(FRESH, LateThenPrompt(bound), bound)
    ensures Final(FRESH, LateThenPrompt(bound), bound).delivered == [Nudge(0, bound), Nudge(LATE, LATE)]
  {
    var s1 := Two(0, None, Captured(0), Idle, []);
    var s2 := Two(0, None, Read(0, None), Idle, []);
    var s3 := Two(0, Some(0), Claimed(0, None), Idle, []);
    LateSendRuns(bound);
    var r2 := [TryClaim(0)] + LateSend(bound);
    RunCons(s2, TryClaim(0), s3, LateSend(bound), bound);
    RunCons(s1, ReadStamp(0), s2, r2, bound);
    RunCons(FRESH, Capture(0), s1, [ReadStamp(0)] + r2, bound);
  }

  /**
    How far apart the mails themselves leave: over every run any two are sent more than
    `gap` apart if and only if `bound` and `gap` together fit in the cooldown.
   */
  lemma SendsSpacedExactly(bound: nat, gap: nat)
    ensures (forall s: State, steps: seq<Step> | Init(s) && ValidRun(s, steps, bound)
               :: SendsSpaced(Final(s, steps, bound), gap))
            <==> bound + gap <= COOLDOWN
  {
    if bound + gap <= COOLDOWN {
      forall s: State, steps: seq<Step> | Init(s) && ValidRun(s, steps, bound)
        ensures SendsSpaced(Final(s, steps, bound), gap)
      {
        NudgesAreSpaced(s, steps, bound);
        RunKeepsPunctual(s, steps, bound);
      }
    } else if bound <= COOLDOWN {
      LateThenPromptRuns(bound);
      var t := Final(FRESH, LateThenPrompt(bound), bound);
      assert Init(FRESH) && t.delivered[1].at <= t.delivered[0].at + gap;
    } else {
      StalledScanDeliversTwice(bound);
      var t := Final(FRESH, STALLED_SCAN, bound);
      assert Init(FRESH) && t.delivered[0].at == t.delivered[1].at;
    }
  }

  // ------------------------------------------------------- retriability

  /** The ledger after an attempt nothing interleaves with: moved only by a delivery. */
  function Attempted(stamp: Stamp, reference: int, ok: bool): Stamp {
    if OlderThan(stamp, reference - COOLDOWN) && ok then Some(reference) else stamp
  }

  function SoloSteps(s: State, w: nat, ok: bool): seq<Step> {
    if !OlderThan(s.lastSent, s.clock - COOLDOWN) then [Capture(w)] + ([ReadStamp(w)] + ([TryClaim(w)] + []))
    else if ok then [Capture(w)] + ([ReadStamp(w)] + ([TryClaim(w)] + ([Send(w, true)] + [])))
    else [Capture(w)] + ([ReadStamp(w)] + ([TryClaim(w)] + ([Send(w, false)] + ([Restore(w)] + []))))
  }

  /** What the attempt has left to do once it has won: deliver, or fail and restore. */
  lemma SoloSend(s: State, w: nat, ok: bool, bound: nat)
    requires s.PhaseOf(w).Idle? && OnTime(s, bound)
    ensures var claimed := s.With(w, Claimed(s.clock, s.lastSent)).(lastSent := Some(s.clock));
            var steps := if ok then [Send(w, true)] + [] else [Send(w, false)] + ([Restore(w)] + []);
            && OnTime(claimed, bound) && ValidRun(claimed, steps, bound)
            && Final(claimed, steps, bound)
               == if ok then s.With(w, Idle).(lastSent := Some(s.clock), delivered := s.delivered + [Nudge(s.clock, s.clock)])
                  else s.With(w, Idle)
  {
    var claimed := s.With(w, Claimed(s.clock, s.lastSent)).(lastSent := Some(s.clock));
    assert forall v | v != w :: claimed.PhaseOf(v) == s.PhaseOf(v);
    if ok {
      var sent := s.With(w, Idle).(lastSent := Some(s.clock), delivered := s.delivered + [Nudge(s.clock, s.clock)]);
      assert forall v | v != w :: sent.PhaseOf(v) == s.PhaseOf(v);
      RunCons(claimed, Send(w, true), sent, [], bound);
    } else {
      var failed := s.With(w, Failed(s.clock, s.lastSent)).(lastSent := Some(s.clock));
      var restored := s.With(w, Idle);
      assert forall v | v != w :: failed.PhaseOf(v) == s.PhaseOf(v) == restored.PhaseOf(v);
      RunCons(failed, Restore(w), restored, [], bound);
      RunCons(claimed, Send(w, false), failed, [Restore(w)] + [], bound);
    }
  }

  /**
    An attempt that runs alone is a run of the machine, and a failed one leaves the
    ledger exactly as it found it, so the next scan may retry.
   */
  lemma SoloAttempt(s: State, w: nat, ok: bool, bound: nat)
    requires s.PhaseOf(w).Idle? && OnTime(s, bound)
    ensures ValidRun(s, SoloSteps(s, w, ok), bound)
    ensures var t := Final(s, SoloSteps(s, w, ok), bound);
            && t.lastSent == Attempted(s.lastSent, s.clock, ok)
            && t.delivered == s.delivered + (if OlderThan(s.lastSent, s.clock - COOLDOWN) && ok then [Nudge(s.clock, s.clock)] else [])
            && t.clock == s.clock
            && forall v :: t.PhaseOf(v) == s.PhaseOf(v)
  {
    var won := OlderThan(s.lastSent, s.clock - COOLDOWN);
    var s1 := s.With(w, Captured(s.clock));
    var s2 := s.With(w, Read(s.clock, s.lastSent));
    var s3 := if won then s.With(w, Claimed(s.clock, s.lastSent)).(lastSent := Some(s.clock)) else s.With(w, Idle);
    var r3: seq<Step> :=
      if !won then [] else if ok then [Send(w, true)] + [] else [Send(w, false)] + ([Restore(w)] + []);
    forall t | t in {s1, s2, s3} ensures OnTime(t, bound) {
      assert forall v | v != w :: t.PhaseOf(v) == s.PhaseOf(v);
    }
    if won {
      SoloSend(s, w, ok, bound);
    }
    var r2 := [TryClaim(w)] + r3;
    RunCons(s2, TryClaim(w), s3, r3, bound);
    var r1 := [ReadStamp(w)] + r2;
    RunCons(s1, ReadStamp(w), s2, r2, bound);
    RunCons(s, Capture(w), s1, r1, bound);
    assert SoloSteps(s, w, ok) == [Capture(w)] + r1;
  }

  /** The stamp a later scan should find: the last nudge that went out, or the one at the start. */
  function Settled(initial: Stamp, s: State): Stamp {
    if s.delivered == [] then initial else Some(s.delivered[|s.delivered| - 1].reference)
  }

  /** The row says what happened once no attempt is in flight, so a failure can be retried. */
  ghost predicate Truthful(initial: Stamp, s: State) {
    (forall w :: s.PhaseOf(w).Idle?) ==> s.lastSent == Settled(initial, s)
  }

  function InFlight(s: State): set<nat> {
    set w | w in s.workers && !s.workers[w].Idle?
  }

  /** A worker dies with its claim unsettled. */
  predicate Abandons(s: State, step: Step) {
    step.Crash? && s.PhaseOf(step.w).Holding()
  }

  /** At most `n` attempts are ever in flight; claims are abandoned only if `lossy`. */
  ghost predicate Calm(s: State, steps: seq<Step>, bound: nat, n: nat, lossy: bool)
    requires ValidRun(s, steps, bound)
    decreases |steps|
  {
    && |InFlight(s)| <= n
    && (steps != [] ==> && (lossy || !Abandons(s, steps[0]))
                        && Calm(Apply(s, steps[0]), steps[1..], bound, n, lossy))
  }

  /** Nobody but `w` has an attempt in flight, and what it read is the settled stamp. */
  ghost predicate AloneInv(initial: Stamp, s: State, w: nat) {
    && (forall v | v != w :: s.PhaseOf(v).Idle?)
    && match s.PhaseOf(w)
       case Read(_, prev) => s.lastSent == prev == Settled(initial, s)
       case Claimed(reference, prev) => s.lastSent == Some(reference) && prev == Settled(initial, s)
       case Failed(reference, prev) => s.lastSent == Some(reference) && prev == Settled(initial, s)
       case _ => s.lastSent == Settled(initial, s)
  }

  lemma StepKeepsAlone(initial: Stamp, s: State, step: Step, w: nat) returns (v: nat)
    requires AloneInv(initial, s, w) && Enabled(s, step) && !Abandons(s, step)
    requires |InFlight(Apply(s, step))| <= 1
    ensures AloneInv(initial, Apply(s, step), v)
  {
    var t := Apply(s, step);
    v := if step.Capture? then step.w else w;
    if step.Capture? && !s.PhaseOf(w).Idle? {
      SubsetSize({v, w}, InFlight(t));
    }
    assert step.Advance? ==> forall u :: t.PhaseOf(u) == s.PhaseOf(u);
    assert !step.Advance? ==> forall u :: u != step.w ==> t.PhaseOf(u) == s.PhaseOf(u);
  }

  lemma {:induction false} AloneRunIsTruthful(initial: Stamp, s: State, steps: seq<Step>, bound: nat, n: nat, lossy: bool, w: nat)
    requires n == 0 || (n == 1 && !lossy)
    requires AloneInv(initial, s, w) && ValidRun(s, steps, bound) && Calm(s, steps, bound, n, lossy)
    ensures Truthful(initial, Final(s, steps, bound))
    decreases |steps|
  {
    if steps == [] {
    } else {
      assert s.PhaseOf(w).Idle? || w in InFlight(s);
      var v := StepKeepsAlone(initial, s, steps[0], w);
      AloneRunIsTruthful(initial, Apply(s, steps[0]), steps[1..], bound, n, lossy, v);
    }
  }

  /** Every step is taken by one of `crowd`. */
  predicate TakenBy(steps: seq<Step>, crowd: set<nat>, lossy: bool) {
    forall step | step in steps :: (step.Advance? || step.w in crowd) && (lossy || !step.Crash?)
  }

  lemma {:induction false} CrowdIsCalm(s: State, steps: seq<Step>, bound: nat, crowd: set<nat>, n: nat, lossy: bool)
    requires ValidRun(s, steps, bound) && TakenBy(steps, crowd, lossy)
    requires InFlight(s) <= crowd && |crowd| <= n
    ensures Calm(s, steps, bound, n, lossy)
    decreases |steps|
  {
    SubsetSize(InFlight(s), crowd);
    if steps == [] {
    } else {
      assert steps[0] in steps;
      CrowdIsCalm(Apply(s, steps[0]), steps[1..], bound, crowd, n, lossy);
    }
  }

  lemma SubsetSize(a: set<nat>, b: set<nat>)
    requires a <= b
    ensures |a| <= |b|
  {
    assert |b| == |a| + |b - a| by { assert b == a + (b - a); }
  }

  /**
    Two overlapping scans that both fail: the second read the first one's pending
    stamp, and restoring it uses up the cooldown although nothing was delivered.
   */
  const CROSSED_FAILURES: seq<Step> := [Capture(0)] + ([ReadStamp(0)] + ([TryClaim(0)] + CROSSED_THEN))
  const CROSSED_THEN: seq<Step> := [Capture(1)] + ([ReadStamp(1)] + ([Send(0, false)] + ([Restore(0)] + CROSSED_LAST)))
  const CROSSED_LAST: seq<Step> := [TryClaim(1)] + ([Send(1, false)] + ([Restore(1)] + []))

  /** The row is taken, and nothing was delivered. */
  const BURNT := Two(0, Some(0), Idle, Idle, [])

  lemma CrossedLast(bound: nat)
    ensures var s := Two(0, None, Idle, Read(0, Some(0)), []);
            ValidRun(s, CROSSED_LAST, bound) && Final(s, CROSSED_LAST, bound) == BURNT
  {
    var s1 := Two(0, Some(0), Idle, Claimed(0, Some(0)), []);
    var s2 := Two(0, Some(0), Idle, Failed(0, Some(0)), []);
    var r2 := [Restore(1)] + [];
    RunCons(s2, Restore(1), BURNT, [], bound);
    var r1 := [Send(1, false)] + r2;
    RunCons(s1, Send(1, false), s2, r2, bound);
    RunCons(Two(0, None, Idle, Read(0, Some(0)), []), TryClaim(1), s1, r1, bound);
  }

  lemma CrossedThen(bound: nat)
    ensures var s := Two(0, Some(0), Claimed(0, None), Idle, []);
            ValidRun(s, CROSSED_THEN, bound) && Final(s, CROSSED_THEN, bound) == BURNT
  {
    var s1 := Two(0, Some(0), Claimed(0, None), Captured(0), []);
    var s2 := Two(0, Some(0), Claimed(0, None), Read(0, Some(0)), []);
    var s3 := Two(0, Some(0), Failed(0, None), Read(0, Some(0)), []);
    var s4 := Two(0, None, Idle, Read(0, Some(0)), []);
    CrossedLast(bound);
    var r3 := [Restore(0)] + CROSSED_LAST;
    RunCons(s3, Restore(0), s4, CROSSED_LAST, bound);
    var r2 := [Send(0, false)] + r3;
    RunCons(s2, Send(0, false), s3, r3, bound);
    var r1 := [ReadStamp(1)] + r2;
    RunCons(s1, ReadStamp(1), s2, r2, bound);
    RunCons(Two(0, Some(0), Claimed(0, None), Idle, []), Capture(1), s1, r1, bound);
  }

  lemma CrossedRun(bound: nat, n: nat, lossy: bool)
    requires n >= 2
    ensures ValidRun(FRESH, CROSSED_FAILURES, bound) && Final(FRESH, CROSSED_FAILURES, bound) == BURNT
    ensures Calm(FRESH, CROSSED_FAILURES, bound, n, lossy)
  {
    CrossedStart(bound);
    CrossedSteps(lossy);
    CrowdIsCalm(FRESH, CROSSED_FAILURES, bound, {0, 1}, n, lossy);
  }

  lemma CrossedSteps(lossy: bool)
    ensures TakenBy(CROSSED_FAILURES, {0, 1}, lossy)
  {
    assert TakenBy(CROSSED_LAST, {0, 1}, lossy);
    assert forall step | step in CROSSED_THEN ::
        step in CROSSED_LAST || step in [Capture(1), ReadStamp(1), Send(0, false), Restore(0)];
  }

  lemma CrossedStart(bound: nat)
    ensures ValidRun(FRESH, CROSSED_FAILURES, bound) && Final(FRESH, CROSSED_FAILURES, bound) == BURNT
  {
    var s1 := Two(0, None, Captured(0), Idle, []);
    var s2 := Two(0, None, Read(0, None), Idle, []);
    var s3 := Two(0, Some(0), Claimed(0, None), Idle, []);
    CrossedThen(bound);
    var r2 := [TryClaim(0)] + CROSSED_THEN;
    RunCons(s2, TryClaim(0), s3, CROSSED_THEN, bound);
    var r1 := [ReadStamp(0)] + r2;
    RunCons(s1, ReadStamp(0), s2, r2, bound);
    RunCons(FRESH, Capture(0), s1, r1, bound);
  }

  /** After it, no reference up to a whole cooldown later can claim the row. */
  lemma CrossedFailuresBlockRetry(later: int)
    ensures ValidRun(FRESH, CROSSED_FAILURES, 0)
    ensures var t := Final(FRESH, CROSSED_FAILURES, 0);
            t.delivered == [] && (OlderThan(t.lastSent, later - COOLDOWN) <==> later > COOLDOWN)
  {
    CrossedStart(0);
  }

  /** A scan that dies holding its claim, with no other scan about. */
  const ABANDONED: seq<Step> := [Capture(0)] + ([ReadStamp(0)] + ([TryClaim(0)] + ([Crash(0)] + [])))

  lemma AbandonedRun(bound: nat, n: nat)
    requires n >= 1
    ensures ValidRun(FRESH, ABANDONED, bound) && Final(FRESH, ABANDONED, bound) == BURNT
    ensures Calm(FRESH, ABANDONED, bound, n, true)
  {
    var s1 := Two(0, None, Captured(0), Idle, []);
    var s2 := Two(0, None, Read(0, None), Idle, []);
    var s3 := Two(0, Some(0), Claimed(0, None), Idle, []);
    var r3 := [Crash(0)] + [];
    RunCons(s3, Crash(0), BURNT, [], bound);
    var r2 := [TryClaim(0)] + r3;
    RunCons(s2, TryClaim(0), s3, r3, bound);
    var r1 := [ReadStamp(0)] + r2;
    RunCons(s1, ReadStamp(0), s2, r2, bound);
    RunCons(FRESH, Capture(0), s1, r1, bound);
    CrowdIsCalm(FRESH, ABANDONED, bound, {0}, n, true);
  }

  /**
    When a failed nudge stays retriable: over every run with at most `n` attempts in
    flight, the settled row holds the last delivered reference (or what it held at the
    start) if and only if no two attempts overlap and none dies holding its claim.
   */
  lemma RetriableExactlyAlone(bound: nat, n: nat, lossy: bool)
    ensures (forall s: State, steps: seq<Step> |
               Init(s) && ValidRun(s, steps, bound) && Calm(s, steps, bound, n, lossy)
               :: Truthful(s.lastSent, Final(s, steps, bound)))
            <==> n == 0 || (n == 1 && !lossy)
  {
    if n == 0 || (n == 1 && !lossy) {
      forall s: State, steps: seq<Step> | Init(s) && ValidRun(s, steps, bound) && Calm(s, steps, bound, n, lossy)
        ensures Truthful(s.lastSent, Final(s, steps, bound))
      {
        AloneRunIsTruthful(s.lastSent, s, steps, bound, n, lossy, 0);
      }
    } else {
      assert Init(FRESH) && !Truthful(None, BURNT);
      if n >= 2 {
        CrossedRun(bound, n, lossy);
      } else {
        AbandonedRun(bound, n);
      }
    }
  }

  // ----------------------------------------- retriability of overlapping scans

  /** No scan reads the stamp of an unsettled claim, and no claim is abandoned. */
  ghost predicate CleanReads(s: State, steps: seq<Step>, bound: nat)
    requires ValidRun(s, steps, bound)
    decreases |steps|
  {
    steps != [] ==> && (steps[0].ReadStamp? ==> forall w :: !s.PhaseOf(w).Holding())
                    && !Abandons(s, steps[0])
                    && CleanReads(Apply(s, steps[0]), steps[1..], bound)
  }

  /** Besides the safety invariant: holders restore, and an unclaimed row shows, the settled stamp. */
  ghost predicate CleanInv(initial: Stamp, s: State) {
    && Inv(s)
    && (forall w | s.PhaseOf(w).Holding() :: s.PhaseOf(w).prev == Settled(initial, s))
    && (forall w | s.PhaseOf(w).Read? ::
          s.PhaseOf(w).prev == Settled(initial, s) || TooRecent(s, s.PhaseOf(w).reference))
    && ((exists w :: s.PhaseOf(w).Holding()) || s.lastSent == Settled(initial, s))
  }

  lemma CleanClaim(initial: Stamp, s: State, w: nat)
    requires CleanInv(initial, s) && s.PhaseOf(w).Read? && OnTime(Apply(s, TryClaim(w)), COOLDOWN)
    ensures CleanInv(initial, Apply(s, TryClaim(w)))
  {
    var t := Apply(s, TryClaim(w));
    ClaimKeepsInv(s, w);
    assert forall v :: v != w ==> t.PhaseOf(v) == s.PhaseOf(v);
    if OlderThan(s.lastSent, s.PhaseOf(w).reference - COOLDOWN) {
      forall v ensures !s.PhaseOf(v).Holding() {
        assert s.PhaseOf(w).reference <= s.clock;
      }
      assert !TooRecent(s, s.PhaseOf(w).reference);
      assert t.PhaseOf(w).Holding();
    } else if exists v :: s.PhaseOf(v).Holding() {
      var v :| s.PhaseOf(v).Holding();
      assert t.PhaseOf(v).Holding();
    }
  }

  lemma CleanSend(initial: Stamp, s: State, w: nat, ok: bool)
    requires CleanInv(initial, s) && s.PhaseOf(w).Claimed? && OnTime(Apply(s, Send(w, ok)), COOLDOWN)
    ensures CleanInv(initial, Apply(s, Send(w, ok)))
  {
    var t := Apply(s, Send(w, ok));
    SendKeepsInv(s, w, ok);
    assert forall v :: v != w ==> t.PhaseOf(v) == s.PhaseOf(v);
    if !ok {
      assert t.PhaseOf(w).Holding();
    }
  }

  lemma CleanQuiet(initial: Stamp, s: State, step: Step)
    requires CleanInv(initial, s) && Enabled(s, step) && OnTime(Apply(s, step), COOLDOWN)
    requires step.Advance? || step.Capture? || step.ReadStamp? || step.Crash?
    requires step.ReadStamp? ==> forall w :: !s.PhaseOf(w).Holding()
    requires !Abandons(s, step)
    ensures CleanInv(initial, Apply(s, step))
  {
    var t := Apply(s, step);
    QuietStepKeepsInv(s, step);
    assert step.Advance? ==> forall v :: t.PhaseOf(v) == s.PhaseOf(v);
    assert !step.Advance? ==> forall v :: v != step.w ==> t.PhaseOf(v) == s.PhaseOf(v);
    if exists v :: s.PhaseOf(v).Holding() {
      var v :| s.PhaseOf(v).Holding();
      assert t.PhaseOf(v).Holding();
    }
  }

  lemma CleanRestore(initial: Stamp, s: State, w: nat)
    requires CleanInv(initial, s) && s.PhaseOf(w).Failed?
    ensures CleanInv(initial, Apply(s, Restore(w)))
  {
    var t := Apply(s, Restore(w));
    RestoreKeepsInv(s, w);
    assert forall v :: v != w ==> t.PhaseOf(v) == s.PhaseOf(v);
  }

  lemma {:induction false} CleanRunIsTruthful(initial: Stamp, s: State, steps: seq<Step>, bound: nat)
    requires bound <= COOLDOWN
    requires CleanInv(initial, s) && ValidRun(s, steps, bound) && CleanReads(s, steps, bound)
    ensures Truthful(initial, Final(s, steps, bound))
    decreases |steps|
  {
    if steps == [] {
    } else {
      match steps[0] {
        case TryClaim(w) => CleanClaim(initial, s, w);
        case Send(w, ok) => CleanSend(initial, s, w, ok);
        case Restore(w) => CleanRestore(initial, s, w);
        case _ => CleanQuiet(initial, s, steps[0]);
      }
      CleanRunIsTruthful(initial, Apply(s, steps[0]), steps[1..], bound);
    }
  }

  /**
    Two scans read the empty row before either claims. The later one stalls its rival
    past the cooldown, claims over its delivery, fails, and wipes the delivery out.
   */
  const WIPED: seq<Step> := [Capture(0)] + ([ReadStamp(0)] + WIPED_THEN)
  const WIPED_THEN: seq<Step> := [Advance(LATE)] + ([Capture(1)] + ([ReadStamp(1)] + ([TryClaim(0)] + WIPED_LAST)))
  const WIPED_LAST: seq<Step> := [Send(0, true)] + ([TryClaim(1)] + ([Send(1, false)] + ([Restore(1)] + [])))

  lemma WipedLast(bound: nat)
    requires bound > COOLDOWN
    ensures var s := Two(LATE, Some(0), Claimed(0, None), Read(LATE, None), []);
            && ValidRun(s, WIPED_LAST, bound) && CleanReads(s, WIPED_LAST, bound)
            && Final(s, WIPED_LAST, bound) == Two(LATE, None, Idle, Idle, [Nudge(0, LATE)])
  {
    var gone := [Nudge(0, LATE)];
    var s1 := Two(LATE, Some(0), Idle, Read(LATE, None), gone);
    var s2 := Two(LATE, Some(LATE), Idle, Claimed(LATE, None), gone);
    var s3 := Two(LATE, Some(LATE), Idle, Failed(LATE, None), gone);
    var r3 := [Restore(1)] + [];
    CleanCons(s3, Restore(1), Two(LATE, None, Idle, Idle, gone), [], bound);
    var r2 := [Send(1, false)] + r3;
    CleanCons(s2, Send(1, false), s3, r3, bound);
    var r1 := [TryClaim(1)] + r2;
    CleanCons(s1, TryClaim(1), s2, r2, bound);
    CleanCons(Two(LATE, Some(0), Claimed(0, None), Read(LATE, None), []), Send(0, true), s1, r1, bound);
  }

  lemma WipedThen(bound: nat)
    requires bound > COOLDOWN
    ensures var s := Two(0, None, Read(0, None), Idle, []);
            && ValidRun(s, WIPED_THEN, bound) && CleanReads(s, WIPED_THEN, bound)
            && Final(s, WIPED_THEN, bound) == Two(LATE, None, Idle, Idle, [Nudge(0, LATE)])
  {
    var s1 := Two(LATE, None, Read(0, None), Idle, []);
    var s2 := Two(LATE, None, Read(0, None), Captured(LATE), []);
    var s3 := Two(LATE, None, Read(0, None), Read(LATE, None), []);
    var s4 := Two(LATE, Some(0), Claimed(0, None), Read(LATE, None), []);
    WipedLast(bound);
    var r3 := [TryClaim(0)] + WIPED_LAST;
    CleanCons(s3, TryClaim(0), s4, WIPED_LAST, bound);
    var r2 := [ReadStamp(1)] + r3;
    CleanCons(s2, ReadStamp(1), s3, r3, bound);
    var r1 := [Capture(1)] + r2;
    CleanCons(s1, Capture(1), s2, r2, bound);
    CleanCons(Two(0, None, Read(0, None), Idle, []), Advance(LATE), s1, r1, bound);
  }

  lemma WipedRun(bound: nat)
    requires bound > COOLDOWN
    ensures ValidRun(FRESH, WIPED, bound) && CleanReads(FRESH, WIPED, bound)
    ensures Final(FRESH, WIPED, bound) == Two(LATE, None, Idle, Idle, [Nudge(0, LATE)])
  {
    var s1 := Two(0, None, Captured(0), Idle, []);
    var s2 := Two(0, None, Read(0, None), Idle, []);
    WipedThen(bound);
    var r1 := [ReadStamp(0)] + WIPED_THEN;
    CleanCons(s1, ReadStamp(0), s2, WIPED_THEN, bound);
    CleanCons(FRESH, Capture(0), s1, r1, bound);
  }

  lemma CleanCons(s: State, step: Step, t: State, rest: seq<Step>, bound: nat)
    requires Enabled(s, step) && Apply(s, step) == t && OnTime(t, bound)
    requires ValidRun(t, rest, bound) && CleanReads(t, rest, bound)
    requires step.ReadStamp? ==> forall w :: !s.PhaseOf(w).Holding()
    requires !step.Crash?
    ensures ValidRun(s, [step] + rest, bound) && CleanReads(s, [step] + rest, bound)
    ensures Final(s, [step] + rest, bound) == Final(t, rest, bound)
  {
    assert ([step] + rest)[1..] == rest;
  }

  /**
    However many scans overlap, when none reads an unsettled claim a failed nudge stays
    retriable over every run if and only if attempts finish within the cooldown.
   */
  lemma CleanlyRetriableExactlyWithinDeadline(bound: nat)
    ensures (forall s: State, steps: seq<Step> |
               Init(s) && ValidRun(s, steps, bound) && CleanReads(s, steps, bound)
               :: Truthful(s.lastSent, Final(s, steps, bound)))
            <==> bound <= COOLDOWN
  {
    if bound <= COOLDOWN {
      forall s: State, steps: seq<Step> | Init(s) && ValidRun(s, steps, bound) && CleanReads(s, steps, bound)
        ensures Truthful(s.lastSent, Final(s, steps, bound))
      {
        CleanRunIsTruthful(s.lastSent, s, steps, bound);
      }
    } else {
      WipedRun(bound);
      assert Init(FRESH) && !Truthful(None, Final(FRESH, WIPED, bound));
    }
  }

  // ------------------------------------------------------- one scan, alone

  datatype Advice = AdviceFailed | Hold | Irrigate

  /** An active customer as the scan loads it, the email stripped. */
  datatype Customer = Customer(id: int, email: string)

  datatype Verdict = NoRecipient | NoAdvice | Quiet | Throttled | Undelivered | Notified

  /** What the scan meets: advice per customer, and whom the provider refuses. */
  datatype Scene = Scene(reference: int, advice: map<int, Advice>, refused: set<int>)

  /** A customer without a ledger row has never been nudged. */
  function StampOf(ledger: map<int, Stamp>, id: int): Stamp {
    if id in ledger then ledger[id] else None
  }

  function Judge(c: Customer, stamp: Stamp, scene: Scene): Verdict {
    if c.email == "" then NoRecipient
    else if c.id !in scene.advice || scene.advice[c.id].AdviceFailed? then NoAdvice
    else if scene.advice[c.id].Hold? then Quiet
    else if !OlderThan(stamp, scene.reference - COOLDOWN) then Throttled
    else if c.id in scene.refused then Undelivered
    else Notified
  }

  /** The customer's verdict in this scan is one of `vs`. */
  function Got(ledger: map<int, Stamp>, scene: Scene, vs: set<Verdict>): Customer -> bool {
    (c: Customer) => Judge(c, StampOf(ledger, c.id), scene) in vs
  }

  function Tally(cs: seq<Customer>, ledger: map<int, Stamp>, scene: Scene, vs: set<Verdict>): nat {
    |Filter(cs, Got(ledger, scene, vs))|
  }

  lemma TallySnoc(cs: seq<Customer>, i: nat, ledger: map<int, Stamp>, scene: Scene, vs: set<Verdict>)
    requires i < |cs|
    ensures Tally(cs[..i + 1], ledger, scene, vs)
            == Tally(cs[..i], ledger, scene, vs) + if Judge(cs[i], StampOf(ledger, cs[i].id), scene) in vs then 1 else 0
  {
    FilterSnoc(cs, i, Got(ledger, scene, vs));
  }

  const SKIPPED: set<Verdict> := {NoRecipient, NoAdvice, Throttled, Undelivered}

  class Scanner {
    var ledger: map<int, Stamp>   // last_sent by user

    /** The loop body: ensure a row, claim, send, and put the prior stamp back on failure. */
    method Nudge(c: Customer, scene: Scene) returns (verdict: Verdict)
      modifies this
      ensures verdict == Judge(c, StampOf(old(ledger), c.id), scene)
      ensures StampOf(ledger, c.id) == if verdict.Notified? then Some(scene.reference) else StampOf(old(ledger), c.id)
      ensures forall id | id != c.id :: StampOf(ledger, id) == StampOf(old(ledger), id)
      ensures Advised(c, scene) && c.id !in old(ledger) && c.id !in scene.refused ==> verdict.Notified?
      ensures verdict.Undelivered? || verdict.Notified? ==>
                StampOf(ledger, c.id) == Attempted(StampOf(old(ledger), c.id), scene.reference, verdict.Notified?)
    {
      if c.email == "" {
        return NoRecipient;
      }
      if c.id !in scene.advice || scene.advice[c.id].AdviceFailed? {
        return NoAdvice;
      }
      if !scene.advice[c.id].Irrigate? {
        return Quiet;
      }
      var prev: Stamp := None;
      if c.id !in ledger {
        ledger := ledger[c.id := None];
      } else {
        prev := ledger[c.id];
      }
      var claimed := ledger[c.id].None? || ledger[c.id].value < scene.reference - COOLDOWN;
      if !claimed {
        return Throttled;
      }
      ledger := ledger[c.id := Some(scene.reference)];
      if c.id !in scene.refused {
        return Notified;
      }
      ledger := ledger[c.id := prev];
      return Undelivered;
    }

    /**
      One scan over distinct customers: each is counted once, as notified, quiet or
      skipped, and exactly the notified ones carry the scan's reference afterwards.
     */
    method ScanProactiveInsights(customers: seq<Customer>, scene: Scene)
      returns (scanned: nat, notified: nat, quiet: nat, skipped: nat)
      requires forall i, j | 0 <= i < j < |customers| :: customers[i].id != customers[j].id
      modifies this
      ensures scanned == |customers| == notified + quiet + skipped
      ensures notified == Tally(customers, old(ledger), scene, {Notified})
      ensures quiet == Tally(customers, old(ledger), scene, {Quiet})
      ensures skipped == Tally(customers, old(ledger), scene, SKIPPED)
      ensures forall k | 0 <= k < |customers| ::
                StampOf(ledger, customers[k].id)
                == if Judge(customers[k], StampOf(old(ledger), customers[k].id), scene).Notified?
                   then Some(scene.reference) else StampOf(old(ledger), customers[k].id)
      ensures forall id | (forall k | 0 <= k < |customers| :: customers[k].id != id) ::
                StampOf(ledger, id) == StampOf(old(ledger), id)
    {
      scanned, notified, quiet, skipped := 0, 0, 0, 0;
      ghost var before := ledger;
      while scanned < |customers|
        invariant Progress(customers, before, scanned, scene, notified, quiet, skipped)
      {
        notified, quiet, skipped := CountTurn(customers, before, scanned, scene, notified, quiet, skipped);
        scanned := scanned + 1;
      }
      assert customers[..scanned] == customers;
    }

    /** The ledger and the counters once the first `i` customers are done. */
    ghost predicate Progress(customers: seq<Customer>, before: map<int, Stamp>, i: nat, scene: Scene,
                             notified: nat, quiet: nat, skipped: nat)
      reads this
    {
      && i <= |customers| && i == notified + quiet + skipped
      && notified == Tally(customers[..i], before, scene, {Notified})
      && quiet == Tally(customers[..i], before, scene, {Quiet})
      && skipped == Tally(customers[..i], before, scene, SKIPPED)
      && (forall id | (forall k | 0 <= k < i :: customers[k].id != id) :: StampOf(ledger, id) == StampOf(before, id))
      && forall k | 0 <= k < i ::
           StampOf(ledger, customers[k].id)
           == if Judge(customers[k], StampOf(before, customers[k].id), scene).Notified?
              then Some(scene.reference) else StampOf(before, customers[k].id)
    }

    /** One turn of the loop: nudge a customer and count the verdict. */
    method CountTurn(customers: seq<Customer>, ghost before: map<int, Stamp>, i: nat, scene: Scene,
                     notified: nat, quiet: nat, skipped: nat)
      returns (notified': nat, quiet': nat, skipped': nat)
      requires forall j, k | 0 <= j < k < |customers| :: customers[j].id != customers[k].id
      requires Progress(customers, before, i, scene, notified, quiet, skipped) && i < |customers|
      modifies this
      ensures Progress(customers, before, i + 1, scene, notified', quiet', skipped')
    {
      notified', quiet', skipped' := notified, quiet, skipped;
      TallySnoc(customers, i, before, scene, {Notified});
      TallySnoc(customers, i, before, scene, {Quiet});
      TallySnoc(customers, i, before, scene, SKIPPED);
      assert StampOf(ledger, customers[i].id) == StampOf(before, customers[i].id);
      var verdict := Nudge(customers[i], scene);
      match verdict {
        case Notified => notified' := notified + 1;
        case Quiet => quiet' := quiet + 1;
        case _ => skipped' := skipped + 1;
      }
    }
  }

  // ------------------------------------------------------- what the scan decides

  /** The advice is to irrigate, and there is an address to send it to. */
  predicate Advised(c: Customer, scene: Scene) {
    c.email != "" && c.id in scene.advice && scene.advice[c.id] == Irrigate
  }

  /** Each verdict, by what the scan meets: a nudge goes out exactly on advice to irrigate. */
  lemma VerdictsMean(c: Customer, stamp: Stamp, scene: Scene)
    ensures var free := stamp.None? || scene.reference - stamp.value > 24 * HOUR;
            var v := Judge(c, stamp, scene);
            && (v == NoRecipient <==> c.email == "")
            && (v == NoAdvice <==> c.email != "" && !(c.id in scene.advice && scene.advice[c.id] in {Hold, Irrigate}))
            && (v == Quiet <==> c.email != "" && c.id in scene.advice && scene.advice[c.id] == Hold)
            && (v == Throttled <==> Advised(c, scene) && !free)
            && (v == Undelivered <==> Advised(c, scene) && free && c.id in scene.refused)
            && (v == Notified <==> Advised(c, scene) && free && c.id !in scene.refused)
  {
  }

  /** The customer's ledger stamp after a run of scans, one after another. */
  function StampAfterScans(c: Customer, stamp: Stamp, scenes: seq<Scene>): Stamp
    decreases |scenes|
  {
    if scenes == [] then stamp
    else StampAfterScans(c, if Judge(c, stamp, scenes[0]).Notified? then Some(scenes[0].reference) else stamp, scenes[1..])
  }

  /** References of the scans that nudged the customer. */
  function NudgeTimes(c: Customer, stamp: Stamp, scenes: seq<Scene>): seq<int>
    decreases |scenes|
  {
    if scenes == [] then []
    else if Judge(c, stamp, scenes[0]).Notified? then
      [scenes[0].reference] + NudgeTimes(c, Some(scenes[0].reference), scenes[1..])
    else NudgeTimes(c, stamp, scenes[1..])
  }

  /** References of the scans whose advice is to irrigate and whose mail would be accepted. */
  function DeliverableAt(c: Customer, scenes: seq<Scene>): seq<int> {
    if scenes == [] then []
    else if Advised(c, scenes[0]) && c.id !in scenes[0].refused then
      [scenes[0].reference] + DeliverableAt(c, scenes[1..])
    else DeliverableAt(c, scenes[1..])
  }

  /**
    Over any run of scans a customer is nudged exactly as the plain throttle lets the
    deliverable advice to irrigate through: no other advice nudges, and a failed send
    leaves no trace. The ledger ends at the last nudge.
   */
  lemma {:induction false} NudgesAreThrottled(c: Customer, stamp: Stamp, scenes: seq<Scene>)
    ensures NudgeTimes(c, stamp, scenes) == Throttle.WinningTimes(stamp, DeliverableAt(c, scenes), COOLDOWN)
    ensures var sent := NudgeTimes(c, stamp, scenes);
            StampAfterScans(c, stamp, scenes) == if sent == [] then stamp else Some(sent[|sent| - 1])
    decreases |scenes|
  {
    if scenes == [] {
    } else {
      var at := DeliverableAt(c, scenes);
      VerdictsMean(c, stamp, scenes[0]);
      if Advised(c, scenes[0]) && c.id !in scenes[0].refused {
        assert at[0] == scenes[0].reference && at[1..] == DeliverableAt(c, scenes[1..]);
        Throttle.WinningTimesStep(stamp, at, COOLDOWN);
      }
      NudgesAreThrottled(c, if Judge(c, stamp, scenes[0]).Notified? then Some(scenes[0].reference) else stamp, scenes[1..]);
    }
  }

  /** On scans in time order no schedule respecting the cooldown nudges more often. */
  lemma NudgesAreMaximal(c: Customer, stamp: Stamp, scenes: seq<Scene>, s: seq<int>)
    requires Throttle.Ordered(DeliverableAt(c, scenes))
    requires Throttle.Subsequence(s, DeliverableAt(c, scenes)) && Throttle.Spaced(stamp, s, COOLDOWN)
    ensures |s| <= |NudgeTimes(c, stamp, scenes)|
  {
    NudgesAreThrottled(c, stamp, scenes);
    Throttle.ThrottleIsOptimal(stamp, DeliverableAt(c, scenes), COOLDOWN, s);
  }
}
