/**
  Overlapping device-health scans, seen from one device row. A scan reads every device
  when it starts and runs as one transaction, committed at its end: its claim holds the
  row lock until then, nobody sees what it wrote before, and a scan that dies rolls its
  claims back whether or not the email already left.
 */
module HealthOverlap {
  import opened Stamps
  import H = DeviceHealth

  const COOLDOWN: nat := H.COOLDOWN

  datatype Phase =
    | Idle
    | Started(reference: int)
    | Read(reference: int, prev: Stamp)
    | Claimed(reference: int, prev: Stamp)
    | Mailed(reference: int)                 // to commit its reference
    | Refused(reference: int, prev: Stamp)   // to commit the stamp it read
  {
    /** The scan has the row lock. */
    predicate Holding() { Claimed? || Mailed? || Refused? }
  }

  datatype Email = Email(reference: int, at: int)

  /** `stamp` is the committed column. */
  datatype State = State(clock: int, stamp: Stamp, scans: map<nat, Phase>, sent: seq<Email>)
  {
    function PhaseOf(w: nat): Phase { if w in scans then scans[w] else Idle }

    function With(w: nat, p: Phase): State { this.(scans := scans[w := p]) }
  }

  /** `Leave` ends a scan without a commit to this row: it died, or let the device be. */
  datatype Step =
    | Advance(to: int)
    | Begin(w: nat)
    | ReadStamp(w: nat)
    | TryClaim(w: nat)
    | Send(w: nat, ok: bool)
    | Commit(w: nat)
    | Leave(w: nat)

  ghost predicate Locked(s: State) { exists w :: s.PhaseOf(w).Holding() }

  ghost predicate Enabled(s: State, step: Step) {
    match step
    case Advance(to) => s.clock <= to
    case Begin(w) => s.PhaseOf(w).Idle?
    case ReadStamp(w) => s.PhaseOf(w).Started?
    case TryClaim(w) => s.PhaseOf(w).Read? && !Locked(s)
    case Send(w, _) => s.PhaseOf(w).Claimed?
    case Commit(w) => s.PhaseOf(w).Mailed? || s.PhaseOf(w).Refused?
    case Leave(w) => !s.PhaseOf(w).Idle?
  }

  ghost function Apply(s: State, step: Step): State
    requires Enabled(s, step)
  {
    match step
    case Advance(to) => s.(clock := to)
    case Begin(w) => s.With(w, Started(s.clock))
    case ReadStamp(w) => s.With(w, Read(s.PhaseOf(w).reference, s.stamp))
    case TryClaim(w) =>
      var p := s.PhaseOf(w);
      s.With(w, if OlderThan(s.stamp, p.reference - COOLDOWN) then Claimed(p.reference, p.prev) else Idle)
    case Send(w, ok) =>
      var p := s.PhaseOf(w);
      if ok
      then s.With(w, Mailed(p.reference)).(sent := s.sent + [Email(p.reference, s.clock)])
      else s.With(w, Refused(p.reference, p.prev))
    case Commit(w) =>
      var p := s.PhaseOf(w);
      s.With(w, Idle).(stamp := if p.Mailed? then Some(p.reference) else p.prev)
    case Leave(w) => s.With(w, Idle)
  }

  /** A scan dies with an email out and not committed. */
  predicate Loses(s: State, step: Step) {
    step.Leave? && s.PhaseOf(step.w).Mailed?
  }

  /** No scan in progress is older than `bound`. */
  ghost predicate OnTime(s: State, bound: nat) {
    forall w | !s.PhaseOf(w).Idle? :: s.clock <= s.PhaseOf(w).reference + bound
  }

  ghost predicate Init(s: State) {
    (forall w :: s.PhaseOf(w).Idle?) && s.sent == []
  }

  /** A run of scans that all end within `bound`; emails are lost only if `lossy`. */
  ghost predicate ValidRun(s: State, steps: seq<Step>, bound: nat, lossy: bool)
    decreases |steps|
  {
    steps == [] || (&& Enabled(s, steps[0])
                    && (lossy || !Loses(s, steps[0]))
                    && OnTime(Apply(s, steps[0]), bound)
                    && ValidRun(Apply(s, steps[0]), steps[1..], bound, lossy))
  }

  ghost function Final(s: State, steps: seq<Step>, bound: nat, lossy: bool): State
    requires ValidRun(s, steps, bound, lossy)
    decreases |steps|
  {
    if steps == [] then s else Final(Apply(s, steps[0]), steps[1..], bound, lossy)
  }

  // ------------------------------------------------------------ what is promised

  /** The reference of the last email, or the stamp at the start. */
  function Settled(initial: Stamp, s: State): Stamp {
    if s.sent == [] then initial else Some(s.sent[|s.sent| - 1].reference)
  }

  /** With no scan in progress the column says exactly what was last sent. */
  ghost predicate Truthful(initial: Stamp, s: State) {
    (forall w :: s.PhaseOf(w).Idle?) ==> s.stamp == Settled(initial, s)
  }

  /** Any two emails have references more than the cooldown apart. */
  ghost predicate ReferencesSpaced(s: State) {
    forall i, j | 0 <= i < j < |s.sent| :: s.sent[j].reference > s.sent[i].reference + COOLDOWN
  }

  /** Any two emails leave more than `gap` apart. */
  ghost predicate SendsSpaced(s: State, gap: nat) {
    forall i, j | 0 <= i < j < |s.sent| :: s.sent[j].at > s.sent[i].at + gap
  }

  // ------------------------------------------------------------ invariant

  /** The last email is too recent for a claim with this reference to win over it. */
  ghost predicate TooRecent(s: State, reference: int) {
    s.sent != [] && s.sent[|s.sent| - 1].reference >= reference - COOLDOWN
  }

  ghost predicate Punctual(s: State, bound: nat) {
    && (forall w | !s.PhaseOf(w).Idle? :: s.PhaseOf(w).reference <= s.clock <= s.PhaseOf(w).reference + bound)
    && forall e | e in s.sent :: e.reference <= e.at <= e.reference + bound
  }

  ghost predicate MutualExclusion(s: State) {
    forall v, w | s.PhaseOf(v).Holding() && s.PhaseOf(w).Holding() :: v == w
  }

  /** What each phase knows of the settled stamp. */
  ghost predicate Knows(initial: Stamp, s: State, w: nat) {
    match s.PhaseOf(w)
    case Read(reference, prev) => prev == Settled(initial, s) || TooRecent(s, reference)
    case Claimed(reference, prev) => prev == Settled(initial, s) && OlderThan(prev, reference - COOLDOWN)
    case Mailed(reference) => s.sent != [] && s.sent[|s.sent| - 1].reference == reference
    case Refused(_, prev) => prev == Settled(initial, s)
    case _ => true
  }

  ghost predicate Inv(initial: Stamp, s: State, bound: nat) {
    && Punctual(s, bound)
    && MutualExclusion(s)
    && (forall w :: Knows(initial, s, w))
    && ((exists w :: s.PhaseOf(w).Mailed?) || s.stamp == Settled(initial, s))
    && ReferencesSpaced(s)
  }

  /** The state after a step differs in one scan at most. */
  ghost predicate OthersKept(s: State, t: State, w: nat) {
    forall v | v != w :: t.PhaseOf(v) == s.PhaseOf(v)
  }

  /** A winning claim read the settled stamp: nothing was sent since by a scan still on time. */
  lemma ClaimKeepsInv(initial: Stamp, s: State, w: nat, bound: nat)
    requires bound <= COOLDOWN && Inv(initial, s, bound) && Enabled(s, TryClaim(w))
    requires OnTime(Apply(s, TryClaim(w)), bound)
    ensures Inv(initial, Apply(s, TryClaim(w)), bound)
  {
    var t := Apply(s, TryClaim(w));
    assert OthersKept(s, t, w);
    assert Knows(initial, s, w);
    forall v ensures Knows(initial, t, v) {
      assert Knows(initial, s, v);
    }
  }

  /** An email makes every scan that read the row before it too recent to claim it. */
  lemma SendKeepsInv(initial: Stamp, s: State, w: nat, ok: bool, bound: nat)
    requires bound <= COOLDOWN && Inv(initial, s, bound) && Enabled(s, Send(w, ok))
    requires OnTime(Apply(s, Send(w, ok)), bound)
    ensures Inv(initial, Apply(s, Send(w, ok)), bound)
  {
    var t := Apply(s, Send(w, ok));
    assert OthersKept(s, t, w);
    assert Knows(initial, s, w);
    forall v ensures Knows(initial, t, v) {
      assert Knows(initial, s, v);
    }
    assert ok ==> t.PhaseOf(w).Mailed?;
    forall i, j | 0 <= i < j < |t.sent| ensures t.sent[j].reference > t.sent[i].reference + COOLDOWN {
      assert i < |s.sent| && t.sent[i] == s.sent[i];
      if i < |s.sent| - 1 {
        assert s.sent[|s.sent| - 1].reference > s.sent[i].reference + COOLDOWN;
      }
    }
  }

  /** A commit, of a reference or of the stamp read, makes the column settled. */
  lemma CommitKeepsInv(initial: Stamp, s: State, w: nat, bound: nat)
    requires bound <= COOLDOWN && Inv(initial, s, bound) && Enabled(s, Commit(w))
    requires OnTime(Apply(s, Commit(w)), bound)
    ensures Inv(initial, Apply(s, Commit(w)), bound)
  {
    var t := Apply(s, Commit(w));
    assert OthersKept(s, t, w);
    assert Knows(initial, s, w);
    forall v ensures Knows(initial, t, v) {
      assert Knows(initial, s, v);
    }
  }

  /** A scan reads the settled stamp, or is too recent for the email not yet committed. */
  lemma ReadKeepsInv(initial: Stamp, s: State, w: nat, bound: nat)
    requires bound <= COOLDOWN && Inv(initial, s, bound) && Enabled(s, ReadStamp(w))
    requires OnTime(Apply(s, ReadStamp(w)), bound)
    ensures Inv(initial, Apply(s, ReadStamp(w)), bound)
  {
    var t := Apply(s, ReadStamp(w));
    assert OthersKept(s, t, w);
    if s.stamp != Settled(initial, s) {
      var u :| s.PhaseOf(u).Mailed?;
      assert Knows(initial, s, u) && t.PhaseOf(u).Mailed?;
    }
    forall v ensures Knows(initial, t, v) {
      assert Knows(initial, s, v);
    }
  }

  /** Steps that neither read, email nor commit. */
  lemma QuietStepKeepsInv(initial: Stamp, s: State, step: Step, bound: nat)
    requires bound <= COOLDOWN && Inv(initial, s, bound) && Enabled(s, step) && !Loses(s, step)
    requires step.Advance? || step.Begin? || step.Leave?
    requires OnTime(Apply(s, step), bound)
    ensures Inv(initial, Apply(s, step), bound)
  {
    var t := Apply(s, step);
    assert step.Advance? ==> forall v :: t.PhaseOf(v) == s.PhaseOf(v);
    assert !step.Advance? ==> OthersKept(s, t, step.w);
    forall v ensures Knows(initial, t, v) {
      assert Knows(initial, s, v);
    }
    if exists u :: s.PhaseOf(u).Mailed? {
      var u :| s.PhaseOf(u).Mailed?;
      assert t.PhaseOf(u).Mailed?;
    }
  }

  lemma StepKeepsInv(initial: Stamp, s: State, step: Step, bound: nat)
    requires bound <= COOLDOWN && Inv(initial, s, bound) && Enabled(s, step) && !Loses(s, step)
    requires OnTime(Apply(s, step), bound)
    ensures Inv(initial, Apply(s, step), bound)
  {
    match step
    case ReadStamp(w) => ReadKeepsInv(initial, s, w, bound);
    case TryClaim(w) => ClaimKeepsInv(initial, s, w, bound);
    case Send(w, ok) => SendKeepsInv(initial, s, w, ok, bound);
    case Commit(w) => CommitKeepsInv(initial, s, w, bound);
    case _ => QuietStepKeepsInv(initial, s, step, bound);
  }

  lemma {:induction false} RunKeepsInv(initial: Stamp, s: State, steps: seq<Step>, bound: nat)
    requires bound <= COOLDOWN && Inv(initial, s, bound) && ValidRun(s, steps, bound, false)
    ensures Inv(initial, Final(s, steps, bound, false), bound)
    decreases |steps|
  {
    if steps == [] {
    } else {
      StepKeepsInv(initial, s, steps[0], bound);
      RunKeepsInv(initial, Apply(s, steps[0]), steps[1..], bound);
    }
  }

  // ------------------------------------------------------------ the conditions are needed

  function Three(clock: int, stamp: Stamp, zero: Phase, one: Phase, two: Phase, sent: seq<Email>): State {
    State(clock, stamp, map[0 := zero, 1 := one, 2 := two], sent)
  }

  const FRESH := Three(0, None, Idle, Idle, Idle, [])
  const LATE: int := COOLDOWN + 1

  /** Prepending a step to a run, between states that are written out. */
  lemma RunCons(s: State, step: Step, t: State, rest: seq<Step>, bound: nat, lossy: bool)
    requires Enabled(s, step) && Apply(s, step) == t && (lossy || !Loses(s, step))
    requires OnTime(t, bound) && ValidRun(t, rest, bound, lossy)
    ensures ValidRun(s, [step] + rest, bound, lossy)
    ensures Final(s, [step] + rest, bound, lossy) == Final(t, rest, bound, lossy)
  {
    assert ([step] + rest)[1..] == rest;
  }

  /** A scan that begins, reads and claims with nothing in between. */
  function Claiming(w: nat, rest: seq<Step>): seq<Step> {
    [Begin(w)] + ([ReadStamp(w)] + ([TryClaim(w)] + rest))
  }

  lemma ClaimRun(s: State, w: nat, rest: seq<Step>, bound: nat, lossy: bool)
    requires s.PhaseOf(w).Idle? && !Locked(s) && OnTime(s, bound) && OlderThan(s.stamp, s.clock - COOLDOWN)
    requires ValidRun(s.With(w, Claimed(s.clock, s.stamp)), rest, bound, lossy)
    ensures ValidRun(s, Claiming(w, rest), bound, lossy)
    ensures Final(s, Claiming(w, rest), bound, lossy)
            == Final(s.With(w, Claimed(s.clock, s.stamp)), rest, bound, lossy)
  {
    var s1 := s.With(w, Started(s.clock));
    var s2 := s.With(w, Read(s.clock, s.stamp));
    var s3 := s.With(w, Claimed(s.clock, s.stamp));
    assert OthersKept(s, s1, w) && OthersKept(s, s2, w) && OthersKept(s, s3, w);
    var r2 := [TryClaim(w)] + rest;
    RunCons(s2, TryClaim(w), s3, rest, bound, lossy);
    RunCons(s1, ReadStamp(w), s2, r2, bound, lossy);
    RunCons(s, Begin(w), s1, [ReadStamp(w)] + r2, bound, lossy);
  }

  /** A worker dies between the email and the commit. */
  function Lost(rest: seq<Step>): seq<Step> {
    Claiming(0, [Send(0, true)] + ([Leave(0)] + rest))
  }

  const LOST := Three(0, None, Idle, Idle, Idle, [Email(0, 0)])

  lemma LostRun(rest: seq<Step>, bound: nat)
    requires ValidRun(LOST, rest, bound, true)
    ensures ValidRun(FRESH, Lost(rest), bound, true)
    ensures Final(FRESH, Lost(rest), bound, true) == Final(LOST, rest, bound, true)
  {
    var s1 := Three(0, None, Claimed(0, None), Idle, Idle, []);
    var s2 := Three(0, None, Mailed(0), Idle, Idle, [Email(0, 0)]);
    var r1 := [Leave(0)] + rest;
    RunCons(s2, Leave(0), LOST, rest, bound, true);
    RunCons(s1, Send(0, true), s2, r1, bound, true);
    assert FRESH.With(0, Claimed(0, None)) == s1;
    ClaimRun(FRESH, 0, [Send(0, true)] + r1, bound, true);
  }

  /** What scan `w`, begun at `reference`, does on a row that shows null. */
  lemma SendsAgain(s: State, w: nat, reference: int, bound: nat, lossy: bool)
    requires s.stamp == None && s.PhaseOf(w) == Started(reference) && !Locked(s) && OnTime(s, bound)
    ensures var steps := [ReadStamp(w)] + ([TryClaim(w)] + ([Send(w, true)] + []));
            && ValidRun(s, steps, bound, lossy)
            && Final(s, steps, bound, lossy).sent == s.sent + [Email(reference, s.clock)]
  {
    var s1 := s.With(w, Read(reference, None));
    var s2 := s.With(w, Claimed(reference, None));
    var s3 := s.With(w, Mailed(reference)).(sent := s.sent + [Email(reference, s.clock)]);
    assert OthersKept(s, s1, w) && OthersKept(s, s2, w) && OthersKept(s, s3, w);
    var r2 := [Send(w, true)] + [];
    RunCons(s2, Send(w, true), s3, [], bound, lossy);
    RunCons(s1, TryClaim(w), s2, r2, bound, lossy);
    RunCons(s, ReadStamp(w), s1, [TryClaim(w)] + r2, bound, lossy);
  }

  /**
    Past the cooldown: scan 1 read the row before scan 0 commits its email, claims over
    it, and on a failed send commits the null it had read. Scan 2 is still about.
   */
  function Stale(rest: seq<Step>): seq<Step> {
    [Begin(0)] + ([Begin(2)] + ([ReadStamp(0)] + StaleRead(rest)))
  }
  function StaleRead(rest: seq<Step>): seq<Step> {
    [Advance(LATE)] + ([Begin(1)] + ([ReadStamp(1)] + StaleMail(rest)))
  }
  function StaleMail(rest: seq<Step>): seq<Step> {
    [TryClaim(0)] + ([Send(0, true)] + StaleWipe(rest))
  }
  function StaleWipe(rest: seq<Step>): seq<Step> {
    [Commit(0)] + ([TryClaim(1)] + StaleFail(rest))
  }
  function StaleFail(rest: seq<Step>): seq<Step> {
    [Send(1, false)] + ([Commit(1)] + rest)
  }

  /** The column forgot the email. */
  const FORGOT := Three(LATE, None, Idle, Idle, Started(0), [Email(0, LATE)])

  lemma StaleFailRun(rest: seq<Step>, bound: nat, lossy: bool)
    requires bound > COOLDOWN && ValidRun(FORGOT, rest, bound, lossy)
    ensures var s := Three(LATE, Some(0), Idle, Claimed(LATE, None), Started(0), [Email(0, LATE)]);
            && ValidRun(s, StaleFail(rest), bound, lossy)
            && Final(s, StaleFail(rest), bound, lossy) == Final(FORGOT, rest, bound, lossy)
  {
    var s0 := Three(LATE, Some(0), Idle, Claimed(LATE, None), Started(0), [Email(0, LATE)]);
    var s1 := Three(LATE, Some(0), Idle, Refused(LATE, None), Started(0), [Email(0, LATE)]);
    RunCons(s1, Commit(1), FORGOT, rest, bound, lossy);
    RunCons(s0, Send(1, false), s1, [Commit(1)] + rest, bound, lossy);
  }

  lemma StaleWipeRun(rest: seq<Step>, bound: nat, lossy: bool)
    requires bound > COOLDOWN && ValidRun(FORGOT, rest, bound, lossy)
    ensures var s := Three(LATE, None, Mailed(0), Read(LATE, None), Started(0), [Email(0, LATE)]);
            && ValidRun(s, StaleWipe(rest), bound, lossy)
            && Final(s, StaleWipe(rest), bound, lossy) == Final(FORGOT, rest, bound, lossy)
  {
    var s0 := Three(LATE, None, Mailed(0), Read(LATE, None), Started(0), [Email(0, LATE)]);
    var s1 := Three(LATE, Some(0), Idle, Read(LATE, None), Started(0), [Email(0, LATE)]);
    var s2 := Three(LATE, Some(0), Idle, Claimed(LATE, None), Started(0), [Email(0, LATE)]);
    StaleFailRun(rest, bound, lossy);
    var r1 := [TryClaim(1)] + StaleFail(rest);
    RunCons(s1, TryClaim(1), s2, StaleFail(rest), bound, lossy);
    RunCons(s0, Commit(0), s1, r1, bound, lossy);
  }

  lemma StaleMailRun(rest: seq<Step>, bound: nat, lossy: bool)
    requires bound > COOLDOWN && ValidRun(FORGOT, rest, bound, lossy)
    ensures var s := Three(LATE, None, Read(0, None), Read(LATE, None), Started(0), []);
            && ValidRun(s, StaleMail(rest), bound, lossy)
            && Final(s, StaleMail(rest), bound, lossy) == Final(FORGOT, rest, bound, lossy)
  {
    var s0 := Three(LATE, None, Read(0, None), Read(LATE, None), Started(0), []);
    var s1 := Three(LATE, None, Claimed(0, None), Read(LATE, None), Started(0), []);
    var s2 := Three(LATE, None, Mailed(0), Read(LATE, None), Started(0), [Email(0, LATE)]);
    StaleWipeRun(rest, bound, lossy);
    var r1 := [Send(0, true)] + StaleWipe(rest);
    RunCons(s1, Send(0, true), s2, StaleWipe(rest), bound, lossy);
    RunCons(s0, TryClaim(0), s1, r1, bound, lossy);
  }

  lemma StaleReadRun(rest: seq<Step>, bound: nat, lossy: bool)
    requires bound > COOLDOWN && ValidRun(FORGOT, rest, bound, lossy)
    ensures var s := Three(0, None, Read(0, None), Idle, Started(0), []);
            && ValidRun(s, StaleRead(rest), bound, lossy)
            && Final(s, StaleRead(rest), bound, lossy) == Final(FORGOT, rest, bound, lossy)
  {
    var s0 := Three(0, None, Read(0, None), Idle, Started(0), []);
    var s1 := Three(LATE, None, Read(0, None), Idle, Started(0), []);
    var s2 := Three(LATE, None, Read(0, None), Started(LATE), Started(0), []);
    var s3 := Three(LATE, None, Read(0, None), Read(LATE, None), Started(0), []);
    StaleMailRun(rest, bound, lossy);
    var r2 := [ReadStamp(1)] + StaleMail(rest);
    RunCons(s2, ReadStamp(1), s3, StaleMail(rest), bound, lossy);
    var r1 := [Begin(1)] + r2;
    RunCons(s1, Begin(1), s2, r2, bound, lossy);
    RunCons(s0, Advance(LATE), s1, r1, bound, lossy);
  }

  lemma StaleRun(rest: seq<Step>, bound: nat, lossy: bool)
    requires bound > COOLDOWN && ValidRun(FORGOT, rest, bound, lossy)
    ensures ValidRun(FRESH, Stale(rest), bound, lossy)
    ensures Final(FRESH, Stale(rest), bound, lossy) == Final(FORGOT, rest, bound, lossy)
  {
    var s1 := Three(0, None, Started(0), Idle, Idle, []);
    var s2 := Three(0, None, Started(0), Idle, Started(0), []);
    var s3 := Three(0, None, Read(0, None), Idle, Started(0), []);
    StaleReadRun(rest, bound, lossy);
    var r2 := [ReadStamp(0)] + StaleRead(rest);
    RunCons(s2, ReadStamp(0), s3, StaleRead(rest), bound, lossy);
    var r1 := [Begin(2)] + r2;
    RunCons(s1, Begin(2), s2, r2, bound, lossy);
    RunCons(FRESH, Begin(0), s1, r1, bound, lossy);
  }

  /** Outside the conditions two emails carry one reference and leave at one instant. */
  lemma SentTwice(bound: nat, lossy: bool) returns (steps: seq<Step>)
    requires bound > COOLDOWN || lossy
    ensures ValidRun(FRESH, steps, bound, lossy)
    ensures var sent := Final(FRESH, steps, bound, lossy).sent; |sent| == 2 && sent[0] == sent[1]
  {
    if lossy {
      var claimed := Three(0, None, Claimed(0, None), Idle, Idle, [Email(0, 0)]);
      var again := [Send(0, true)] + [];
      RunCons(claimed, Send(0, true), Three(0, None, Mailed(0), Idle, Idle, [Email(0, 0), Email(0, 0)]), [], bound, true);
      assert LOST.With(0, Claimed(0, None)) == claimed;
      ClaimRun(LOST, 0, again, bound, true);
      LostRun(Claiming(0, again), bound);
      steps := Lost(Claiming(0, again));
    } else {
      var again := [ReadStamp(2)] + ([TryClaim(2)] + ([Send(2, true)] + []));
      SendsAgain(FORGOT, 2, 0, bound, lossy);
      StaleRun(again, bound, lossy);
      steps := Stale(again);
    }
  }

  /** Outside the conditions the column can end up null after an email. */
  lemma Forgotten(bound: nat, lossy: bool) returns (steps: seq<Step>)
    requires bound > COOLDOWN || lossy
    ensures ValidRun(FRESH, steps, bound, lossy)
    ensures !Truthful(None, Final(FRESH, steps, bound, lossy))
  {
    if lossy {
      LostRun([], bound);
      steps := Lost([]);
    } else {
      var idle := Three(LATE, None, Idle, Idle, Idle, [Email(0, LATE)]);
      RunCons(FORGOT, Leave(2), idle, [], bound, lossy);
      StaleRun([Leave(2)] + [], bound, lossy);
      steps := Stale([Leave(2)] + []);
    }
  }

  // ------------------------------------------------------------ the exact conditions

  /**
    However many scans overlap, over every run the column between scans says what was
    last sent, so a failed send stays retriable, if and only if scans end within the
    cooldown and none dies between an email and its commit.
   */
  lemma TruthfulExactlyWithinDeadline(bound: nat, lossy: bool)
    ensures (forall s: State, steps: seq<Step> | Init(s) && ValidRun(s, steps, bound, lossy)
               :: Truthful(s.stamp, Final(s, steps, bound, lossy)))
            <==> bound <= COOLDOWN && !lossy
  {
    if bound <= COOLDOWN && !lossy {
      forall s: State, steps: seq<Step> | Init(s) && ValidRun(s, steps, bound, lossy)
        ensures Truthful(s.stamp, Final(s, steps, bound, lossy))
      {
        RunKeepsInv(s.stamp, s, steps, bound);
      }
    } else {
      var steps := Forgotten(bound, lossy);
      assert Init(FRESH);
    }
  }

  /** Emails have references more than the cooldown apart under the same condition. */
  lemma SpacedExactlyWithinDeadline(bound: nat, lossy: bool)
    ensures (forall s: State, steps: seq<Step> | Init(s) && ValidRun(s, steps, bound, lossy)
               :: ReferencesSpaced(Final(s, steps, bound, lossy)))
            <==> bound <= COOLDOWN && !lossy
  {
    if bound <= COOLDOWN && !lossy {
      forall s: State, steps: seq<Step> | Init(s) && ValidRun(s, steps, bound, lossy)
        ensures ReferencesSpaced(Final(s, steps, bound, lossy))
      {
        RunKeepsInv(s.stamp, s, steps, bound);
      }
    } else {
      var steps := SentTwice(bound, lossy);
      var sent := Final(FRESH, steps, bound, lossy).sent;
      assert Init(FRESH) && sent[0].reference == sent[1].reference;
    }
  }

  /** An email sent `bound` after its reference, and the next one sent at once. */
  function LateThenPrompt(bound: nat): seq<Step> {
    Claiming(0, [Advance(bound)] + ([Send(0, true)] + ([Commit(0)] + PROMPT)))
  }
  const PROMPT: seq<Step> := [Advance(LATE)] + Claiming(0, [Send(0, true)] + [])

  lemma PromptSend(bound: nat)
    requires bound <= COOLDOWN
    ensures var s := Three(bound, Some(0), Idle, Idle, Idle, [Email(0, bound)]);
            && ValidRun(s, PROMPT, bound, false)
            && Final(s, PROMPT, bound, false).sent == [Email(0, bound), Email(LATE, LATE)]
  {
    var s0 := Three(bound, Some(0), Idle, Idle, Idle, [Email(0, bound)]);
    var s1 := Three(LATE, Some(0), Idle, Idle, Idle, [Email(0, bound)]);
    var s2 := Three(LATE, Some(0), Claimed(LATE, Some(0)), Idle, Idle, [Email(0, bound)]);
    var s3 := Three(LATE, Some(0), Mailed(LATE), Idle, Idle, [Email(0, bound), Email(LATE, LATE)]);
    RunCons(s2, Send(0, true), s3, [], bound, false);
    assert s1.With(0, Claimed(LATE, Some(0))) == s2;
    ClaimRun(s1, 0, [Send(0, true)] + [], bound, false);
    RunCons(s0, Advance(LATE), s1, Claiming(0, [Send(0, true)] + []), bound, false);
  }

  lemma LateThenPromptRuns(bound: nat)
    requires bound <= COOLDOWN
    ensures ValidRun(FRESH, LateThenPrompt(bound), bound, false)
    ensures Final(FRESH, LateThenPrompt(bound), bound, false).sent == [Email(0, bound), Email(LATE, LATE)]
  {
    var s1 := Three(0, None, Claimed(0, None), Idle, Idle, []);
    var s2 := Three(bound, None, Claimed(0, None), Idle, Idle, []);
    var s3 := Three(bound, None, Mailed(0), Idle, Idle, [Email(0, bound)]);
    var s4 := Three(bound, Some(0), Idle, Idle, Idle, [Email(0, bound)]);
    PromptSend(bound);
    var r3 := [Commit(0)] + PROMPT;
    RunCons(s3, Commit(0), s4, PROMPT, bound, false);
    var r2 := [Send(0, true)] + r3;
    RunCons(s2, Send(0, true), s3, r3, bound, false);
    RunCons(s1, Advance(bound), s2, r2, bound, false);
    assert FRESH.With(0, Claimed(0, None)) == s1;
    ClaimRun(FRESH, 0, [Advance(bound)] + r2, bound, false);
  }

  /** The emails themselves leave more than `gap` apart exactly when the two bounds fit. */
  lemma SendsSpacedExactly(bound: nat, gap: nat, lossy: bool)
    ensures (forall s: State, steps: seq<Step> | Init(s) && ValidRun(s, steps, bound, lossy)
               :: SendsSpaced(Final(s, steps, bound, lossy), gap))
            <==> bound + gap <= COOLDOWN && !lossy
  {
    if bound + gap <= COOLDOWN && !lossy {
      forall s: State, steps: seq<Step> | Init(s) && ValidRun(s, steps, bound, lossy)
        ensures SendsSpaced(Final(s, steps, bound, lossy), gap)
      {
        RunKeepsInv(s.stamp, s, steps, bound);
      }
    } else if bound > COOLDOWN || lossy {
      var steps := SentTwice(bound, lossy);
      var sent := Final(FRESH, steps, bound, lossy).sent;
      assert Init(FRESH) && sent[0].at == sent[1].at;
    } else {
      LateThenPromptRuns(bound);
      var sent := Final(FRESH, LateThenPrompt(bound), bound, false).sent;
      assert Init(FRESH) && sent[1].at <= sent[0].at + gap;
    }
  }
}
