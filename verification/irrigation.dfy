/**
  Scheduled irrigation: every tick of the beat looks for programs whose start time lies
  in the window that just passed, and fires each at most once per window through a
  two-UPDATE claim on `last_run_at` (first "is null", then "older than the window").
 */
module Irrigation {
  import opened Stamps
  import Throttle

  const WINDOW: nat := 15 * MINUTE

  type TimeOfDay = t: int | 0 <= t < DAY

  /** Days since the epoch; a UTC date. */
  function DateOf(instant: int): int { instant / DAY }

  /** ISO weekday, 1 = Monday; the epoch was a Thursday. */
  function Weekday(date: int): int { (date + 3) % 7 + 1 }

  /**
    `weekdays` is `None` when the column is blank, which means every day. A column with
    text but no digits parses to the empty set, which means never.
   */
  datatype Program = Program(
    id: int,
    userId: int,
    zoneId: int,
    startTime: TimeOfDay,
    weekdays: Option<set<int>>,
    enabled: bool,
    lastRun: Stamp)

  datatype Status = Pending | Simulated | DispatchFailed

  datatype Command = Command(userId: int, zoneId: int, status: Status, createdAt: int)

  predicate Allowed(p: Program, date: int) {
    p.enabled && (p.weekdays.Some? ==> Weekday(date) in p.weekdays.value)
  }

  /** Start of the program on a date, as an instant. */
  function StartOn(p: Program, date: int): int { date * DAY + p.startTime }

  predicate InWindow(p: Program, reference: int) {
    reference - WINDOW <= StartOn(p, DateOf(reference)) <= reference
  }

  predicate Due(p: Program, reference: int) {
    Allowed(p, DateOf(reference)) && InWindow(p, reference)
  }

  predicate Fires(p: Program, reference: int) {
    Due(p, reference) && OlderThan(p.lastRun, reference - WINDOW)
  }

  function Ticked(p: Program, reference: int): Program {
    if Fires(p, reference) then p.(lastRun := Some(reference)) else p
  }

  function CommandFor(p: Program, reference: int, status: Status): Command {
    Command(p.userId, p.zoneId, status, reference)
  }

  function StatusOf(dispatchEnabled: bool): Status {
    if dispatchEnabled then DispatchFailed else Simulated
  }

  /** The commands one tick creates, in program order. */
  function CommandsFor(ps: seq<Program>, reference: int, status: Status): seq<Command> {
    if ps == [] then []
    else (if Fires(ps[0], reference) then [CommandFor(ps[0], reference, status)] else [])
         + CommandsFor(ps[1..], reference, status)
  }

  lemma {:induction false} CommandsSnoc(ps: seq<Program>, i: nat, reference: int, status: Status)
    requires i < |ps|
    ensures CommandsFor(ps[..i + 1], reference, status)
            == CommandsFor(ps[..i], reference, status)
               + if Fires(ps[i], reference) then [CommandFor(ps[i], reference, status)] else []
  {
    if i == 0 {
    } else {
      assert ps[..i + 1][1..] == ps[1..][..i] && ps[..i][1..] == ps[1..][..i - 1];
      CommandsSnoc(ps[1..], i - 1, reference, status);
    }
  }

  /** The irrigation tables and the task that runs over them. */
  class Scheduler {
    var programs: seq<Program>   // in id order
    var commands: seq<Command>

    /** UPDATE ... SET last_run_at = reference WHERE id = row AND last_run_at IS NULL. */
    method ClaimIfNull(row: nat, reference: int) returns (claimed: bool)
      requires row < |programs|
      modifies this`programs
      ensures claimed == old(programs)[row].lastRun.None?
      ensures programs == if claimed then old(programs)[row := old(programs)[row].(lastRun := Some(reference))]
                          else old(programs)
    {
      claimed := programs[row].lastRun.None?;
      if claimed {
        programs := programs[row := programs[row].(lastRun := Some(reference))];
      }
    }

    /** UPDATE ... SET last_run_at = reference WHERE id = row AND last_run_at < cutoff. */
    method ClaimIfOlder(row: nat, reference: int, cutoff: int) returns (claimed: bool)
      requires row < |programs|
      modifies this`programs
      ensures claimed == (old(programs)[row].lastRun.Some? && old(programs)[row].lastRun.value < cutoff)
      ensures programs == if claimed then old(programs)[row := old(programs)[row].(lastRun := Some(reference))]
                          else old(programs)
    {
      claimed := programs[row].lastRun.Some? && programs[row].lastRun.value < cutoff;
      if claimed {
        programs := programs[row := programs[row].(lastRun := Some(reference))];
      }
    }

    /** The body of the loop for one program: at most one stamp and one command. */
    method RunProgram(row: nat, reference: int, dispatchEnabled: bool) returns (fired: bool, skipped: bool)
      requires row < |programs|
      modifies this
      ensures var p := old(programs)[row];
              && programs == old(programs)[row := Ticked(p, reference)]
              && commands == old(commands)
                             + (if Fires(p, reference) then [CommandFor(p, reference, StatusOf(dispatchEnabled))] else [])
              && (fired <==> Fires(p, reference) && !dispatchEnabled)
              && (skipped <==> Due(p, reference) && !fired)
    {
      var program := programs[row];
      var windowStart := reference - WINDOW;
      fired, skipped := false, false;
      if !Allowed(program, DateOf(reference)) {
        return;
      }
      var start := StartOn(program, DateOf(reference));
      if !(windowStart <= start <= reference) {
        return;
      }
      if program.lastRun.Some? && program.lastRun.value >= windowStart {
        skipped := true;
        return;
      }
      var claimed := ClaimIfNull(row, reference);
      if !claimed {
        claimed := ClaimIfOlder(row, reference, windowStart);
      }
      if !claimed {
        skipped := true;
        return;
      }
      var cmd := Command(program.userId, program.zoneId, Pending, reference);
      if dispatchEnabled {
        cmd := cmd.(status := DispatchFailed);
        skipped := true;
      } else {
        cmd := cmd.(status := Simulated);
        fired := true;
      }
      commands := commands + [cmd];
    }

    /**
      One tick. Exactly the due programs not fired since the window opened fire; each
      adds one command and stamps its own row, and nothing else changes. With dispatch
      enabled no backend is wired, so every dispatch fails and counts as skipped.
     */
    method RunDuePrograms(reference: int, dispatchEnabled: bool) returns (fired: nat, skipped: nat)
      modifies this
      ensures |programs| == |old(programs)|
      ensures forall k | 0 <= k < |programs| :: programs[k] == Ticked(old(programs)[k], reference)
      ensures commands == old(commands) + CommandsFor(old(programs), reference, StatusOf(dispatchEnabled))
      ensures fired == if dispatchEnabled then 0 else |CommandsFor(old(programs), reference, StatusOf(dispatchEnabled))|
      ensures fired + skipped == |Filter(old(programs), (p: Program) => Due(p, reference))|
      ensures forall c | c in commands[|old(commands)|..] ::
                c.createdAt == reference && c.status == if dispatchEnabled then DispatchFailed else Simulated
    {
      TickCommands(programs, reference, StatusOf(dispatchEnabled));
      fired, skipped := 0, 0;
      ghost var before, queued := programs, commands;
      var i := 0;
      while i < |programs|
        invariant Progress(before, queued, i, reference, dispatchEnabled, fired, skipped)
      {
        fired, skipped := RunTurn(before, queued, i, reference, dispatchEnabled, fired, skipped);
        i := i + 1;
      }
      assert before[..i] == before;
    }

    /** Both tables and the counters once the first `i` programs are done. */
    ghost predicate Progress(before: seq<Program>, queued: seq<Command>, i: nat, reference: int, dispatchEnabled: bool,
                             fired: nat, skipped: nat)
      reads this
    {
      && i <= |programs| == |before|
      && (forall k | 0 <= k < i :: programs[k] == Ticked(before[k], reference))
      && (forall k | i <= k < |before| :: programs[k] == before[k])
      && var created := CommandsFor(before[..i], reference, StatusOf(dispatchEnabled));
         && commands == queued + created
         && fired == (if dispatchEnabled then 0 else |created|)
         && fired + skipped == |Filter(before[..i], (p: Program) => Due(p, reference))|
    }

    /** One turn of the loop. */
    method RunTurn(ghost before: seq<Program>, ghost queued: seq<Command>, i: nat, reference: int, dispatchEnabled: bool,
                   fired: nat, skipped: nat)
      returns (fired': nat, skipped': nat)
      requires Progress(before, queued, i, reference, dispatchEnabled, fired, skipped) && i < |programs|
      modifies this
      ensures Progress(before, queued, i + 1, reference, dispatchEnabled, fired', skipped')
    {
      FilterSnoc(before, i, (p: Program) => Due(p, reference));
      CommandsSnoc(before, i, reference, StatusOf(dispatchEnabled));
      var f, s := RunProgram(i, reference, dispatchEnabled);
      fired' := if f then fired + 1 else fired;
      skipped' := if s then skipped + 1 else skipped;
    }
  }

  /** One tick commands the zone of each program it fires, for its user, in id order. */
  lemma {:induction false} TickCommands(ps: seq<Program>, reference: int, status: Status)
    ensures var fired, created := Filter(ps, (p: Program) => Fires(p, reference)), CommandsFor(ps, reference, status);
            && |created| == |fired|
            && (forall i | 0 <= i < |fired| :: created[i].userId == fired[i].userId && created[i].zoneId == fired[i].zoneId)
            && forall c | c in created :: c.createdAt == reference && c.status == status
  {
    if ps == [] {
    } else {
      TickCommands(ps[1..], reference, status);
    }
  }

  // ------------------------------------------------- which instants are due

  /** Day `k` of the ISO week, 1 = Monday to 7 = Sunday; week 0 holds the epoch, a Thursday. */
  function IsoDay(week: int, k: int): int { 7 * week + k - 4 }

  /** The weekday of a date is its place in the ISO week. */
  lemma WeekdayIsIso(date: int, k: int)
    requires 1 <= k <= 7
    ensures Weekday(date) == k <==> exists week: int :: date == IsoDay(week, k)
    ensures IsoDay(0, 4) == 0
  {
    if Weekday(date) == k {
      assert date == IsoDay((date + 3) / 7, k);
    }
    if exists week: int :: date == IsoDay(week, k) {
      var week: int :| date == IsoDay(week, k);
      assert date + 3 == 7 * week + (k - 1);
    }
  }

  /** The program's column lets it run on this date: no list, or the date's ISO weekday is listed. */
  ghost predicate Listed(p: Program, date: int) {
    p.weekdays.Some? ==> exists week: int, k: int :: 1 <= k <= 7 && k in p.weekdays.value && date == IsoDay(week, k)
  }

  /**
    A program is due at a time of day of a date exactly when it is enabled, the date's
    weekday is listed, and it started at most fifteen minutes ago.
   */
  lemma DueExactly(p: Program, date: int, time: TimeOfDay)
    ensures DateOf(date * DAY + time) == date
    ensures Due(p, date * DAY + time) <==> p.enabled && Listed(p, date) && 0 <= time - p.startTime <= 15 * MINUTE
  {
    assert DateOf(date * DAY + time) == date;
    WeekdayIsIso(date, Weekday(date));
    if Listed(p, date) && p.weekdays.Some? {
      var week: int, k: int :| 1 <= k <= 7 && k in p.weekdays.value && date == IsoDay(week, k);
      WeekdayIsIso(date, k);
    }
  }

  lemma {:induction false} FiresAreDue(p: Program, ticks: seq<int>)
    ensures forall t | t in FireTimes(p, ticks) :: t in ticks && Due(p, t)
    decreases |ticks|
  {
    if ticks == [] {
    } else {
      var q := Ticked(p, ticks[0]);
      FiresAreDue(q, ticks[1..]);
      assert forall t :: Due(q, t) <==> Due(p, t);
    }
  }

  /** Over any run of ticks, in any order, no command falls on a date the program does not list. */
  lemma NoCommandOffDays(p: Program, ticks: seq<int>, date: int)
    requires !p.enabled || !Listed(p, date)
    ensures CountOn(FireTimes(p, ticks), date) == 0
  {
    var on := Filter(FireTimes(p, ticks), (t: int) => DateOf(t) == date);
    if on != [] {
      var t := on[0];
      assert t in on;
      FiresAreDue(p, ticks);
      DueExactly(p, date, t - date * DAY);
      assert false;
    }
  }

  // ------------------------------------------------- exactly once per day

  /** The program after a run of ticks. */
  function AfterTicks(p: Program, ticks: seq<int>): Program
    decreases |ticks|
  {
    if ticks == [] then p else AfterTicks(Ticked(p, ticks[0]), ticks[1..])
  }

  /** References at which commands for the program were created over a run of ticks. */
  function FireTimes(p: Program, ticks: seq<int>): seq<int>
    decreases |ticks|
  {
    if ticks == [] then []
    else (if Fires(p, ticks[0]) then [ticks[0]] else []) + FireTimes(Ticked(p, ticks[0]), ticks[1..])
  }

  function DueTicks(p: Program, ticks: seq<int>): seq<int> {
    Filter(ticks, t => Due(p, t))
  }

  /** Over ticks in any order, the program is throttled by the window on its due ticks. */
  lemma {:induction false} FiresAreThrottled(p: Program, ticks: seq<int>)
    ensures FireTimes(p, ticks) == Throttle.WinningTimes(p.lastRun, DueTicks(p, ticks), WINDOW)
    decreases |ticks|
  {
    if ticks == [] {
    } else {
      var t := ticks[0];
      var q := Ticked(p, t);
      FiresAreThrottled(q, ticks[1..]);
      DueIgnoresStamp(p, q, ticks[1..]);
      if Due(p, t) {
        assert DueTicks(p, ticks)[1..] == DueTicks(p, ticks[1..]);
        Throttle.WinningTimesStep(p.lastRun, DueTicks(p, ticks), WINDOW);
      } else {
        assert DueTicks(p, ticks) == DueTicks(p, ticks[1..]);
      }
    }
  }

  lemma {:induction false} DueIgnoresStamp(p: Program, q: Program, ticks: seq<int>)
    requires q == p.(lastRun := q.lastRun)
    ensures DueTicks(p, ticks) == DueTicks(q, ticks)
  {
    if ticks == [] {
    } else {
      DueIgnoresStamp(p, q, ticks[1..]);
      assert Due(p, ticks[0]) == Due(q, ticks[0]);
    }
  }

  /** How many of the instants fall on `date`. */
  function CountOn(times: seq<int>, date: int): nat {
    |Filter(times, (t: int) => DateOf(t) == date)|
  }

  /** Two due instants are on one date exactly when they are at most a window apart. */
  lemma SameDateIffClose(p: Program, a: int, b: int)
    requires InWindow(p, a) && InWindow(p, b) && a <= b
    ensures DateOf(a) == DateOf(b) <==> b - a <= WINDOW
  {
    if DateOf(a) < DateOf(b) {
      assert StartOn(p, DateOf(b)) >= StartOn(p, DateOf(a)) + DAY;
    } else {
      assert DateOf(a) == DateOf(b);
    }
  }

  ghost predicate SomeOn(times: seq<int>, date: int) {
    exists t :: t in times && DateOf(t) == date
  }

  lemma {:induction false} WinnersPerDate(p: Program, stamp: Stamp, times: seq<int>, date: int)
    requires Throttle.Ordered(times) && forall t | t in times :: InWindow(p, t)
    requires stamp.Some? && times != [] ==> InWindow(p, stamp.value) && stamp.value <= times[0]
    ensures CountOn(Throttle.WinningTimes(stamp, times, WINDOW), date)
            == if SomeOn(times, date) && !(stamp.Some? && DateOf(stamp.value) == date) then 1 else 0
    decreases |times|
  {
    if times == [] {
    } else {
      var t := times[0];
      var rest := times[1..];
      Throttle.WinningTimesStep(stamp, times, WINDOW);
      Throttle.OrderedTail(times);
      assert forall u | u in rest :: u in times;
      assert SomeOn(times, date) <==> DateOf(t) == date || SomeOn(rest, date) by {
        assert forall u | u in times :: u == t || u in rest;
      }
      if stamp.Some? {
        SameDateIffClose(p, stamp.value, t);
      }
      assert rest != [] ==> rest[0] == times[1];
      if OlderThan(stamp, t - WINDOW) {
        WinnersPerDate(p, Some(t), rest, date);
        var won := Throttle.WinningTimes(Some(t), rest, WINDOW);
        assert ([t] + won)[1..] == won;
      } else {
        WinnersPerDate(p, stamp, rest, date);
      }
    }
  }

  /** One of the instants is on `date` and finds the stamp older than the window. */
  ghost predicate OldEnoughOn(stamp: Stamp, times: seq<int>, date: int) {
    exists t :: t in times && DateOf(t) == date && OlderThan(stamp, t - WINDOW)
  }

  /** The first instant wins: what follows is counted from a stamp of the schedule. */
  lemma WinnersFromFirst(p: Program, stamp: Stamp, times: seq<int>, date: int)
    requires Throttle.Ordered(times) && times != [] && forall t | t in times :: InWindow(p, t)
    requires OlderThan(stamp, times[0] - WINDOW)
    ensures CountOn(Throttle.WinningTimes(stamp, times, WINDOW), date)
            == if SomeOn(times, date) then 1 else 0
  {
    var t, rest := times[0], times[1..];
    Throttle.WinningTimesStep(stamp, times, WINDOW);
    Throttle.OrderedTail(times);
    assert forall u | u in rest :: u in times;
    assert rest != [] ==> rest[0] == times[1];
    WinnersPerDate(p, Some(t), rest, date);
    var won := Throttle.WinningTimes(Some(t), rest, WINDOW);
    assert ([t] + won)[1..] == won;
    assert SomeOn(times, date) <==> DateOf(t) == date || SomeOn(rest, date) by {
      assert forall u | u in times :: u == t || u in rest;
    }
  }

  lemma {:induction false} WinnersFromAnyStamp(p: Program, stamp: Stamp, times: seq<int>, date: int)
    requires Throttle.Ordered(times) && forall t | t in times :: InWindow(p, t)
    ensures CountOn(Throttle.WinningTimes(stamp, times, WINDOW), date)
            == if OldEnoughOn(stamp, times, date) then 1 else 0
    decreases |times|
  {
    if times == [] {
    } else if OlderThan(stamp, times[0] - WINDOW) {
      WinnersFromFirst(p, stamp, times, date);
      OldEnoughFromFirst(stamp, times, date);
    } else {
      OldEnoughLater(stamp, times, date);
      Throttle.WinningTimesStep(stamp, times, WINDOW);
      Throttle.OrderedTail(times);
      WinnersFromAnyStamp(p, stamp, times[1..], date);
    }
  }

  lemma OldEnoughFromFirst(stamp: Stamp, times: seq<int>, date: int)
    requires Throttle.Ordered(times) && times != [] && OlderThan(stamp, times[0] - WINDOW)
    ensures OldEnoughOn(stamp, times, date) <==> SomeOn(times, date)
  {
    forall t | t in times ensures OlderThan(stamp, t - WINDOW) {
      var k :| 0 <= k < |times| && times[k] == t;
      assert times[0] <= times[k];
    }
  }

  lemma OldEnoughLater(stamp: Stamp, times: seq<int>, date: int)
    requires times != [] && !OlderThan(stamp, times[0] - WINDOW)
    ensures OldEnoughOn(stamp, times, date) <==> OldEnoughOn(stamp, times[1..], date)
    ensures forall t | t in times[1..] :: t in times
  {
    assert forall t | t in times :: t == times[0] || t in times[1..];
  }

  /**
    Exactly once: over any time-ordered run of ticks, a program whose schedule is fixed
    creates one command on each date with a due tick that finds its last run older than
    the window, and none on any other date, wherever that last run lies.
   */
  lemma ExactlyOncePerDate(p: Program, ticks: seq<int>, date: int)
    requires Throttle.Ordered(ticks)
    ensures CountOn(FireTimes(p, ticks), date)
            == if exists t :: t in ticks && Due(p, t) && DateOf(t) == date && OlderThan(p.lastRun, t - WINDOW)
               then 1 else 0
  {
    var due := DueTicks(p, ticks);
    FiresAreThrottled(p, ticks);
    OrderedFilter(ticks, t => Due(p, t));
    WinnersFromAnyStamp(p, p.lastRun, due, date);
    if exists t :: t in ticks && Due(p, t) && DateOf(t) == date && OlderThan(p.lastRun, t - WINDOW) {
      var t :| t in ticks && Due(p, t) && DateOf(t) == date && OlderThan(p.lastRun, t - WINDOW);
      assert t in due;
    }
  }

  /** When the last run was itself in the window, the dates left out are just its own. */
  lemma OnceOnEachFreshDate(p: Program, ticks: seq<int>, date: int)
    requires Throttle.Ordered(ticks)
    requires p.lastRun.Some? && ticks != [] ==> InWindow(p, p.lastRun.value) && p.lastRun.value <= ticks[0]
    ensures CountOn(FireTimes(p, ticks), date)
            == if (exists t :: t in ticks && Due(p, t) && DateOf(t) == date)
                  && !(p.lastRun.Some? && DateOf(p.lastRun.value) == date) then 1 else 0
  {
    ExactlyOncePerDate(p, ticks, date);
    if p.lastRun.Some? {
      forall t | t in ticks && Due(p, t)
        ensures OlderThan(p.lastRun, t - WINDOW) <==> DateOf(t) != DateOf(p.lastRun.value)
      {
        var k :| 0 <= k < |ticks| && ticks[k] == t;
        assert ticks[0] <= ticks[k];
        SameDateIffClose(p, p.lastRun.value, t);
      }
    }
  }

  lemma {:induction false} OrderedFilter(times: seq<int>, keep: int -> bool)
    requires Throttle.Ordered(times)
    ensures Throttle.Ordered(Filter(times, keep))
  {
    if times == [] {
    } else {
      Throttle.OrderedTail(times);
      OrderedFilter(times[1..], keep);
      var rest := Filter(times[1..], keep);
      forall i, j | 0 <= i <= j < |Filter(times, keep)|
        ensures Filter(times, keep)[i] <= Filter(times, keep)[j]
      {
        if keep(times[0]) {
          assert Filter(times, keep) == [times[0]] + rest;
          if i == 0 && j > 0 {
            assert rest[j - 1] in rest;
            var k :| 0 <= k < |times[1..]| && times[1..][k] == rest[j - 1];
            assert times[k + 1] == rest[j - 1];
          }
        } else {
          assert Filter(times, keep) == rest;
        }
      }
    }
  }

  // ------------------------------------------------- the beat near midnight

  /** The beat fires the task on every even minute. */
  const BEAT := 2 * MINUTE

  /**
    The window test uses the reference's own date, so what lies past midnight is never
    looked back at. On the ideal beat a program is reached on an allowed date if and
    only if it starts no later than the last beat of the day, 23:58:00.
   */
  lemma BeatReachesProgram(p: Program, date: int)
    ensures (exists k: int :: Due(p, k * BEAT) && DateOf(k * BEAT) == date)
            <==> Allowed(p, date) && p.startTime <= DAY - BEAT
  {
    if Allowed(p, date) && p.startTime <= DAY - BEAT {
      BeatAfterStart(p, date);
    }
    if exists k: int :: Due(p, k * BEAT) && DateOf(k * BEAT) == date {
      var k: int :| Due(p, k * BEAT) && DateOf(k * BEAT) == date;
      LastBeatOfDay(date, k);
      assert StartOn(p, date) <= k * BEAT;
    }
  }

  /** The last beat of a date is 23:58:00. */
  lemma LastBeatOfDay(date: int, k: int)
    requires DateOf(k * BEAT) == date
    ensures k * BEAT <= date * DAY + DAY - BEAT
  {
    assert DAY == 720 * BEAT;
    assert k < (date + 1) * 720;
  }

  /** The first beat at or after the start is within the window and on the same date. */
  lemma BeatAfterStart(p: Program, date: int)
    requires Allowed(p, date) && p.startTime <= DAY - BEAT
    ensures exists k: int :: Due(p, k * BEAT) && DateOf(k * BEAT) == date
  {
    var n := (p.startTime + BEAT - 1) / BEAT;
    var k := date * 720 + n;
    assert k * BEAT == date * DAY + n * BEAT;
    assert DateOf(k * BEAT) == date;
    assert Due(p, k * BEAT);
  }

  // ------------------------------------------------- overlapping ticks

  datatype Phase = Idle | Ready(reference: int) | NullMissed(reference: int)

  /**
    One program row and the ticks at work on it. `decided` lists the references of the
    attempts in the order their outcome was settled, `fired` those that won.
   */
  datatype System = System(lastRun: Stamp, workers: map<nat, Phase>, decided: seq<int>, fired: seq<int>)
  {
    function PhaseOf(w: nat): Phase { if w in workers then workers[w] else Idle }

    function With(w: nat, p: Phase): System { this.(workers := workers[w := p]) }
  }

  /**
    `Begin` is a tick reaching the claim: it captured `reference` at any earlier moment,
    judged the window by whatever start time it loaded, and its pre-check saw `seen`,
    which may be stale.
   */
  datatype Step =
    | Begin(w: nat, reference: int, seen: Stamp)
    | TryNull(w: nat)
    | TryOlder(w: nat)

  predicate Enabled(s: System, step: Step) {
    match step
    case Begin(w, reference, seen) =>
      s.PhaseOf(w).Idle? && !(seen.Some? && seen.value >= reference - WINDOW)
    case TryNull(w) => s.PhaseOf(w).Ready?
    case TryOlder(w) => s.PhaseOf(w).NullMissed?
  }

  function Apply(s: System, step: Step): System
    requires Enabled(s, step)
  {
    match step
    case Begin(w, reference, _) => s.With(w, Ready(reference))
    case TryNull(w) =>
      var r := s.PhaseOf(w).reference;
      if s.lastRun.None?
      then s.With(w, Idle).(lastRun := Some(r), decided := s.decided + [r], fired := s.fired + [r])
      else s.With(w, NullMissed(r))
    case TryOlder(w) =>
      var r := s.PhaseOf(w).reference;
      if s.lastRun.Some? && s.lastRun.value < r - WINDOW
      then s.With(w, Idle).(lastRun := Some(r), decided := s.decided + [r], fired := s.fired + [r])
      else s.With(w, Idle).(decided := s.decided + [r])
  }

  ghost predicate ValidRun(s: System, steps: seq<Step>)
    decreases |steps|
  {
    steps == [] || (Enabled(s, steps[0]) && ValidRun(Apply(s, steps[0]), steps[1..]))
  }

  ghost function Final(s: System, steps: seq<Step>): System
    requires ValidRun(s, steps)
    decreases |steps|
  {
    if steps == [] then s else Final(Apply(s, steps[0]), steps[1..])
  }

  /** The row behaves as if each decided attempt had been one "null or older" UPDATE. */
  ghost predicate ActsAtomically(initial: Stamp, s: System) {
    && s.fired == Throttle.WinningTimes(initial, s.decided, WINDOW)
    && s.lastRun == Throttle.StampAfter(initial, Throttle.Attempts(s.decided, WINDOW))
    && forall w | s.PhaseOf(w).NullMissed? :: s.lastRun.Some?
  }

  lemma StepActsAtomically(initial: Stamp, s: System, step: Step)
    requires ActsAtomically(initial, s) && Enabled(s, step)
    ensures ActsAtomically(initial, Apply(s, step))
  {
    var t := Apply(s, step);
    assert forall v | v != step.w :: t.PhaseOf(v) == s.PhaseOf(v);
    if t.decided != s.decided {
      Throttle.WinningTimesSnoc(initial, s.decided, WINDOW, s.PhaseOf(step.w).reference);
    }
  }

  /**
    Refinement: over every interleaving of ticks, with out-of-order references and stale
    pre-checks, the two-UPDATE claim is exactly one atomic claim per attempt.
   */
  lemma {:induction false} TwoStepClaimIsAtomic(initial: Stamp, s: System, steps: seq<Step>)
    requires ActsAtomically(initial, s) && ValidRun(s, steps)
    ensures ActsAtomically(initial, Final(s, steps))
    decreases |steps|
  {
    if steps == [] {
    } else {
      StepActsAtomically(initial, s, steps[0]);
      TwoStepClaimIsAtomic(initial, Apply(s, steps[0]), steps[1..]);
    }
  }

  /** A program row with stamp `initial` and no tick at work on it. */
  function Start(initial: Stamp): System { System(initial, map[], [], []) }

  /** So whatever is edited between ticks, fires are more than a window apart. */
  lemma OverlappingFiresAreSpaced(initial: Stamp, steps: seq<Step>, i: nat, j: nat)
    requires ValidRun(Start(initial), steps)
    requires i < j < |Final(Start(initial), steps).fired|
    ensures var s := Final(Start(initial), steps);
            && s.fired[i] + WINDOW < s.fired[j]
            && s.lastRun == Some(s.fired[|s.fired| - 1])
  {
    var s := Final(Start(initial), steps);
    assert ActsAtomically(initial, s) by {
      TwoStepClaimIsAtomic(initial, Start(initial), steps);
    }
    assert s.lastRun == Some(s.fired[|s.fired| - 1]) by {
      Throttle.StampIsLastWin(initial, s.decided, WINDOW);
    }
    assert s.fired[i] + WINDOW < s.fired[j] by {
      Throttle.WinningTimesAreLegal(initial, s.decided, WINDOW);
      Throttle.SpacedPairs(initial, s.fired, WINDOW, i, j);
    }
  }
}
