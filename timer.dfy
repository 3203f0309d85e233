/**
 * The phase controller and session clock of the widget as values: the mode,
 * the remaining seconds and the running flag, and what each user action and
 * each one-second tick does to them. The widget class applies exactly these
 * steps to its fields.
 */
module Timer {

  /** "work", "short" and "long" (App.jsx:29). */
  datatype Mode = Work | Short | Long

  /** The three configured durations, in minutes (App.jsx:24-26). */
  datatype Durations = Durations(work: int, short: int, long: int)
  {
    /** The duration inputs never let a value below one minute through. */
    predicate Valid() { work >= 1 && short >= 1 && long >= 1 }
  }

  datatype Clock = Clock(mode: Mode, remaining: int, running: bool)

  function Minutes(d: Durations, m: Mode): int
  {
    match m
    case Work => d.work
    case Short => d.short
    case Long => d.long
  }

  /** The nominal length of a mode, in seconds (App.jsx:51, App.jsx:181). */
  function Nominal(d: Durations, m: Mode): (s: int)
    ensures s % 60 == 0 && s / 60 == Minutes(d, m)
    ensures d.Valid() ==> s >= 60
  {
    Minutes(d, m) * 60
  }

  /** `Math.max(1, entered)`: what a duration input stores for an entered number. */
  function ClampMinutes(entered: int): (v: int)
    ensures v >= 1
    ensures entered >= 1 ==> v == entered
    ensures entered < 1 ==> v == 1
  {
    if 1 < entered then entered else 1
  }

  /** The durations after the input for mode `m` received `entered` (App.jsx:215-217, 272). */
  function WithMinutes(d: Durations, m: Mode, entered: int): (r: Durations)
    ensures Minutes(r, m) == ClampMinutes(entered)
    ensures forall k :: k != m ==> Minutes(r, k) == Minutes(d, k)
    ensures d.Valid() ==> r.Valid()
  {
    var v := ClampMinutes(entered);
    match m
    case Work => d.(work := v)
    case Short => d.(short := v)
    case Long => d.(long := v)
  }

  /** The mode a finished session hands over to (App.jsx:64). */
  function NextMode(m: Mode): (n: Mode)
    ensures n != Long
    ensures n == Short <==> m == Work
  {
    if m == Work then Short else Work
  }

  /**
   * The invariant the widget keeps: a stopped clock shows the full nominal
   * duration of its mode, and the count never drops below one second.
   */
  predicate Synced(c: Clock, d: Durations)
  {
    c.remaining >= 1 && (!c.running ==> c.remaining == Nominal(d, c.mode))
  }

  /** The effect at App.jsx:49-54: a stopped clock is put back to its nominal duration. */
  function Sync(c: Clock, d: Durations): (r: Clock)
    ensures r.mode == c.mode && r.running == c.running
    ensures c.running ==> r.remaining == c.remaining
    ensures !c.running ==> r.remaining == Nominal(d, c.mode)
    ensures d.Valid() && (c.running ==> c.remaining >= 1) ==> Synced(r, d)
  {
    if c.running then c else c.(remaining := Nominal(d, c.mode))
  }

  /** Start (App.jsx:229). */
  function Start(c: Clock, d: Durations): (r: Clock)
    ensures r.running && r.mode == c.mode && r.remaining == c.remaining
    ensures Synced(c, d) ==> Synced(r, d)
  {
    Sync(c.(running := true), d)
  }

  /**
   * Pause (App.jsx:231). Because the running flag is one of the effect's
   * dependencies, pausing also puts the count back to the full duration.
   */
  function Pause(c: Clock, d: Durations): (r: Clock)
    ensures !r.running && r.mode == c.mode
    ensures r.remaining == Nominal(d, c.mode)
    ensures d.Valid() ==> Synced(r, d)
  {
    Sync(c.(running := false), d)
  }

  /** Reset (App.jsx:233): stop and show the mode's total seconds. */
  function Reset(c: Clock, d: Durations): (r: Clock)
    ensures !r.running && r.mode == c.mode
    ensures r.remaining == Nominal(d, c.mode)
    ensures d.Valid() ==> Synced(r, d)
  {
    Sync(Clock(c.mode, Nominal(d, c.mode), false), d)
  }

  /**
   * A mode button (App.jsx:209-211). While running, the count is left as it
   * is, although the mode it counts towards has changed.
   */
  function Select(c: Clock, d: Durations, m: Mode): (r: Clock)
    ensures r.mode == m && r.running == c.running
    ensures c.running ==> r.remaining == c.remaining
    ensures !c.running ==> r.remaining == Nominal(d, m)
    ensures d.Valid() && Synced(c, d) ==> Synced(r, d)
  {
    Sync(c.(mode := m), d)
  }

  /** Whether the next tick ends the session (App.jsx:59). */
  predicate Completes(c: Clock)
  {
    c.running && c.remaining <= 1
  }

  /**
   * The one-second tick (App.jsx:57-71). At one second or less the session
   * ends: the mode moves on, the clock stops and shows the new mode's duration;
   * otherwise one second comes off.
   */
  function Tick(c: Clock, d: Durations): (r: Clock)
    ensures c.remaining > 1 ==> r.mode == c.mode && r.running == c.running && r.remaining == c.remaining - 1
    ensures c.remaining <= 1 ==> r.mode == NextMode(c.mode) && !r.running && r.remaining == Nominal(d, r.mode)
    ensures r.mode == Long ==> c.mode == Long && c.remaining > 1
    ensures d.Valid() && c.running && Synced(c, d) ==> Synced(r, d)
  {
    if c.remaining <= 1 then
      var next := NextMode(c.mode);
      Sync(Clock(next, if next == Work then d.work * 60 else d.short * 60, false), d)
    else
      c.(remaining := c.remaining - 1)
  }

  /**
   * `n` ticks of the interval, which is torn down as soon as the clock stops
   * (App.jsx:71, App.jsx:280-284). While it is still running, exactly `n`
   * seconds have come off and the mode is the same.
   */
  function Run(c: Clock, d: Durations, n: nat): (r: Clock)
    ensures r.running ==> r.mode == c.mode && r.remaining == c.remaining - n
    decreases n
  {
    if n == 0 || !c.running then c else Run(Tick(c, d), d, n - 1)
  }

  /** A stopped clock's driver delivers no ticks. */
  lemma RunStopped(c: Clock, d: Durations, n: nat)
    requires !c.running
    ensures Run(c, d, n) == c
  {
  }

  lemma {:induction false} RunSplit(c: Clock, d: Durations, a: nat, b: nat)
    ensures Run(c, d, a + b) == Run(Run(c, d, a), d, b)
    decreases a
  {
    if a > 0 && c.running {
      RunSplit(Tick(c, d), d, a - 1, b);
    } else if !c.running {
      RunStopped(c, d, a + b);
      RunStopped(c, d, b);
    }
  }

  /** While running with more than `n` seconds left, `n` ticks take off exactly `n` seconds. */
  lemma {:induction false} RunCountsDown(c: Clock, d: Durations, n: nat)
    requires c.running && n < c.remaining
    ensures Run(c, d, n) == c.(remaining := c.remaining - n)
    decreases n
  {
    if n > 0 {
      assert Tick(c, d) == c.(remaining := c.remaining - 1);
      RunCountsDown(Tick(c, d), d, n - 1);
    }
  }

  /**
   * A running session with `k` seconds left completes on exactly its k-th
   * tick: none of the first k-1 ticks ends it, the k-th does, and from then
   * on the clock stays stopped at the next mode's nominal duration.
   */
  lemma {:induction false} RunCompletesOnce(c: Clock, d: Durations)
    requires c.running && c.remaining >= 1
    ensures forall n: nat :: n < c.remaining - 1 ==> !Completes(Run(c, d, n))
    ensures Completes(Run(c, d, c.remaining - 1))
    ensures forall n: nat :: n >= c.remaining ==>
      Run(c, d, n) == Clock(NextMode(c.mode), Nominal(d, NextMode(c.mode)), false)
  {
    var k := c.remaining;
    var done := Clock(NextMode(c.mode), Nominal(d, NextMode(c.mode)), false);
    forall n: nat | n < k - 1
      ensures !Completes(Run(c, d, n))
    {
      RunCountsDown(c, d, n);
    }
    RunCountsDown(c, d, k - 1);
    var last := Run(c, d, k - 1);
    assert Tick(last, d) == done;
    forall n: nat | n >= k
      ensures Run(c, d, n) == done
    {
      RunSplit(c, d, k - 1, n - (k - 1));
      RunStopped(done, d, n - k);
    }
  }

  /** No number of ticks enters the long break: it can only be selected by hand. */
  lemma {:induction false} RunNeverEntersLong(c: Clock, d: Durations, n: nat)
    requires Run(c, d, n).mode == Long
    ensures c.mode == Long
    decreases n
  {
    if n > 0 && c.running {
      RunNeverEntersLong(Tick(c, d), d, n - 1);
    }
  }

  /** Ticks keep the widget's invariant. */
  lemma {:induction false} RunKeepsSynced(c: Clock, d: Durations, n: nat)
    requires d.Valid() && Synced(c, d)
    ensures Synced(Run(c, d, n), d)
    decreases n
  {
    if n > 0 && c.running {
      RunKeepsSynced(Tick(c, d), d, n - 1);
    }
  }

  /** On an already synced clock the resync does nothing. */
  lemma SyncOnSynced(c: Clock, d: Durations)
    requires Synced(c, d)
    ensures Sync(c, d) == c
  {
  }

  /** Pausing twice is pausing once. */
  lemma PauseIdempotent(c: Clock, d: Durations)
    ensures Pause(Pause(c, d), d) == Pause(c, d)
  {
  }

  /** As written, Pause and Reset leave the clock in the same state. */
  lemma PauseIsReset(c: Clock, d: Durations)
    ensures Pause(c, d) == Reset(c, d)
  {
  }
}
