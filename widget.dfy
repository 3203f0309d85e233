/**
 * The Pomodoro widget's state and its event handlers (App.jsx:19-165): the
 * credentials, the three durations, the timer, the loaded tasks and the
 * selected task id, changed one handler at a time.
 */
module Widget {
  import opened Wrappers
  import Timer
  import Tasks

  /**
   * What the browser's local store holds on mount, as the widget reads it
   * (App.jsx:21-36). Numeric keys are given after `Number(...)`; `None` is a
   * key that is absent or does not hold a number.
   */
  datatype Stored = Stored(
    secret: Option<string>,
    databaseId: Option<string>,
    work: Option<nat>,
    short: Option<nat>,
    long: Option<nat>,
    selectedTaskId: Option<string>,
    remaining: Option<int>)

  /** `localStorage.getItem(key) || ""`. */
  function StoredText(v: Option<string>): (s: string)
    ensures v.Some? ==> s == v.value
    ensures v.None? ==> s == ""
  {
    v.GetOr("")
  }

  /** `Number(localStorage.getItem(key)) || default`: a missing value or 0 falls back. */
  function StoredNumber(v: Option<int>, default: int): (n: int)
    ensures v.Some? && v.value != 0 ==> n == v.value
    ensures v.None? || v.value == 0 ==> n == default
  {
    match v
    case Some(x) => if x != 0 then x else default
    case None => default
  }

  /** Stored minutes are never below one once the fallback is applied. */
  function StoredMinutes(v: Option<nat>, default: int): (n: int)
    requires default >= 1
    ensures n >= 1
    ensures v.Some? && v.value != 0 ==> n == v.value
    ensures v.None? || v.value == 0 ==> n == default
  {
    StoredNumber(match v case Some(x) => Some(x as int) case None => None, default)
  }

  /**
   * How a query request ends: a 2xx response, a response that is not ok, or a
   * rejected `fetch` (no response at all, e.g. a network or CORS error).
   */
  datatype Outcome = Ok | HttpError | Rejected

  /** Whether a load with these outcomes replaces the task list (App.jsx:97-124). */
  predicate Succeeded(queries: nat, first: Outcome, second: Outcome)
  {
    (queries == 1 && first == Ok) || (queries == 2 && first == HttpError && second == Ok)
  }

  /** Whether a load that sent queries ended on a rejected request, skipping App.jsx:120 and 125. */
  predicate EndedRejected(queries: nat, first: Outcome, second: Outcome)
  {
    (queries == 1 && first == Rejected) || (queries == 2 && second == Rejected)
  }

  /**
   * Which task a tick asks to increment (App.jsx:37, App.jsx:59-63): one only
   * when a work session ends and the selected id names a loaded task; a stale
   * or empty selection asks for nothing.
   */
  function IncrementTarget(c: Timer.Clock, tasks: seq<Tasks.Task>, selectedTaskId: string): (r: Option<string>)
    ensures r.Some? <==>
      Timer.Completes(c) && c.mode == Timer.Work &&
      exists i :: 0 <= i < |tasks| && tasks[i].id == selectedTaskId
    ensures r.Some? ==> r.value == selectedTaskId
  {
    if Timer.Completes(c) && c.mode == Timer.Work then
      match Tasks.Find(tasks, selectedTaskId)
      case Some(t) => Some(t.id)
      case None => None
    else
      None
  }

  class PomodoroWidget {
    var secret: string
    var databaseId: string
    var workMin: int
    var shortMin: int
    var longMin: int
    var mode: Timer.Mode
    var remaining: int
    var isRunning: bool
    var tasks: seq<Tasks.Task>
    var selectedTaskId: string
    var loadingTasks: bool
    /** How many times the ding has been played. */
    ghost var chimes: nat

    function Durations(): Timer.Durations
      reads this
    {
      Timer.Durations(workMin, shortMin, longMin)
    }

    function TimerState(): Timer.Clock
      reads this
    {
      Timer.Clock(mode, remaining, isRunning)
    }

    ghost predicate Valid()
      reads this
    {
      Durations().Valid() && Timer.Synced(TimerState(), Durations())
    }

    /** `totalSeconds` (App.jsx:181): the current mode's nominal duration. */
    function TotalSeconds(): (s: int)
      reads this
      ensures s == Timer.Nominal(Durations(), mode)
    {
      if mode == Timer.Work then workMin * 60
      else if mode == Timer.Short then shortMin * 60
      else longMin * 60
    }

    /** `selectedTask` (App.jsx:37). */
    function SelectedTask(): (t: Option<Tasks.Task>)
      reads this
      ensures t.Some? ==> t.value.id == selectedTaskId && t.value in tasks
      ensures t.None? ==> forall i :: 0 <= i < |tasks| ==> tasks[i].id != selectedTaskId
    {
      Tasks.Find(tasks, selectedTaskId)
    }

    /**
     * Mount: the stored values or their defaults, mode work, stopped. The
     * resync then replaces the stored remaining seconds by the work duration.
     */
    constructor (stored: Stored)
      ensures Valid()
      ensures secret == StoredText(stored.secret) && databaseId == StoredText(stored.databaseId)
      ensures workMin == StoredMinutes(stored.work, 25)
      ensures shortMin == StoredMinutes(stored.short, 5)
      ensures longMin == StoredMinutes(stored.long, 15)
      ensures selectedTaskId == StoredText(stored.selectedTaskId) && tasks == [] && !loadingTasks
      ensures mode == Timer.Work && !isRunning && remaining == workMin * 60
      ensures chimes == 0
    {
      secret := StoredText(stored.secret);
      databaseId := StoredText(stored.databaseId);
      workMin := StoredMinutes(stored.work, 25);
      shortMin := StoredMinutes(stored.short, 5);
      longMin := StoredMinutes(stored.long, 15);
      mode := Timer.Work;
      remaining := StoredNumber(stored.remaining, 25 * 60);
      isRunning := false;
      tasks := [];
      selectedTaskId := StoredText(stored.selectedTaskId);
      loadingTasks := false;
      chimes := 0;
      new;
      Sync();
    }

    /** The effect at App.jsx:49-54, run after every change of its dependencies. */
    method Sync()
      modifies this`remaining
      ensures TimerState() == Timer.Sync(old(TimerState()), Durations())
    {
      if !isRunning {
        remaining := TotalSeconds();
      }
    }

    /** The Start button (App.jsx:229). */
    method Start()
      requires Valid()
      modifies this`isRunning, this`remaining
      ensures Valid()
      ensures TimerState() == Timer.Start(old(TimerState()), Durations())
    {
      isRunning := true;
      Sync();
    }

    /** The Pause button (App.jsx:231). */
    method Pause()
      requires Valid()
      modifies this`isRunning, this`remaining
      ensures Valid()
      ensures TimerState() == Timer.Pause(old(TimerState()), Durations())
    {
      isRunning := false;
      Sync();
    }

    /** The Reset button (App.jsx:233). */
    method Reset()
      requires Valid()
      modifies this`isRunning, this`remaining
      ensures Valid()
      ensures TimerState() == Timer.Reset(old(TimerState()), Durations())
    {
      var total := TotalSeconds();
      isRunning := false;
      remaining := total;
      Sync();
    }

    /** A mode button (App.jsx:209-211). */
    method SelectMode(m: Timer.Mode)
      requires Valid()
      modifies this`mode, this`remaining
      ensures Valid()
      ensures TimerState() == Timer.Select(old(TimerState()), Durations(), m)
    {
      mode := m;
      Sync();
    }

    /** A duration input for mode `m` receiving the number `entered` (App.jsx:215-217, 272). */
    method EditDuration(m: Timer.Mode, entered: int)
      requires Valid()
      modifies this`workMin, this`shortMin, this`longMin, this`remaining
      ensures Valid()
      ensures Durations() == Timer.WithMinutes(old(Durations()), m, entered)
      ensures TimerState() == Timer.Sync(old(TimerState()), Durations())
    {
      var v := Timer.ClampMinutes(entered);
      match m {
        case Work => workMin := v;
        case Short => shortMin := v;
        case Long => longMin := v;
      }
      Sync();
    }

    /**
     * The interval callback (App.jsx:57-71), delivered only while running. It
     * returns the task id whose `finished` count the completion asks to raise.
     */
    method Tick() returns (request: Option<string>)
      requires Valid() && isRunning
      modifies this`mode, this`remaining, this`isRunning, this`chimes
      ensures Valid()
      ensures TimerState() == Timer.Tick(old(TimerState()), Durations())
      ensures request == IncrementTarget(old(TimerState()), tasks, selectedTaskId)
      ensures chimes == old(chimes) + if Timer.Completes(old(TimerState())) then 1 else 0
    {
      request := None;
      var prev := remaining;
      if prev <= 1 {
        chimes := chimes + 1;
        if mode == Timer.Work {
          var t := SelectedTask();
          if t.Some? {
            request := Some(t.value.id);
          }
        }
        var nextMode := Timer.NextMode(mode);
        mode := nextMode;
        isRunning := false;
        remaining := if nextMode == Timer.Work then workMin * 60 else shortMin * 60;
      } else {
        remaining := prev - 1;
      }
      Sync();
    }

    /** The "Test ding" button (App.jsx:234). */
    method TestDing()
      requires Valid()
      modifies this`chimes
      ensures Valid()
      ensures chimes == old(chimes) + 1
    {
      chimes := chimes + 1;
    }

    /** The secret input (App.jsx:193). */
    method SetSecret(s: string)
      requires Valid()
      modifies this`secret
      ensures Valid() && secret == s
    {
      secret := s;
    }

    /** The database id input (App.jsx:197). */
    method SetDatabaseId(s: string)
      requires Valid()
      modifies this`databaseId
      ensures Valid() && databaseId == s
    {
      databaseId := s;
    }

    /** A task's radio button (App.jsx:252). */
    method SelectTask(id: string)
      requires Valid()
      modifies this`selectedTaskId
      ensures Valid() && selectedTaskId == id
    {
      selectedTaskId := id;
    }

    /**
     * `incrementFinished(pageId)` (App.jsx:145-165) with the outcome of its
     * PATCH request as `ok`. Without a secret nothing is sent; on success
     * every task with the id gets the first match's count plus one.
     */
    method IncrementFinished(pageId: string, ok: bool) returns (patched: bool)
      requires Valid()
      modifies this`tasks
      ensures Valid()
      ensures patched == (secret != "")
      ensures tasks == if patched && ok
        then Tasks.SetFinished(old(tasks), pageId, Tasks.NextFinished(old(tasks), pageId))
        else old(tasks)
    {
      if secret == "" {
        return false;
      }
      patched := true;
      var newVal := Tasks.NextFinished(tasks, pageId);
      if !ok {
        return;
      }
      tasks := Tasks.SetFinished(tasks, pageId, newVal);
    }

    /**
     * `fetchTasks` (App.jsx:79-126). `first` and `second` are the outcomes of
     * the status-typed and the select-typed query, `data` the body of the one
     * that succeeded. A rejected request ends the load on the spot: there is no
     * try/catch, so no further query is sent, no alert is shown and the loading
     * indicator stays on. Returns how many queries were sent and whether the
     * failure alert was shown.
     */
    method FetchTasks(first: Outcome, second: Outcome, data: Tasks.QueryResponse)
      returns (queries: nat, alerted: bool)
      requires Valid()
      modifies this`tasks, this`loadingTasks
      ensures Valid()
      ensures queries == if databaseId == "" || secret == "" then 0 else if first == HttpError then 2 else 1
      ensures alerted <==> first == HttpError && second == HttpError && queries == 2
      ensures Succeeded(queries, first, second) ==> tasks == Tasks.ParseTasks(data)
      ensures !Succeeded(queries, first, second) ==> tasks == old(tasks)
      ensures loadingTasks == if queries == 0 then old(loadingTasks) else EndedRejected(queries, first, second)
    {
      queries, alerted := 0, false;
      if databaseId == "" || secret == "" {
        return;
      }
      loadingTasks := true;
      queries := 1;
      var res := first;
      if res == Rejected {
        return;
      }
      if res == HttpError {
        queries := 2;
        res := second;
        if res == Rejected {
          return;
        }
      }
      if res == HttpError {
        alerted := true;
        loadingTasks := false;
        return;
      }
      tasks := Tasks.ParseTasks(data);
      loadingTasks := false;
    }
  }
}
