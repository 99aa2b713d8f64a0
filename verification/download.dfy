/** The per-tile download: skip when the file is already present, otherwise
    create its directory and make up to `MaxRetries` HTTP attempts, sleeping
    after each failed one. File-system and network behaviour is an oracle
    (`Env`); sleeps are counted, not timed.

    The worker pool runs this step on every task and adds its effects to
    shared counters atomically. Only the sequential fold `RunAll` is modelled,
    together with the fact that its totals do not depend on the order or on
    how the tasks are split among workers. */
module Download {
  import opened Tiles
  import opened Counters

  /** Number of HTTP attempts made for a tile before giving up. */
  const MaxRetries: nat := 3

  /** `http.StatusOK`. */
  const StatusOK: int := 200

  /** What happens to the destination file once an OK response arrives. */
  datatype Write =
    | CreateFails      // `os.Create` returned an error
    | CopyFails        // the file was created, `io.Copy` returned an error
    | CopyOk(n: nat)   // the file was created and `n` bytes were copied

  /** Outcome of one `http.Get`. The `write` part only matters with an OK status. */
  datatype Attempt = NetworkError | Response(status: int, write: Write)

  /** Everything one tile meets: whether `os.Stat` finds the save path,
      whether `os.MkdirAll` succeeds, and the result of attempt number k
      (counted from 1). */
  datatype Env = Env(fileExists: bool, mkdirOk: bool, attempt: nat -> Attempt)

  /** The error values `downloadTile` returns. */
  datatype Failure =
    | MkdirFailed
    | CreateFailed
    | Exhausted(zoom: nat, x: int, y: int)   // all attempts failed; the error names the tile's zoom, x and y

  datatype Outcome = Skipped | Downloaded(n: nat) | Failed(failure: Failure)

  /** Result and side effects of one call: HTTP requests made, two-second
      sleeps taken, progress-bar advance, bytes added to the shared total,
      and whether a file is present at the save path afterwards. */
  datatype Report = Report(outcome: Outcome, requests: nat, delays: nat, progress: nat, bytes: nat, fileLeft: bool)

  /** How an attempt ends the retry loop; `None` when it is retried after a
      delay (network error, status other than OK, or a failed copy). */
  function Settlement(a: Attempt): (r: Option<Outcome>)
    ensures r.None? <==> a.NetworkError? || a.status != StatusOK || a.write.CopyFails?
    ensures r.Some? ==> (r.value.Downloaded? <==> a.write.CopyOk?)
    ensures r.Some? && r.value.Downloaded? ==> r.value.n == a.write.n
    ensures r.Some? && !r.value.Downloaded? ==> r.value == Failed(CreateFailed)
  {
    if a.Response? && a.status == StatusOK then
      match a.write
      case CreateFails => Some(Failed(CreateFailed))
      case CopyOk(n) => Some(Downloaded(n))
      case CopyFails => None
    else None
  }

  /** The attempt reached `os.Create` and the file was created. */
  predicate CreatesFile(a: Attempt) {
    a.Response? && a.status == StatusOK && !a.write.CreateFails?
  }

  /** Attempt `j` is the first attempt from `k` on that ends the loop. */
  ghost predicate SettlesFirstAt(env: Env, k: nat, j: nat) {
    && k <= j <= MaxRetries
    && Settlement(env.attempt(j)).Some?
    && forall i :: k <= i < j ==> Settlement(env.attempt(i)).None?
  }

  /** Every attempt from `k` up to `MaxRetries` is retried. */
  ghost predicate AllRetried(env: Env, k: nat) {
    forall i :: k <= i <= MaxRetries ==> Settlement(env.attempt(i)).None?
  }

  /** Counter effects the outcome demands: progress advances once exactly on
      success or skip, and bytes grow by the copied size exactly on download. */
  predicate Accounted(r: Report) {
    && r.progress == (if r.outcome.Failed? then 0 else 1)
    && r.bytes == (if r.outcome.Downloaded? then r.outcome.n else 0)
  }

  /** The retry loop from attempt `k` on. */
  function Attempts(t: Task, env: Env, k: nat): (r: Report)
    requires 1 <= k <= MaxRetries + 1
    ensures Accounted(r)
    ensures r.outcome.Downloaded? || r.outcome == Failed(CreateFailed) || r.outcome == Failed(Exhausted(t.zoom, t.x, t.y))
    ensures r.requests <= MaxRetries + 1 - k
    ensures forall j: nat :: SettlesFirstAt(env, k, j) ==>
      r.outcome == Settlement(env.attempt(j)).value && r.requests == j - k + 1 && r.delays == j - k
    ensures AllRetried(env, k) ==>
      r.outcome == Failed(Exhausted(t.zoom, t.x, t.y)) && r.requests == MaxRetries + 1 - k && r.delays == r.requests
    ensures r.fileLeft <==> exists i :: k <= i < k + r.requests && CreatesFile(env.attempt(i))
    decreases MaxRetries + 1 - k
  {
    if k > MaxRetries then Report(Failed(Exhausted(t.zoom, t.x, t.y)), 0, 0, 0, 0, false)
    else
      var a := env.attempt(k);
      match Settlement(a)
      case Some(Downloaded(n)) => Report(Downloaded(n), 1, 0, 1, n, true)
      case Some(o) => Report(o, 1, 0, 0, 0, false)
      case None =>
        var rest := Attempts(t, env, k + 1);
        assert forall j :: SettlesFirstAt(env, k, j) ==> SettlesFirstAt(env, k + 1, j);
        rest.(requests := rest.requests + 1, delays := rest.delays + 1, fileLeft := rest.fileLeft || CreatesFile(a))
  }

  /** `downloadTile` for task `t` in environment `env`. */
  function DownloadTile(t: Task, env: Env): (r: Report)
    ensures Accounted(r)
    ensures r.requests <= MaxRetries && r.delays <= r.requests
    ensures r.outcome == Skipped <==> env.fileExists
    ensures r.outcome == Skipped ==> r.requests == 0 && r.delays == 0 && r.fileLeft
    ensures r.outcome == Failed(MkdirFailed) <==> !env.fileExists && !env.mkdirOk
    ensures r.outcome == Failed(MkdirFailed) ==> r.requests == 0 && r.delays == 0 && !r.fileLeft
    ensures r.outcome.Downloaded? ==> r.delays + 1 == r.requests && r.fileLeft
    ensures r.outcome == Failed(CreateFailed) ==> r.delays + 1 == r.requests
    ensures r.outcome.Failed? && r.outcome.failure.Exhausted? ==>
      r.outcome.failure == Exhausted(t.zoom, t.x, t.y) && r.requests == MaxRetries && r.delays == MaxRetries
    ensures !env.fileExists && env.mkdirOk ==> forall j: nat :: SettlesFirstAt(env, 1, j) ==>
      r.outcome == Settlement(env.attempt(j)).value && r.requests == j && r.delays == j - 1
    ensures !env.fileExists && env.mkdirOk && AllRetried(env, 1) ==> r.outcome == Failed(Exhausted(t.zoom, t.x, t.y))
    ensures !env.fileExists ==> (r.fileLeft <==> exists i :: 1 <= i <= r.requests && CreatesFile(env.attempt(i)))
  {
    if env.fileExists then Report(Skipped, 0, 0, 1, 0, true)
    else if !env.mkdirOk then Report(Failed(MkdirFailed), 0, 0, 0, 0, false)
    else Attempts(t, env, 1)
  }

  /** Two failed attempts followed by a good one: the tile is downloaded
      after exactly two delays, and its size is counted once. */
  lemma FailTwiceThenSucceed(t: Task, env: Env, n: nat)
    requires !env.fileExists && env.mkdirOk
    requires Settlement(env.attempt(1)).None? && Settlement(env.attempt(2)).None?
    requires env.attempt(3) == Response(StatusOK, CopyOk(n))
    ensures DownloadTile(t, env) == Report(Downloaded(n), 3, 2, 1, n, true)
  {
  }

  /** Whatever a call left at the save path, a second call finds it: a tile
      that was skipped or downloaded is skipped next time without requests. */
  lemma RerunSkipsCompleted(t: Task, env: Env)
    requires !DownloadTile(t, env).outcome.Failed?
    ensures DownloadTile(t, env.(fileExists := DownloadTile(t, env).fileLeft)) == Report(Skipped, 0, 0, 1, 0, true)
  {
  }

  /** A failed copy leaves a truncated file behind, so even when every
      attempt fails the next run counts the tile as complete without
      fetching it. */
  lemma PartialFileMasksFailure(t: Task, env: Env)
    requires !env.fileExists && env.mkdirOk
    requires forall i :: 1 <= i <= MaxRetries ==> env.attempt(i) == Response(StatusOK, CopyFails)
    ensures DownloadTile(t, env).outcome == Failed(Exhausted(t.zoom, t.x, t.y))
    ensures DownloadTile(t, env).fileLeft
    ensures DownloadTile(t, env.(fileExists := true)).outcome == Skipped
  {
  }

  /** What one call contributes to the shared counters. */
  function Tally(r: Report): Totals {
    Totals(r.progress, r.bytes, r.requests, r.delays, if r.outcome.Failed? then 1 else 0)
  }

  /** What task `t` contributes in environment `world(t)`. */
  function Step(t: Task, world: Task -> Env): (s: Totals)
    ensures s.completed + s.failed == 1
    ensures s.requests <= MaxRetries && s.delays <= s.requests
  {
    Tally(DownloadTile(t, world(t)))
  }

  /** The download step run over a task list, each tile in its own
      environment `world(t)`, with the contributions summed: every task
      either completes or fails, exactly once; at most `MaxRetries` requests
      are made per task and never more delays than requests. */
  function RunAll(tasks: seq<Task>, world: Task -> Env): (s: Totals)
    ensures s.completed + s.failed == |tasks|
    ensures s.requests <= MaxRetries * |tasks|
    ensures s.delays <= s.requests
  {
    StepCounts(tasks, world);
    Fold(tasks, t => Step(t, world))
  }

  lemma {:induction false} StepCounts(tasks: seq<Task>, world: Task -> Env)
    ensures Fold(tasks, t => Step(t, world)).completed + Fold(tasks, t => Step(t, world)).failed == |tasks|
    ensures Fold(tasks, t => Step(t, world)).requests <= MaxRetries * |tasks|
    ensures Fold(tasks, t => Step(t, world)).delays <= Fold(tasks, t => Step(t, world)).requests
    decreases |tasks|
  {
    if |tasks| > 0 {
      StepCounts(tasks[1..], world);
    }
  }

  /** The totals depend only on which tasks are run, not on the order in
      which the workers happen to finish them. */
  lemma RunAllPermutation(a: seq<Task>, b: seq<Task>, world: Task -> Env)
    requires multiset(a) == multiset(b)
    ensures RunAll(a, world) == RunAll(b, world)
  {
    FoldPermutation(a, b, t => Step(t, world));
  }

  /** However the tasks are shared out among the workers, the counters they
      add up to equal those of the sequential run. */
  lemma PoolMatchesSequential(parts: seq<seq<Task>>, tasks: seq<Task>, world: Task -> Env)
    requires multiset(Flatten(parts)) == multiset(tasks)
    ensures PoolSum(parts, t => Step(t, world)) == RunAll(tasks, world)
  {
    PoolSumMatchesFold(parts, tasks, t => Step(t, world));
  }

  /** Sizes of the tiles that were newly downloaded, in task order. */
  function NewSizes(tasks: seq<Task>, world: Task -> Env): seq<nat> {
    if |tasks| == 0 then []
    else
      var o := DownloadTile(tasks[0], world(tasks[0])).outcome;
      (if o.Downloaded? then [o.n] else []) + NewSizes(tasks[1..], world)
  }

  function Sum(s: seq<nat>): nat {
    if |s| == 0 then 0 else s[0] + Sum(s[1..])
  }

  /** The byte total is the sum of the sizes of newly downloaded tiles only:
      skipped and failed tiles add nothing. */
  lemma {:induction false} BytesAreNewDownloads(tasks: seq<Task>, world: Task -> Env)
    ensures RunAll(tasks, world).bytes == Sum(NewSizes(tasks, world))
    decreases |tasks|
  {
    if |tasks| > 0 {
      BytesAreNewDownloads(tasks[1..], world);
      assert RunAll(tasks, world) == Add(Step(tasks[0], world), RunAll(tasks[1..], world));
      var o := DownloadTile(tasks[0], world(tasks[0])).outcome;
      var head: seq<nat> := if o.Downloaded? then [o.n] else [];
      SumConcat(head, NewSizes(tasks[1..], world));
    }
  }

  lemma {:induction false} SumConcat(a: seq<nat>, b: seq<nat>)
    ensures Sum(a + b) == Sum(a) + Sum(b)
    decreases |a|
  {
    if |a| == 0 {
      assert a + b == b;
    } else {
      assert (a + b)[1..] == a[1..] + b;
      SumConcat(a[1..], b);
    }
  }

  /** Re-running against a fully populated output directory makes no
      request, adds no byte, and completes every task. */
  lemma {:induction false} ResumeComplete(tasks: seq<Task>, world: Task -> Env)
    requires forall t :: t in tasks ==> world(t).fileExists
    ensures RunAll(tasks, world) == Totals(|tasks|, 0, 0, 0, 0)
    decreases |tasks|
  {
    if |tasks| > 0 {
      assert tasks[0] in tasks;
      assert forall t :: t in tasks[1..] ==> t in tasks;
      ResumeComplete(tasks[1..], world);
      assert RunAll(tasks, world) == Add(Step(tasks[0], world), RunAll(tasks[1..], world));
    }
  }
}
