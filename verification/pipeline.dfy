/** The driver end to end: the enumerated task list fed to the download
    step. `RunAll` gives every task its own environment `world(t)`. That
    matches the program because the enumerated list names no tile twice and
    distinct tiles are saved under distinct paths, so no task can find a file
    that another task of the same run wrote. */
module Pipeline {
  import opened Tiles
  import opened Enumeration
  import opened Addressing
  import opened Download

  /** Over the enumerated task list `tasks` the save paths are pairwise
      distinct, every task is counted exactly once as completed or failed, and
      the byte total is the sum of the newly downloaded tiles' sizes. */
  lemma EnumeratedRun(maxZoom: int, corners: nat -> GridBounds, tasks: seq<Task>, outputDir: string, world: Task -> Env)
    requires Enumerate(maxZoom, corners) == Some(tasks)
    ensures forall i, j :: 0 <= i < j < |tasks| ==> SavePath(outputDir, tasks[i]) != SavePath(outputDir, tasks[j])
    ensures RunAll(tasks, world).completed + RunAll(tasks, world).failed == |tasks|
    ensures RunAll(tasks, world).bytes == Sum(NewSizes(tasks, world))
  {
    forall i, j | 0 <= i < j < |tasks|
      ensures SavePath(outputDir, tasks[i]) != SavePath(outputDir, tasks[j])
    {
      SavePathInjective(outputDir, tasks[i], tasks[j]);
    }
    BytesAreNewDownloads(tasks, world);
  }
}
