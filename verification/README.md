# tile-creator, modelled in Dafny

tile-creator downloads slippy-map tiles from a fixed ArcGIS World Imagery
tile server. For every zoom level from 0 up to a ceiling, it maps the two
corners of a latitude/longitude bounding box to tile numbers. It clamps them
to the grid and lists every tile of the resulting rectangle as a `Task`
(zoom, x, y). A pool of workers then runs `downloadTile` on each task. That
function skips tiles already on disk and otherwise makes up to three HTTP
attempts with a two-second sleep after each failure. It adds the copied bytes
to a shared atomic total and advances a progress bar on success or skip.

The Dafny project has six modules:

- `Tiles` (tiles.dfy): the `Task` record, `2^zoom`, and the strict
  lexicographic (zoom, x, y) order used to state how the task list is ordered.
- `Enumeration` (enumeration.dfy): the zoom-level list and the
  clamping/enumeration loop of `main`, written as pure functions. The
  projection `degToNum` is replaced by an oracle `corners: nat -> GridBounds`.
  It gives the integer corner tiles at each zoom.
- `Addressing` (addressing.dfy): the remote URL (zoom/**y**/**x**) and the save
  path (zoom/**x**/**y**.png), built from decimal fields. Each comes with a
  parser that recovers the task, so the field order and injectivity can be
  stated.
- `Download` (download.dfy): `downloadTile` as a pure function of an
  environment `Env`. `Env` says whether `os.Stat` finds the file, whether
  `os.MkdirAll` succeeds, and what each HTTP attempt yields. The function
  returns the outcome plus the requests, sleeps, progress advance, bytes
  added, and whether a file is left at the save path. `RunAll` folds it over
  a task list.
- `Counters` (counters.dfy): the shared counters as a sum of per-task
  contributions. It proves that the sum is independent of task order and of
  how the tasks are split among workers. This is what the pool's atomic adds
  rely on.
- `Pipeline` (pipeline.dfy): the enumerated task list fed to the download
  fold, end to end.

Two behaviours of the code that the model keeps as they are:

- Clamping is one-sided. The code only raises `xMin`/`yMin` to 0 and lowers
  `xMax`/`yMax` to `2^z - 1`. A minimum above the grid stays unclamped and
  gives an inverted, empty range. `Clamp` models exactly that, and its
  contract shows the result is still the raw range intersected with the grid.
- A failed copy leaves the created file behind, so a later run skips that
  tile. The model records this in `Report.fileLeft` (see
  `PartialFileMasksFailure`).

## Model

| member | source | states |
|---|---|---|
| Tiles.Pow2 | tile_creator.go:101 | the grid side `1 << zoom` is at least 1 |
| Enumeration.Clamp | tile_creator.go:101-113 | clamped minima are >= 0 and maxima < 2^z; each clamped range holds exactly the raw range's values that lie on the grid |
| Enumeration.Column | tile_creator.go:116-118 | the inner loop emits Width(yMin, yMax) tasks, the i-th being (zoom, x, yMin + i) |
| Enumeration.ColumnMembers | tile_creator.go:116-118 | a task is in a column iff it has that zoom and x and its y lies in [yMin, yMax] |
| Enumeration.Rows | tile_creator.go:115-119 | the nested loops emit Width(x range) * Width(y range) tasks: exactly the tiles of the rectangle, strictly increasing (x outer, y inner) |
| Enumeration.Level | tile_creator.go:98-119 | one zoom level's tasks are exactly the grid tiles inside the corner rectangle, strictly increasing, and their count is the product of the clamped widths |
| Enumeration.InvertedLevelEmpty | tile_creator.go:101-119 | an inverted clamped range on either axis yields no task (and no failure) |
| Enumeration.ZoomZeroLevel | tile_creator.go:101-117 | at zoom 0 a level is empty or exactly [(0,0,0)], and it is [(0,0,0)] iff the corner rectangle covers tile (0,0) |
| Enumeration.TasksOver | tile_creator.go:97-120 | over a list of zoom levels, a task is emitted iff its zoom is in the list and it is a covered grid tile of that zoom |
| Enumeration.TasksOverSnoc | tile_creator.go:97-120 | appending one more zoom level appends exactly that level's tasks |
| Enumeration.TasksOverIncreasing | tile_creator.go:97-120 | over strictly ascending zoom levels the task list is strictly increasing in (zoom, x, y) |
| Enumeration.Upto | tile_creator.go:87-90 | `zoomLevels` has length n and holds i at index i |
| Enumeration.ZoomLevels | tile_creator.go:87-90 | the zoom list is 0..maxZoom; it is absent (Go's `make` panics) exactly when maxZoom < -1 |
| Enumeration.Enumerate | tile_creator.go:87-120 | the task list contains exactly the tiles with zoom <= maxZoom lying on the grid and in that zoom's corner rectangle; every task has 0 <= x, y < 2^zoom; the list is strictly increasing and duplicate-free |
| Enumeration.EnumerateNextZoom | tile_creator.go:87-120 | raising the ceiling from z - 1 to z appends exactly level z's tasks, so each zoom's tasks form one contiguous block |
| Enumeration.ZoomZeroOnly | tile_creator.go:87-120 | with ceiling 0 the list is empty or exactly [(0,0,0)] |
| Addressing.Digits | tile_creator.go:41-42 | `strconv.Itoa`/`%d` of a natural number is canonical base-10 text: non-empty, digits only, no leading zero, and "0" exactly for zero |
| Addressing.Decimal | tile_creator.go:41-42 | a rendered integer is canonical decimal text with no '/': it starts with '-' exactly when the integer is negative, and no leading zero follows the sign |
| Addressing.DigitsRoundTrip | tile_creator.go:42 | reading back the decimal digits of n gives n |
| Addressing.DecimalRoundTrip | tile_creator.go:41-42 | parsing a rendered integer (sign included) gives it back |
| Addressing.CanonicalDigitsRoundTrip | tile_creator.go:42 | every canonical digit string is the rendering of its own value, so the rendering is exactly the canonical text |
| Addressing.CanonicalDecimalRoundTrip | tile_creator.go:41-42 | every canonical decimal string, sign included, is the rendering of the integer it parses to |
| Addressing.FileName | tile_creator.go:42 | the `"%d.png"` file name is a single path element (no '/') and parses back to its number |
| Addressing.UrlIsTransposedPath | tile_creator.go:41-42 | the URL fields are the save-path fields of the transposed tile (y before x remotely, x before y locally), and they differ from the tile's own path fields whenever x != y |
| Addressing.SavePath | tile_creator.go:42 | `filepath.Join` gets four elements: the output directory, then three slash-free elements that parse back to the task as zoom, x, y |
| Addressing.SavePathInjective | tile_creator.go:42 | distinct tasks get distinct save paths |
| Addressing.SplitJoin | tile_creator.go:41 | splitting at '/' undoes joining fields that contain no '/' |
| Addressing.Url | tile_creator.go:41 | the tile URL starts with the fixed server prefix and ends in ".png", with a non-empty path between them |
| Addressing.UrlJoinsFields | tile_creator.go:21 | the URL is the fixed server prefix followed by zoom, y and "x.png" joined with '/' |
| Addressing.UrlFieldsRoundTrip | tile_creator.go:41 | the URL fields split and parse back as (zoom, y, x) |
| Addressing.UrlRoundTrip | tile_creator.go:41 | a tile URL parses back to its task, the row read before the column |
| Addressing.UrlInjective | tile_creator.go:41 | distinct tasks are fetched from distinct URLs |
| Download.Settlement | tile_creator.go:55-70 | an attempt is retried iff the request failed, the status is not OK, or the copy failed; otherwise a create error ends the loop as CreateFailed and a good copy of n bytes as Downloaded(n) |
| Download.Attempts | tile_creator.go:53-72 | retry loop from attempt k: the first settling attempt j fixes the outcome with j-k+1 requests and j-k sleeps; if none settles, the result is the Exhausted error carrying the task's fields, after one request and one sleep per attempt; progress and bytes follow the outcome; a file is left iff an attempt made created it |
| Download.DownloadTile | tile_creator.go:40-75 | skip iff the file exists (0 requests, progress +1, bytes +0); MkdirAll failure iff absent and mkdir fails (nothing else happens); otherwise at most 3 requests, one sleep per failed attempt, download of n adds n bytes and progress once, a create error returns without a sleep, and exhaustion returns Exhausted(zoom, x, y) after 3 sleeps with counters unchanged |
| Download.FailTwiceThenSucceed | tile_creator.go:53-72 | two failed attempts then a good one: downloaded after 3 requests and exactly 2 sleeps, bytes counted once |
| Download.RerunSkipsCompleted | tile_creator.go:44-47 | a tile that was skipped or downloaded is skipped on a rerun with no request |
| Download.PartialFileMasksFailure | tile_creator.go:56-71 | if every attempt's copy fails the tile ends Exhausted yet leaves a file, so a rerun skips it |
| Download.Step | tile_creator.go:40-75 | one task adds exactly one to completed-or-failed, at most 3 requests and no more sleeps than requests |
| Download.RunAll | tile_creator.go:128-142 | the workers' sequential equivalent: over a task list, completed + failed equals the number of tasks, requests <= 3 per task, sleeps <= requests |
| Download.RunAllPermutation | tile_creator.go:125-142 | the totals depend only on the multiset of tasks, not their order |
| Download.PoolMatchesSequential | tile_creator.go:125-142 | any split of the tasks among workers sums to the sequential totals |
| Download.BytesAreNewDownloads | tile_creator.go:66 | the byte total is the sum of the sizes of newly downloaded tiles only |
| Download.ResumeComplete | tile_creator.go:44-47 | against a fully populated output directory: every task completes, with no request, no byte and no sleep |
| Counters.FoldConcat | tile_creator.go:66-67 | counting two task lists one after the other adds their totals |
| Counters.FoldPermutation | tile_creator.go:66-67 | the summed counters are invariant under reordering of the tasks |
| Counters.PoolSumMatchesFold | tile_creator.go:128-142 | per-worker sums over any partition of the tasks add up to one sequential pass |
| Pipeline.EnumeratedRun | tile_creator.go:87-142 | over the enumerated task list the save paths are pairwise distinct, every task is counted once as completed or failed, and the byte total is the sum of newly downloaded sizes |

## Left out

- `degToNum` (tile_creator.go:33-38): floating-point `Pow`, `Log`, `Tan`,
  `Cos` and the float-to-int conversion are not modelled. The corner tiles it
  returns are the oracle `corners`.
- HTTP, the file system and sleeping: `http.Get`, `os.Stat`, `os.MkdirAll`,
  `os.Create`, `io.Copy` and `time.Sleep` are abstracted into `Env`. A
  `Stat` that fails for any reason counts as "file absent", as in the code.
  Sleeps are counted, not timed.
- The goroutine pool, channel and `WaitGroup` (tile_creator.go:125-142): the
  concurrency is not modelled. Only the sequential fold is, together with the
  order- and split-independence that the atomic adds rely on.
- The progress-bar library, flag parsing, creation of the output root with
  `log.Fatalf` on failure (tile_creator.go:92-94), and the final MB summary
  (tile_creator.go:144).
- `filepath.Join`'s lexical cleaning of the joined path: the save path is
  modelled as its list of elements.
- Resource handling: `defer file.Close()` inside the loop, and the response
  body that is never closed after a non-OK status.
- The `WorkerPoolSize` and `AvgTileSizeKB` constants: the pool size does not
  affect the totals, and the tile-size estimate is unused.
- Download.RunAll: each task meets its own environment `world(t)`, fixed in
  advance and independent of the other tasks. On a list that repeats a tile
  the model would fetch it twice where the program would skip the second
  copy. This never arises for the program's own list: `Enumerate` proves it
  duplicate-free, and `Pipeline.EnumeratedRun` proves its save paths pairwise
  distinct, so no task can see a file another task wrote.
- Download.BytesAreNewDownloads: the byte total is an unbounded natural
  number. The source's `uint64` total would wrap modulo 2^64.
- Enumeration.Clamp: the grid side is the exact 2^zoom. Go's 64-bit
  `1 << zoom` overflows from zoom 63 on, and the loop counters are unbounded
  integers here.
- Download.DownloadTile: the Exhausted error carries the tile's zoom, x and
  y. The formatted message text is not modelled.
