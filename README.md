# POI-Boxer core, modelled in Dafny

POI-Boxer draws "Person of Interest" classification boxes over the faces in
a photo. This project models the part of it that is logic rather than glue:

- **AdvancedFuture** (`advanced_future.dfy`). A future of one of three kinds:
  - a constant;
  - a decorator around an executor future;
  - a manual future completed by its caller.

  All three share a list of completion callbacks.
  `onComplete` runs a callback at once on a done future and queues it
  otherwise. `complete` stores the value, runs the queue in order, drops the
  list and opens the latch. The class keeps an invariant: the callbacks run
  so far, followed by those still queued, are exactly the callbacks
  registered, in order.
- **The two keyed fetch caches** (`task_pool.dfy`, `image_utils.dfy`,
  `classification.dfy`):
  - `ImageUtils.readImg` maps a URL to the future of its download;
  - `Classification.getImg(size)` sends a request to one of three places:
    the bundled icon at size 200, a size-keyed cache of UNKNOWN's
    four-quadrant montage, or `readImg(img + size)`.

  The executor is a log of submitted jobs, and a future is a position in
  that log. Both caches keep the invariant `Memoised`: the map is exactly
  what the log accounts for, and no key was ever submitted twice. The
  download job's status-code rule is modelled on its own, as `RunFetch`.
- **Classification lookup** (`classification.dfy`):
  - the unlocalised names;
  - the registry the static initialiser fills;
  - `getClassification`: exact key, then the first key (in the HashMap's
    iteration order) contained in the lower-cased name, then null or
    IRRELEVANT;
  - the quadrant geometry of the montage.
- **The command line** (`cli.dfy`). `processArgs` is a loop proved against
  a recursive specification. `stop(...)` and `displayHelp()` are terminal
  results. The output format is taken from the output file name.
- **The controller** (`controller.dfy`). It covers `extractType` and the
  hit test in `select`. `select` picks the first face whose closed
  rectangle holds the (already scaled) point.
- **The face detector** (`facial_detector.dfy`). `expandAndSquareRect`
  widens and squares an OpenCV `Rect` in place, with Java `int`
  wrap-around.

`java_lang.dfy` holds the pieces of Java semantics the model relies on:
`int` wrap-around, truncating division, `Integer.toString`,
`String.lastIndexOf`, `String.contains` and ASCII `toLowerCase`.

Parts of the environment are taken as parameters:

- the HashMap's iteration order is a sequence `order` holding every key once;
- whether `Float.parseFloat` accepts a text is a predicate `parsesAsFloat`;
- the HTTP and decoder outcome is a value of `HttpOutcome`;
- a callback is a number, and running it appends a `Delivery` to a trace.

### Failure behaviour worth noting

- Only a non-200 status yields the 1×1 placeholder (`ImageUtils.java:56-59`):
  - a 200 body that no reader understands yields `null`;
  - an `IOException` is rethrown as `UncheckedIOException` and fails the future.

  `RunFetch` has all three outcomes.
- `getImg` never checks `size`, so the model accepts any `int` size.
- At size 200, `getImg` returns the bundled icon before it looks at UNKNOWN
  (`Classification.java:83-86`). So a 200-pixel montage is never assembled
  (`NoMontageAtDefaultSize`).
- The decorator's watcher (`AdvancedFuture.java:68-74`) ends with the
  exception thrown inside the executor when the wrapped future failed, and
  runs no callback. `WatcherRun` models it that way.

## Model

All source paths are below `src/main/java/com/gt22/boxer/`; the table gives them in full.

| member | source | states |
|---|---|---|
| AdvancedFutures.AdvancedFuture.Constant | src/main/java/com/gt22/boxer/utils/AdvancedFuture.java:41-61 | `constant(v)` is done from the start; `get()` returns `v` and `get(timeout)` returns `v` |
| AdvancedFutures.AdvancedFuture.Decorator | src/main/java/com/gt22/boxer/utils/AdvancedFuture.java:63-75 | a new decorator wraps the given future, has no callback list and has run no callback |
| AdvancedFutures.AdvancedFuture.Manual | src/main/java/com/gt22/boxer/utils/AdvancedFuture.java:109-117 | a fresh manual future holds the sentinel, so it is not done; its latch is closed and its list is null |
| AdvancedFutures.Decorate | src/main/java/com/gt22/boxer/utils/AdvancedFuture.java:16-18 | `decorator(f)` returns `f` itself when `f` is an AdvancedFuture, and a fresh decorator around `f` otherwise |
| AdvancedFutures.DecorateIdempotent | src/main/java/com/gt22/boxer/utils/AdvancedFuture.java:16-18 | `decorator(decorator(f))` is the same object as `decorator(f)` |
| AdvancedFutures.AdvancedFuture.Complete | src/main/java/com/gt22/boxer/utils/AdvancedFuture.java:135-142 | checks run state first, then the argument: a second completion throws IllegalStateException and a sentinel argument throws IllegalArgumentException, both leaving the future unchanged; otherwise the value is stored (the future is done from then on); with a queue every queued callback runs once, in order, with the value, then the list is dropped and the latch opens; with no queue (null list) the call throws NullPointerException after storing the value and the latch stays closed |
| AdvancedFutures.AdvancedFuture.CompleteSafely | src/main/java/com/gt22/boxer/utils/AdvancedFuture.java:135-142 | the corrected completion: same error checks; a null list counts as empty, so every successful completion runs the queue, opens the latch, and `get()` then returns the value |
| AdvancedFutures.AdvancedFuture.OnComplete | src/main/java/com/gt22/boxer/utils/AdvancedFuture.java:160-172 | on a done future the action runs at once with `get()`'s value and the list is untouched; an ExecutionException from `get()` is swallowed and other failures escape; on a pending future the action is appended to the list, which is created if null; the delivery invariant is kept |
| AdvancedFutures.AdvancedFuture.Fire | src/main/java/com/gt22/boxer/utils/AdvancedFuture.java:139 | `forEach(c -> c.accept(val))` runs each listed callback exactly once, in list order, with the value |
| AdvancedFutures.AdvancedFuture.IsDone | src/main/java/com/gt22/boxer/utils/AdvancedFuture.java:114-117 | a constant or manual future is done exactly when it holds a value (a constant always does, lines 57-60); a decorator asks the future it wraps (lines 102-105) |
| AdvancedFutures.AdvancedFuture.Get | src/main/java/com/gt22/boxer/utils/AdvancedFuture.java:119-125 | `get()` returns a value only from a done future; for a constant or manual future it never throws, returns exactly when the latch is open (a manual future otherwise blocks), and returns the stored value; a decorator forwards to the wrapped future (lines 77-80) |
| AdvancedFutures.AdvancedFuture.GetTimed | src/main/java/com/gt22/boxer/utils/AdvancedFuture.java:127-133 | `get(timeout)` never blocks for ever, and whenever `get()` returns a value it returns the same one; a manual future whose latch is closed returns its field as it stands, a decorator forwards (lines 82-85) |
| AdvancedFutures.AdvancedFuture.IsCancelled | src/main/java/com/gt22/boxer/utils/AdvancedFuture.java:150-153 | a future reports cancelled only if it can cancel and is done: only a decorator whose wrapped future was cancelled (lines 92-95) |
| AdvancedFutures.AdvancedFuture.CanCancel | src/main/java/com/gt22/boxer/utils/AdvancedFuture.java:155-157 | false for constant and manual futures and true for a decorator (lines 97-100); `Cancel`'s contract ties it to the call: `cancel` throws exactly when `canCancel()` is false |
| AdvancedFutures.AdvancedFuture.Cancel | src/main/java/com/gt22/boxer/utils/AdvancedFuture.java:145-148 | throws exactly when `canCancel()` is false: constant and manual futures throw UnsupportedOperationException; a decorator forwards to the wrapped future (lines 87-90), which cancels only if it is still running |
| AdvancedFutures.AdvancedFuture.WatcherRun | src/main/java/com/gt22/boxer/utils/AdvancedFuture.java:68-74 | once the wrapped future has a value, the queued callbacks run once each, in order, and the list is dropped; a failed or cancelled wrapped future runs nothing |
| AdvancedFutures.CompleteUnsubscribedManual | src/main/java/com/gt22/boxer/utils/AdvancedFuture.java:135-142 | completing a manual future nobody subscribed to throws NullPointerException; the future then reports done, `get()` blocks for ever, and `get(timeout)` returns the value |
| AdvancedFutures.CompleteUnsubscribedManualSafely | src/main/java/com/gt22/boxer/utils/AdvancedFuture.java:135-142 | with the corrected completion the same use succeeds, and `get()` returns the value |
| AdvancedFutures.SubscribeThenComplete | src/main/java/com/gt22/boxer/utils/AdvancedFuture.java:135-172 | a callback registered on a pending manual future runs exactly once, after completion, with the completed value |
| AdvancedFutures.SubscribeToConstant | src/main/java/com/gt22/boxer/utils/AdvancedFuture.java:160-166 | a callback registered on a constant future runs at once, with its value |
| TaskPool.Pool.Submit | src/main/java/com/gt22/boxer/utils/ImageUtils.java:53 | submitting appends the job to the executor's log, and the future returned is that job's position |
| TaskPool.MemoMeaning | src/main/java/com/gt22/boxer/utils/ImageUtils.java:51-72 | check-then-put on a memo map: afterwards the key is present and maps to the returned future; a hit submits nothing and returns the stored future; a miss submits the job once, as the next position; no other entry changes |
| TaskPool.MemoTwiceSameFuture | src/main/java/com/gt22/boxer/utils/ImageUtils.java:49-73 | a second request for the same key returns the identical future and changes neither the map nor the log |
| TaskPool.UnkeyedLogIsMemoised | src/main/java/com/gt22/boxer/utils/ImageUtils.java:17 | an empty cache agrees with a log in which no job of its kind was submitted yet |
| TaskPool.MemoKeepsMemoised | src/main/java/com/gt22/boxer/utils/ImageUtils.java:51-69 | a check-then-put step keeps the cache and the log in agreement |
| TaskPool.SubmitOtherKeepsMemoised | src/main/java/com/gt22/boxer/Classification.java:84-85 | a job submitted around a cache (such as the bundled-icon read) does not break that cache's agreement with the log |
| TaskPool.IndexHasEveryKey | src/main/java/com/gt22/boxer/utils/ImageUtils.java:68 | every submitted job of a cache's kind left its key in the cache: entries are never removed |
| TaskPool.IndexPointsToItsJob | src/main/java/com/gt22/boxer/utils/ImageUtils.java:53-68 | every entry is the future of a job for that very key |
| TaskPool.AtMostOneJobPerKey | src/main/java/com/gt22/boxer/utils/ImageUtils.java:51-69 | while cache and log agree, no key ever had two jobs submitted for it |
| ImageUtils.RunFetch | src/main/java/com/gt22/boxer/utils/ImageUtils.java:53-67 | a failed connection, or a 200 body whose read throws, fails the future with UncheckedIOException; a non-200 status gives the 1×1 placeholder whatever the body; a 200 status gives the decoded body, or null when no reader understands it |
| ImageUtils.Non200GivesOnePixel | src/main/java/com/gt22/boxer/utils/ImageUtils.java:56-59 | every non-200 status yields a 1×1 image |
| ImageUtils.ImageCache.constructor | src/main/java/com/gt22/boxer/utils/ImageUtils.java:17 | IMAGE_CACHE starts empty and in agreement with the log |
| ImageUtils.ImageCache.ReadImg | src/main/java/com/gt22/boxer/utils/ImageUtils.java:49-73 | a hit returns the stored future and submits nothing; a miss submits one download of `url`, stores its future under `url` and returns it; either way the entry for `url` is the returned future of a download of `url`, no other entry changes, and the cache stays in agreement with the log |
| ImageUtils.ReadImgTwice | src/main/java/com/gt22/boxer/utils/ImageUtils.java:49-73 | two successive calls for one URL return the identical future, with at most one download submitted |
| JavaLang.IntToString | src/main/java/com/gt22/boxer/Classification.java:122 | the text `img + size` appends: nonempty, the decimal digits of the size's magnitude, with a leading minus for a negative size |
| JavaLang.DigitsValue | src/main/java/com/gt22/boxer/Classification.java:122 | reading the appended digits back as a decimal number gives the size itself |
| JavaLang.IntToStringInjective | src/main/java/com/gt22/boxer/Classification.java:122 | different sizes give different texts |
| Classifications.SizedUrlInjective | src/main/java/com/gt22/boxer/Classification.java:122 | `img + size` for different sizes are different URLs, so each size of an icon has its own download cache entry |
| JavaLang.LastIndexOf | src/main/java/com/gt22/boxer/CLI.java:45 | `lastIndexOf('.')` is -1 exactly when there is no dot; otherwise it holds a dot and no dot follows it |
| JavaLang.ContainsMeaning | src/main/java/com/gt22/boxer/Classification.java:62 | `name.contains(key)` holds exactly when `key` occurs in `name` at some position |
| JavaLang.Half | src/main/java/com/gt22/boxer/Classification.java:92 | `size / 2` truncates toward zero |
| JavaLang.ToLower | src/main/java/com/gt22/boxer/Classification.java:57 | `toLowerCase()`: same length, no upper-case ASCII letter left, and a character changes exactly when it was an upper-case ASCII letter |
| JavaLang.ReplaceChar | src/main/java/com/gt22/boxer/Classification.java:75 | `replace(' ', '_')`: same length, each `from` becomes `to` and every other character stays; with distinct characters no `from` is left |
| Classifications.UnlocName | src/main/java/com/gt22/boxer/Classification.java:74-76 | the display name, character by character lower-cased, with every space turned into `_` |
| Classifications.UnlocNameExample | src/main/java/com/gt22/boxer/Classification.java:74-76 | "Analog Interface" becomes "analog_interface"; "Relevant-One" keeps its dash |
| Classifications.UnlocNameIsLowerCase | src/main/java/com/gt22/boxer/Classification.java:57-58 | a registry key has no space and no upper-case letter, so the lower-cased key is itself |
| Classifications.Registry.RegisterClass | src/main/java/com/gt22/boxer/Classification.java:48-50 | puts the classification under its unlocalised name, leaving every other key as it was |
| Classifications.Registry.constructor | src/main/java/com/gt22/boxer/Classification.java:27-36 | the static initialiser leaves exactly the eight registrations in CLASS_MAP |
| Classifications.RegisteredMapMeaning | src/main/java/com/gt22/boxer/Classification.java:27-36 | every classification is found under its own unlocalised name, and every key is one of those names |
| Classifications.Registry.GetClassification | src/main/java/com/gt22/boxer/Classification.java:56-67 | given an iteration order that lists every key once, the search loop returns what the lookup specification gives: an exact key, else the first key in iteration order contained in the lower-cased name, else null when strict and IRRELEVANT otherwise |
| Classifications.Registry.GetClassificationLenient | src/main/java/com/gt22/boxer/Classification.java:52-54 | the one-argument overload is the non-strict lookup and always returns a classification |
| Classifications.FirstMatch | src/main/java/com/gt22/boxer/Classification.java:61-65 | the position of the first key, in iteration order, contained in the name; -1 when there is none |
| Classifications.FirstContainingMeaning | src/main/java/com/gt22/boxer/Classification.java:61-65 | the loop's result is the classification of that first contained key, or nothing |
| Classifications.ClassifyMeaning | src/main/java/com/gt22/boxer/Classification.java:56-67 | an exact key wins; otherwise, if some key occurs in the name, the result is the classification of the first such key in iteration order; with no such key the result is null when strict and IRRELEVANT otherwise |
| Classifications.ClassifyLenientNeverNull | src/main/java/com/gt22/boxer/Classification.java:52-54 | the non-strict lookup never yields null |
| Classifications.ClassifyUnlocRoundTrip | src/main/java/com/gt22/boxer/Classification.java:48-60 | looking up a classification's own unlocalised name gives back that classification, strict or not |
| Classifications.MontageLayout | src/main/java/com/gt22/boxer/Classification.java:107-114 | the four `drawImagePart` calls in drawing order take IRRELEVANT, RELEVANT_THREAT, CATALYST and ASSET; each spans `[0, half)` or `[half, size)` horizontally and vertically, with `half = size / 2` |
| Classifications.LayoutInsideSquare | src/main/java/com/gt22/boxer/Classification.java:92-114 | for a non-negative size every quadrant of the montage lies inside the size × size square |
| Classifications.LayoutTiles | src/main/java/com/gt22/boxer/Classification.java:107-114 | each pixel of the square lies in exactly one quadrant: the one drawn from IRRELEVANT (top left), RELEVANT_THREAT (top right), CATALYST (bottom left) or ASSET (bottom right) |
| Classifications.MontageCorners | src/main/java/com/gt22/boxer/Classification.java:92-114 | in a 100-pixel montage the top-left corner comes from IRRELEVANT, the top-right from RELEVANT_THREAT, the bottom-left from CATALYST and the bottom-right from ASSET |
| Classifications.NoMontageAtDefaultSize | src/main/java/com/gt22/boxer/Classification.java:83-88 | while the caches agree with the log, no montage job of size 200 was ever submitted: that size returns the bundled icon before the UNKNOWN branch |
| Classifications.Icons.constructor | src/main/java/com/gt22/boxer/Classification.java:25 | UNKNOWN_IMAGE_CACHE starts empty and in agreement with the log |
| Classifications.Icons.GetImg | src/main/java/com/gt22/boxer/Classification.java:82-123 | at size 200 a fresh read of `/boxes/<unloc>.png` is submitted and neither cache changes; UNKNOWN at another size is the memo step on the size-keyed cache; any other classification is the memo step of `readImg(img + size)`; both caches stay in agreement with the log, and size 200 never enters the montage cache |
| Classifications.Icons.ReadBundled | src/main/java/com/gt22/boxer/Classification.java:83-86 | the size-200 branch submits exactly one resource read and caches nothing |
| Classifications.Icons.UnknownMontage | src/main/java/com/gt22/boxer/Classification.java:87-120 | a hit returns the cached montage future; a miss submits one montage job and stores its future under the size; the download cache is untouched |
| Classifications.Icons.Download | src/main/java/com/gt22/boxer/Classification.java:122 | the last branch is `readImg(img + size)`, and the montage cache is untouched |
| Classifications.Icons.GetDefaultImg | src/main/java/com/gt22/boxer/Classification.java:78-80 | `getImg()` is the size-200 request: one fresh resource read, nothing cached |
| Classifications.DefaultSizeNeverCached | src/main/java/com/gt22/boxer/Classification.java:82-86 | two size-200 requests submit two different reads: that size is never cached |
| Classifications.Icons.MontageRequests | src/main/java/com/gt22/boxer/Classification.java:93-97 | the montage job requests IRRELEVANT, RELEVANT_THREAT, CATALYST and ASSET at its size, each through `readImg(img + size)`, and each future is that URL's cache entry; every earlier download entry is kept, and the log only grows by at most four jobs, each a download of one of those four URLs |
| Classifications.Icons.RequestFour | src/main/java/com/gt22/boxer/Classification.java:93-97 | after four requests in a row, each request's cache entry is still its returned future; every earlier entry is kept, and the log gains at most four jobs, each a download of one of the four sized URLs |
| Classifications.Icons.RequestConstituent | src/main/java/com/gt22/boxer/Classification.java:94 | one constituent request is the memo step of `readImg(img + size)` on the download cache: it keeps every earlier entry and submits at most one job, the download of that URL |
| Cli.ProcessArgs | src/main/java/com/gt22/boxer/CLI.java:49-96 | the loop, with its index advanced past each option's value, ends exactly as the recursive specification of processArgs does |
| Cli.NoArgumentsStops | src/main/java/com/gt22/boxer/CLI.java:51 | an empty argument list stops with "Specify input image" |
| Cli.ScanExtend | src/main/java/com/gt22/boxer/CLI.java:52-93 | once a prefix of the arguments is fully processed, later arguments carry on from the settings it reached |
| Cli.LaterInputWins | src/main/java/com/gt22/boxer/CLI.java:87-90 | a plain argument sets the input file, replacing an earlier one |
| Cli.OutputOptionWins | src/main/java/com/gt22/boxer/CLI.java:79-86 | `-o out` sets the output file, so the default name (line 94) is not applied |
| Cli.TrailingOptionStops | src/main/java/com/gt22/boxer/CLI.java:58-86 | `-c`, `-e` or `-o` (or the long form) as the last argument stops with "Specify classification", "Specify expansion factor" or "Specify output file" |
| Cli.HelpEndsProcessing | src/main/java/com/gt22/boxer/CLI.java:54-57 | a help switch reached by the loop ends in displayHelp whatever follows; the fall-through into `-c` is never reached |
| Cli.UnknownClassStops | src/main/java/com/gt22/boxer/CLI.java:58-66 | `-c name` with a name the strict lookup rejects stops with the invalid-classification message, whatever follows |
| Cli.KnownClassSets | src/main/java/com/gt22/boxer/CLI.java:58-66 | `-c name` with a name the strict lookup accepts sets the classification to that lookup's result, and processing carries on from there |
| Cli.WithOutFile | src/main/java/com/gt22/boxer/CLI.java:94 | after the loop the output file is never null |
| Cli.ScanTraced | src/main/java/com/gt22/boxer/CLI.java:52-93 | throughout the loop the input file is one of the arguments, the output file follows an output switch, and the classification is IRRELEVANT or the strict lookup of the argument after a class switch |
| Cli.ProcessedSettings | src/main/java/com/gt22/boxer/CLI.java:49-96 | the settings returned have an input file taken from the arguments (or null), a classification that is IRRELEVANT unless set by `-c`, and an output file given by `-o` or else `<class name>_<input file>`, where the class name is the display name that `toString()` returns (`Classifications.Name`, Classification.java:69-71 and 135-137) |
| Cli.OutputFormat | src/main/java/com/gt22/boxer/CLI.java:45 | the format is the text after the last `.` of the output name, with no dot in it, or the whole name when there is no dot |
| Controllers.ExtractType | src/main/java/com/gt22/boxer/gui/Controller.java:128-136 | "png" when the name has no `.`; otherwise the (possibly empty) text after the last `.`, which holds no dot |
| Controllers.FileName | src/main/java/com/gt22/boxer/gui/Controller.java:129 | `getName()` is the path's last component: a suffix of the path holding no '/', preceded by the path's last '/' if there is one |
| Controllers.ExtractTypeAgreesWithOutputFormat | src/main/java/com/gt22/boxer/gui/Controller.java:128-136 | the GUI slices the file name and the command line (CLI.java:45) the whole path; they choose the same format when the file name has a '.'; otherwise the GUI writes PNG, and the command line uses the whole path when it has no '.', and otherwise a text holding a '/' (for `shots.v2/face` it uses `v2/face`) |
| Controllers.Hits | src/main/java/com/gt22/boxer/gui/Controller.java:80 | the point is within the closed rectangle, the far edges computed as wrapping `int` sums; so a face whose right or bottom edge overflows `int` is never hit, wherever the click is |
| Controllers.HitsInClosedRect | src/main/java/com/gt22/boxer/gui/Controller.java:80 | without `int` overflow the hit test is membership in the closed rectangle, all four edges included |
| Controllers.FirstHit | src/main/java/com/gt22/boxer/gui/Controller.java:77-85 | the position of the first face in list order that the point hits, or -1 when none does |
| Controllers.FirstHitIsFirst | src/main/java/com/gt22/boxer/gui/Controller.java:77-85 | that position is the only one meeting the first-hit condition |
| Controllers.Controller.Select | src/main/java/com/gt22/boxer/gui/Controller.java:68-87 | the first face hit becomes the selected face; on a miss the selection stays as it was; the list is disabled exactly when nothing was hit; with no processed image the loop throws NullPointerException |
| FacialDetectors.ExpandAndSquareRect | src/main/java/com/gt22/boxer/FacialDetector.java:70-78 | the same rectangle is updated in place and returned: `x` and `y` move back by `shift / 2` (truncated), `width` grows by `shift`, `height` becomes the new width, all as wrapping `int` arithmetic |
| FacialDetectors.ExpandedSpanContains | src/main/java/com/gt22/boxer/FacialDetector.java:71-75 | for a non-negative shift without overflow, the new span `[x', x' + w']` contains the old `[x, x + w]`, with `shift / 2` added on the left and the rest on the right |

## Left out

- Threads and blocking are not modelled:
  - the executor runs nothing, it only records submitted jobs;
  - `CountDownLatch.await` is the outcome "blocks" (`Hangs`);
  - `get(timeout)` on a manual future is taken to have timed out whenever its latch is closed;
  - the decorator's watcher is an operation the caller invokes.

  The unsynchronised check-then-put of both caches is modelled for sequential callers only.
- Foreign I/O is not modelled:
  - the HTTP client, `ImageIO` decoding and the resource-stream read are taken as inputs (`HttpOutcome`, `BodyDecode`) or recorded as jobs;
  - `File.getName` is modelled by `Controllers.FileName`, whose gap is listed below;
  - the file reads and writes of `CLI.box`, logging, and `System.out`/`System.exit` are not modelled; the exit is the result `Stop` or `Help`.
- AWT drawing is not modelled:
  - `resize`, `mergeImages` and the pixel copying of `drawImagePart` are left out, and only the quadrant coordinates are modelled;
  - the box drawing in `CLI.box` and the controller is left out;
  - an `Image` value carries a size and an opaque pixel sequence.
- Floating point is not modelled:
  - the product `width * expandFactor` and its truncation to `int` is the parameter `shift` of `ExpandAndSquareRect`;
  - `Float.parseFloat` is the input predicate `parsesAsFloat`, and a parsed factor is kept as its text;
  - the click point arrives already scaled, as reals.
- OpenCV face detection and the JavaFX user interface are not modelled: bindings, `open`, `save`, `displayMessage`, the list cells.
- `Color` fields and `getColor` are not modelled, because no decision depends on them.
- Classifications.Registry.GetClassification: the map's iteration order is the parameter `order`, which holds each key once, rather than HashMap's own order.
- JavaLang.ToLower: folds ASCII letters only. Java's `toLowerCase` also folds non-ASCII letters, and some of them become ASCII: the Kelvin sign U+212A becomes 'k', so Java's lookup of "UN\u212ANOWN" finds UNKNOWN while the model's finds nothing. The model also assumes a default locale that is not Turkish. Under a Turkish locale 'I' lowers to a dotless 'ı', which changes the registry keys and the `/boxes/…` paths.
- Controllers.FileName: takes '/' as the only name separator, and does not model `File`'s removal of duplicate or trailing separators.
- Classifications.Icons.GetImg: the receiver is the enum constant as a value `Constant(id, img)`, and its `img` field is the URL prefix. The constants' URLs themselves are in `ImgUrl` and `ConstantOf`.
- AdvancedFutures.AdvancedFuture.WatcherRun: the delivery invariant (every registered callback is delivered or queued) is kept only for constant and manual futures, because a decorator does not keep it in Java either. A failed or cancelled wrapped future makes `get()` throw at line 69, so the queued callbacks are never delivered (lines 68-74). A callback passed to `onComplete` on a decorator whose wrapped future is done but failed is neither run nor queued, since the ExecutionException is swallowed at lines 164-166.
- AdvancedFutures.AdvancedFuture.Complete, AdvancedFutures.AdvancedFuture.CompleteSafely, AdvancedFutures.AdvancedFuture.OnComplete, AdvancedFutures.AdvancedFuture.WatcherRun: a callback is an opaque number that always returns normally and never calls back into the future. In Java a callback can do both:
  - a callback that throws escapes `complete` at line 139: later callbacks do not run, the list is not dropped and the latch is not opened (lines 140-141), so `get()` blocks for ever although `val` is set;
  - the same exception escapes `onComplete` at line 163, and ends the decorator's watcher at line 71 before the list is dropped;
  - a callback that calls `get()` (or `onComplete`) on the same manual future while `complete` runs blocks for ever, because `val` is stored at line 138 but the latch only opens at line 141.
- The generic `java.util.concurrent.Future` that a decorator wraps is modelled by the `Task` class, following the JDK's documented contract: `get` blocks while running; it throws ExecutionException on failure and CancellationException after a cancel; `cancel` succeeds only while running.

## Findings

| source | as written | input that shows it | evidently intended | confidence | as-written member | corrected member |
|---|---|---|---|---|---|---|
| src/main/java/com/gt22/boxer/utils/AdvancedFuture.java:135-142 | `complete` runs `onCompleteActions.forEach(...)` unconditionally, but the list is null until some `onComplete` queued a callback (line 14) | `manual()` followed by `complete(v)` with no callback registered: NullPointerException after `val` is stored, so the latch never opens and `get()` blocks for ever although `isDone()` is true | treat a null list as empty, run nothing, and open the latch | not executed | AdvancedFutures.CompleteUnsubscribedManual | AdvancedFutures.CompleteUnsubscribedManualSafely |
