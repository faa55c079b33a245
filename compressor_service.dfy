/**
 * The compression service as a sequential state machine. The coroutines of the
 * service are replaced by an ordered sequence of events: a job starts, the path
 * resolver reports one completion per photo, the consumer loop takes resolved
 * paths off the channel (a FIFO queue here) and compresses them, and the loop
 * ends with clean-up once the channel is closed and drained; the job can be
 * cancelled at any point.
 */
module CompressorService {
  import opened Wrappers
  import opened Photos

  /**
   * The six status values the service publishes, as the texts "Not Started",
   * "Starting", "Compressing", "Cleaning Up", "Stopped" and "Done".
   */
  datatype Status = NotStarted | Starting | Compressing | CleaningUp | Stopped | Done

  /** A path reported by the resolver; it may be null. */
  type Path = Option<string>

  /**
   * The observable state of the service. `queue` and `closed` stand for the
   * channel between resolver and consumer; `cancelled` says that the service's
   * supervisor job was cancelled, after which nothing launched in its scope
   * runs. `compressCalls` records the paths handed to the compressor, in order,
   * `cacheClears` the clean-ups of the cache directory, and `history` every
   * status assignment, in order.
   */
  datatype Job = Job(
    status: Status,
    photos: set<Photo>,
    toCompress: int,
    resolved: int,
    compressed: int,
    queue: seq<Path>,
    closed: bool,
    cancelled: bool,
    compressCalls: seq<Path>,
    cacheClears: nat,
    history: seq<Status>)

  const Initial: Job := Job(NotStarted, {}, 0, 0, 0, [], false, false, [], 0, [])

  /** The events that drive the service. */
  datatype Event =
    | Start(photoSet: set<Photo>)
    | PathResolved(wasSuccessful: bool, path: Path)
    | CompressNext
    | Finish
    | Cancel

  /**
   * compress: the photo set is stored, the resolved and compressed counters are
   * reset, the number to compress is the size of the set, the status passes
   * through "Starting" to "Compressing", and a closed channel is replaced by a
   * fresh open one.
   */
  function StartJob(j: Job, photoSet: set<Photo>): (r: Job)
    ensures j.cancelled ==> r == j
    ensures !j.cancelled ==>
      r.photos == photoSet && r.toCompress == |photoSet| && r.resolved == 0 && r.compressed == 0 &&
      r.status == Compressing && r.history == j.history + [Starting, Compressing] && !r.cancelled
    ensures !j.cancelled ==> !r.closed && r.queue == (if j.closed then [] else j.queue)
    ensures r.compressCalls == j.compressCalls && r.cacheClears == j.cacheClears
  {
    if j.cancelled then j
    else
      j.(photos := photoSet, resolved := 0, compressed := 0, toCompress := |photoSet|,
         status := Compressing, history := j.history + [Starting, Compressing],
         queue := if j.closed then [] else j.queue, closed := false)
  }

  /**
   * The resolver's completion callback: a success counts one more resolved path
   * and sends it down the channel, a failure lowers the number to compress; then
   * the channel is closed if the resolved count has reached the size of the
   * photo set. A send on a closed channel throws in the service; here the path
   * is dropped and the callback goes on.
   */
  function ResolvePath(j: Job, wasSuccessful: bool, path: Path): (r: Job)
    ensures j.cancelled ==> r == j
    ensures !j.cancelled ==>
      r.resolved == j.resolved + (if wasSuccessful then 1 else 0) &&
      r.toCompress == j.toCompress - (if wasSuccessful then 0 else 1) &&
      r.queue == j.queue + (if wasSuccessful && !j.closed then [path] else [])
    ensures !j.cancelled ==> (r.closed <==> j.closed || r.resolved == |j.photos|)
    ensures r.status == j.status && r.photos == j.photos && r.compressed == j.compressed
    ensures r.compressCalls == j.compressCalls && r.cacheClears == j.cacheClears
  {
    if j.cancelled then j
    else
      var sent :=
        if wasSuccessful then
          j.(resolved := j.resolved + 1, queue := if j.closed then j.queue else j.queue + [path])
        else
          j.(toCompress := j.toCompress - 1);
      sent.(closed := sent.closed || sent.resolved == |sent.photos|)
  }

  /** One turn of the consumer loop: the oldest queued path is compressed and counted. */
  function CompressOne(j: Job): (r: Job)
    ensures r.compressCalls + r.queue == j.compressCalls + j.queue
    ensures j.compressCalls <= r.compressCalls
    ensures r.compressed - j.compressed == |r.compressCalls| - |j.compressCalls| <= 1
    ensures r.status == j.status && r.resolved == j.resolved && r.closed == j.closed
    ensures r.cancelled == j.cancelled && r.cacheClears == j.cacheClears
  {
    if j.cancelled || j.status != Compressing || j.queue == [] then j
    else
      assert j.queue == [j.queue[0]] + j.queue[1..];
      j.(compressCalls := j.compressCalls + [j.queue[0]], queue := j.queue[1..],
         compressed := j.compressed + 1)
  }

  /** The end of the consumer loop, once the channel is closed and drained: clean up, then done. */
  function FinishJob(j: Job): (r: Job)
    ensures r.status == Done <==>
      j.status == Done || (!j.cancelled && j.status == Compressing && j.closed && j.queue == [])
    ensures r.cacheClears == j.cacheClears + (if r.status != j.status then 1 else 0)
    ensures r.compressCalls == j.compressCalls && r.queue == j.queue && r.cancelled == j.cancelled
  {
    if j.cancelled || j.status != Compressing || !j.closed || j.queue != [] then j
    else
      j.(status := Done, cacheClears := j.cacheClears + 1, history := j.history + [CleaningUp, Done])
  }

  /**
   * cancelJob: the supervisor job is cancelled and the status becomes "Stopped".
   * The cache deletion it launches goes to the scope it has just cancelled and
   * so never runs.
   */
  function CancelJob(j: Job): (r: Job)
    ensures r.status == Stopped && r.cancelled
    ensures r.compressCalls == j.compressCalls && r.cacheClears == j.cacheClears && r.queue == j.queue
  {
    j.(status := Stopped, cancelled := true, history := j.history + [Stopped])
  }

  /** The effect of one event on the service. */
  function Step(j: Job, e: Event): (r: Job)
    ensures j.cancelled && !e.Cancel? ==> r == j
    ensures !e.Start? ==> r.photos == j.photos && j.compressCalls <= r.compressCalls
    ensures r.cacheClears <= j.cacheClears + 1
    ensures !e.Cancel? ==> r.cancelled == j.cancelled
  {
    match e
    case Start(ps) => StartJob(j, ps)
    case PathResolved(ok, p) => ResolvePath(j, ok, p)
    case CompressNext => CompressOne(j)
    case Finish => FinishJob(j)
    case Cancel => CancelJob(j)
  }

  function Run(j: Job, es: seq<Event>): Job
    decreases es
  {
    if es == [] then j else Run(Step(j, es[0]), es[1..])
  }

  function Repeat(e: Event, n: nat): (r: seq<Event>)
    ensures |r| == n && forall k :: 0 <= k < n ==> r[k] == e
  {
    if n == 0 then [] else Repeat(e, n - 1) + [e]
  }

  predicate NoStart(es: seq<Event>)
  {
    forall k :: 0 <= k < |es| ==> !es[k].Start?
  }

  predicate NoCancel(es: seq<Event>)
  {
    forall k :: 0 <= k < |es| ==> !es[k].Cancel?
  }

  /** Every completion callback in the sequence reports a successful resolution. */
  predicate AllSucceed(es: seq<Event>)
  {
    forall k :: 0 <= k < |es| ==> es[k].PathResolved? ==> es[k].wasSuccessful
  }

  /** The number of completion callbacks in an event sequence. */
  function Resolutions(es: seq<Event>): nat
  {
    if es == [] then 0 else (if es[0].PathResolved? then 1 else 0) + Resolutions(es[1..])
  }

  /** The completion callbacks still to come in the current job. */
  function Pending(j: Job): int
  {
    j.toCompress - j.resolved
  }

  /** A job may start from here: the channel is closed (and will be replaced) or holds nothing. */
  predicate CanStart(j: Job)
  {
    j.closed || j.queue == []
  }

  /**
   * The counter rules of a running job: every resolved path is either compressed
   * or still queued, no more paths are resolved than remain to compress, the
   * channel is closed only once every photo resolved, and "Done" is reached only
   * with the channel closed and drained. A cancelled service stays "Stopped".
   */
  predicate JobInv(j: Job)
  {
    (j.cancelled ==> j.status == Stopped) &&
    (!j.cancelled ==>
      0 <= j.compressed && j.compressed + |j.queue| == j.resolved &&
      j.resolved <= j.toCompress <= |j.photos| &&
      (j.closed ==> j.resolved == |j.photos|) &&
      (j.status == Compressing || j.status == Done) &&
      (j.status == Done ==> j.closed && j.queue == []))
  }

  /** The path the channel accepts from one event, if any. */
  function SentBy(j: Job, e: Event): seq<Path>
  {
    if e.PathResolved? && e.wasSuccessful && !j.cancelled && !j.closed then [e.path] else []
  }

  /** The paths the channel accepts along a run. */
  function Sent(j: Job, es: seq<Event>): seq<Path>
    decreases es
  {
    if es == [] then [] else SentBy(j, es[0]) + Sent(Step(j, es[0]), es[1..])
  }

  /** Paths resolved one after another, each compressed before the next one resolves. */
  function ResolveThenCompress(paths: seq<Path>): (es: seq<Event>)
    ensures NoStart(es)
  {
    if paths == [] then [] else [PathResolved(true, paths[0]), CompressNext] + ResolveThenCompress(paths[1..])
  }

  lemma {:induction false} RunAppend(j: Job, a: seq<Event>, b: seq<Event>)
    ensures Run(j, a + b) == Run(Run(j, a), b)
    decreases a
  {
    if a != [] {
      assert (a + b)[0] == a[0] && (a + b)[1..] == a[1..] + b;
      RunAppend(Step(j, a[0]), a[1..], b);
    } else {
      assert a + b == b;
    }
  }

  lemma RunAfterStart(j0: Job, photoSet: set<Photo>, es: seq<Event>)
    ensures Run(j0, [Start(photoSet)] + es) == Run(Step(j0, Start(photoSet)), es)
  {
    assert ([Start(photoSet)] + es)[1..] == es;
  }

  lemma {:induction false} ResolutionsAppend(a: seq<Event>, b: seq<Event>)
    ensures Resolutions(a + b) == Resolutions(a) + Resolutions(b)
  {
    if a != [] {
      assert (a + b)[0] == a[0] && (a + b)[1..] == a[1..] + b;
      ResolutionsAppend(a[1..], b);
    } else {
      assert a + b == b;
    }
  }

  lemma NoStartSlice(es: seq<Event>, lo: nat, hi: nat)
    requires NoStart(es) && lo <= hi <= |es|
    ensures NoStart(es[lo..hi])
  {
  }

  /** Starting a job from a state with nothing left in an open channel establishes the job invariant. */
  lemma StartEstablishesInv(j: Job, photoSet: set<Photo>)
    requires CanStart(j) && !j.cancelled
    ensures JobInv(Step(j, Start(photoSet)))
    ensures Pending(Step(j, Start(photoSet))) == |photoSet|
  {
  }

  /** Every event but a new start keeps the job invariant; each callback uses up one pending callback. */
  lemma StepPreservesInv(j: Job, e: Event)
    requires JobInv(j) && !e.Start?
    requires e.PathResolved? ==> Pending(j) > 0
    ensures JobInv(Step(j, e))
    ensures Step(j, e).photos == j.photos && Step(j, e).toCompress <= j.toCompress
    ensures Pending(Step(j, e)) == Pending(j) - (if e.PathResolved? && !j.cancelled then 1 else 0)
    ensures !e.PathResolved? ==> Step(j, e).closed == j.closed
    ensures e.PathResolved? && !j.cancelled ==> (Step(j, e).closed <==> Step(j, e).resolved == |j.photos|)
  {
  }

  /** A run of a job with no more callbacks than are pending keeps the invariant. */
  lemma {:induction false} RunPreservesInv(j: Job, es: seq<Event>)
    requires JobInv(j) && NoStart(es) && Resolutions(es) <= Pending(j)
    ensures JobInv(Run(j, es))
    ensures Run(j, es).photos == j.photos && Run(j, es).toCompress <= j.toCompress
    ensures Pending(Run(j, es)) >= Pending(j) - Resolutions(es)
    ensures Resolutions(es) == 0 ==> Run(j, es).closed == j.closed
    decreases es
  {
    if es != [] {
      StepPreservesInv(j, es[0]);
      RunPreservesInv(Step(j, es[0]), es[1..]);
    }
  }

  /**
   * Once a resolution has failed in a running job, the resolved count can no
   * longer reach the size of the photo set: the channel stays open and the job
   * never reaches "Done".
   */
  lemma NoDoneAfterFailure(j: Job, es: seq<Event>)
    requires JobInv(j) && NoStart(es) && Resolutions(es) <= Pending(j)
    requires j.cancelled || j.toCompress < |j.photos|
    ensures Run(j, es).status != Done
    ensures !Run(j, es).cancelled ==> !Run(j, es).closed
  {
    RunPreservesInv(j, es);
    if j.cancelled {
      CancelledStaysStopped(j, es);
    }
  }

  /** A cancelled service ignores every later event except a further cancel, and stays "Stopped". */
  lemma {:induction false} CancelledStaysStopped(j: Job, es: seq<Event>)
    requires j.cancelled && j.status == Stopped
    ensures var r := Run(j, es);
      r.cancelled && r.status == Stopped && r.photos == j.photos && r.queue == j.queue &&
      r.closed == j.closed && r.toCompress == j.toCompress && r.resolved == j.resolved &&
      r.compressed == j.compressed && r.compressCalls == j.compressCalls && r.cacheClears == j.cacheClears
    decreases es
  {
    if es != [] {
      CancelledStaysStopped(Step(j, es[0]), es[1..]);
    }
  }

  /** After cancelJob, no event makes the service leave "Stopped", start a job or compress anything. */
  lemma CancelIsFinal(j: Job, es: seq<Event>)
    ensures var c := Step(j, Cancel);
      var r := Run(c, es);
      r.status == Stopped && r.compressCalls == j.compressCalls && r.compressed == j.compressed &&
      r.cacheClears == j.cacheClears
  {
    CancelledStaysStopped(Step(j, Cancel), es);
  }

  /**
   * A job in which any resolution fails never reaches "Done", whatever else
   * happens before the next start; until it is cancelled it stays
   * "Compressing" with its channel open.
   */
  lemma {:induction false} FailedResolutionNeverFinishes(j0: Job, photoSet: set<Photo>, es: seq<Event>, i: nat, path: Path)
    requires CanStart(j0) && !j0.cancelled
    requires NoStart(es) && Resolutions(es) <= |photoSet|
    requires i < |es| && es[i] == PathResolved(false, path)
    ensures Run(j0, [Start(photoSet)] + es).status != Done
    ensures NoCancel(es) ==>
      Run(j0, [Start(photoSet)] + es).status == Compressing && !Run(j0, [Start(photoSet)] + es).closed
  {
    var j := Step(j0, Start(photoSet));
    StartEstablishesInv(j0, photoSet);
    var pre, e, post := es[..i], es[i], es[i + 1..];
    assert es == pre + ([e] + post);
    ResolutionsAppend(pre, [e] + post);
    ResolutionsAppend([e], post);
    assert Resolutions([e]) == 1;
    NoStartSlice(es, 0, i);
    NoStartSlice(es, i + 1, |es|);
    RunPreservesInv(j, pre);
    var j1 := Run(j, pre);
    StepPreservesInv(j1, e);
    var j2 := Step(j1, e);
    NoDoneAfterFailure(j2, post);
    RunAppend(j, pre, [e] + post);
    assert Run(j1, [e] + post) == Run(j2, post);
    RunAfterStart(j0, photoSet, es);
    RunPreservesInv(j, es);
    if NoCancel(es) {
      NoCancelRun(j, es);
    }
  }

  /**
   * A job over an empty photo set gets no callbacks, so its channel never
   * closes and it never finishes; until it is cancelled it stays "Compressing".
   */
  lemma EmptyJobNeverFinishes(j0: Job, es: seq<Event>)
    requires CanStart(j0) && !j0.cancelled
    requires NoStart(es) && Resolutions(es) == 0
    ensures Run(j0, [Start({})] + es).status != Done
    ensures !Run(j0, [Start({})] + es).closed
    ensures NoCancel(es) ==> Run(j0, [Start({})] + es).status == Compressing
  {
    var j := Step(j0, Start({}));
    StartEstablishesInv(j0, {});
    RunPreservesInv(j, es);
    if NoCancel(es) {
      NoCancelRun(j, es);
    }
    RunAfterStart(j0, {}, es);
  }

  /** Without a cancel, a run leaves the cancelled flag as it was. */
  lemma {:induction false} NoCancelRun(j: Job, es: seq<Event>)
    requires NoCancel(es)
    ensures Run(j, es).cancelled == j.cancelled
    decreases es
  {
    if es != [] {
      NoCancelRun(Step(j, es[0]), es[1..]);
    }
  }

  /**
   * A job reaching "Done" has compressed exactly one path per photo, and none of
   * its resolutions failed.
   */
  lemma DoneMeansAllCompressed(j0: Job, photoSet: set<Photo>, es: seq<Event>)
    requires CanStart(j0) && !j0.cancelled
    requires NoStart(es) && Resolutions(es) <= |photoSet|
    requires Run(j0, [Start(photoSet)] + es).status == Done
    ensures var r := Run(j0, [Start(photoSet)] + es);
      r.compressed == |photoSet| && r.toCompress == |photoSet| && r.queue == [] && r.closed
  {
    var j := Step(j0, Start(photoSet));
    RunAfterStart(j0, photoSet, es);
    StartEstablishesInv(j0, photoSet);
    RunPreservesInv(j, es);
  }

  /**
   * The channel is first in, first out: along any run without a new start, the
   * compressor receives, after what it had received before, exactly the paths
   * that were queued and then the paths the channel accepted, in order.
   */
  lemma {:induction false} ChannelIsFifo(j: Job, es: seq<Event>)
    requires NoStart(es)
    ensures Run(j, es).compressCalls + Run(j, es).queue == j.compressCalls + j.queue + Sent(j, es)
    ensures j.compressCalls <= Run(j, es).compressCalls
    decreases es
  {
    if es != [] {
      var j1 := Step(j, es[0]);
      StepIsFifo(j, es[0]);
      ChannelIsFifo(j1, es[1..]);
      assert Run(j, es) == Run(j1, es[1..]);
      PrefixTrans(j.compressCalls, j1.compressCalls, Run(j1, es[1..]).compressCalls);
    }
  }

  lemma PrefixTrans(a: seq<Path>, b: seq<Path>, c: seq<Path>)
    requires a <= b && b <= c
    ensures a <= c
  {
    assert c[..|b|][..|a|] == c[..|a|];
  }

  /** One event moves a queued path to the compressor, or appends the accepted path to the queue. */
  lemma StepIsFifo(j: Job, e: Event)
    requires !e.Start?
    ensures Step(j, e).compressCalls + Step(j, e).queue == j.compressCalls + j.queue + SentBy(j, e)
    ensures j.compressCalls <= Step(j, e).compressCalls
  {
  }

  /** Resolving and compressing paths one at a time in a running job that has not closed its channel. */
  lemma {:induction false} ResolveThenCompressRun(j: Job, paths: seq<Path>)
    requires !j.cancelled && j.status == Compressing && !j.closed && j.queue == []
    requires j.resolved + |paths| <= |j.photos|
    ensures Run(j, ResolveThenCompress(paths)) ==
      j.(resolved := j.resolved + |paths|, compressed := j.compressed + |paths|,
         compressCalls := j.compressCalls + paths,
         closed := |paths| > 0 && j.resolved + |paths| == |j.photos|)
    decreases paths
  {
    if paths != [] {
      var j1 := Step(Step(j, PathResolved(true, paths[0])), CompressNext);
      assert Run(j, ResolveThenCompress(paths)) == Run(j1, ResolveThenCompress(paths[1..]));
      if paths[1..] != [] {
        ResolveThenCompressRun(j1, paths[1..]);
      }
      assert j.compressCalls + paths == j.compressCalls + [paths[0]] + paths[1..];
    }
  }

  /**
   * The normal path: when every photo's path resolves, the status goes
   * "Starting", "Compressing", "Cleaning Up", "Done"; each path is compressed
   * once, in the order it resolved, and the cache is cleared once.
   */
  lemma NormalJob(j0: Job, photoSet: set<Photo>, paths: seq<Path>)
    requires CanStart(j0) && !j0.cancelled
    requires |paths| == |photoSet| > 0
    ensures var r := Run(j0, [Start(photoSet)] + ResolveThenCompress(paths) + [Finish]);
      r.status == Done && r.history == j0.history + [Starting, Compressing, CleaningUp, Done] &&
      r.compressCalls == j0.compressCalls + paths && r.compressed == |photoSet| &&
      r.resolved == |photoSet| && r.toCompress == |photoSet| && r.cacheClears == j0.cacheClears + 1
  {
    var j := Step(j0, Start(photoSet));
    ResolveThenCompressRun(j, paths);
    RunAppend(j0, [Start(photoSet)] + ResolveThenCompress(paths), [Finish]);
    RunAppend(j0, [Start(photoSet)], ResolveThenCompress(paths));
  }

  /**
   * A successful, uncancelled run counts every callback as resolved and keeps the
   * number to compress; once it holds a callback, its channel is closed exactly
   * when every photo has resolved.
   */
  lemma {:induction false} SuccessfulRun(j: Job, es: seq<Event>)
    requires JobInv(j) && !j.cancelled
    requires NoStart(es) && NoCancel(es) && AllSucceed(es) && Resolutions(es) <= Pending(j)
    ensures var r := Run(j, es);
      !r.cancelled && r.resolved == j.resolved + Resolutions(es) && r.toCompress == j.toCompress
    ensures Resolutions(es) > 0 ==> (Run(j, es).closed <==> Run(j, es).resolved == |j.photos|)
    decreases es
  {
    if es != [] {
      var e, rest := es[0], es[1..];
      var j1 := Step(j, e);
      StepPreservesInv(j, e);
      SuccessfulRun(j1, rest);
      assert Run(j, es) == Run(j1, rest);
      if Resolutions(rest) == 0 {
        RunPreservesInv(j1, rest);
      }
    }
  }

  /**
   * Whatever the order of callbacks and consumer turns, a job whose paths all
   * resolve closes its channel; the consumer then drains it, every photo is
   * compressed and the job reaches "Done".
   */
  lemma AllResolvedFinishes(j0: Job, photoSet: set<Photo>, es: seq<Event>)
    requires CanStart(j0) && !j0.cancelled
    requires NoStart(es) && NoCancel(es) && AllSucceed(es) && Resolutions(es) == |photoSet| > 0
    ensures var r := Run(j0, [Start(photoSet)] + es);
      r.closed && !r.cancelled && r.resolved == |photoSet| && r.toCompress == |photoSet|
    ensures var r := Run(j0, [Start(photoSet)] + es);
      var d := Run(r, Repeat(CompressNext, |r.queue|) + [Finish]);
      d.status == Done && d.queue == [] && d.compressed == |photoSet| &&
      d.compressCalls == r.compressCalls + r.queue
  {
    var j := Step(j0, Start(photoSet));
    StartEstablishesInv(j0, photoSet);
    RunAfterStart(j0, photoSet, es);
    SuccessfulRun(j, es);
    RunPreservesInv(j, es);
    var r := Run(j, es);
    if r.status == Compressing {
      DrainRun(r, |r.queue|);
      AfterDrain(r, |r.queue|, Run(r, Repeat(CompressNext, |r.queue|)));
    } else {
      AfterDrain(r, 0, r);
    }
  }

  /** The consumer's first `n` turns in a running job compress the first `n` queued paths, in order. */
  lemma {:induction false} DrainRun(j: Job, n: nat)
    requires !j.cancelled && j.status == Compressing && n <= |j.queue|
    ensures Run(j, Repeat(CompressNext, n)) ==
      j.(compressCalls := j.compressCalls + j.queue[..n], queue := j.queue[n..], compressed := j.compressed + n)
    decreases n
  {
    if n == 0 {
      assert j.queue[..0] == [] && j.queue[0..] == j.queue;
    } else {
      DrainRun(j, n - 1);
      RunAppend(j, Repeat(CompressNext, n - 1), [CompressNext]);
      assert j.queue[..n] == j.queue[..n - 1] + [j.queue[n - 1]];
      assert j.queue[n - 1..][1..] == j.queue[n..];
    }
  }

  /** A run of consumer turns that changes nothing: the loop is not running or the channel is empty. */
  lemma {:induction false} IdleTurns(j: Job, n: nat)
    requires j.cancelled || j.status != Compressing || j.queue == []
    ensures Run(j, Repeat(CompressNext, n)) == j
    decreases n
  {
    if n > 0 {
      IdleTurns(j, n - 1);
      RunAppend(j, Repeat(CompressNext, n - 1), [CompressNext]);
    }
  }

  /** Once the consumer has nothing left to take, the rest of its turns are idle and the loop ends. */
  lemma AfterDrain(j0: Job, k: nat, d: Job)
    requires k <= |j0.queue| && d == Run(j0, Repeat(CompressNext, k))
    requires d.cancelled || d.status != Compressing || d.queue == []
    ensures Run(j0, Repeat(CompressNext, |j0.queue|) + [Finish]) == FinishJob(d)
  {
    IdleTurns(d, |j0.queue| - k);
    RepeatAdd(CompressNext, k, |j0.queue| - k);
    RunAppend(j0, Repeat(CompressNext, k), Repeat(CompressNext, |j0.queue| - k));
    RunAppend(j0, Repeat(CompressNext, |j0.queue|), [Finish]);
  }

  lemma {:induction false} RepeatAdd(e: Event, a: nat, b: nat)
    ensures Repeat(e, a) + Repeat(e, b) == Repeat(e, a + b)
  {
    if b > 0 {
      RepeatAdd(e, a, b - 1);
    }
  }

  class ImageCompressorService {
    var status: Status
    var photos: set<Photo>
    var toCompress: int
    var totalImagePathResolved: int
    var totalCompressed: int
    var channel: seq<Path>
    var channelClosed: bool
    var jobCancelled: bool
    var compressCalls: seq<Path>
    var cacheClears: nat
    var history: seq<Status>

    function State(): Job
      reads this
    {
      Job(status, photos, toCompress, totalImagePathResolved, totalCompressed, channel, channelClosed,
          jobCancelled, compressCalls, cacheClears, history)
    }

    constructor ()
      ensures State() == Initial
    {
      status := NotStarted;
      photos := {};
      toCompress := 0;
      totalImagePathResolved := 0;
      totalCompressed := 0;
      channel := [];
      channelClosed := false;
      jobCancelled := false;
      compressCalls := [];
      cacheClears := 0;
      history := [];
    }

    method SetStatus(s: Status)
      modifies this`status, this`history
      ensures status == s && history == old(history) + [s]
    {
      status := s;
      history := history + [s];
    }

    /** compress: starts a job over `photoSet` (nothing happens once the service was cancelled). */
    method Compress(photoSet: set<Photo>)
      modifies this
      ensures State() == Step(old(State()), Start(photoSet))
    {
      if jobCancelled {
        return;
      }
      photos := photoSet;
      totalImagePathResolved := 0;
      totalCompressed := 0;
      toCompress := |photos|;
      SetStatus(Starting);
      if channelClosed {
        channel := [];
        channelClosed := false;
      }
      SetStatus(Compressing);
    }

    /** PickiTonCompleteListener: one path resolution has completed. */
    method OnPathResolved(wasSuccessful: bool, path: Path)
      modifies this
      ensures State() == Step(old(State()), PathResolved(wasSuccessful, path))
    {
      if jobCancelled {
        return;
      }
      if wasSuccessful {
        totalImagePathResolved := totalImagePathResolved + 1;
        if channelClosed {
          return;
        }
        channel := channel + [path];
      } else {
        toCompress := toCompress - 1;
      }
      if totalImagePathResolved == |photos| {
        channelClosed := true;
      }
    }

    /**
     * The consumer loop of compress, run as far as the channel allows: every
     * queued path is compressed and counted in order, and once the channel is
     * closed and drained the cache is cleared and the job is done.
     */
    method ConsumeChannel()
      modifies this
      ensures State() == Run(old(State()), Repeat(CompressNext, |old(channel)|) + [Finish])
    {
      ghost var j0 := State();
      ghost var k := 0;
      assert j0.queue[..0] == [] && j0.queue[0..] == j0.queue;
      while !jobCancelled && status == Compressing && channel != []
        invariant 0 <= k <= |j0.queue| && channel == j0.queue[k..]
        invariant jobCancelled == j0.cancelled && status == j0.status && history == j0.history
        invariant k > 0 ==> !j0.cancelled && j0.status == Compressing
        invariant State() == j0.(compressCalls := j0.compressCalls + j0.queue[..k], queue := j0.queue[k..],
                                 compressed := j0.compressed + k)
        decreases |channel|
      {
        var path := channel[0];
        channel := channel[1..];
        compressCalls := compressCalls + [path];
        totalCompressed := totalCompressed + 1;
        assert j0.queue[..k + 1] == j0.queue[..k] + [j0.queue[k]];
        k := k + 1;
      }
      if k > 0 {
        DrainRun(j0, k);
      }
      AfterDrain(j0, k, State());
      if !jobCancelled && status == Compressing && channelClosed {
        SetStatus(CleaningUp);
        cacheClears := cacheClears + 1;
        SetStatus(Done);
      }
    }

    /** cancelJob: the service's job is cancelled for good and the status becomes "Stopped". */
    method CancelJob()
      modifies this
      ensures State() == Step(old(State()), Cancel)
    {
      jobCancelled := true;
      SetStatus(Stopped);
    }
  }
}
