/**
 * ImageUtils.readImg: a process-wide map from URL to the future of the
 * downloaded image, filled on the first request for each URL, and the
 * download job itself with its status-code rule.
 */
module ImageUtils {
  import opened Wrappers
  import opened TaskPool

  /** A decoded raster; the pixels themselves are not modelled. */
  datatype Image = Image(width: nat, height: nat, pixels: seq<int>)

  /** The 1×1 transparent image handed out when the server refuses. */
  const PLACEHOLDER: Image := Image(1, 1, [0])

  /** What ImageIO.read made of a response body. */
  datatype BodyDecode =
    | Decoded(image: Image)   // a reader understood the bytes
    | NoReader                // no reader understood them: read returns null
    | Unreadable              // reading the stream threw an IOException

  /** What the HTTP client did with the GET request. */
  datatype HttpOutcome =
    | ConnectionFailed                         // execute threw an IOException
    | Response(status: int, body: BodyDecode)

  /** What the download job's future ends up holding. */
  datatype FetchOutcome =
    | Returned(image: Option<Image>)   // None: the job returned null
    | ThrewUncheckedIO                 // the IOException, rethrown unchecked

  /** The body of the job readImg submits, given what the network and decoder did. */
  function RunFetch(outcome: HttpOutcome): (r: FetchOutcome)
    ensures r == ThrewUncheckedIO <==>
              outcome.ConnectionFailed? || (outcome.status == 200 && outcome.body.Unreadable?)
    ensures outcome.Response? && outcome.status != 200 ==> r == Returned(Some(PLACEHOLDER))
    ensures outcome.Response? && outcome.status == 200 && outcome.body.Decoded? ==>
              r == Returned(Some(outcome.body.image))
    ensures outcome.Response? && outcome.status == 200 && outcome.body.NoReader? ==> r == Returned(None)
  {
    match outcome
    case ConnectionFailed => ThrewUncheckedIO
    case Response(status, body) =>
      if status != 200 then Returned(Some(PLACEHOLDER))
      else match body
        case Decoded(img) => Returned(Some(img))
        case NoReader => Returned(None)
        case Unreadable => ThrewUncheckedIO
  }

  /** A non-200 answer always yields a 1×1 image, whatever the body holds. */
  lemma Non200GivesOnePixel(status: int, body: BodyDecode)
    requires status != 200
    ensures RunFetch(Response(status, body)).Returned?
    ensures RunFetch(Response(status, body)).image.Some?
    ensures RunFetch(Response(status, body)).image.value.width == 1
    ensures RunFetch(Response(status, body)).image.value.height == 1
  {
  }

  /** The URL a job downloads, if it is a download. */
  function UrlOf(job: Job): (r: Option<string>)
    ensures r.Some? <==> job.HttpGet?
    ensures job.HttpGet? ==> r.value == job.url
  {
    if job.HttpGet? then Some(job.url) else None
  }

  /** IMAGE_CACHE together with the executor it submits to. */
  class ImageCache {
    const pool: Pool
    var entries: map<string, FutureId>

    /** Every download in the log is the cache's entry for its URL, and vice versa. */
    ghost predicate Valid()
      reads this, pool
    {
      Memoised(entries, pool.jobs, UrlOf)
    }

    /** The empty cache of a freshly loaded class: no download was submitted before it. */
    constructor (pool: Pool)
      requires forall i :: 0 <= i < |pool.jobs| ==> !pool.jobs[i].HttpGet?
      ensures this.pool == pool && entries == map[]
      ensures Valid()
    {
      this.pool := pool;
      entries := map[];
      UnkeyedLogIsMemoised(pool.jobs, UrlOf);
    }

    /** readImg(url): the stored future on a hit; otherwise submit one download, store it, return it. */
    method ReadImg(url: string) returns (f: FutureId)
      requires Valid()
      modifies this, pool
      ensures Valid()
      ensures old(url in entries) ==> f == old(entries[url]) && entries == old(entries) && pool.jobs == old(pool.jobs)
      ensures old(url !in entries) ==>
                && f == |old(pool.jobs)|
                && pool.jobs == old(pool.jobs) + [HttpGet(url)]
                && entries == old(entries)[url := f]
      ensures url in entries && entries[url] == f && f < |pool.jobs| && pool.jobs[f] == HttpGet(url)
      ensures Grows(old(entries), entries)
    {
      MemoKeepsMemoised(entries, pool.jobs, UrlOf, url, HttpGet(url));
      if url !in entries {
        f := pool.Submit(HttpGet(url));
        entries := entries[url := f];
      } else {
        f := entries[url];
        IndexPointsToItsJob(pool.jobs, UrlOf, url);
      }
    }
  }

  /** Two successive readImg calls for one URL return the identical future, the second submitting nothing. */
  method ReadImgTwice(cache: ImageCache, url: string) returns (f1: FutureId, f2: FutureId)
    requires cache.Valid()
    modifies cache, cache.pool
    ensures f1 == f2
    ensures |cache.pool.jobs| <= |old(cache.pool.jobs)| + 1
  {
    f1 := cache.ReadImg(url);
    f2 := cache.ReadImg(url);
  }
}
