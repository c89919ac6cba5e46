/**
 * The shared executor that every fetch is submitted to, and the memoising
 * "check the map, otherwise submit and put" step that both icon caches use.
 * A submitted job is identified by its position in the pool's submission
 * log; that position is the future the executor hands back.
 */
module TaskPool {
  import opened Wrappers
  /** The future returned by the executor for the n-th submitted job. */
  type FutureId = nat

  /** What a submitted job does when it runs. */
  datatype Job =
    | HttpGet(url: string)         // download and decode an image
    | ResourceRead(path: string)   // decode an image bundled with the program
    | Montage(size: int)           // assemble the four-quadrant icon of this size

  /** The executor: it only records what was submitted, in order. */
  class Pool {
    var jobs: seq<Job>

    constructor ()
      ensures jobs == []
    {
      jobs := [];
    }

    /** Submit one job; its future is its position in the log. */
    method Submit(job: Job) returns (f: FutureId)
      modifies this
      ensures f == |old(jobs)|
      ensures jobs == old(jobs) + [job]
    {
      f := |jobs|;
      jobs := jobs + [job];
    }
  }

  /** Outcome of one get-or-submit step on a memo map. */
  datatype MemoStep<K> = MemoStep(future: FutureId, entries: map<K, FutureId>, jobs: seq<Job>)

  /**
   * `containsKey(key) ? get(key) : put(key, submit(job))` on a memo map whose
   * futures come from the submission log `jobs`.
   */
  function Memo<K>(entries: map<K, FutureId>, jobs: seq<Job>, key: K, job: Job): MemoStep<K>
  {
    if key in entries then MemoStep(entries[key], entries, jobs)
    else MemoStep(|jobs|, entries[key := |jobs|], jobs + [job])
  }

  /**
   * After the step the key is present and maps to the returned future; a hit
   * submits nothing, a miss submits the job once and its future is the next
   * position in the log; no other entry is added or changed.
   */
  lemma MemoMeaning<K>(entries: map<K, FutureId>, jobs: seq<Job>, key: K, job: Job)
    ensures var r := Memo(entries, jobs, key, job);
            && key in r.entries && r.entries[key] == r.future
            && (key in entries ==> r.future == entries[key] && r.jobs == jobs)
            && (key !in entries ==> r.future == |jobs| && r.jobs == jobs + [job])
            && r.entries.Keys == entries.Keys + {key}
            && (forall k :: k in entries ==> r.entries[k] == entries[k])
  {
  }

  /**
   * The memo map that the log `jobs` accounts for: every job that belongs to
   * a key (as `keyOf` says) puts that key with its position, later jobs
   * overriding earlier ones.
   */
  ghost function Index<K>(jobs: seq<Job>, keyOf: Job -> Option<K>): map<K, FutureId>
    decreases |jobs|
  {
    if |jobs| == 0 then map[]
    else
      var prev := Index(jobs[..|jobs| - 1], keyOf);
      match keyOf(jobs[|jobs| - 1])
      case None => prev
      case Some(k) => prev[k := |jobs| - 1]
  }

  /** No key had a job submitted for it twice. */
  ghost predicate Once<K>(jobs: seq<Job>, keyOf: Job -> Option<K>)
    decreases |jobs|
  {
    |jobs| == 0 ||
    (&& Once(jobs[..|jobs| - 1], keyOf)
     && match keyOf(jobs[|jobs| - 1])
        case None => true
        case Some(k) => k !in Index(jobs[..|jobs| - 1], keyOf))
  }

  /** The memo map and the submission log agree: the map is what the log accounts for, and no key was submitted twice. */
  ghost predicate Memoised<K>(entries: map<K, FutureId>, jobs: seq<Job>, keyOf: Job -> Option<K>)
  {
    entries == Index(jobs, keyOf) && Once(jobs, keyOf)
  }

  /** A log in which no job belongs to a key accounts for the empty map. */
  lemma {:induction false} UnkeyedLogIsMemoised<K>(jobs: seq<Job>, keyOf: Job -> Option<K>)
    requires forall i :: 0 <= i < |jobs| ==> keyOf(jobs[i]).None?
    ensures Memoised(map[], jobs, keyOf)
    decreases |jobs|
  {
    if |jobs| > 0 {
      var prefix := jobs[..|jobs| - 1];
      assert forall i :: 0 <= i < |prefix| ==> prefix[i] == jobs[i];
      UnkeyedLogIsMemoised(prefix, keyOf);
    }
  }

  /** A get-or-submit step for the job of `key` keeps the map and the log in agreement. */
  lemma MemoKeepsMemoised<K>(entries: map<K, FutureId>, jobs: seq<Job>, keyOf: Job -> Option<K>, key: K, job: Job)
    requires Memoised(entries, jobs, keyOf)
    requires keyOf(job) == Some(key)
    ensures var r := Memo(entries, jobs, key, job);
            Memoised(r.entries, r.jobs, keyOf)
  {
    if key !in entries {
      var log := jobs + [job];
      assert log[..|log| - 1] == jobs;
    }
  }

  /** Submitting a job that belongs to no key keeps the agreement. */
  lemma SubmitOtherKeepsMemoised<K>(entries: map<K, FutureId>, jobs: seq<Job>, keyOf: Job -> Option<K>, job: Job)
    requires Memoised(entries, jobs, keyOf)
    requires keyOf(job) == None
    ensures Memoised(entries, jobs + [job], keyOf)
  {
    var log := jobs + [job];
    assert log[..|log| - 1] == jobs;
  }

  /** Every job that belongs to a key leaves that key in the map. */
  lemma {:induction false} IndexHasEveryKey<K>(jobs: seq<Job>, keyOf: Job -> Option<K>, i: nat)
    requires i < |jobs| && keyOf(jobs[i]).Some?
    ensures keyOf(jobs[i]).value in Index(jobs, keyOf)
    decreases |jobs|
  {
    if i < |jobs| - 1 {
      var prefix := jobs[..|jobs| - 1];
      assert prefix[i] == jobs[i];
      IndexHasEveryKey(prefix, keyOf, i);
    }
  }

  /** Each entry of the map is the position of a job for that very key. */
  lemma {:induction false} IndexPointsToItsJob<K>(jobs: seq<Job>, keyOf: Job -> Option<K>, k: K)
    requires k in Index(jobs, keyOf)
    ensures Index(jobs, keyOf)[k] < |jobs| && keyOf(jobs[Index(jobs, keyOf)[k]]) == Some(k)
    decreases |jobs|
  {
    var prefix := jobs[..|jobs| - 1];
    if keyOf(jobs[|jobs| - 1]) != Some(k) {
      IndexPointsToItsJob(prefix, keyOf, k);
      assert jobs[Index(prefix, keyOf)[k]] == prefix[Index(prefix, keyOf)[k]];
    }
  }

  /** While map and log agree, no key ever had two jobs submitted for it. */
  lemma {:induction false} AtMostOneJobPerKey<K>(jobs: seq<Job>, keyOf: Job -> Option<K>, i: nat, j: nat)
    requires Once(jobs, keyOf)
    requires i < |jobs| && j < |jobs|
    requires keyOf(jobs[i]).Some? && keyOf(jobs[i]) == keyOf(jobs[j])
    ensures i == j
    decreases |jobs|
  {
    var n := |jobs| - 1;
    var prefix := jobs[..n];
    if i < n && j < n {
      assert prefix[i] == jobs[i] && prefix[j] == jobs[j];
      AtMostOneJobPerKey(prefix, keyOf, i, j);
    } else if i < n {
      assert prefix[i] == jobs[i];
      IndexHasEveryKey(prefix, keyOf, i);
    } else if j < n {
      assert prefix[j] == jobs[j];
      IndexHasEveryKey(prefix, keyOf, j);
    }
  }

  /** A memo map only grows: every key of `before` is still there with the same future. */
  ghost predicate Grows<K>(before: map<K, FutureId>, after: map<K, FutureId>)
  {
    forall k :: k in before ==> k in after && after[k] == before[k]
  }

  /** Asking twice for the same key: the second step returns the same future and submits nothing. */
  lemma {:induction false} MemoTwiceSameFuture<K>(entries: map<K, FutureId>, jobs: seq<Job>, key: K, job: Job, job': Job)
    ensures var r1 := Memo(entries, jobs, key, job);
            var r2 := Memo(r1.entries, r1.jobs, key, job');
            r2.future == r1.future && r2.jobs == r1.jobs && r2.entries == r1.entries
  {
    var r1 := Memo(entries, jobs, key, job);
    assert key in r1.entries;
  }
}
