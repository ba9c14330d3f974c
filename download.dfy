/**
 * `download_file` (bot/helpers/utils.py): up to `retries` attempts, each of
 * which may see the cancel event set before it starts or between chunks,
 * get a non-200 status, raise a transient network error (retried after
 * `2 ** attempt` seconds unless it was the last attempt) or raise anything
 * else. The result is `None` on success and an error text otherwise. What
 * the network does on attempt `k` is the parameter `env(k)`; the file at the
 * target path is `None` when absent and its bytes otherwise.
 */
module Download {
  import opened Common

  type Bytes = seq<bv8>

  /** What happens on one attempt, as seen by the downloader. */
  datatype Attempt =
      /** The cancel event is already set when the attempt starts. */
    | CancelledAtStart
      /**
       * A response with `status`; for 200 the body arrives as `chunks`, and
       * `cancelBefore`, if given, is the index of the first chunk whose
       * check sees the cancel event set.
       */
    | Response(status: nat, chunks: seq<Bytes>, cancelBefore: Option<nat>)
      /**
       * `aiohttp.ClientError` or `asyncio.TimeoutError` with text `msg`;
       * `partial` is `Some(w)` when it is raised after the target file was
       * opened and the chunks `w` were written.
       */
    | Transient(msg: string, partial: Option<seq<Bytes>>)
      /** Any other exception, with the same `partial` convention. */
    | Unexpected(msg: string, partial: Option<seq<Bytes>>)

  const CANCELLED: string := "Cancelled"

  function Concat(chunks: seq<Bytes>): (r: Bytes)
    decreases |chunks|
  {
    if chunks == [] then [] else Concat(chunks[..|chunks| - 1]) + chunks[|chunks| - 1]
  }

  function Pow2(n: nat): (r: nat)
    ensures r >= 1
  {
    if n == 0 then 1 else 2 * Pow2(n - 1)
  }

  /** The file after a write that started from an empty file (`open(path, 'wb')`). */
  function Written(file: Option<Bytes>, partial: Option<seq<Bytes>>): Option<Bytes>
  {
    if partial.Some? then Some(Concat(partial.value)) else file
  }

  /** The outcome of a whole call: its return value, the file left behind and the back-off sleeps taken. */
  datatype Run = Run(error: Option<string>, file: Option<Bytes>, sleeps: seq<nat>)

  /** `download_file` from attempt `attempt` on. */
  function DownloadFrom(env: nat -> Attempt, retries: int, attempt: nat, file: Option<Bytes>): Run
    requires attempt >= 1
    decreases if attempt <= retries then retries - attempt + 1 else 0
  {
    if attempt > retries then Run(None, file, [])
    else
      match env(attempt)
      case CancelledAtStart => Run(Some(CANCELLED), None, [])
      case Response(status, chunks, cancelBefore) =>
        if status == 200 then
          if cancelBefore.Some? && cancelBefore.value < |chunks| then Run(Some(CANCELLED), None, [])
          else Run(None, Some(Concat(chunks)), [])
        else Run(Some("HTTP Status: " + NatToString(status)), file, [])
      case Transient(msg, partial) =>
        if attempt == retries then
          Run(Some("Failed after " + NatToString(attempt) + " attempts: " + msg), Written(file, partial), [])
        else
          var rest := DownloadFrom(env, retries, attempt + 1, Written(file, partial));
          Run(rest.error, rest.file, [Pow2(attempt)] + rest.sleeps)
      case Unexpected(msg, partial) => Run(Some("Unexpected error: " + msg), Written(file, partial), [])
  }

  function DownloadSpec(env: nat -> Attempt, retries: int, file: Option<Bytes>): Run
  {
    DownloadFrom(env, retries, 1, file)
  }

  /**
   * The chunk loop of a 200 response: before each chunk the cancel event is
   * checked; on cancellation the partial file is closed and removed.
   */
  method StreamBody(chunks: seq<Bytes>, cancelBefore: Option<nat>) returns (cancelled: bool, file: Option<Bytes>)
    ensures cancelled <==> cancelBefore.Some? && cancelBefore.value < |chunks|
    ensures cancelled ==> file == None
    ensures !cancelled ==> file == Some(Concat(chunks))
  {
    var content: Bytes := [];
    var i := 0;
    while i < |chunks|
      invariant 0 <= i <= |chunks|
      invariant content == Concat(chunks[..i])
      invariant cancelBefore.Some? ==> i <= cancelBefore.value
    {
      if cancelBefore.Some? && cancelBefore.value <= i {
        return true, None;
      }
      assert chunks[..i + 1][..i] == chunks[..i];
      content := content + chunks[i];
      i := i + 1;
    }
    assert chunks[..i] == chunks;
    return false, Some(content);
  }

  /** `download_file` over the attempts `env(1)`, `env(2)`, ... */
  method DownloadFile(env: nat -> Attempt, retries: int, file: Option<Bytes>)
    returns (error: Option<string>, file': Option<Bytes>, sleeps: seq<nat>)
    ensures Run(error, file', sleeps) == DownloadSpec(env, retries, file)
  {
    error, file', sleeps := None, file, [];
    var attempt := 1;
    while attempt <= retries
      invariant attempt >= 1
      invariant DownloadFrom(env, retries, attempt, file').error == DownloadSpec(env, retries, file).error
      invariant DownloadFrom(env, retries, attempt, file').file == DownloadSpec(env, retries, file).file
      invariant sleeps + DownloadFrom(env, retries, attempt, file').sleeps == DownloadSpec(env, retries, file).sleeps
      decreases retries - attempt
    {
      match env(attempt) {
        case CancelledAtStart =>
          return Some(CANCELLED), None, sleeps;
        case Response(status, chunks, cancelBefore) =>
          if status == 200 {
            var cancelled, written := StreamBody(chunks, cancelBefore);
            if cancelled {
              return Some(CANCELLED), None, sleeps;
            }
            return None, written, sleeps;
          } else {
            assert sleeps + [] == sleeps;
            return Some("HTTP Status: " + NatToString(status)), file', sleeps;
          }
        case Transient(msg, partial) =>
          file' := Written(file', partial);
          if attempt == retries {
            return Some("Failed after " + NatToString(retries) + " attempts: " + msg), file', sleeps;
          }
          sleeps := sleeps + [Pow2(attempt)];
        case Unexpected(msg, partial) =>
          return Some("Unexpected error: " + msg), Written(file', partial), sleeps;
      }
      attempt := attempt + 1;
    }
    assert sleeps + [] == sleeps;
  }

  // ---------------------------------------------------------------------
  // Properties

  /** Attempt `k` delivers the whole body with no cancellation. */
  predicate Delivers(a: Attempt)
  {
    a.Response? && a.status == 200 && !(a.cancelBefore.Some? && a.cancelBefore.value < |a.chunks|)
  }

  /**
   * With at least one attempt, `None` means some attempt `k` delivered its
   * body, every attempt before it failed transiently, and the file holds
   * exactly that body.
   */
  lemma {:induction false} SuccessWritesBody(env: nat -> Attempt, retries: int, attempt: nat, file: Option<Bytes>)
    requires 1 <= attempt <= retries
    ensures var r := DownloadFrom(env, retries, attempt, file);
      r.error.None? ==>
        exists k :: attempt <= k <= retries && Delivers(env(k)) && r.file == Some(Concat(env(k).chunks))
          && forall j :: attempt <= j < k ==> env(j).Transient?
    decreases retries - attempt
  {
    var r := DownloadFrom(env, retries, attempt, file);
    if r.error.None? {
      match env(attempt)
      case CancelledAtStart =>
      case Response(_, _, _) =>
        assert Delivers(env(attempt));
      case Transient(msg, partial) =>
        SuccessWritesBody(env, retries, attempt + 1, Written(file, partial));
        var k :| attempt + 1 <= k <= retries && Delivers(env(k)) && r.file == Some(Concat(env(k).chunks))
          && forall j :: attempt + 1 <= j < k ==> env(j).Transient?;
        assert forall j :: attempt <= j < k ==> env(j).Transient?;
      case Unexpected(_, _) =>
    }
  }

  /** A cancellation, at the start of an attempt or between chunks, leaves no file behind. */
  lemma {:induction false} CancelRemovesFile(env: nat -> Attempt, retries: int, attempt: nat, file: Option<Bytes>)
    requires attempt >= 1
    ensures var r := DownloadFrom(env, retries, attempt, file);
      r.error == Some(CANCELLED) ==> r.file == None
    decreases if attempt <= retries then retries - attempt + 1 else 0
  {
    if attempt <= retries {
      match env(attempt)
      case CancelledAtStart =>
      case Response(status, chunks, cancelBefore) =>
        if status != 200 {
          assert ("HTTP Status: " + NatToString(status))[0] != CANCELLED[0];
        }
      case Transient(msg, partial) =>
        if attempt == retries {
          assert ("Failed after " + NatToString(attempt) + " attempts: " + msg)[0] != CANCELLED[0];
        } else {
          CancelRemovesFile(env, retries, attempt + 1, Written(file, partial));
        }
      case Unexpected(msg, _) =>
        assert ("Unexpected error: " + msg)[0] != CANCELLED[0];
    }
  }

  /**
   * Back-off: the sleeps are 2, 4, 8, ... seconds, one after each
   * transient failure that was not the last attempt.
   */
  lemma {:induction false} BackoffDoubles(env: nat -> Attempt, retries: int, attempt: nat, file: Option<Bytes>)
    requires attempt >= 1
    ensures var s := DownloadFrom(env, retries, attempt, file).sleeps;
      && (attempt <= retries ==> |s| <= retries - attempt)
      && (attempt > retries ==> s == [])
      && forall i :: 0 <= i < |s| ==> s[i] == Pow2(attempt + i) && env(attempt + i).Transient?
    decreases if attempt <= retries then retries - attempt + 1 else 0
  {
    if attempt < retries && env(attempt).Transient? {
      var f := Written(file, env(attempt).partial);
      BackoffDoubles(env, retries, attempt + 1, f);
      SleepsStep(env, retries, attempt, file);
      var rest := DownloadFrom(env, retries, attempt + 1, f).sleeps;
      var s := DownloadFrom(env, retries, attempt, file).sleeps;
      forall i | 0 <= i < |s| ensures s[i] == Pow2(attempt + i) && env(attempt + i).Transient? {
        if i > 0 {
          assert s[i] == rest[i - 1];
          assert attempt + 1 + (i - 1) == attempt + i;
        }
      }
    } else {
      SleepsEmpty(env, retries, attempt, file);
    }
  }

  /** A transient failure before the last attempt sleeps, then goes on. */
  lemma SleepsStep(env: nat -> Attempt, retries: int, attempt: nat, file: Option<Bytes>)
    requires 1 <= attempt < retries && env(attempt).Transient?
    ensures DownloadFrom(env, retries, attempt, file).sleeps ==
            [Pow2(attempt)] + DownloadFrom(env, retries, attempt + 1, Written(file, env(attempt).partial)).sleeps
  {
  }

  /** Any other attempt ends the call without sleeping. */
  lemma SleepsEmpty(env: nat -> Attempt, retries: int, attempt: nat, file: Option<Bytes>)
    requires attempt >= 1
    requires !(attempt < retries && env(attempt).Transient?)
    ensures DownloadFrom(env, retries, attempt, file).sleeps == []
  {
  }

  /** Attempts after the first non-transient one are never consulted. */
  lemma {:induction false} StopsAtFirstFinal(env: nat -> Attempt, env': nat -> Attempt, retries: int, attempt: nat, file: Option<Bytes>)
    requires attempt >= 1
    requires forall j :: attempt <= j <= retries && (forall i :: attempt <= i < j ==> env(i).Transient?) ==> env(j) == env'(j)
    ensures DownloadFrom(env, retries, attempt, file) == DownloadFrom(env', retries, attempt, file)
    decreases if attempt <= retries then retries - attempt + 1 else 0
  {
    if attempt <= retries {
      assert env(attempt) == env'(attempt);
      if env(attempt).Transient? && attempt < retries {
        StopsAtFirstFinal(env, env', retries, attempt + 1, Written(file, env(attempt).partial));
      }
    }
  }

  /**
   * Only cancellation cleans up: a transient error on the last attempt after
   * the file was opened leaves the partial body at the target path.
   */
  lemma LastFailureKeepsPartialFile(env: nat -> Attempt, w: seq<Bytes>)
    requires env(1) == Transient("timeout", Some(w))
    ensures DownloadSpec(env, 1, None) == Run(Some("Failed after 1 attempts: timeout"), Some(Concat(w)), [])
  {
    assert NatToString(1) == "1";
    assert DownloadSpec(env, 1, None) == DownloadFrom(env, 1, 1, None);
    assert "Failed after " + "1" + " attempts: " + "timeout" == "Failed after 1 attempts: timeout";
  }

  // ---------------------------------------------------------------------
  // Zero retries

  /**
   * As written, a call with `retries <= 0` makes no attempt and falls out of
   * the loop returning `None`, the success value, with no file downloaded.
   */
  lemma NoRetriesReportsSuccess(env: nat -> Attempt, retries: int)
    requires retries <= 0
    ensures DownloadSpec(env, retries, None) == Run(None, None, [])
  {
  }

  /** Every call makes at least one attempt. */
  function DownloadCorrected(env: nat -> Attempt, retries: int, file: Option<Bytes>): Run
  {
    DownloadFrom(env, if retries < 1 then 1 else retries, 1, file)
  }

  /** With the corrected bound, `None` always means a delivered body is on disk. */
  lemma DownloadCorrectedSuccessWritesBody(env: nat -> Attempt, retries: int, file: Option<Bytes>)
    ensures var r := DownloadCorrected(env, retries, file);
      r.error.None? ==> exists k :: k >= 1 && Delivers(env(k)) && r.file == Some(Concat(env(k).chunks))
  {
    SuccessWritesBody(env, if retries < 1 then 1 else retries, 1, file);
  }
}
