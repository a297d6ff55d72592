/** The upload agent's decision logic (backend/agent/src/index.ts): bounded
    retry with capped exponential back-off, the gates a detected file passes
    before it is uploaded, and the upload ledger that keeps a file from being
    sent twice. File-system reads, hashing, the network and timers are
    replaced by the values they produce. */
module UploadAgent {
  import opened Common

  /** config.retry. */
  datatype RetryPolicy = RetryPolicy(maxAttempts: int, baseDelayMs: real, maxDelayMs: real)

  /** The parts of AgentConfig the decision logic reads. */
  datatype AgentConfig = AgentConfig(maxFileSizeBytes: int, stabilityWindowMs: nat, retry: RetryPolicy)

  // =====================================================================
  // retry
  // =====================================================================

  function Pow2(n: nat): (p: nat)
    ensures p >= 1
  {
    if n == 0 then 1 else 2 * Pow2(n - 1)
  }

  function Min(a: real, b: real): real {
    if a <= b then a else b
  }

  /** The sleep after the k-th failure: min(maxDelayMs, baseDelayMs * 2^k + jitter). */
  function Delay(p: RetryPolicy, k: nat, jitter: real): real {
    Min(p.maxDelayMs, p.baseDelayMs * Pow2(k) as real + jitter)
  }

  const MaxAttemptsError: string := "Max retry attempts reached"

  datatype Attempted<T> = Succeeded(value: T) | GaveUp(error: string)

  /** How a retry run went: its result, how many times it called fn, and the
      sleeps it took, in order. */
  datatype RetryRun<T> = RetryRun(result: Attempted<T>, calls: nat, sleeps: seq<real>)

  /** The loop of retry from the point where `attempt` failures have happened.
      `call(k)` is the outcome of the (k+1)-th call (None when it throws) and
      `jitter(k)` the random part of the sleep after it. */
  function RetryFrom<T>(p: RetryPolicy, call: nat -> Option<T>, jitter: nat -> real, attempt: nat): RetryRun<T>
    decreases if attempt < p.maxAttempts then p.maxAttempts - attempt else 0
  {
    if attempt >= p.maxAttempts then RetryRun(GaveUp(MaxAttemptsError), attempt, [])
    else match call(attempt)
      case Some(v) => RetryRun(Succeeded(v), attempt + 1, [])
      case None =>
        var rest := RetryFrom(p, call, jitter, attempt + 1);
        RetryRun(rest.result, rest.calls, [Delay(p, attempt + 1, jitter(attempt))] + rest.sleeps)
  }

  /** retry(fn, config): the while loop, with fn's outcomes and the jitter as oracles. */
  method Retry<T>(p: RetryPolicy, call: nat -> Option<T>, jitter: nat -> real) returns (run: RetryRun<T>)
    ensures run == RetryFrom(p, call, jitter, 0)
  {
    var attempt: nat := 0;
    var sleeps: seq<real> := [];
    while attempt < p.maxAttempts
      invariant var rest := RetryFrom(p, call, jitter, attempt);
        RetryFrom(p, call, jitter, 0) == RetryRun(rest.result, rest.calls, sleeps + rest.sleeps)
      decreases p.maxAttempts - attempt
    {
      var outcome := call(attempt);
      ghost var here := RetryFrom(p, call, jitter, attempt);
      if outcome.Some? {
        assert here == RetryRun(Succeeded(outcome.value), attempt + 1, []);
        assert sleeps + [] == sleeps;
        return RetryRun(Succeeded(outcome.value), attempt + 1, sleeps);
      }
      ghost var rest := RetryFrom(p, call, jitter, attempt + 1);
      var delay := Delay(p, attempt + 1, jitter(attempt));
      assert here == RetryRun(rest.result, rest.calls, [delay] + rest.sleeps);
      assert sleeps + ([delay] + rest.sleeps) == (sleeps + [delay]) + rest.sleeps;
      attempt := attempt + 1;
      sleeps := sleeps + [delay];
    }
    assert RetryFrom(p, call, jitter, attempt) == RetryRun(GaveUp(MaxAttemptsError), attempt, []);
    assert sleeps + [] == sleeps;
    return RetryRun(GaveUp(MaxAttemptsError), attempt, sleeps);
  }

  /** fn is called at most maxAttempts times (never when maxAttempts <= 0); a
      success is the first call that did not throw, and its value is returned;
      giving up means every allowed call threw, and the error is fixed. */
  lemma {:induction false} RetryOutcome<T>(p: RetryPolicy, call: nat -> Option<T>, jitter: nat -> real, attempt: nat)
    ensures var r := RetryFrom(p, call, jitter, attempt);
      && attempt <= r.calls
      && (attempt < p.maxAttempts ==> r.calls <= p.maxAttempts)
      && (attempt >= p.maxAttempts ==> r.calls == attempt && r.result.GaveUp?)
      && (forall j :: attempt <= j < r.calls - 1 ==> call(j).None?)
      && (r.result.Succeeded? ==> r.calls >= 1 && call(r.calls - 1) == Some(r.result.value))
      && (r.result.GaveUp? ==> r.result.error == MaxAttemptsError && (forall j :: attempt <= j < r.calls ==> call(j).None?))
      && (r.result.GaveUp? && attempt < p.maxAttempts ==> r.calls == p.maxAttempts)
    decreases if attempt < p.maxAttempts then p.maxAttempts - attempt else 0
  {
    if attempt < p.maxAttempts && call(attempt).None? {
      RetryOutcome(p, call, jitter, attempt + 1);
    }
  }

  /** Retry succeeds exactly when one of the first maxAttempts calls does not throw. */
  lemma RetrySucceedsIff<T>(p: RetryPolicy, call: nat -> Option<T>, jitter: nat -> real)
    ensures RetryFrom(p, call, jitter, 0).result.Succeeded? <==>
      exists k: nat :: k < p.maxAttempts && call(k).Some?
  {
    var r := RetryFrom(p, call, jitter, 0);
    RetryOutcome(p, call, jitter, 0);
    if r.result.Succeeded? {
      assert call(r.calls - 1).Some?;
    }
  }

  /** One sleep follows every failed call, the last one included, and each is
      the capped back-off for that failure. */
  lemma {:induction false} RetrySleeps<T>(p: RetryPolicy, call: nat -> Option<T>, jitter: nat -> real, attempt: nat)
    ensures var r := RetryFrom(p, call, jitter, attempt);
      && |r.sleeps| == (if r.result.Succeeded? then r.calls - 1 - attempt else r.calls - attempt)
      && (forall j :: 0 <= j < |r.sleeps| ==> r.sleeps[j] == Delay(p, attempt + j + 1, jitter(attempt + j)))
    decreases if attempt < p.maxAttempts then p.maxAttempts - attempt else 0
  {
    RetryOutcome(p, call, jitter, attempt);
    if attempt < p.maxAttempts && call(attempt).None? {
      RetrySleeps(p, call, jitter, attempt + 1);
      RetryOutcome(p, call, jitter, attempt + 1);
    }
  }

  /** No sleep exceeds maxDelayMs, and with jitter in [0, 500) a sleep below the
      cap is at least the exponential part and less than 500 ms above it. */
  lemma DelayBounds(p: RetryPolicy, k: nat, jitter: real)
    ensures Delay(p, k, jitter) <= p.maxDelayMs
    ensures 0.0 <= jitter < 500.0 && Delay(p, k, jitter) < p.maxDelayMs ==>
      p.baseDelayMs * Pow2(k) as real <= Delay(p, k, jitter) < p.baseDelayMs * Pow2(k) as real + 500.0
  {
  }

  /** With base 1000 ms and cap 30000 ms, the sleep after the fifth failure is
      the cap (32000 ms exceeds it), and after the fourth it is 16000 ms plus the jitter. */
  lemma DelayExample(jitter: real)
    requires 0.0 <= jitter < 500.0
    ensures Delay(RetryPolicy(5, 1000.0, 30000.0), 5, jitter) == 30000.0
    ensures Delay(RetryPolicy(5, 1000.0, 30000.0), 4, jitter) == 16000.0 + jitter
  {
    assert Pow2(5) == 32 by {
      assert Pow2(4) == 16 by {
        assert Pow2(2) == 4;
      }
    }
  }

  // =====================================================================
  // fileStable, processFile and the upload ledger
  // =====================================================================

  /** fileStable: the two size samples taken stabilityWindowMs apart are equal. */
  predicate FileStable(sizeBefore: nat, sizeAfter: nat) {
    sizeBefore == sizeAfter
  }

  /** What the agent learns about a file: processFile's own stat, the two
      samples fileStable takes, and the content hash. */
  datatype FileObservation = FileObservation(size: nat, mtimeMs: int, sizeBefore: nat, sizeAfter: nat, sha256: string)

  datatype LedgerEntry = LedgerEntry(sha256: string, mtimeMs: int)

  /** The ledger key `${filePath}:${sha256}`. */
  function LedgerKey(filePath: string, sha256: string): string {
    filePath + ":" + sha256
  }

  datatype Skip = TooLarge | NotStable | AlreadyUploaded

  datatype Processed =
    | Skipped(reason: Skip)
    | Uploaded(calls: nat, sleeps: seq<real>)
    | Failed(error: string, calls: nat, sleeps: seq<real>)

  datatype Step = Step(items: map<string, LedgerEntry>, processed: Processed)

  /** processFile on the ledger `items`: the gates in order, then the upload. */
  function Process(items: map<string, LedgerEntry>, config: AgentConfig, filePath: string, obs: FileObservation,
                   call: nat -> Option<bool>, jitter: nat -> real): Step
  {
    var key := LedgerKey(filePath, obs.sha256);
    if obs.size > config.maxFileSizeBytes then Step(items, Skipped(TooLarge))
    else if !FileStable(obs.sizeBefore, obs.sizeAfter) then Step(items, Skipped(NotStable))
    else if key in items then Step(items, Skipped(AlreadyUploaded))
    else
      var run := RetryFrom(config.retry, call, jitter, 0);
      match run.result
      case Succeeded(_) => Step(items[key := LedgerEntry(obs.sha256, obs.mtimeMs)], Uploaded(run.calls, run.sleeps))
      case GaveUp(e) => Step(items, Failed(e, run.calls, run.sleeps))
  }

  /** The agent's state: the upload ledger in memory, the ledger last written
      to disk, and the files handed to the upload queue. */
  class Agent {
    var items: map<string, LedgerEntry>
    var saved: map<string, LedgerEntry>
    var queued: seq<string>

    /** startWatcher, after loadState returned `loaded`. */
    constructor (loaded: map<string, LedgerEntry>)
      ensures items == loaded && saved == loaded && queued == []
    {
      items := loaded;
      saved := loaded;
      queued := [];
    }

    /** processFile(config, state, filePath). The ledger is written to disk
        only after a successful upload. */
    method ProcessFile(config: AgentConfig, filePath: string, obs: FileObservation,
                       call: nat -> Option<bool>, jitter: nat -> real) returns (processed: Processed)
      modifies this
      ensures Step(items, processed) == Process(old(items), config, filePath, obs, call, jitter)
      ensures saved == if processed.Uploaded? then items else old(saved)
      ensures queued == old(queued)
    {
      if obs.size > config.maxFileSizeBytes {
        return Skipped(TooLarge);
      }
      var stable := FileStable(obs.sizeBefore, obs.sizeAfter);
      if !stable {
        return Skipped(NotStable);
      }
      var key := LedgerKey(filePath, obs.sha256);
      if key in items {
        return Skipped(AlreadyUploaded);
      }
      var run := Retry(config.retry, call, jitter);
      if run.result.GaveUp? {
        return Failed(run.result.error, run.calls, run.sleeps);
      }
      items := items[key := LedgerEntry(obs.sha256, obs.mtimeMs)];
      saved := items;
      return Uploaded(run.calls, run.sleeps);
    }

    /** handleFile: in dry-run mode a detected file is only logged; otherwise
        it is handed to the queue. */
    method HandleFile(dryRun: bool, filePath: string)
      modifies this
      ensures queued == if dryRun then old(queued) else old(queued) + [filePath]
      ensures items == old(items) && saved == old(saved)
    {
      if dryRun {
        return;
      }
      queued := queued + [filePath];
    }
  }

  /** Each gate stops the file before any upload and leaves the ledger as it
      was; the gates are checked in the order size, stability, ledger. */
  lemma ProcessGates(items: map<string, LedgerEntry>, config: AgentConfig, filePath: string, obs: FileObservation,
                     call: nat -> Option<bool>, jitter: nat -> real)
    ensures var s := Process(items, config, filePath, obs, call, jitter);
      && (s.processed.Skipped? ==> s.items == items)
      && (s.processed == Skipped(TooLarge) <==> obs.size > config.maxFileSizeBytes)
      && (s.processed == Skipped(NotStable) <==> obs.size <= config.maxFileSizeBytes && obs.sizeBefore != obs.sizeAfter)
      && (s.processed == Skipped(AlreadyUploaded) <==>
            obs.size <= config.maxFileSizeBytes && obs.sizeBefore == obs.sizeAfter && LedgerKey(filePath, obs.sha256) in items)
  {
  }

  /** A successful upload adds exactly one ledger entry, at the file's key,
      holding the hash and the mtime of the first stat; a failed one changes
      nothing. */
  lemma ProcessRecords(items: map<string, LedgerEntry>, config: AgentConfig, filePath: string, obs: FileObservation,
                       call: nat -> Option<bool>, jitter: nat -> real)
    ensures var s := Process(items, config, filePath, obs, call, jitter);
      var key := LedgerKey(filePath, obs.sha256);
      && (s.processed.Uploaded? ==>
            key !in items && s.items.Keys == items.Keys + {key}
            && s.items[key] == LedgerEntry(obs.sha256, obs.mtimeMs)
            && (forall k :: k in items ==> s.items[k] == items[k]))
      && (s.processed.Failed? ==> s.items == items && s.processed.error == MaxAttemptsError)
  {
    RetryOutcome(config.retry, call, jitter, 0);
  }

  /** Once a file was uploaded, processing the same path with the same content
      never calls the upload again, whatever the retry oracle says. */
  lemma NoReupload(items: map<string, LedgerEntry>, config: AgentConfig, filePath: string, obs: FileObservation, obs': FileObservation,
                   call: nat -> Option<bool>, jitter: nat -> real, call': nat -> Option<bool>, jitter': nat -> real)
    requires Process(items, config, filePath, obs, call, jitter).processed.Uploaded?
    requires obs'.sha256 == obs.sha256
    ensures var s := Process(items, config, filePath, obs, call, jitter);
      var s' := Process(s.items, config, filePath, obs', call', jitter');
      && s'.processed.Skipped?
      && s'.items == s.items
  {
  }

  /** The ledger only grows: processing never removes or changes an entry. */
  lemma ProcessKeepsEntries(items: map<string, LedgerEntry>, config: AgentConfig, filePath: string, obs: FileObservation,
                            call: nat -> Option<bool>, jitter: nat -> real)
    ensures var s := Process(items, config, filePath, obs, call, jitter);
      forall k :: k in items ==> k in s.items && s.items[k] == items[k]
  {
  }
}
