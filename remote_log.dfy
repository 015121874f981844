/** The remote log buffer of services/RemoteLog.js.

    Once initialised, every console call appends an entry to `logQueue`; when
    the queue reaches `BATCH_SIZE` entries, or when the periodic timer fires,
    the whole queue is taken as one batch and cleared before it is posted.
    A batch whose post fails is put back in front of whatever was logged in
    the meantime, and the failure itself is logged through the console.

    `sendLogBatch` is split at its `await`: `SendLogBatch` is the synchronous
    snapshot-and-clear, `CompleteSend` what happens when the post settles.
    Each console call that goes through a wrapper is modelled as
    `LogToQueue`; the wrappers stack, one per initialisation. */
module RemoteLog {
  import opened Wrappers

  const BATCH_SIZE: nat := 50

  datatype Level = Log | Warn | Error | Info

  /** One queued entry. Messages are already turned into strings. */
  datatype LogEntry = LogEntry(level: Level, timestamp: string, messages: seq<string>)

  /** All batches, in the order they were taken. */
  function Flatten(batches: seq<seq<LogEntry>>): (r: seq<LogEntry>)
    ensures batches == [] ==> r == []
  {
    if batches == [] then [] else Flatten(batches[..|batches| - 1]) + batches[|batches| - 1]
  }

  lemma FlattenAppend(batches: seq<seq<LogEntry>>, b: seq<LogEntry>)
    ensures Flatten(batches + [b]) == Flatten(batches) + b
  {
    assert (batches + [b])[..|batches|] == batches;
  }

  lemma RepeatSnoc(e: LogEntry, k: nat)
    ensures Repeat(e, k + 1) == Repeat(e, k) + [e]
  {
  }

  /** One wrapper's append, with or without a flush, adds the entry at the
      end of what has been logged. */
  lemma ConsoleStep(flat: seq<LogEntry>, q: seq<LogEntry>, logged: seq<LogEntry>, entry: LogEntry,
                    sent: Option<seq<LogEntry>>, queue: seq<LogEntry>)
    requires flat + q == logged
    requires sent.Some? ==> sent.value == q + [entry] && queue == []
    requires sent.None? ==> queue == q + [entry]
    ensures (if sent.Some? then flat + sent.value else flat) + queue == logged + [entry]
  {
  }

  /** `k` copies of `e`. */
  function Repeat(e: LogEntry, k: nat): (r: seq<LogEntry>)
    ensures |r| == k && forall i :: 0 <= i < k ==> r[i] == e
  {
    seq(k, _ => e)
  }

  class RemoteLogger {
    var logQueue: seq<LogEntry>
    /** `intervalId` is set. */
    var intervalActive: bool
    /** How many times `initializeRemoteLogging` has wrapped the console:
        each console call passes through that many wrappers, each of which
        queues the entry. */
    var consoleWraps: nat
    /** How many periodic timers have been installed. */
    ghost var intervalsInstalled: nat

    /** The timer is installed once and only by the first initialisation, and
        between two operations the queue is below `BATCH_SIZE`: reaching it
        always flushes. */
    ghost predicate Valid()
      reads this
    {
      && intervalsInstalled == (if intervalActive then 1 else 0)
      && (intervalActive <==> consoleWraps > 0)
      && |logQueue| < BATCH_SIZE
    }

    constructor ()
      ensures Valid() && logQueue == [] && !intervalActive && consoleWraps == 0
    {
      logQueue := [];
      intervalActive := false;
      consoleWraps := 0;
      intervalsInstalled := 0;
    }

    /** The synchronous part of sendLogBatch: nothing happens for an empty
        queue; otherwise the whole queue is taken as the batch and cleared
        before the post is made. */
    method SendLogBatch() returns (batch: Option<seq<LogEntry>>)
      modifies this
      ensures old(logQueue) == [] ==> batch == None && logQueue == []
      ensures old(logQueue) != [] ==> batch == Some(old(logQueue)) && logQueue == []
      ensures intervalActive == old(intervalActive) && consoleWraps == old(consoleWraps)
      ensures intervalsInstalled == old(intervalsInstalled)
    {
      if logQueue == [] {
        return None;
      }
      batch := Some(logQueue);
      logQueue := [];
    }

    /** logToQueue: append the entry at the tail, and flush when the queue
        has reached `BATCH_SIZE`. Whatever the queue held before, it is below
        `BATCH_SIZE` afterwards. */
    method LogToQueue(entry: LogEntry) returns (flushed: Option<seq<LogEntry>>)
      modifies this
      ensures |old(logQueue)| + 1 >= BATCH_SIZE ==> flushed == Some(old(logQueue) + [entry]) && logQueue == []
      ensures |old(logQueue)| + 1 < BATCH_SIZE ==> flushed == None && logQueue == old(logQueue) + [entry]
      ensures |logQueue| < BATCH_SIZE
      ensures intervalActive == old(intervalActive) && consoleWraps == old(consoleWraps)
      ensures intervalsInstalled == old(intervalsInstalled)
    {
      logQueue := logQueue + [entry];
      flushed := None;
      if |logQueue| >= BATCH_SIZE {
        flushed := SendLogBatch();
      }
    }

    /** A console call: every wrapper first calls the console it replaced
        and then queues the entry, so the entry is queued once per wrapper.
        No entry is lost and the order is kept: the flushed batches followed
        by the queue are the old queue followed by the new entries. */
    method Console(entry: LogEntry) returns (flushed: seq<seq<LogEntry>>)
      modifies this
      ensures Flatten(flushed) + logQueue == old(logQueue) + Repeat(entry, consoleWraps)
      ensures forall b :: b in flushed ==> |b| >= BATCH_SIZE
      ensures consoleWraps > 0 ==> |logQueue| < BATCH_SIZE
      ensures consoleWraps == 0 ==> logQueue == old(logQueue)
      ensures intervalActive == old(intervalActive) && consoleWraps == old(consoleWraps)
      ensures intervalsInstalled == old(intervalsInstalled)
    {
      flushed := [];
      var k := 0;
      while k < consoleWraps
        invariant k <= consoleWraps
        invariant Flatten(flushed) + logQueue == old(logQueue) + Repeat(entry, k)
        invariant forall b :: b in flushed ==> |b| >= BATCH_SIZE
        invariant k > 0 ==> |logQueue| < BATCH_SIZE
        invariant k == 0 ==> logQueue == old(logQueue)
        invariant intervalActive == old(intervalActive) && consoleWraps == old(consoleWraps)
        invariant intervalsInstalled == old(intervalsInstalled)
      {
        ghost var logged := old(logQueue) + Repeat(entry, k);
        ghost var q := logQueue;
        var sent := LogToQueue(entry);
        ConsoleStep(Flatten(flushed), q, logged, entry, sent, logQueue);
        RepeatSnoc(entry, k);
        assert old(logQueue) + Repeat(entry, k + 1) == logged + [entry];
        if sent.Some? {
          FlattenAppend(flushed, sent.value);
          flushed := flushed + [sent.value];
        }
        k := k + 1;
      }
    }

    /** The rest of sendLogBatch, once the post has settled. A post that was
        delivered changes nothing. A failed one puts the batch back in front
        of the entries logged meanwhile and then logs the failure with
        `console.error`, which can flush again; no entry is lost. */
    method CompleteSend(batch: seq<LogEntry>, delivered: bool, failure: LogEntry)
      returns (flushed: seq<seq<LogEntry>>)
      requires Valid() && intervalActive && failure.level == Error
      modifies this
      ensures Valid()
      ensures delivered ==> flushed == [] && logQueue == old(logQueue)
      ensures !delivered ==>
        Flatten(flushed) + logQueue == batch + old(logQueue) + Repeat(failure, consoleWraps)
      ensures intervalActive == old(intervalActive) && consoleWraps == old(consoleWraps)
    {
      if delivered {
        return [];
      }
      logQueue := batch + logQueue;
      flushed := Console(failure);
    }

    /** initializeRemoteLogging: wrap the console once more, install the
        periodic timer only if none is installed yet, then log the start-up
        message through the console. */
    method InitializeRemoteLogging(started: LogEntry) returns (flushed: seq<seq<LogEntry>>)
      requires Valid() && started.level == Log
      modifies this
      ensures Valid() && intervalActive
      ensures consoleWraps == old(consoleWraps) + 1
      ensures intervalsInstalled == 1
      ensures Flatten(flushed) + logQueue == old(logQueue) + Repeat(started, consoleWraps)
    {
      consoleWraps := consoleWraps + 1;
      if !intervalActive {
        intervalActive := true;
        intervalsInstalled := intervalsInstalled + 1;
      }
      flushed := Console(started);
    }
  }
}
