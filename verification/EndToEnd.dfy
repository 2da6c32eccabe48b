/**
  The batch writer and the engine together: the writer's apply step is the engine's flush, everything else
  interleaves freely.
 */
module EndToEnd {
  import Batch = BatchSteps
  import opened EngineModel
  import opened Persistence
  import opened TrieSpec

  datatype System = System(world: World, writer: Batch.Batcher)

  ghost predicate Started(cfg: Config, s: System)
    requires cfg.Valid()
  {
    Boot(cfg, s.world) && s.writer == Batch.Initial(s.world.counts)
  }

  /** Serving, and entries going away, while the writer stands still. */
  ghost predicate ServeStep(s: System, s': System) {
    s'.writer == s.writer && (ForgetStep(s.world, s'.world) || exists p, val :: SuggestStep(s.world, s'.world, p, val))
  }

  /** A step of a caller or of the writer's loop that does not call apply. */
  ghost predicate WriterStep(l: Batch.Limits, s: System, s': System, e: Batch.Event) {
    e != Batch.Apply && Batch.Enabled(l, s.writer, e) && s' == System(s.world, Batch.Next(l, s.writer, e))
  }

  /** The writer's loop hands its batch to the engine. */
  ghost predicate FlushStep(cfg: Config, l: Batch.Limits, s: System, s': System, now: nat, outcome: Outcome)
    requires cfg.Valid()
  {
    && Batch.Enabled(l, s.writer, Batch.Apply) && s'.writer == Batch.Next(l, s.writer, Batch.Apply)
    && ApplyStep(cfg, s.world, s'.world, s.writer.loop.batch, now, outcome)
  }

  ghost predicate SystemStep(cfg: Config, l: Batch.Limits, s: System, s': System)
    requires cfg.Valid()
  {
    || ServeStep(s, s')
    || (exists e :: WriterStep(l, s, s', e))
    || (exists now, outcome :: FlushStep(cfg, l, s, s', now, outcome))
  }

  ghost predicate IsSystemRun(cfg: Config, l: Batch.Limits, run: seq<System>)
    requires cfg.Valid()
  {
    |run| >= 1 && Started(cfg, run[0]) && forall i | 0 <= i < |run| - 1 :: SystemStep(cfg, l, run[i], run[i + 1])
  }

  /** Both invariants, over the same counts. */
  ghost predicate Sound(cfg: Config, l: Batch.Limits, start: Counts, s: System)
    requires cfg.Valid()
  {
    Inv(cfg, s.world) && Batch.Inv(l, start, s.writer) && s.writer.counts == s.world.counts
  }

  lemma {:induction false} ServeKeeps(cfg: Config, l: Batch.Limits, start: Counts, s: System, s': System)
    requires cfg.Valid() && Sound(cfg, l, start, s) && ServeStep(s, s')
    ensures Sound(cfg, l, start, s')
  {
    hide Inv, Batch.Inv, Covers;
    if ForgetStep(s.world, s'.world) {
      ForgetKeeps(cfg, s.world, s'.world);
    } else {
      var p, val :| SuggestStep(s.world, s'.world, p, val);
      SuggestKeeps(cfg, s.world, s'.world, p, val);
    }
  }

  lemma OnlyApplyCounts(l: Batch.Limits, s: Batch.Batcher, e: Batch.Event)
    requires e != Batch.Apply && Batch.Enabled(l, s, e)
    ensures Batch.Next(l, s, e).counts == s.counts
  {
  }

  lemma {:induction false} SystemStepKeeps(cfg: Config, l: Batch.Limits, start: Counts, s: System, s': System)
    requires cfg.Valid() && l.Valid() && Sound(cfg, l, start, s) && SystemStep(cfg, l, s, s')
    ensures Sound(cfg, l, start, s')
  {
    hide Inv, Batch.Inv, ServeStep, Batch.Next, Batch.Enabled, AddDeltas;
    if ServeStep(s, s') {
      ServeKeeps(cfg, l, start, s, s');
    } else if e :| WriterStep(l, s, s', e) {
      Batch.StepKeeps(l, start, s.writer, e);
      OnlyApplyCounts(l, s.writer, e);
    } else {
      var now, outcome :| FlushStep(cfg, l, s, s', now, outcome);
      FlushKeeps(cfg, l, start, s, s', now, outcome);
    }
  }

  lemma {:induction false} FlushKeeps(cfg: Config, l: Batch.Limits, start: Counts, s: System, s': System, now: nat,
                                      outcome: Outcome)
    requires cfg.Valid() && l.Valid() && Sound(cfg, l, start, s) && FlushStep(cfg, l, s, s', now, outcome)
    ensures Sound(cfg, l, start, s')
  {
    hide Inv, Batch.Inv, AddDeltas, TrieOk, SameElsewhere, Affected;
    Batch.StepKeeps(l, start, s.writer, Batch.Apply);
    ApplyKeeps(cfg, s.world, s'.world, s.writer.loop.batch, now, outcome);
  }

  lemma {:induction false} SystemRunSound(cfg: Config, l: Batch.Limits, run: seq<System>, i: nat)
    requires cfg.Valid() && l.Valid() && IsSystemRun(cfg, l, run) && i < |run|
    ensures Sound(cfg, l, run[0].world.counts, run[i])
  {
    hide Inv, SystemStep, Boot;
    if i == 0 {
      BootInv(cfg, run[0].world);
      Batch.EmptySums();
    } else {
      SystemRunSound(cfg, l, run, i - 1);
      SystemStepKeeps(cfg, l, run[0].world.counts, run[i - 1], run[i]);
    }
  }

  /** Whenever the loop is about to call apply, the batch is one the engine accepts. */
  lemma {:induction false} FlushIsWelcome(cfg: Config, l: Batch.Limits, run: seq<System>, i: nat)
    requires cfg.Valid() && l.Valid() && IsSystemRun(cfg, l, run) && i < |run| && run[i].writer.loop.Applying?
    ensures var batch := run[i].writer.loop.batch;
            batch != map[] && "" !in batch && forall q | q in batch :: batch[q] > 0
  {
    hide IsSystemRun, Inv;
    SystemRunSound(cfg, l, run, i);
  }

  /**
    End to end, through any write failures: what the store lacks of the accepted searches of a query that
    awaits no retry is exactly what is queued, pending or in flight.
   */
  lemma {:induction false} StoreLag(cfg: Config, l: Batch.Limits, run: seq<System>, i: nat, q: string)
    requires cfg.Valid() && l.Valid() && IsSystemRun(cfg, l, run) && i < |run| && q !in run[i].world.retry
    ensures var s := run[i];
            CountOf(CountsOf(run[0].world.store), q) + s.writer.accepted[q]
            == CountOf(CountsOf(s.world.store), q) + Batch.UnflushedOf(s.writer, q)
  {
    SystemRunSound(cfg, l, run, i);
    StartStored(cfg, l, run);
    hide IsSystemRun, TrieOk, CacheCovers, Batch.Shape, Batch.Tail, Batch.Counters;
  }

  lemma StartStored(cfg: Config, l: Batch.Limits, run: seq<System>)
    requires cfg.Valid() && IsSystemRun(cfg, l, run)
    ensures run[0].world.counts == CountsOf(run[0].world.store)
  {
  }

  /**
    A clean shutdown loses nothing: once the loop has exited with an empty queue, a restart from the store
    shows every accepted search of every query whose last write succeeded, and exactly the live counts if
    nothing awaits a retry.
   */
  lemma {:induction false} CleanShutdown(cfg: Config, l: Batch.Limits, run: seq<System>, i: nat, booted: World,
                                         q: string)
    requires cfg.Valid() && l.Valid() && IsSystemRun(cfg, l, run) && i < |run|
    requires run[i].writer.loop.Exited? && run[i].writer.queue == []
    requires Boot(cfg, booted) && booted.store == run[i].world.store
    ensures q !in run[i].world.retry ==>
              CountOf(booted.counts, q) == CountOf(run[0].world.counts, q) + run[i].writer.accepted[q]
    ensures run[i].world.retry == map[] ==> booted.counts == run[i].world.counts
  {
    if q !in run[i].world.retry {
      StoreLag(cfg, l, run, i, q);
    }
    StartStored(cfg, l, run);
    SystemRunSound(cfg, l, run, i);
    NothingPending(run[i].world);
    hide IsSystemRun, TrieOk, CacheCovers, Batch.Tail, Batch.Counters;
  }
}
