/**
 * The per-process control skeleton of `main()` in dino/patch.py: the
 * configuration guard, the run id every process agrees on, the choice of the
 * starting epoch, and the epoch loop that decides in each epoch whether to
 * tune, whether to stop early, whether to write a numbered snapshot and
 * whether to append a log line.
 *
 * Training, tuning, early stopping, checkpoint loading and file existence are
 * foreign to this file; they are inputs (`Process`, `Oracles`). The file
 * writes and collective calls the loop makes are recorded as a trace of
 * `Event`s.
 */
module Training {
  import opened Wrappers
  import opened SnapshotNames

  /** A file-system path as its components; `pathlib` drops empty components. */
  datatype Path = Path(parts: seq<string>)

  /** `Path(base, name)`. */
  function Join(base: Path, name: string): (r: Path)
    ensures name == "" ==> r == base
    ensures name != "" ==> |r.parts| == |base.parts| + 1 && r.parts[|base.parts|] == name
    ensures r.parts[..|base.parts|] == base.parts
  {
    if name == "" then base else Path(base.parts + [name])
  }

  /** The configuration values the control skeleton reads. */
  datatype Config = Config(
    outputDir: Path,      // cfg.train.output_dir
    resume: bool,         // cfg.train.resume
    saveEvery: int,       // cfg.train.save_every (0 switches numbered snapshots off)
    epochs: int,          // cfg.optim.epochs
    warmupEpochs: int,    // cfg.optim.warmup_epochs
    useFp16: bool,        // cfg.speed.use_fp16
    tuneEvery: int,       // cfg.tune.tune_every (0 switches tuning off)
    tuneEnable: bool,     // cfg.tune.enable
    wandbEnable: bool)    // cfg.wandb.enable

  /** What one process knows of itself and receives from the others. */
  datatype Process = Process(
    distributed: bool,       // more than one CUDA device
    isMain: bool,            // is_main_process()
    timestamp: string,       // datetime.now() formatted as the default run id
    wandbRunId: string,      // the id of the wandb run, when wandb is enabled
    broadcastRunId: string)  // the run id broadcast_object_list delivers from rank 0

  /** The answers of the collaborators whose code is not part of this model. */
  datatype Oracles = Oracles(
    latestEpoch: Option<int>,               // snapshots/latest.pt when main() starts: Some(its "epoch") when the file exists
    resumedEpoch: int,                      // the epoch resume_from_checkpoint returns
    existingSnapshots: set<string>,         // the files in the snapshot directory when main() starts
    trainStats: int -> seq<(string, real)>, // the statistics train_one_epoch returns for an epoch
    earlyStop: int -> bool)                 // early_stopping.early_stop after its call in an epoch

  /** One value of a snapshot mapping: the epoch, or the state dict of a component after an epoch. */
  datatype Entry = EpochNumber(n: int) | StateDict(component: string, epoch: int)

  /** One value of a log line. */
  datatype LogValue = StatValue(x: real) | EpochValue(e: int)

  /** What the loop does that can be observed from outside the process. */
  datatype Event =
    | Trained(epoch: int)
    | Tuned(epoch: int)
    | StoppedEarly(epoch: int)
    | SnapshotSaved(epoch: int, name: string, snapshot: map<string, Entry>)
    | LogAppended(epoch: int, line: seq<(string, LogValue)>)
    | Barrier(epoch: int)

  /**
   * How `main()` ends: the configuration assertion, which fails after the
   * output directory was prepared and so records the snapshot files left in
   * it, or a finished loop.
   */
  datatype Outcome =
    | AssertionFailed(snapshots: set<string>)
    | Finished(outputDir: Path, start: int, events: seq<Event>, snapshots: set<string>)

  /** The position of an event within one epoch of the loop body. */
  function Kind(ev: Event): nat {
    match ev
    case Trained(_) => 0
    case Tuned(_) => 1
    case StoppedEarly(_) => 2
    case SnapshotSaved(_, _, _) => 3
    case LogAppended(_, _) => 4
    case Barrier(_) => 5
  }

  // ---------------------------------------------------------------- run id

  /** The run id a process chooses before the broadcast: a timestamp or the wandb id on the main process, "" elsewhere. */
  function LocalRunId(cfg: Config, p: Process): string {
    if p.isMain then (if cfg.wandbEnable then p.wandbRunId else p.timestamp) else ""
  }

  /** The run id after the broadcast: in distributed mode every process takes rank 0's. */
  function RunId(cfg: Config, p: Process): string {
    if p.distributed then p.broadcastRunId else LocalRunId(cfg, p)
  }

  function OutputDir(cfg: Config, p: Process): Path {
    Join(cfg.outputDir, RunId(cfg, p))
  }

  /**
   * When every process of a distributed job receives rank 0's run id, all of
   * them write under the same output directory, named after that id.
   */
  lemma OutputDirsAgree(cfg: Config, procs: seq<Process>, root: nat)
    requires root < |procs|
    requires forall i :: 0 <= i < |procs| ==>
      procs[i].distributed && procs[i].broadcastRunId == LocalRunId(cfg, procs[root])
    ensures forall i :: 0 <= i < |procs| ==>
      OutputDir(cfg, procs[i]) == Join(cfg.outputDir, LocalRunId(cfg, procs[root]))
  {
  }

  // ---------------------------------------------------------- start epoch

  /**
   * The first epoch of the loop: in distributed mode the epoch stored in
   * snapshots/latest.pt (re-running it), else 0; outside distributed mode
   * the epoch resume_from_checkpoint returns when resuming is requested,
   * else 0.
   */
  function StartEpoch(distributed: bool, latest: Option<int>, resume: bool, resumed: int): int {
    if distributed then (if latest.Some? then latest.value else 0)
    else if resume then resumed
    else 0
  }

  /** Outside distributed mode snapshots/latest.pt is never consulted. */
  lemma LatestIgnoredOutsideDistributed(l1: Option<int>, l2: Option<int>, resume: bool, resumed: int)
    ensures StartEpoch(false, l1, resume, resumed) == StartEpoch(false, l2, resume, resumed)
  {
  }

  /** In distributed mode the checkpoint named by the configuration is never consulted. */
  lemma ResumeIgnoredInDistributed(latest: Option<int>, resume: bool, r1: int, r2: int)
    ensures StartEpoch(true, latest, resume, r1) == StartEpoch(true, latest, resume, r2)
  {
  }

  /**
   * The snapshot directory as the start-epoch choice and the loop see it.
   * Unless resuming, the main process deletes the output directory and
   * recreates an empty snapshots/ before anything reads it; the other
   * processes share that directory.
   */
  function Prepared(cfg: Config, o: Oracles): Oracles {
    if cfg.resume then o else o.(latestEpoch := None, existingSnapshots := {})
  }

  /**
   * A run without `resume` starts at epoch 0, in every mode, and finds no
   * numbered snapshot on disk, so it saves at every epoch whose save is due.
   */
  lemma FreshRun(cfg: Config, p: Process, o: Oracles)
    requires !cfg.resume
    ensures StartEpoch(p.distributed, Prepared(cfg, o).latestEpoch, cfg.resume, o.resumedEpoch) == 0
    ensures forall e :: Saves(cfg, p, Prepared(cfg, o), e) <==> SaveDue(cfg, p, e)
  {
  }

  /** A resumed run sees the snapshot directory as it was when main() started. */
  lemma ResumedRunKeepsDirectory(cfg: Config, p: Process, o: Oracles)
    requires cfg.resume
    ensures StartEpoch(p.distributed, Prepared(cfg, o).latestEpoch, cfg.resume, o.resumedEpoch)
            == (if p.distributed then (if o.latestEpoch.Some? then o.latestEpoch.value else 0) else o.resumedEpoch)
    ensures forall e :: Saves(cfg, p, Prepared(cfg, o), e) <==> SaveDue(cfg, p, e) && SnapshotName(e) !in o.existingSnapshots
  {
  }

  // --------------------------------------------------- snapshot and log

  /** The snapshot mapping built on the main process in each epoch. */
  function SnapshotOf(epoch: int, fp16: bool): map<string, Entry> {
    var base := map["epoch" := EpochNumber(epoch),
                    "student" := StateDict("student", epoch),
                    "teacher" := StateDict("teacher", epoch),
                    "optimizer" := StateDict("optimizer", epoch),
                    "dino_loss" := StateDict("dino_loss", epoch)];
    if fp16 then base["fp16_scaler" := StateDict("fp16_scaler", epoch)] else base
  }

  /**
   * A snapshot holds the epoch under "epoch" and the state dict of each of
   * student, teacher, optimizer and DINO loss after that epoch, plus the
   * gradient scaler's exactly when mixed precision is on.
   */
  lemma SnapshotOfShape(epoch: int, fp16: bool)
    ensures SnapshotOf(epoch, fp16).Keys == {"epoch", "student", "teacher", "optimizer", "dino_loss"}
                                            + (if fp16 then {"fp16_scaler"} else {})
    ensures SnapshotOf(epoch, fp16)["epoch"] == EpochNumber(epoch)
    ensures forall k :: k in SnapshotOf(epoch, fp16) && k != "epoch" ==>
      SnapshotOf(epoch, fp16)[k] == StateDict(k, epoch)
  {
  }

  /** The training statistics under their `train_` keys, in order. */
  function TrainEntries(stats: seq<(string, real)>): seq<(string, LogValue)> {
    if stats == [] then []
    else [("train_" + stats[0].0, StatValue(stats[0].1))] + TrainEntries(stats[1..])
  }

  /** The mapping written as one JSON line per epoch. */
  function LogStats(stats: seq<(string, real)>, epoch: int): seq<(string, LogValue)> {
    TrainEntries(stats) + [("epoch", EpochValue(epoch))]
  }

  /** No key occurs twice (as in a Python dict). */
  predicate DistinctKeys<V>(kv: seq<(string, V)>) {
    forall i, j :: 0 <= i < j < |kv| ==> kv[i].0 != kv[j].0
  }

  lemma {:induction false} TrainEntriesAt(stats: seq<(string, real)>)
    ensures |TrainEntries(stats)| == |stats|
    ensures forall i :: 0 <= i < |stats| ==>
      TrainEntries(stats)[i] == ("train_" + stats[i].0, StatValue(stats[i].1))
  {
    if stats != [] {
      TrainEntriesAt(stats[1..]);
    }
  }

  lemma PrefixCancel(p: string, a: string, b: string)
    requires p + a == p + b
    ensures a == b
  {
    assert a == (p + a)[|p|..];
    assert b == (p + b)[|p|..];
  }

  /**
   * A log line holds one `train_<k>` entry per training statistic, in order,
   * followed by the epoch; its keys are distinct when the statistics' are.
   */
  lemma LogStatsShape(stats: seq<(string, real)>, epoch: int)
    ensures |LogStats(stats, epoch)| == |stats| + 1
    ensures forall i :: 0 <= i < |stats| ==>
      LogStats(stats, epoch)[i] == ("train_" + stats[i].0, StatValue(stats[i].1))
    ensures LogStats(stats, epoch)[|stats|] == ("epoch", EpochValue(epoch))
    ensures DistinctKeys(stats) ==> DistinctKeys(LogStats(stats, epoch))
  {
    TrainEntriesAt(stats);
    var line := LogStats(stats, epoch);
    if DistinctKeys(stats) {
      forall i, j | 0 <= i < j < |line| ensures line[i].0 != line[j].0 {
        if j < |stats| {
          if line[i].0 == line[j].0 {
            PrefixCancel("train_", stats[i].0, stats[j].0);
          }
        } else {
          assert line[i].0[0] == 't';
        }
      }
    }
  }

  // ------------------------------------------------------ epoch decisions

  /** Tuning runs on the main process in epochs that are a multiple of a non-zero `tune_every`. */
  predicate Tunes(cfg: Config, p: Process, epoch: int) {
    cfg.tuneEvery != 0 && epoch % cfg.tuneEvery == 0 && p.isMain
  }

  /** Only the main process sets `stop`, when early stopping fires and tuning is enabled. */
  predicate StopsAt(cfg: Config, p: Process, o: Oracles, epoch: int) {
    p.isMain && o.earlyStop(epoch) && cfg.tuneEnable
  }

  /** The save cadence: main process, non-zero `save_every`, and a multiple of it. */
  predicate SaveDue(cfg: Config, p: Process, epoch: int) {
    p.isMain && cfg.saveEvery != 0 && epoch % cfg.saveEvery == 0
  }

  /** A numbered snapshot is written when it is due and its file does not exist yet. */
  predicate Saves(cfg: Config, p: Process, o: Oracles, epoch: int) {
    SaveDue(cfg, p, epoch) && SnapshotName(epoch) !in o.existingSnapshots
  }

  /** `[ev]` when `c` holds, otherwise nothing. */
  function When(c: bool, ev: Event): seq<Event> {
    if c then [ev] else []
  }

  /**
   * The events of one epoch, given its decisions: training, tuning when due,
   * then either the early stop and nothing else, or the numbered snapshot
   * when it is written, the log line and the barrier.
   */
  function EpochEvents(epoch: int, tune: bool, stop: bool, save: bool, log: bool, barrier: bool,
                       name: string, snapshot: map<string, Entry>, line: seq<(string, LogValue)>): seq<Event>
  {
    if stop then
      [Trained(epoch)] + When(tune, Tuned(epoch)) + [StoppedEarly(epoch)]
    else
      [Trained(epoch)] + When(tune, Tuned(epoch))
      + When(save, SnapshotSaved(epoch, name, snapshot))
      + When(log, LogAppended(epoch, line))
      + When(barrier, Barrier(epoch))
  }

  /** Events of one epoch in the order of the loop body, each at most once. */
  predicate InBodyOrder(b: seq<Event>, epoch: int) {
    (forall i :: 0 <= i < |b| ==> b[i].epoch == epoch)
    && (forall i, j :: 0 <= i < j < |b| ==> Kind(b[i]) < Kind(b[j]))
  }

  /** Appending an event of a later kind keeps the order of the loop body. */
  lemma InBodyOrderSnoc(a: seq<Event>, c: bool, ev: Event, epoch: int)
    requires InBodyOrder(a, epoch) && ev.epoch == epoch
    requires forall i :: 0 <= i < |a| ==> Kind(a[i]) < Kind(ev)
    ensures InBodyOrder(a + When(c, ev), epoch)
    ensures forall i :: 0 <= i < |a + When(c, ev)| ==> Kind((a + When(c, ev))[i]) <= Kind(ev)
  {
  }

  /**
   * An epoch starts with its training and holds each kind of event at most
   * once, in the order of the loop body, all tagged with that epoch.
   */
  lemma EpochEventsOrder(epoch: int, tune: bool, stop: bool, save: bool, log: bool, barrier: bool,
                         name: string, snapshot: map<string, Entry>, line: seq<(string, LogValue)>)
    ensures EpochEvents(epoch, tune, stop, save, log, barrier, name, snapshot, line)[0] == Trained(epoch)
    ensures InBodyOrder(EpochEvents(epoch, tune, stop, save, log, barrier, name, snapshot, line), epoch)
  {
    var head := [Trained(epoch)] + When(tune, Tuned(epoch));
    InBodyOrderSnoc([Trained(epoch)], tune, Tuned(epoch), epoch);
    if stop {
      InBodyOrderSnoc(head, true, StoppedEarly(epoch), epoch);
    } else {
      var b1 := head + When(save, SnapshotSaved(epoch, name, snapshot));
      InBodyOrderSnoc(head, save, SnapshotSaved(epoch, name, snapshot), epoch);
      var b2 := b1 + When(log, LogAppended(epoch, line));
      InBodyOrderSnoc(b1, log, LogAppended(epoch, line), epoch);
      InBodyOrderSnoc(b2, barrier, Barrier(epoch), epoch);
    }
  }

  /**
   * An epoch holds an early stop exactly when it stops, and then the stop is
   * its last event: no snapshot, log line or barrier follows it.
   */
  lemma EpochEventsStop(epoch: int, tune: bool, stop: bool, save: bool, log: bool, barrier: bool,
                        name: string, snapshot: map<string, Entry>, line: seq<(string, LogValue)>)
    ensures var b := EpochEvents(epoch, tune, stop, save, log, barrier, name, snapshot, line);
      stop <==> exists i :: 0 <= i < |b| && b[i].StoppedEarly?
    ensures var b := EpochEvents(epoch, tune, stop, save, log, barrier, name, snapshot, line);
      stop ==> b[|b| - 1] == StoppedEarly(epoch) && forall i :: 0 <= i < |b| ==> Kind(b[i]) <= 2
  {
    var b := EpochEvents(epoch, tune, stop, save, log, barrier, name, snapshot, line);
    var head := [Trained(epoch)] + When(tune, Tuned(epoch));
    if stop {
      InBodyOrderSnoc([Trained(epoch)], tune, Tuned(epoch), epoch);
      InBodyOrderSnoc(head, true, StoppedEarly(epoch), epoch);
      assert b[|b| - 1] == StoppedEarly(epoch);
    } else {
      var rest := When(save, SnapshotSaved(epoch, name, snapshot))
                  + When(log, LogAppended(epoch, line))
                  + When(barrier, Barrier(epoch));
      assert b == head + rest;
      forall i | 0 <= i < |b| ensures !b[i].StoppedEarly? {
        if i < |head| {
          assert b[i] in head;
        } else {
          assert b[i] in rest;
        }
      }
    }
  }

  /** The events of one epoch of the loop. */
  function Block(cfg: Config, p: Process, o: Oracles, epoch: int): seq<Event> {
    EpochEvents(epoch, Tunes(cfg, p, epoch), StopsAt(cfg, p, o, epoch), Saves(cfg, p, o, epoch),
                p.isMain, p.distributed, SnapshotName(epoch), SnapshotOf(epoch, cfg.useFp16),
                LogStats(o.trainStats(epoch), epoch))
  }

  /**
   * The blocks of the epochs from `epoch` up to (excluding) `end`, leaving
   * after the first epoch that stops.
   */
  function Chain(block: int -> seq<Event>, stops: int -> bool, epoch: int, end: int): seq<Event>
    decreases end - epoch
  {
    if end <= epoch then []
    else block(epoch) + (if stops(epoch) then [] else Chain(block, stops, epoch + 1, end))
  }

  /** A chain started at `start` reaches `epoch`: it is in range and no earlier epoch stopped. */
  predicate Reaches(stops: int -> bool, start: int, end: int, epoch: int) {
    start <= epoch < end && forall k :: start <= k < epoch ==> !stops(k)
  }

  /** The events of each epoch, as a function of the epoch. */
  function BlockOf(cfg: Config, p: Process, o: Oracles): int -> seq<Event> {
    e => Block(cfg, p, o, e)
  }

  /** Whether each epoch stops, as a function of the epoch. */
  function StopsOf(cfg: Config, p: Process, o: Oracles): int -> bool {
    e => StopsAt(cfg, p, o, e)
  }

  /** The events of the loop from `epoch` on: one block per epoch until the last epoch or an early stop. */
  function Blocks(cfg: Config, p: Process, o: Oracles, epoch: int): seq<Event> {
    Chain(BlockOf(cfg, p, o), StopsOf(cfg, p, o), epoch, cfg.epochs)
  }

  /** The loop started at `start` reaches `epoch`: it is in range and no earlier epoch stopped. */
  predicate Visited(cfg: Config, p: Process, o: Oracles, start: int, epoch: int) {
    Reaches(StopsOf(cfg, p, o), start, cfg.epochs, epoch)
  }

  /** The numbered snapshot files the events write. */
  function SavedNames(events: seq<Event>): set<string> {
    if events == [] then {}
    else
      var last := events[|events| - 1];
      SavedNames(events[..|events| - 1]) + (if last.SnapshotSaved? then {last.name} else {})
  }

  lemma {:induction false} SavedNamesAppend(a: seq<Event>, b: seq<Event>)
    ensures SavedNames(a + b) == SavedNames(a) + SavedNames(b)
    decreases |b|
  {
    if b == [] {
      assert a + b == a;
    } else {
      var init := b[..|b| - 1];
      var ab := a + b;
      assert ab[|ab| - 1] == b[|b| - 1];
      assert ab[..|ab| - 1] == a + init;
      SavedNamesAppend(a, init);
    }
  }

  lemma SavedNamesWhen(c: bool, ev: Event)
    ensures SavedNames(When(c, ev)) == if c && ev.SnapshotSaved? then {ev.name} else {}
  {
    if c {
      assert When(c, ev)[..0] == [];
    }
  }

  /** An epoch writes a numbered snapshot exactly when it does not stop and the save is due. */
  lemma SavedNamesEpoch(epoch: int, tune: bool, stop: bool, save: bool, log: bool, barrier: bool,
                        name: string, snapshot: map<string, Entry>, line: seq<(string, LogValue)>)
    ensures SavedNames(EpochEvents(epoch, tune, stop, save, log, barrier, name, snapshot, line))
            == if !stop && save then {name} else {}
  {
    SavedNamesWhen(true, Trained(epoch));
    SavedNamesWhen(tune, Tuned(epoch));
    SavedNamesAppend([Trained(epoch)], When(tune, Tuned(epoch)));
    var head := [Trained(epoch)] + When(tune, Tuned(epoch));
    if stop {
      SavedNamesWhen(true, StoppedEarly(epoch));
      SavedNamesAppend(head, [StoppedEarly(epoch)]);
    } else {
      var s1 := When(save, SnapshotSaved(epoch, name, snapshot));
      var s2 := When(log, LogAppended(epoch, line));
      var s3 := When(barrier, Barrier(epoch));
      SavedNamesWhen(save, SnapshotSaved(epoch, name, snapshot));
      SavedNamesWhen(log, LogAppended(epoch, line));
      SavedNamesWhen(barrier, Barrier(epoch));
      SavedNamesAppend(head, s1);
      SavedNamesAppend(head + s1, s2);
      SavedNamesAppend(head + s1 + s2, s3);
    }
  }

  lemma SavedNamesBlock(cfg: Config, p: Process, o: Oracles, epoch: int)
    ensures SavedNames(Block(cfg, p, o, epoch))
            == if !StopsAt(cfg, p, o, epoch) && Saves(cfg, p, o, epoch) then {SnapshotName(epoch)} else {}
  {
    SavedNamesEpoch(epoch, Tunes(cfg, p, epoch), StopsAt(cfg, p, o, epoch), Saves(cfg, p, o, epoch),
                    p.isMain, p.distributed, SnapshotName(epoch), SnapshotOf(epoch, cfg.useFp16),
                    LogStats(o.trainStats(epoch), epoch));
  }

  /** One more epoch of the loop, when it is in range. */
  lemma BlocksUnfold(cfg: Config, p: Process, o: Oracles, epoch: int)
    requires epoch < cfg.epochs
    ensures StopsAt(cfg, p, o, epoch) ==> Blocks(cfg, p, o, epoch) == Block(cfg, p, o, epoch)
    ensures !StopsAt(cfg, p, o, epoch) ==>
      Blocks(cfg, p, o, epoch) == Block(cfg, p, o, epoch) + Blocks(cfg, p, o, epoch + 1)
  {
    var block := BlockOf(cfg, p, o);
    var stops := StopsOf(cfg, p, o);
    assert Blocks(cfg, p, o, epoch)
           == block(epoch) + (if stops(epoch) then [] else Chain(block, stops, epoch + 1, cfg.epochs));
    assert block(epoch) + [] == block(epoch);
  }

  // ------------------------------------------------------------ the trace

  /**
   * Which events an epoch holds, given its decisions: always its training;
   * tuning exactly when due; the early stop exactly when it stops; and,
   * only when it does not stop, the snapshot (with that name and mapping)
   * when saved, the log line (with that content) when logging, the barrier
   * when distributed.
   */
  lemma EpochEventsMembers(epoch: int, tune: bool, stop: bool, save: bool, log: bool, barrier: bool,
                           name: string, snapshot: map<string, Entry>, line: seq<(string, LogValue)>)
    ensures var b := EpochEvents(epoch, tune, stop, save, log, barrier, name, snapshot, line);
      && Trained(epoch) in b
      && (Tuned(epoch) in b <==> tune)
      && (StoppedEarly(epoch) in b <==> stop)
      && (forall n, s :: SnapshotSaved(epoch, n, s) in b <==> !stop && save && n == name && s == snapshot)
      && (forall l :: LogAppended(epoch, l) in b <==> !stop && log && l == line)
      && (Barrier(epoch) in b <==> !stop && barrier)
  {
  }

  /** One epoch's events start with its training and follow the order of the loop body. */
  lemma BlockOrder(cfg: Config, p: Process, o: Oracles, epoch: int)
    ensures InBodyOrder(Block(cfg, p, o, epoch), epoch)
    ensures Block(cfg, p, o, epoch)[0] == Trained(epoch)
  {
    EpochEventsOrder(epoch, Tunes(cfg, p, epoch), StopsAt(cfg, p, o, epoch), Saves(cfg, p, o, epoch),
                     p.isMain, p.distributed, SnapshotName(epoch), SnapshotOf(epoch, cfg.useFp16),
                     LogStats(o.trainStats(epoch), epoch));
  }

  /** Every event of one epoch is tagged with that epoch. */
  lemma BlockEpochs(cfg: Config, p: Process, o: Oracles, epoch: int)
    ensures forall ev :: ev in Block(cfg, p, o, epoch) ==> ev.epoch == epoch
  {
    BlockOrder(cfg, p, o, epoch);
  }

  lemma BlockMembers(cfg: Config, p: Process, o: Oracles, epoch: int)
    ensures var b := Block(cfg, p, o, epoch);
      && Trained(epoch) in b
      && (Tuned(epoch) in b <==> Tunes(cfg, p, epoch))
      && (StoppedEarly(epoch) in b <==> StopsAt(cfg, p, o, epoch))
      && (forall n, s :: SnapshotSaved(epoch, n, s) in b <==>
            !StopsAt(cfg, p, o, epoch) && Saves(cfg, p, o, epoch)
            && n == SnapshotName(epoch) && s == SnapshotOf(epoch, cfg.useFp16))
      && (forall l :: LogAppended(epoch, l) in b <==>
            !StopsAt(cfg, p, o, epoch) && p.isMain && l == LogStats(o.trainStats(epoch), epoch))
      && (Barrier(epoch) in b <==> !StopsAt(cfg, p, o, epoch) && p.distributed)
  {
    EpochEventsMembers(epoch, Tunes(cfg, p, epoch), StopsAt(cfg, p, o, epoch), Saves(cfg, p, o, epoch),
                       p.isMain, p.distributed, SnapshotName(epoch), SnapshotOf(epoch, cfg.useFp16),
                       LogStats(o.trainStats(epoch), epoch));
  }

  /** Each block holds only events of its own epoch. */
  ghost predicate Tagged(block: int -> seq<Event>) {
    forall e, ev :: ev in block(e) ==> ev.epoch == e
  }

  /**
   * An event is in a chain started at `start` exactly when the chain reaches
   * the event's epoch and that epoch's block holds it.
   */
  lemma {:induction false} InChain(block: int -> seq<Event>, stops: int -> bool, start: int, end: int, ev: Event)
    requires Tagged(block)
    ensures ev in Chain(block, stops, start, end) <==>
      Reaches(stops, start, end, ev.epoch) && ev in block(ev.epoch)
    decreases end - start
  {
    if start < end {
      if !stops(start) {
        InChain(block, stops, start + 1, end, ev);
        if ev.epoch != start {
          assert Reaches(stops, start, end, ev.epoch) <==> Reaches(stops, start + 1, end, ev.epoch);
        }
      } else if ev.epoch != start {
        assert !Reaches(stops, start, end, ev.epoch);
      }
    }
  }

  /**
   * An event is in the trace of the loop started at `start` exactly when the
   * loop reaches the event's epoch and that epoch's body produces it.
   */
  lemma InBlocks(cfg: Config, p: Process, o: Oracles, start: int, ev: Event)
    ensures ev in Blocks(cfg, p, o, start) <==>
      Visited(cfg, p, o, start, ev.epoch) && ev in Block(cfg, p, o, ev.epoch)
  {
    var block := BlockOf(cfg, p, o);
    forall e, x | x in block(e) ensures x.epoch == e {
      BlockEpochs(cfg, p, o, e);
    }
    InChain(block, StopsOf(cfg, p, o), start, cfg.epochs, ev);
  }

  /** Events in order of epoch, and within one epoch in the order of the loop body. */
  ghost predicate Chronological(b: seq<Event>) {
    forall i, j :: 0 <= i < j < |b| ==>
      b[i].epoch < b[j].epoch || (b[i].epoch == b[j].epoch && Kind(b[i]) < Kind(b[j]))
  }

  lemma ChronologicalAppend(a: seq<Event>, epoch: int, b: seq<Event>)
    requires InBodyOrder(a, epoch) && Chronological(b)
    requires forall ev :: ev in b ==> epoch < ev.epoch
    ensures Chronological(a + b)
  {
    var c := a + b;
    forall i, j | 0 <= i < j < |c|
      ensures c[i].epoch < c[j].epoch || (c[i].epoch == c[j].epoch && Kind(c[i]) < Kind(c[j]))
    {
      if j < |a| {
      } else if i < |a| {
        assert c[j] == b[j - |a|] && c[j] in b;
      } else {
        assert c[i] == b[i - |a|] && c[j] == b[j - |a|];
      }
    }
  }

  /** A chain of blocks each in the order of the loop body is chronological. */
  lemma {:induction false} ChainChronological(block: int -> seq<Event>, stops: int -> bool, start: int, end: int)
    requires forall e :: InBodyOrder(block(e), e)
    ensures Chronological(Chain(block, stops, start, end))
    decreases end - start
  {
    if start < end {
      var rest := if stops(start) then [] else Chain(block, stops, start + 1, end);
      if !stops(start) {
        ChainChronological(block, stops, start + 1, end);
        forall ev | ev in rest ensures start < ev.epoch {
          InChain(block, stops, start + 1, end, ev);
        }
      }
      ChronologicalAppend(block(start), start, rest);
    }
  }

  /** When a chain reaches an epoch that stops, that epoch's block ends the chain. */
  lemma {:induction false} ChainStopLast(block: int -> seq<Event>, stops: int -> bool, start: int, end: int, e: int)
    requires forall k :: stops(k) ==> block(k) != [] && block(k)[|block(k)| - 1] == StoppedEarly(k)
    requires Reaches(stops, start, end, e) && stops(e)
    ensures Chain(block, stops, start, end) != []
    ensures Chain(block, stops, start, end)[|Chain(block, stops, start, end)| - 1] == StoppedEarly(e)
    decreases end - start
  {
    if start < e {
      assert !stops(start);
      assert Reaches(stops, start + 1, end, e);
      ChainStopLast(block, stops, start + 1, end, e);
    }
  }

  /** The trace of the loop is chronological: each epoch's events come after the previous epoch's. */
  lemma TraceChronological(cfg: Config, p: Process, o: Oracles, start: int)
    ensures Chronological(Blocks(cfg, p, o, start))
  {
    forall e ensures InBodyOrder(BlockOf(cfg, p, o)(e), e) {
      BlockOrder(cfg, p, o, e);
    }
    ChainChronological(BlockOf(cfg, p, o), StopsOf(cfg, p, o), start, cfg.epochs);
  }

  /** No event occurs twice in the trace. */
  lemma TraceDistinct(cfg: Config, p: Process, o: Oracles, start: int)
    ensures var b := Blocks(cfg, p, o, start); forall i, j :: 0 <= i < j < |b| ==> b[i] != b[j]
  {
    TraceChronological(cfg, p, o, start);
  }

  /**
   * The loop runs no epoch when it starts at or after `epochs`, and otherwise
   * its first event trains the starting epoch itself.
   */
  lemma TraceStart(cfg: Config, p: Process, o: Oracles, start: int)
    ensures Blocks(cfg, p, o, start) == [] <==> cfg.epochs <= start
    ensures start < cfg.epochs ==> Blocks(cfg, p, o, start)[0] == Trained(start)
  {
    if start < cfg.epochs {
      BlocksUnfold(cfg, p, o, start);
      BlockOrder(cfg, p, o, start);
    }
  }

  /** An epoch that stops ends with the stop. */
  lemma BlockStopLast(cfg: Config, p: Process, o: Oracles, e: int)
    requires StopsAt(cfg, p, o, e)
    ensures Block(cfg, p, o, e) != [] && Block(cfg, p, o, e)[|Block(cfg, p, o, e)| - 1] == StoppedEarly(e)
  {
    EpochEventsStop(e, Tunes(cfg, p, e), StopsAt(cfg, p, o, e), Saves(cfg, p, o, e),
                    p.isMain, p.distributed, SnapshotName(e), SnapshotOf(e, cfg.useFp16),
                    LogStats(o.trainStats(e), e));
  }

  /** An early stop, when it happens, is the last event of the trace. */
  lemma TraceStopIsLast(cfg: Config, p: Process, o: Oracles, start: int, e: int)
    requires StoppedEarly(e) in Blocks(cfg, p, o, start)
    ensures Blocks(cfg, p, o, start)[|Blocks(cfg, p, o, start)| - 1] == StoppedEarly(e)
  {
    var block, stops := BlockOf(cfg, p, o), StopsOf(cfg, p, o);
    InBlocks(cfg, p, o, start, StoppedEarly(e));
    BlockMembers(cfg, p, o, e);
    assert Reaches(stops, start, cfg.epochs, e) && stops(e);
    forall k | stops(k) ensures block(k) != [] && block(k)[|block(k)| - 1] == StoppedEarly(k) {
      BlockStopLast(cfg, p, o, k);
    }
    ChainStopLast(block, stops, start, cfg.epochs, e);
  }

  /**
   * The events of epoch `e` in the trace of the loop started at `start`:
   * training when the loop reaches `e`; tuning when, in addition, it is due;
   * the early stop when the epoch stops; and only when it does not stop, the
   * numbered snapshot (named after the epoch, holding that epoch's state) when
   * due and not on disk, the log line of its statistics on the main process,
   * and the barrier in distributed mode.
   */
  lemma TraceEvents(cfg: Config, p: Process, o: Oracles, start: int, e: int)
    ensures var b := Blocks(cfg, p, o, start);
      && (Trained(e) in b <==> Visited(cfg, p, o, start, e))
      && (Tuned(e) in b <==> Visited(cfg, p, o, start, e) && Tunes(cfg, p, e))
      && (StoppedEarly(e) in b <==> Visited(cfg, p, o, start, e) && StopsAt(cfg, p, o, e))
      && (Barrier(e) in b <==> Visited(cfg, p, o, start, e) && !StopsAt(cfg, p, o, e) && p.distributed)
  {
    BlockMembers(cfg, p, o, e);
    InBlocks(cfg, p, o, start, Trained(e));
    InBlocks(cfg, p, o, start, Tuned(e));
    InBlocks(cfg, p, o, start, StoppedEarly(e));
    InBlocks(cfg, p, o, start, Barrier(e));
  }

  /** The numbered snapshots in the trace. */
  lemma TraceSnapshots(cfg: Config, p: Process, o: Oracles, start: int, e: int, name: string, snapshot: map<string, Entry>)
    ensures SnapshotSaved(e, name, snapshot) in Blocks(cfg, p, o, start) <==>
      Visited(cfg, p, o, start, e) && !StopsAt(cfg, p, o, e) && Saves(cfg, p, o, e)
      && name == SnapshotName(e) && snapshot == SnapshotOf(e, cfg.useFp16)
  {
    BlockMembers(cfg, p, o, e);
    InBlocks(cfg, p, o, start, SnapshotSaved(e, name, snapshot));
  }

  /** The log lines in the trace. */
  lemma TraceLogLines(cfg: Config, p: Process, o: Oracles, start: int, e: int, line: seq<(string, LogValue)>)
    ensures LogAppended(e, line) in Blocks(cfg, p, o, start) <==>
      Visited(cfg, p, o, start, e) && !StopsAt(cfg, p, o, e) && p.isMain
      && line == LogStats(o.trainStats(e), e)
  {
    BlockMembers(cfg, p, o, e);
    InBlocks(cfg, p, o, start, LogAppended(e, line));
  }

  /**
   * A process other than the main one never stops early, tunes or writes:
   * its own trace trains every epoch from `start` to `epochs` and otherwise
   * holds only barriers. Taken on its own, it ignores its main process's stop.
   */
  lemma NonMainProcess(cfg: Config, p: Process, o: Oracles, start: int)
    requires !p.isMain
    ensures forall e :: start <= e < cfg.epochs ==> Trained(e) in Blocks(cfg, p, o, start)
    ensures var b := Blocks(cfg, p, o, start);
      forall i :: 0 <= i < |b| ==> b[i].Trained? || b[i].Barrier?
  {
    var b := Blocks(cfg, p, o, start);
    forall e | start <= e < cfg.epochs ensures Trained(e) in b {
      TraceEvents(cfg, p, o, start, e);
    }
    forall i | 0 <= i < |b| ensures b[i].Trained? || b[i].Barrier? {
      var ev := b[i];
      InBlocks(cfg, p, o, start, ev);
      BlockMembers(cfg, p, o, ev.epoch);
    }
  }

  /**
   * In a distributed job, when the main process stops early at epoch `e`,
   * it leaves the loop without reaching that epoch's barrier, while every
   * other process enters that barrier, which its main process never enters.
   */
  lemma StopSkipsBarrier(cfg: Config, main: Process, worker: Process, o: Oracles, start: int, e: int)
    requires main.isMain && main.distributed && !worker.isMain && worker.distributed
    requires Visited(cfg, main, o, start, e) && StopsAt(cfg, main, o, e)
    ensures Barrier(e) !in Blocks(cfg, main, o, start)
    ensures Barrier(e) in Blocks(cfg, worker, o, start)
  {
    TraceEvents(cfg, main, o, start, e);
    TraceEvents(cfg, worker, o, start, e);
  }

  /** The first epoch in `[start, e)` that stops, or `e` when none does. */
  function FirstStopFrom(stops: int -> bool, start: int, e: int): (k: int)
    requires start <= e
    ensures start <= k <= e
    ensures k < e ==> stops(k)
    ensures forall j :: start <= j < k ==> !stops(j)
    decreases e - start
  {
    if start == e || stops(start) then start else FirstStopFrom(stops, start + 1, e)
  }

  /**
   * A worker of a distributed job trains every epoch its main process
   * trains. It can only have trained an epoch the main process did not
   * reach past an earlier epoch at which the main process stopped, whose
   * barrier the worker enters and the main process never does; a real job
   * blocks there.
   */
  lemma WorkerAheadOnlyPastStop(cfg: Config, main: Process, worker: Process, o: Oracles, start: int, e: int)
    requires main.isMain && main.distributed && !worker.isMain && worker.distributed
    ensures Trained(e) in Blocks(cfg, main, o, start) ==> Trained(e) in Blocks(cfg, worker, o, start)
    ensures Trained(e) in Blocks(cfg, worker, o, start) && Trained(e) !in Blocks(cfg, main, o, start) ==>
      exists k :: start <= k < e && Visited(cfg, main, o, start, k) && StopsAt(cfg, main, o, k)
                  && Barrier(k) in Blocks(cfg, worker, o, start) && Barrier(k) !in Blocks(cfg, main, o, start)
  {
    TraceEvents(cfg, main, o, start, e);
    TraceEvents(cfg, worker, o, start, e);
    if Trained(e) in Blocks(cfg, worker, o, start) && Trained(e) !in Blocks(cfg, main, o, start) {
      var k := FirstStopFrom(StopsOf(cfg, main, o), start, e);
      assert !Visited(cfg, main, o, start, e) && start <= e < cfg.epochs;
      assert k < e;
      assert Visited(cfg, main, o, start, k);
      StopSkipsBarrier(cfg, main, worker, o, start, k);
    }
  }

  /** The saved names are the names of the snapshot events. */
  lemma {:induction false} SavedNamesMember(events: seq<Event>, name: string)
    ensures name in SavedNames(events) <==>
      exists i :: 0 <= i < |events| && events[i].SnapshotSaved? && events[i].name == name
    decreases |events|
  {
    if events != [] {
      var init := events[..|events| - 1];
      SavedNamesMember(init, name);
      if name in SavedNames(init) {
        var i :| 0 <= i < |init| && init[i].SnapshotSaved? && init[i].name == name;
        assert events[i] == init[i];
      }
      if exists i :: 0 <= i < |events| && events[i].SnapshotSaved? && events[i].name == name {
        var i :| 0 <= i < |events| && events[i].SnapshotSaved? && events[i].name == name;
        if i < |events| - 1 {
          assert init[i] == events[i];
        }
      }
    }
  }

  /**
   * The loop writes a numbered snapshot file exactly for the epochs it
   * reaches that do not stop and whose save is due and whose file was not
   * on disk: it never overwrites a file.
   */
  lemma WrittenSnapshots(cfg: Config, p: Process, o: Oracles, start: int, name: string)
    ensures name in SavedNames(Blocks(cfg, p, o, start)) <==>
      exists e :: Visited(cfg, p, o, start, e) && !StopsAt(cfg, p, o, e) && Saves(cfg, p, o, e)
                  && name == SnapshotName(e)
    ensures name in SavedNames(Blocks(cfg, p, o, start)) ==> name !in o.existingSnapshots
  {
    var b := Blocks(cfg, p, o, start);
    SavedNamesMember(b, name);
    if name in SavedNames(b) {
      var i :| 0 <= i < |b| && b[i].SnapshotSaved? && b[i].name == name;
      TraceSnapshots(cfg, p, o, start, b[i].epoch, name, b[i].snapshot);
    }
    if exists e :: Visited(cfg, p, o, start, e) && !StopsAt(cfg, p, o, e) && Saves(cfg, p, o, e)
                   && name == SnapshotName(e) {
      var e :| Visited(cfg, p, o, start, e) && !StopsAt(cfg, p, o, e) && Saves(cfg, p, o, e)
               && name == SnapshotName(e);
      var ev := SnapshotSaved(e, name, SnapshotOf(e, cfg.useFp16));
      TraceSnapshots(cfg, p, o, start, e, name, SnapshotOf(e, cfg.useFp16));
      var i :| 0 <= i < |b| && b[i] == ev;
    }
  }

  // ------------------------------------------------------------------ main

  /**
   * One pass of the loop body for `epoch`: train, build the snapshot, tune
   * when due, ask the tuner whether to stop (and then break before anything
   * else), save the numbered snapshot when due and not yet on disk, append
   * the log line and wait at the barrier. `files` are the numbered snapshot
   * files present before the epoch.
   */
  method RunEpoch(cfg: Config, p: Process, o: Oracles, epoch: int, files: set<string>)
    returns (epochEvents: seq<Event>, stop: bool, files': set<string>)
    requires SnapshotName(epoch) in files <==> SnapshotName(epoch) in o.existingSnapshots
    ensures epochEvents == Block(cfg, p, o, epoch)
    ensures stop == StopsAt(cfg, p, o, epoch)
    ensures files' == files + SavedNames(epochEvents)
  {
    ghost var tune := Tunes(cfg, p, epoch);
    ghost var save := Saves(cfg, p, o, epoch);
    var trainStats := o.trainStats(epoch);
    epochEvents := [Trained(epoch)];
    files' := files;
    var snapshot: map<string, Entry> := map[];
    if p.isMain {
      snapshot := SnapshotOf(epoch, cfg.useFp16);
    }
    if cfg.tuneEvery != 0 && epoch % cfg.tuneEvery == 0 && p.isMain {
      epochEvents := epochEvents + [Tuned(epoch)];
    }
    assert epochEvents == [Trained(epoch)] + When(tune, Tuned(epoch));
    stop := false;
    if p.isMain {
      if o.earlyStop(epoch) && cfg.tuneEnable {
        stop := true;
      }
    }
    if stop {
      epochEvents := epochEvents + [StoppedEarly(epoch)];
      SavedNamesBlock(cfg, p, o, epoch);
      return;
    }
    ghost var head := epochEvents;
    if p.isMain {
      var savePath := SnapshotName(epoch);
      if cfg.saveEvery != 0 && epoch % cfg.saveEvery == 0 && savePath !in files' {
        epochEvents := epochEvents + [SnapshotSaved(epoch, savePath, snapshot)];
        files' := files' + {savePath};
      }
    }
    assert epochEvents == head + When(save, SnapshotSaved(epoch, SnapshotName(epoch), SnapshotOf(epoch, cfg.useFp16)));
    ghost var saved := epochEvents;
    var logStats := LogStats(trainStats, epoch);
    if p.isMain {
      epochEvents := epochEvents + [LogAppended(epoch, logStats)];
    }
    assert epochEvents == saved + When(p.isMain, LogAppended(epoch, LogStats(o.trainStats(epoch), epoch)));
    ghost var logged := epochEvents;
    if p.distributed {
      epochEvents := epochEvents + [Barrier(epoch)];
    }
    assert epochEvents == logged + When(p.distributed, Barrier(epoch));
    SavedNamesBlock(cfg, p, o, epoch);
  }

  /** What one pass of the loop body does to the trace invariant of the epoch loop. */
  lemma LoopStepTrace(cfg: Config, p: Process, o: Oracles, start: int, epoch: int,
                      events: seq<Event>, epochEvents: seq<Event>)
    requires epoch < cfg.epochs
    requires events + Blocks(cfg, p, o, epoch) == Blocks(cfg, p, o, start)
    requires epochEvents == Block(cfg, p, o, epoch)
    ensures StopsAt(cfg, p, o, epoch) ==> events + epochEvents == Blocks(cfg, p, o, start)
    ensures !StopsAt(cfg, p, o, epoch) ==>
      events + epochEvents + Blocks(cfg, p, o, epoch + 1) == Blocks(cfg, p, o, start)
  {
    BlocksUnfold(cfg, p, o, epoch);
    if !StopsAt(cfg, p, o, epoch) {
      assert events + epochEvents + Blocks(cfg, p, o, epoch + 1)
             == events + (epochEvents + Blocks(cfg, p, o, epoch + 1));
    }
  }

  /** What one pass of the loop body does to the file invariants of the epoch loop. */
  lemma LoopStepFiles(cfg: Config, p: Process, o: Oracles, epoch: int,
                      events: seq<Event>, files: set<string>, epochEvents: seq<Event>, files': set<string>)
    requires files == o.existingSnapshots + SavedNames(events)
    requires forall k :: epoch <= k ==>
      (SnapshotName(k) in files <==> SnapshotName(k) in o.existingSnapshots)
    requires epochEvents == Block(cfg, p, o, epoch)
    requires files' == files + SavedNames(epochEvents)
    ensures files' == o.existingSnapshots + SavedNames(events + epochEvents)
    ensures forall k :: epoch + 1 <= k ==>
      (SnapshotName(k) in files' <==> SnapshotName(k) in o.existingSnapshots)
  {
    SavedNamesAppend(events, epochEvents);
    SavedNamesBlock(cfg, p, o, epoch);
    forall k | epoch + 1 <= k
      ensures SnapshotName(k) in files' <==> SnapshotName(k) in o.existingSnapshots
    {
      if SnapshotName(k) == SnapshotName(epoch) {
        SnapshotNameInjective(k, epoch);
      }
    }
  }

  /** Past the last epoch nothing remains to run, so the events so far are the whole trace. */
  lemma LoopExit(cfg: Config, p: Process, o: Oracles, start: int, epoch: int, events: seq<Event>)
    requires cfg.epochs <= epoch
    requires events + Blocks(cfg, p, o, epoch) == Blocks(cfg, p, o, start)
    ensures events == Blocks(cfg, p, o, start)
  {
    assert Blocks(cfg, p, o, epoch) == [];
    assert events + [] == events;
  }

  /**
   * The epoch loop of `main()` from `start`: one pass of the body per epoch
   * until `epochs`, leaving early after an epoch in which `stop` is set. It
   * returns the events and the numbered snapshot files present at its end.
   */
  method EpochLoop(cfg: Config, p: Process, o: Oracles, start: int)
    returns (events: seq<Event>, files: set<string>)
    ensures events == Blocks(cfg, p, o, start)
    ensures files == o.existingSnapshots + SavedNames(events)
  {
    events := [];
    files := o.existingSnapshots;
    var epoch := start;
    assert [] + Blocks(cfg, p, o, start) == Blocks(cfg, p, o, start);
    while epoch < cfg.epochs
      invariant events + Blocks(cfg, p, o, epoch) == Blocks(cfg, p, o, start)
      invariant files == o.existingSnapshots + SavedNames(events)
      invariant forall k :: epoch <= k ==>
        (SnapshotName(k) in files <==> SnapshotName(k) in o.existingSnapshots)
      decreases cfg.epochs - epoch
    {
      var epochEvents, stop, files' := RunEpoch(cfg, p, o, epoch, files);
      LoopStepTrace(cfg, p, o, start, epoch, events, epochEvents);
      LoopStepFiles(cfg, p, o, epoch, events, files, epochEvents, files');
      events := events + epochEvents;
      files := files';
      if stop {
        break;
      }
      epoch := epoch + 1;
    }
    if cfg.epochs <= epoch {
      LoopExit(cfg, p, o, start, epoch, events);
    }
  }

  /**
   * `main()`: run id and output directory, emptying the output directory
   * unless resuming, the epochs/warmup assertion, the starting epoch and the
   * epoch loop. The result records the events of the loop and the numbered
   * snapshot files present at its end.
   */
  method Pretrain(cfg: Config, p: Process, o: Oracles) returns (r: Outcome)
    ensures r.AssertionFailed? <==> cfg.epochs < cfg.warmupEpochs
    ensures r.AssertionFailed? ==> r.snapshots == Prepared(cfg, o).existingSnapshots
    ensures r.Finished? ==> r.outputDir == OutputDir(cfg, p)
    ensures r.Finished? ==>
      r.start == StartEpoch(p.distributed, Prepared(cfg, o).latestEpoch, cfg.resume, o.resumedEpoch)
    ensures r.Finished? ==> r.events == Blocks(cfg, p, Prepared(cfg, o), r.start)
    ensures r.Finished? ==> r.snapshots == Prepared(cfg, o).existingSnapshots + SavedNames(r.events)
  {
    var runId := "";
    if p.isMain {
      runId := p.timestamp;
      if cfg.wandbEnable {
        runId := p.wandbRunId;
      }
    }
    if p.distributed {
      runId := p.broadcastRunId;
    }
    var outputDir := Join(cfg.outputDir, runId);

    var dir := o;
    if !cfg.resume {
      dir := dir.(latestEpoch := None, existingSnapshots := {});
    }

    if cfg.epochs < cfg.warmupEpochs {
      return AssertionFailed(dir.existingSnapshots);
    }

    var epochsRun := 0;
    if p.distributed {
      if dir.latestEpoch.Some? {
        epochsRun := dir.latestEpoch.value;
      }
    } else if cfg.resume {
      epochsRun := o.resumedEpoch;
    }

    var events, files := EpochLoop(cfg, p, dir, epochsRun);
    r := Finished(outputDir, epochsRun, events, files);
  }
}
