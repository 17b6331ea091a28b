# DINO pretraining: control skeleton and multi-crop assembly

This project models two parts of a DINO self-distillation pretraining repository.

1. **The epoch loop of `main()` in `dino/patch.py`** (module `Training`). It covers:
   - the run id every process agrees on, and the output directory named after it;
   - the preparation of the output directory: unless `resume` is set, the main process deletes it and recreates an empty `snapshots/`;
   - the guard `epochs >= warmup_epochs`, checked only after that preparation, so a failing fresh run has already emptied its output directory;
   - the choice of the starting epoch. In a distributed job this comes from `snapshots/latest.pt` when it exists, else 0. Otherwise it is the checkpoint named by the configuration when `resume` is set, else 0.
   - the epoch loop. Each epoch it trains, builds the snapshot mapping on the main process, tunes when due, asks the early-stopping tracker whether to stop, writes the numbered snapshot `epoch_NNN.pt` when due and not yet on disk, appends the JSON log line, and waits at the barrier in distributed mode.

   The loop is written as imperative methods:
   - `Pretrain` is `main()`;
   - `EpochLoop` is the `for` loop;
   - `RunEpoch` is one pass of its body.

   Each records what it does as a trace of events. These methods are proved equal to a specification function, `Blocks`: one block of events per epoch, stopping after the first epoch in which, on the main process, the early-stopping tracker fires and `tune.enable` is set. The lemmas about `Blocks` state, for every epoch, exactly when each kind of event happens and what it carries. They also state:
   - the order of the events;
   - that an early stop is the last event;
   - that the loop never overwrites a snapshot file;
   - that a non-main process never stops, tunes or writes.

   The snapshot file name and its inverse are in module `SnapshotNames`.

2. **The crop assembly of `dino/data/augmentations.py`** (module `Augmentations`). It covers:
   - the probability gates of `GaussianBlur` and `Solarization`;
   - the three crop pipelines of `PatchDataAugmentationDINO` (sizes 224 and 96);
   - the grid and crop sizes of `RegionDataAugmentationDINO`;
   - the two `__call__` methods, which build the crop list by appending in a loop.

   Images and patch-feature tensors are symbolic terms that record which operation was applied, with which size, scale and parameters. Every random draw is an input of the crop that consumes it.

Behaviour the model follows because the code does it. One might expect a restart to resume after the stored epoch, an early stop to save and log first, and `resume` to select a checkpoint in every mode:
- **Resuming from `latest.pt`.** A distributed restart resumes *at* the epoch stored in `latest.pt`, and runs that epoch again. It does not resume at the next epoch. See `TraceStart` with `Pretrain`.
- **Early stopping.** An early stop leaves the loop *before* the numbered snapshot, the log line and the barrier of that epoch. In a distributed job, the other processes still enter that barrier, which their main process never enters. See `StopSkipsBarrier`. This assumes the stop message can be formatted; see `Training.Pretrain` under "## Left out".
- **`resume` in distributed mode.** The `elif cfg.train.resume` belongs to `if distributed`, so a distributed job never loads the checkpoint named by the configuration, even without `latest.pt`. See `ResumeIgnoredInDistributed`. `resume` still matters earlier: without it the output directory is emptied first, so a distributed job then finds no `latest.pt` and starts at epoch 0. See `FreshRun`.
- **Negative `local_crops_number`.** `range(n)` is empty for a negative `n`, so a negative count yields the two global crops only. See `RangeLength`.

## Model

| member | source | states |
|---|---|---|
| SnapshotNames.Format03Shape | dino/patch.py:425 | `{epoch:03}` has exactly three characters for epochs 0 to 999 and otherwise just the epoch's digits, with no leading zero from 100 on; a negative epoch is a minus sign then its digits padded to two, with no leading zero from -10 down; in every case the digits denote the epoch |
| SnapshotNames.SnapshotNameRoundTrip | dino/patch.py:425 | the epoch can be read back from `epoch_{epoch:03}.pt` |
| SnapshotNames.SnapshotNameInjective | dino/patch.py:425-430 | two different epochs never share a numbered snapshot file, so one epoch's `is_file` check never sees another epoch's file |
| Training.Join | dino/patch.py:91 | `Path(output_dir, run_id)` is the base itself when the run id is empty, else the base with one more component |
| Training.OutputDirsAgree | dino/patch.py:84-91 | when every process receives rank 0's run id, all of them use the same output directory, named after that id |
| Training.FreshRun | dino/patch.py:99-108 | without `resume` the run starts at epoch 0 in every mode, and saves at every epoch whose save is due, because the output directory was emptied |
| Training.ResumedRunKeepsDirectory | dino/patch.py:288-317 | with `resume` the directory is kept: a distributed job starts at the epoch of `latest.pt` if it exists, else 0, another job at the epoch `resume_from_checkpoint` returns; an epoch's snapshot is due for writing exactly when its save is due and its file was absent at the start of `main()` |
| Training.LatestIgnoredOutsideDistributed | dino/patch.py:288-305 | outside distributed mode, the content of `latest.pt` never changes the start epoch |
| Training.ResumeIgnoredInDistributed | dino/patch.py:288-317 | in distributed mode the configured checkpoint never changes the start epoch |
| Training.SnapshotOfShape | dino/patch.py:375-383 | the snapshot holds the epoch and the student, teacher, optimizer and loss states; it holds the scaler state exactly when fp16 is on |
| Training.LogStatsShape | dino/patch.py:433-436 | the log line has one `train_<k>` entry per statistic, in order, then the epoch; its keys are distinct when the statistics' keys are |
| Training.EpochEventsOrder | dino/patch.py:344-455 | one epoch starts with training, and each of its events appears at most once, in the order of the loop body |
| Training.EpochEventsStop | dino/patch.py:412-421 | an epoch holds an early stop exactly when it stops; the stop is then its last event, with no save, log line or barrier after it |
| Training.EpochEventsMembers | dino/patch.py:386-455 | per epoch: training always; tuning iff due; the stop iff it stops; snapshot, log line and barrier only when it does not stop, each iff its condition holds, with its exact content |
| Training.BlockMembers | dino/patch.py:386-455 | the same, for the decisions the loop takes at a given epoch |
| Training.InBlocks | dino/patch.py:332-455 | an event is in the loop's trace iff the loop reaches its epoch (in range, no earlier stop) and that epoch's body produces it |
| Training.TraceChronological | dino/patch.py:344-455 | the trace is ordered by epoch, and within an epoch by the order of the loop body |
| Training.TraceDistinct | dino/patch.py:344-455 | no event happens twice |
| Training.TraceStart | dino/patch.py:332-344 | the loop runs no epoch when `epochs_run >= epochs`; otherwise its first event trains `epochs_run` itself |
| Training.TraceStopIsLast | dino/patch.py:412-421 | an early stop is the last event of the trace |
| Training.TraceEvents | dino/patch.py:344-455 | an epoch is trained iff the loop reaches it; it is tuned iff also due; it stops iff also the tracker fires with tuning enabled; it ends at the barrier iff also it does not stop and the job is distributed |
| Training.TraceSnapshots | dino/patch.py:424-431 | a numbered snapshot is saved at an epoch iff the loop reaches it, it does not stop, the save is due and the file is absent; it is named after that epoch and holds that epoch's snapshot |
| Training.TraceLogLines | dino/patch.py:433-439 | a log line is appended at an epoch iff the loop reaches it, it does not stop and the process is the main one; the line holds that epoch's statistics |
| Training.NonMainProcess | dino/patch.py:375-455 | a non-main process never stops early, tunes or writes: its own trace trains every epoch from the start and otherwise holds only barriers (taken on its own, without its main process's stop) |
| Training.WorkerAheadOnlyPastStop | dino/patch.py:412-455 | a worker trains every epoch its main process trains; it has trained an epoch the main process did not reach only past an earlier epoch at which the main process stopped, whose barrier the worker enters and the main process never does |
| Training.StopSkipsBarrier | dino/patch.py:412-455 | when the main process of a distributed job stops at an epoch, it skips that epoch's barrier, while another process enters that barrier, which its main process never enters |
| Training.WrittenSnapshots | dino/patch.py:424-431 | the loop writes exactly the files of the reached, non-stopping, due epochs whose files were absent; it never overwrites an existing file |
| Training.RunEpoch | dino/patch.py:344-455 | one pass of the loop body produces that epoch's block of events, sets `stop` iff the epoch stops, and adds exactly the file it saves |
| Training.EpochLoop | dino/patch.py:332-455 | the loop produces the trace `Blocks` from the start epoch; the snapshot files at its end are the initial ones plus the saved ones |
| Training.Pretrain | dino/patch.py:71-455 | the assertion fails iff `epochs < warmup_epochs`, leaving the snapshot files of the prepared directory; otherwise the output directory is `output_dir` joined with the run id (rank 0's in a distributed job, else the wandb id or the timestamp); unless resuming, the snapshot directory is emptied first; the start epoch is that of `latest.pt` in a distributed job when the file exists, else 0, and otherwise the epoch `resume_from_checkpoint` returns when resuming, else 0; the trace is `Blocks` from that epoch, and the final files are those left in the directory plus those the loop saved |
| Augmentations.UniformBounds | dino/data/augmentations.py:24 | `random.uniform(radius_min, radius_max)` lies between the bounds |
| Augmentations.BlurGate | dino/data/augmentations.py:17-26 | the blur returns its input unchanged iff the draw exceeds `prob`; otherwise it blurs the input once, with a radius in `[radius_min, radius_max]` |
| Augmentations.SolarizationGate | dino/data/augmentations.py:37-41 | solarization transforms iff the draw is strictly below `p`, and otherwise returns the input unchanged |
| Augmentations.PatchCall | dino/data/augmentations.py:112-118 | appending the crops yields the crop list `PatchCrops` |
| Augmentations.PatchCropsShape | dino/data/augmentations.py:67-118 | `2 + local_crops_number` crops (two when the count is not positive): `global_transfo1`, then `global_transfo2`, then the local crops; sizes 224, 224, then 96 |
| Augmentations.PatchCropsBlur | dino/data/augmentations.py:70-110 | crop 0 is always blurred, with a radius in [0.1, 2.0]; crop 1 is blurred iff its draw is at most 0.1; a local crop is blurred iff its draw is at most 0.5 |
| Augmentations.PatchCropsSolarization | dino/data/augmentations.py:83-96 | only crop 1 may be solarized, and it is iff its draw is below 0.2 |
| Augmentations.FloorDiv | dino/data/augmentations.py:134 | Python's `//`: the quotient is the floor of the exact one, for either sign of the divisor |
| Augmentations.Trunc | dino/data/augmentations.py:135-136 | `int(x)` truncates toward zero |
| Augmentations.NewRegionAugmentationSpec | dino/data/augmentations.py:126-161 | construction fails (ZeroDivisionError) iff the patch size is 0; otherwise, for either sign of the patch size, `npatch` is the floor of region size over patch size, each crop side is its scale times `npatch` truncated toward zero, for either sign of that product, and the crop count is kept |
| Augmentations.DefaultRegionGrid | dino/data/augmentations.py:131-134 | the defaults 4096 and 256 give a grid 16 patches wide |
| Augmentations.NegativePatchSizeGrid | dino/data/augmentations.py:131-134 | a negative patch size is accepted and gives a negative grid side: 4096 with -256 gives -16 |
| Augmentations.RegionCall | dino/data/augmentations.py:163-172 | reshaping into the grid and appending the crops yields `RegionCrops` |
| Augmentations.RegionCropsShape | dino/data/augmentations.py:138-172 | `2 + local_crops_number` crops, each a flipped random crop of the same `npatch` grid; the first two use the global side and the rest the local side |

## Left out

- **Models, training and tuning.** The model building, the data loaders, `train_one_epoch`, `tune_one_epoch` and the schedules are not part of this model. Their results are inputs: the statistics of each epoch, and whether the early-stopping tracker fires at each epoch.
- **The early-stopping tracker.** The model does not capture the tracker's internal history or the files it writes itself. `snapshots/latest.pt` is read as an input; its writer is not part of this model.
- **State dicts.** They are symbolic entries naming the component and the epoch.
- **The log line.** The model keeps its keys and values. It does not model `json.dumps` formatting.
- **The output directory.** `Oracles.latestEpoch` and `Oracles.existingSnapshots` describe the snapshot directory when `main()` starts; the emptying without `resume` is applied to them for every process. This assumes the processes share the output directory, and that the collective calls before the start-epoch choice order the other processes after the main process's deletion. A job whose processes do not share the directory is not modelled. The configuration file written next to the snapshots and the `features/` directory are not modelled.
- **Loading failures.** `torch.load` of `latest.pt` and `resume_from_checkpoint` are assumed to succeed. A missing or unreadable checkpoint raises in the code; `Outcome` has no case for it, only the failed configuration assertion.
- **The filesystem.** Only the numbered snapshot names are modelled. `is_file` is membership in the files present before the loop plus the files the loop wrote. Writes by other processes during the run are not modelled.
- **Distributed execution.** Each process is modelled on its own. The per-epoch barrier is recorded as a trace event; the broadcast run id is an input; process-group set-up and teardown are not modelled. The model does not capture how a barrier blocks: `StopSkipsBarrier` shows that the traces diverge, not that the job hangs.
- **Not modelled at all.** wandb logging, `tqdm`, `print`, timing, seeding, cudnn flags, and the `base_lr` and `pct` floating-point arithmetic.
- **Torchvision, PIL and torch operations.** These cover resized and random crops, flip, colour jitter, grayscale, normalisation, the blur filter, solarize, and `unfold`/`transpose`. They are symbolic terms. The model does not capture the errors torch raises for a crop larger than the grid, or for a non-positive `npatch`.
- **Random draws.**
  - Each crop receives its own draws as inputs. The model does not capture the interleaving of all draws on Python's and torch's global random streams.
  - The draws inside the torchvision transforms are opaque.
- Training.Pretrain: the model assumes the early-stop message can be formatted. That message reads `cfg.tune.tracking` (dino/patch.py:419), a different key from the tracker's `cfg.tune.early_stopping.tracking` (dino/patch.py:320); when the configuration lacks it and the loader raises on a missing key, the stopping epoch ends in an exception on the main process instead of leaving the loop, and `main()` then never prints the total time. `Outcome` has no case for this.
- Training.NonMainProcess: a worker's trace goes on past an epoch at which its main process stopped, which a real job cannot do: the worker blocks in that epoch's barrier. `WorkerAheadOnlyPastStop` states where the two traces part.
- Training.Join: a run id is one path component; the model does not capture `pathlib` splitting a run id that contains a separator, or an absolute run id replacing the base.
- Augmentations.Trunc: the region crop sides use exact real arithmetic before truncation; the model does not capture floating-point rounding of `scale * npatch`.
- Augmentations.PatchCropsBlur: the model states the blur gates for draws in [0, 1); it does not capture the distribution of the draws.
