# grounded_robust_sam: garment batch processing, modelled in Dafny

`main.py` of grounded_robust_sam reads a list of metadata entries. It sends
each entry to a worker process, and it writes the updated entries back out. The
work happens at three levels:

- For each garment of an entry, `process_garment` downloads the garment image.
  It asks the GroundingDINO detector for a "shirt" and segments the first box
  with the SAM model. It saves a mask and a white-background composite, then
  records `mask_file_path`, `segment_file_path` and `shirt_detected` on the
  garment dictionary.
- `process_entry` runs that for every garment of an entry whose
  `process_garment_image` flag is set. It numbers the garments `"{entry}_{idx}"`
  from 1 and writes each processed garment back into its slot of the list.
- `main` collects the finished tasks in completion order. It keeps every
  result that is not None and skips every task that raised. A `while True`
  supervisor re-runs `main` until one run returns.

The model follows the code's own form:

- `process_garment` is a straight-line method (`Garment.ProcessGarment`), as
  the source has no loop there. `process_entry`, the submission loop, the
  collection loop and the restart loop are methods with loops
  (`Entry.ProcessEntry`, `Batch.SubmitAll`, `Batch.CollectCompleted`,
  `Supervisor.Supervise`). Each method is proved equal to a specification
  function or states its result outright, and the properties are proved
  about those functions as lemmas.
- The download, the detector, the segmenter, the two image saves and the
  file-existence check are oracles. They are passed in per garment as a
  `UnitWorld`.
- Task failures and the order in which tasks complete are parameters. The
  completion order is an arbitrary permutation of the submission order.
- The model handles are opaque values. The handles in the parent process are
  `Unset`, which stands for Python's `None`.

Modules:

- `Json`: JSON values, Python truthiness and `dict.get`.
- `Naming`: the garment index and the file names and paths built from it. It
  proves that distinct (entry, garment) pairs never share a file.
- `Garment`: `process_garment` and its five exits (no image, download failed,
  no shirt, detected, exception).
- `Entry`: `process_entry`, the flag gate and the in-place garment-list loop.
- `Batch`: the body of `main` without its file I/O, and the finding below.
- `Supervisor`: the restart loop, which restarts only after an `Exception` and ends on an interrupt.

Notes on the code:

- The code never checks whether a garment's mask already exists before
  processing it.
- Files are named from the index, `garment_{entry}_{idx}_mask.png`, whatever
  the image URL was called.
- Every garment image comes from its URL through `download_image`; no local
  image is ever read in its place.

## Model

| member | source | states |
|---|---|---|
| Naming.Decimal | main.py:153 | `str(n)` of a non-negative integer is a non-empty string of decimal digits |
| Naming.ParseDecimalOfDecimal | main.py:153 | reading back the decimal digits of `n` gives `n` |
| Naming.IndexOf | main.py:153 | the position returned is the first occurrence of the character, or the length when it is absent |
| Naming.GarmentIndexRoundTrip | main.py:150-153 | the index string `"{entry}_{idx}"` splits back into the pair it was built from |
| Naming.GarmentIndexInjective | main.py:150-153 | distinct (entry, idx) pairs give distinct index strings |
| Naming.AbsPathKeepsName | main.py:90-111 | the absolute path recorded for a file still ends with that file's name, whatever the working directory and folder |
| Naming.NamesOfDistinctUnits | main.py:73-106 | within one folder, names of the same kind built from distinct (entry, idx) pairs differ |
| Naming.KindsNeverCollide | main.py:73-106 | a download never shares a path with a mask or a composite, and a mask never shares one with a composite, for any two garments |
| Naming.UnitPathsDistinct | main.py:73-106 | the download, mask and composite of one garment are three different paths |
| Naming.UnitPathsDisjoint | main.py:73-153 | each garment writes three distinct files, and the file sets of two distinct (entry, idx) pairs are disjoint |
| Garment.DownloadImage | main.py:39-56 | a saved path is returned exactly when the response status is 200; any other status or an exception gives None |
| Garment.OutcomeShape | main.py:58-133 | for every garment and every collaborator behaviour: the block is populated exactly on the detected exit; the no-image exit is taken exactly when `image` is falsy and writes no file; a detected garment records the absolute mask and composite paths of its own index; every file written is one of the garment's three; the download is recorded exactly when the image is truthy, the status is 200 and the file is on disk |
| Garment.ProcessGarment | main.py:58-133 | the returned garment is the input with only the block of `GarmentOutcome` written over it, the files left are its files, and the three result keys are either all set (two paths, True) or all empty (None, None, False) |
| Garment.OnlyResultKeysChange | main.py:67-132 | writing a block adds exactly the three result keys, leaves every other key's value alone, and sets `shirt_detected` to whether the block is populated |
| Garment.NoImageSkipsDownload | main.py:64-70 | a missing or empty `image` gives the empty block and no file at all |
| Garment.DownloadFailureEmpty | main.py:45-124 | the download-failed exit is taken exactly when the status is not 200, the request raised, or the file is missing; it gives the empty block and leaves no file |
| Garment.FirstBoxIsThePrompt | main.py:81-119 | with loaded models, a detector exception gives the empty block; zero boxes give the no-shirt exit, the empty block and no mask; otherwise the block is populated exactly when segmenting the first box and both saves succeed, and the mask file holds the mask of that first box |
| Garment.RaisedGivesEmpty | main.py:128-133 | every exception inside the try block ends in the empty block; none escapes |
| Garment.ParentHandlesNeverDetect | main.py:79-81 | the handles main passes (main.py:198-200) are the parent's None globals (main.py:25-27); with them the detector call raises (grounded.py:31) into the except clause (main.py:128-133), the block is always empty, and a garment whose image downloads takes the exception exit |
| Garment.RecordedPathsNameTheGarment | main.py:90-111 | a populated block records paths ending in `garment_{index}_mask.png` and `garment_{index}_segmented.png` |
| Entry.DictPrefix | main.py:150-160 | counts the leading garments that are dictionaries: all before it are, the one at it is not |
| Entry.ProcessedFrom | main.py:150-162 | the garment list after the loop keeps its length; each slot before the first non-dictionary holds that garment processed under its own 1-based position, and every later slot is untouched |
| Entry.ProcessedGarmentWrites | main.py:58-160 | the garment written back into its slot has exactly its old keys plus the three result keys, every other key keeps its value, and the block is fully populated or fully empty |
| Entry.ProcessEntry | main.py:135-167 | the entry returned is `EntryResult`; garments processed before a garment that raises stay processed in the returned entry |
| Entry.UngatedEntryUnchanged | main.py:140-167 | a non-dictionary entry, a false or missing flag, or an empty, missing or non-list `garment_data` gives back the entry unchanged |
| Entry.EntryKeysPreserved | main.py:145-163 | the entry keeps its keys and every value except `garment_data`, and the garment list keeps its length |
| Entry.GarmentSlots | main.py:150-160 | when every garment is a dictionary every slot is processed; a processed slot is the garment processed under index `"{n}_{j+1}"`, with only the three result keys added and fully populated or fully empty; other slots are unchanged |
| Entry.ParentHandlesMarkNothingDetected | main.py:150-160 | with the parent's None handles (main.py:25-27, 198-200) every slot of the returned entry is the input garment or carries `shirt_detected` False |
| Entry.ParentHandlesEmptyEverySlot | main.py:150-160 | with the parent's None handles every garment the loop reaches gets the empty block |
| Entry.ParentHandlesKeepNoneDetected | main.py:150-160 | with the parent's None handles an entry with no garment marked detected comes back with none marked detected |
| Batch.CompletionOrderInRange | main.py:208 | every future `as_completed` yields is one of the submitted futures |
| Batch.CollectedAppend | main.py:208-215 | collecting along two consecutive stretches of the completion order appends what each stretch collects |
| Batch.CollectedPermutes | main.py:208-215 | two completion orders of the same futures collect the same values, counted with multiplicity |
| Batch.CollectedInSubmissionOrder | main.py:208-215 | collecting in submission order gives the reference list of kept values |
| Batch.KeptValuesExactly | main.py:211-213 | the reference list holds exactly the non-None values of futures that did not raise, and is no longer than the futures |
| Batch.CollectCompleted | main.py:208-215 | `updated_metadata` is what the loop collects in completion order: a permutation of the non-None results of futures that did not raise, each once, no longer than the input |
| Batch.Futures | main.py:193-205 | one future per input entry |
| Batch.SubmitAll | main.py:193-205 | the tasks' futures are, in submission order, process_entry's result for entry i with entry number i + 1, or a failure for a task that raised |
| Batch.KeptIsEntryResult | main.py:193-213 | a value kept from a run's futures is a non-None process_entry result of an entry whose task did not raise |
| Batch.RunBatch | main.py:186-215 | the output is a permutation of the kept results; it is no longer than the input; every value in it is a non-None `process_entry` result, with entry number i+1, of an input entry whose task did not raise |
| Batch.RunAsWritten | main.py:186-215 | the same as `RunBatch` (the output is the collected kept results, each exactly once, and every value is process_entry's result for an entry whose task did not raise), with the parent's None handles (main.py:25-27, 198-200); when no input garment is marked detected, no output garment is |
| Batch.Run | main.py:186-215 | the same as `RunBatch` (the output is the collected kept results, each exactly once, and every value is process_entry's result for an entry whose task did not raise), with handles the worker initializer loaded (main.py:29-36) |
| Batch.SampleAsWritten | main.py:193-205 | submitted with the parent's None handles (main.py:198-200), one garment whose download, detection, segmentation and saves would all succeed still comes back with `shirt_detected` False and no mask path |
| Batch.SampleGarmentDetected | main.py:81-112 | with loaded models that garment takes the detected exit, and its mask path ends in `garment_1_1_mask.png` |
| Batch.SampleGarmentProcessed | main.py:81-153 | the same garment written back as entry 1, position 1 carries `shirt_detected` True and a mask path ending in `garment_1_1_mask.png` |
| Batch.SampleEntryProcessed | main.py:141-162 | process_entry on the sample entry replaces its one garment by that garment processed under index `1_1` and changes nothing else |
| Batch.SampleWithWorkerHandles | main.py:110-162 | with loaded models the same entry comes back with `shirt_detected` True and the mask path `.../garment_1_1_mask.png` |
| Supervisor.Supervise | main.py:236-243 | `main` runs again only after an `Exception`; the loop returns exactly when a run finishes before any interrupt, with that run's output; it ends with no output exactly when a KeyboardInterrupt or SystemExit (from `main` or the pause) comes first; while every run crashes it keeps restarting |

## Left out

- The HTTP body, streaming and partly written files are not modelled. The download is an oracle that gives a status or a transport error, and the file's presence is a separate boolean.
- GroundingDINO, its NMS and float thresholds, and the annotated image it writes (grounded.py) are not modelled. The detector is an oracle returning a list of boxes or raising.
- robust_sam.py is not a usable source: its loop body is mis-indented, it uses undefined names, and it does not define the functions main.py imports. The segmenter is an oracle returning an opaque mask or raising.
- PIL pixels, `convert` and compositing are not modelled. Each save is an oracle success flag, and a saved image is recorded only by what it was made from.
- Naming.AbsPath: `os.path.abspath` is modelled as a join to the working directory that drops one leading "./". Further normalisation of "." and ".." inside the folder names is not modelled.
- Garment.ProcessGarment: the in-place update of the garment dictionary is modelled by value. Metadata comes from `json.load`, so no dictionary is shared between two places.
- `ProcessPoolExecutor`, the `initializer`, pickling and worker processes are not modelled. A task that raises in `future.result()` is given as a set of failed task numbers, and the order of `as_completed` is a permutation parameter.
- Batch.RunBatch: the files a task writes are not collected across entries. The per-garment file sets are stated in `Garment` and proved disjoint in `Naming.UnitPathsDisjoint`.
- JSON load and dump, `os.makedirs`, timing, `print`, `time.sleep` and `multiprocessing.set_start_method` are not modelled.
- A top-level document that is not a list is not modelled. Neither is a failure to load or write, which the supervisor sees only as a crashed run.
- Supervisor.Supervise: `while True` is followed over a finite trace of run outcomes. When every run of the trace crashes, the model reports the loop as still running; it does not model it running forever.
- JSON numbers are real numbers. Integer and float formatting is not modelled.

## Findings

| source | as written | input that shows it | evidently intended | confidence | as-written member | corrected member |
|---|---|---|---|---|---|---|
| main.py:198-200 | each task is handed the parent process's model globals, which are still None (main.py:25-27), so `grounded` raises (grounded.py:31), the except clause empties the block, and no garment is ever marked detected | entry 1 with the flag set and one garment `{"image": "http://x/a.jpg"}`, with a 200 response, the file present, one box, a mask and both saves succeeding | the worker uses the models its initializer loaded, and the garment is marked detected with mask `garment_1_1_mask.png` | not executed | Batch.SampleAsWritten | Batch.SampleWithWorkerHandles |
