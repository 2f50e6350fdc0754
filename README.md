# SmartVisionAI batch pipeline, in Dafny

SmartVisionAI asks a vision model for a title, a description and keywords for each image
of a folder. It then commits the answer in one of two ways:

- The metadata batch (`ImagesDescriber.add_metadata`) writes the answer into the image's
  IPTC container. It does this on a temporary copy, moves the copy to the destination
  folder and deletes the source.
- The CSV batch (`CSVGenerator.write_data_to_csv`) appends one row per image to a CSV
  ledger named after the current time.

Before rewriting an image, the metadata batch frees it from the processes that hold it
open. On macOS these come from `lsof`, on Windows from the process table. The caption an
image already carries is used as context for the model. It is read from IPTC, or else
from the `x-default` entry of the XMP block. The request carries an API key that the
desktop front end stores as a `"<date>; <key>"` record.

The project has one module per source file:

- `Storage`: the file system both batches act on. `Volume` is a value: bytes and IPTC
  container per path. `Disk` is the class whose fields the batches change in place.
- `Pipeline`: the parts the two batches share. These are the destination default, the
  caption lookup and the description call. The collaborators outside the model are
  parameters, gathered in `Env`.
- `ImageDescriber`: specification functions follow `add_metadata` block by block. They
  are `TryItem` for the `try`, `Finally`, `Conclude`, `ItemStep` for one turn of the loop,
  `Run` for the loop so far and `AddMetadataOf`. The class `ImagesDescriber` runs the same steps on a `Disk` and a
  `ProcessTable`, and is proved to end in the state those functions give. Lemmas state
  the commit, cleanup and isolation guarantees per item and per batch.
- `CsvGenerator`: `RowsOf` and `WriteDataToCsvOf` specify the ledger. The class
  `CsvGenerator` writes the rows with a `CsvWriter` and is proved to produce them.
- `CheckAccess`: `lsof` parsing, the Windows open-file match, and the termination loop.
  The termination loop is the class `ProcessTable`.
- `MetadataReader`: `get_metadata`, and the XMP extraction as a leftmost, lazy match
  followed by a strip.
- `Responder`: the key parsing, the prompt with its caption context, and the request
  `process_photo` sends.
- `RunApp`: the run checks and confirmation text of the front end, the key record, and
  the launch of the two batches.
- `PathManager` and `OsPath`: where data files live.
- `Text`: the Python string operations the code uses (`strip`, `split`, `splitlines`,
  `lower`, `int`, `join`).

## Model

| member | source | states |
|---|---|---|
| Storage.CaptionOf | src/services/img_metadata_reader.py:43 | a container gives a caption exactly when its `caption/abstract` dataset holds text |
| Storage.Volume.CreateEmpty | src/image_describer.py:99-100 | the new file exists, is empty and has no loadable container; every other path is unchanged; validity is kept |
| Storage.Volume.CopyFile | src/image_describer.py:101 | the target gets the source's bytes and container (or loses its container when the source has none); validity is kept |
| Storage.Volume.SaveContainer | src/image_describer.py:133 | only the container of the file changes; the bytes of every file are unchanged |
| Storage.Volume.MoveFile | src/image_describer.py:134 | the target holds the moved file's bytes and container, the origin is gone, and every other path is unchanged |
| Storage.Volume.Remove | src/image_describer.py:154 | the file is gone and every other path keeps its bytes and container |
| Storage.Volume.RemoveIfExists | src/image_describer.py:149-150 | afterwards the path is absent; a path that was absent leaves the volume unchanged |
| Storage.Volume.InfoOf | src/image_describer.py:104-108 | a file whose container cannot be loaded gets a new empty container |
| Storage.Disk.CreateEmpty | src/image_describer.py:99-100 | the disk afterwards is `Volume.CreateEmpty` of the disk before |
| Storage.Disk.CopyFile | src/image_describer.py:101 | the disk afterwards is `Volume.CopyFile` of the disk before |
| Storage.Disk.SaveContainer | src/image_describer.py:133 | the disk afterwards is `Volume.SaveContainer` of the disk before |
| Storage.Disk.MoveFile | src/image_describer.py:134 | the disk afterwards is `Volume.MoveFile` of the disk before |
| Storage.Disk.Remove | src/image_describer.py:154 | the disk afterwards is `Volume.Remove` of the disk before |
| Pipeline.DestinationDir | src/image_describer.py:51 | an empty destination folder means the source folder; any other is kept |
| Pipeline.IptcReadOf | src/image_describer.py:105 | loading fails exactly for a file without a readable container, and otherwise yields that container's caption |
| Pipeline.CaptionFor | src/image_describer.py:111 | the caption is the IPTC caption or the XMP caption of the file's bytes |
| Pipeline.Describe | src/image_describer.py:120-124 | the program exits exactly when the key cannot be read, with that key error; otherwise the service answers or fails |
| Pipeline.CountTrue | src/image_describer.py:139 | the processed count never exceeds the number of items |
| ImageDescriber.BackupOf | src/image_describer.py:181 | the backup is a file named by the file name with one more character appended |
| ImageDescriber.RemoveBackup | src/image_describer.py:169-187 | a missing or blank name changes nothing; otherwise `name~` is gone and every other path is unchanged |
| ImageDescriber.WithFields | src/image_describer.py:127-130 | object name, caption/abstract, keywords and by-line hold the title, description, keywords and author (no value without an author); all other datasets are kept |
| ImageDescriber.WrittenDescriptionIsCaption | src/image_describer.py:128 | the description written into a container is the caption read back from it |
| ImageDescriber.Annotate | src/image_describer.py:120-140 | the program exits exactly on a key failure, with that error; on success the temporary copy is gone and the destination holds the copy's bytes with its container carrying the described fields; otherwise the destination is unchanged; no other file is changed and no temporary file is created |
| ImageDescriber.TryItem | src/image_describer.py:96-143 | either nothing happened and the item failed, or a fresh temporary file was bound; an exit carries the key error of the description call for the source; on success the destination holds the source's bytes and its container with the fields of the description obtained for the source |
| ImageDescriber.TryItemKeeps | src/image_describer.py:96-143 | the `try` block creates no temporary file but the item's own, changes no file but the destination, and leaves the destination alone unless it succeeds |
| ImageDescriber.CopyReadsLikeSource | src/image_describer.py:101-111 | the temporary copy has the source's bytes, container and caption |
| ImageDescriber.Finally | src/image_describer.py:144-150 | `dest~` is gone for a non-blank destination, and the temporary file is gone; nothing else changes; an unbound temporary name makes the block raise |
| ImageDescriber.ItemStep | src/image_describer.py:83-154 | `temp_image_path` keeps its value unless the item binds its own temporary file; a lock release that raises stops the batch with every file as it was |
| ImageDescriber.Conclude | src/image_describer.py:144-154 | failures continue with the item unprocessed; a key failure or an unbound temporary name stops the batch; an item counts as processed exactly when it succeeded; a success stops the batch only when the source, another path than the destination, is missing |
| ImageDescriber.ConcludeCleansUp | src/image_describer.py:144-150 | after the item the temporary file is gone, and so is `destination~` for a non-blank destination |
| ImageDescriber.ConcludeCreatesNothing | src/image_describer.py:144-154 | the end of an item only deletes: every file after it was there before |
| ImageDescriber.ConcludeKeeps | src/image_describer.py:144-154 | a file other than the backup and the temporary file is unchanged, unless it is the source of a processed item with another destination, which is deleted |
| ImageDescriber.StepsOf | src/image_describer.py:82-83 | turn `k` of the loop is the item step of the `k`-th name |
| ImageDescriber.Run | src/image_describer.py:82-154 | the loop records at most one success flag per item, and one for every item unless it stopped |
| ImageDescriber.Advance | src/image_describer.py:139-140 | a finished item adds its flag; an abort is recorded without a flag |
| ImageDescriber.AddMetadataOf | src/image_describer.py:54-167 | an empty file list ends the run (`sys.exit(1)`) with the disk untouched; a finished batch reports processed + unprocessed = number of files |
| ImageDescriber.BatchOfProgress | src/image_describer.py:156-157 | the batch reports the loop's abort, or its processed count and the rest as unprocessed |
| ImageDescriber.ItemTouchesOnlyItsFiles | src/image_describer.py:82-154 | one item, however it ends, leaves no new temporary file, keeps `temp_image_path` a temporary name and changes no file other than its source, destination and `destination~` |
| ImageDescriber.AttemptLeavesNoTemps | src/image_describer.py:96-150 | the `try` and `finally` blocks of an item leave no new temporary file and keep `temp_image_path` a temporary name |
| ImageDescriber.AttemptKeepsOtherFile | src/image_describer.py:96-154 | the `try` and `finally` blocks of an item leave every file but its source, destination and `destination~` unchanged |
| ImageDescriber.FailedItemKeepsFiles | src/image_describer.py:96-150 | an item that fails inside the `try` leaves every file, source and destination included, as it was, except `destination~` |
| ImageDescriber.ProcessedItemCommits | src/image_describer.py:120-154 | a processed item put the source's bytes at the destination, with the source's container (or a new one) carrying the description obtained for the source and the author; the source is gone unless it is the destination |
| ImageDescriber.SourceRemovedOnlyAfterCommit | src/image_describer.py:152-154 | a source disappears only when its item was processed and the destination differs from it (or when the source is itself the destination's backup) |
| ImageDescriber.ItemCleansUp | src/image_describer.py:144-150 | once the lock release returned, `destination~` (for a non-blank destination) and the item's temporary file are gone |
| ImageDescriber.FirstUnopenableImageAborts | src/image_describer.py:96-150 | when the first image cannot be opened, `temp_image_path` is unbound in the `finally` and the batch aborts |
| ImageDescriber.RunNext | src/image_describer.py:82-154 | the loop over one more item is the loop so far advanced by that item |
| ImageDescriber.RunStopped | src/image_describer.py:82-154 | after an exception escapes the loop, the later items do nothing |
| ImageDescriber.RunConfined | src/image_describer.py:82-154 | when every item leaves no new temporary file and changes only files of a set, so does the loop |
| ImageDescriber.RunCounts | src/image_describer.py:139-140 | the k-th success flag is whether the k-th item, started from the state the earlier items left, was processed |
| ImageDescriber.AddMetadataTouchesOnlyListedFiles | src/image_describer.py:54-157 | the whole batch, however it ends, leaves no temporary file behind and changes only the sources, destinations and backups of the listed images |
| ImageDescriber.BatchOutcome | src/image_describer.py:82-157 | the k-th success flag of the batch is whether the k-th image, started from the state the earlier images left, was processed |
| ImageDescriber.ImagesDescriber.constructor | src/image_describer.py:39-52 | the settings are kept, with an empty destination replaced by the source folder |
| ImageDescriber.ImagesDescriber.RemoveBackupFile | src/image_describer.py:169-187 | the disk afterwards is `RemoveBackup` of the disk before |
| ImageDescriber.ImagesDescriber.TryItemOn | src/image_describer.py:96-143 | the disk, the temporary name and the outcome are those of `TryItem` |
| ImageDescriber.ImagesDescriber.ProcessItem | src/image_describer.py:82-154 | the disk, the process table, the temporary name and the item's outcome or abort are those of one loop turn |
| ImageDescriber.ImagesDescriber.ConcludeOn | src/image_describer.py:144-154 | the disk and the item's outcome or abort are those of `Conclude` |
| ImageDescriber.ImagesDescriber.RunLoop | src/image_describer.py:82-154 | the disk, the process table, the temporary name, the flags and the abort after the loop are those of `Run` over all the names |
| ImageDescriber.ImagesDescriber.ProcessStep | src/image_describer.py:82-154 | one turn on the i-th name is the loop's turn `i` |
| ImageDescriber.ImagesDescriber.AddMetadata | src/image_describer.py:54-167 | the disk, the process table and the report afterwards are those of `AddMetadataOf` from the state before |
| CsvGenerator.RowOf | src/csv_generator.py:107-109 | the row is the image name, title and description, and a keywords cell that splits back into the keywords when none holds a comma |
| CsvGenerator.KeywordsCellRoundTrip | src/csv_generator.py:107 | `','.join` of comma-free keywords, split at commas, gives back the keywords |
| CsvGenerator.ItemRow | src/csv_generator.py:88-116 | a row is written only for an existing image whose description was obtained, and it is that description's row; an exit means the key could not be read |
| CsvGenerator.AnswersOf | src/csv_generator.py:87-116 | the `j`-th answer is what the `j`-th listed image gives |
| CsvGenerator.Extend | src/csv_generator.py:87-116 | one more answer appends its row with the image's index, or only counts the image, or ends the loop at that image on an exit |
| CsvGenerator.Collect | src/csv_generator.py:87-116 | one source index per row, no more rows than images gone through, and the loop stops early exactly on an exit |
| CsvGenerator.RowsOf | src/csv_generator.py:87-116 | as `Collect`, over the images of the list |
| CsvGenerator.CollectCharacterised | src/csv_generator.py:87-116 | rows come from the answers in order, only from rows, and from every row before the first exit, where the loop stops |
| CsvGenerator.RowsOfFromImages | src/csv_generator.py:87-116 | every row is the row of the image it came from, in list order; each image gone through gives a row exactly when it was described; the loop ends at the first key failure |
| CsvGenerator.CollectStopped | src/csv_generator.py:87-116 | after an exit, later images change nothing |
| CsvGenerator.CollectNext | src/csv_generator.py:87-116 | one more image adds its row, adds nothing, or ends the loop with its exit |
| CsvGenerator.ExtendCollected | src/csv_generator.py:87-116 | one more image keeps every row tied to the image it came from, in order |
| CsvGenerator.CsvPath | src/csv_generator.py:75-76 | the ledger path ends with `<time>.csv`; for a time stamp that is not absolute, it starts with the destination folder and adds at most one separator, which is there whenever the folder is non-empty |
| CsvGenerator.WriteDataToCsvOf | src/csv_generator.py:47-134 | no images ends the run before any file; a ledger that cannot be opened is reported; a written ledger starts with the header, has one line per processed image, and processed + unprocessed = number of files |
| CsvGenerator.WrittenRowsAreDescribedImages | src/csv_generator.py:84-124 | a written ledger is the header followed by the rows of exactly the described images, in list order; a missing image gives no row; processed counts the rows |
| CsvGenerator.KeyFailureLeavesHeaderOnly | src/csv_generator.py:90-106 | without a usable key the first readable image ends the program, and the ledger holds only the header |
| CsvGenerator.CsvWriter.constructor | src/csv_generator.py:81 | a new writer has written nothing |
| CsvGenerator.CsvWriter.WriteRow | src/csv_generator.py:109 | the row is appended after the rows already written |
| CsvGenerator.CsvGenerator.constructor | src/csv_generator.py:33-45 | the settings are kept, with an empty destination replaced by the source folder |
| CsvGenerator.WriteRows | src/csv_generator.py:87-116 | the rows written and the processed count and exit are those of `Collect` |
| CsvGenerator.CsvGenerator.WriteDataToCsv | src/csv_generator.py:47-134 | the report, including every line written, is `WriteDataToCsvOf` of the disk, and the disk is not modified |
| CheckAccess.ParseLsofLine | src/services/check_access.py:61-64 | a line parses exactly when it has a second column that `int()` accepts; the holder is the first column with that pid; a line with fewer than two columns raises the missing-column error |
| CheckAccess.ParseLsofLines | src/services/check_access.py:60-64 | either every line gives its holder in line order, or the loop raises with the error of the first line that does not parse |
| CheckAccess.HoldersOnMac | src/services/check_access.py:45-71 | a missing `lsof` raises; any non-zero exit code gives no holders |
| CheckAccess.ParseLsofLineOfLine | src/services/check_access.py:61-64 | a line as `lsof` prints it gives back its command name and pid |
| CheckAccess.HoldersOnMacReadsLines | src/services/check_access.py:58-64 | the output of `lsof` for a list of holders is read back as exactly those holders, in order, after skipping the header |
| CheckAccess.LowerAll | src/services/check_access.py:88 | each path is lower-cased in place |
| CheckAccess.MatchingFiles | src/services/check_access.py:87-89 | a process is listed once per open file equal to the target up to case |
| CheckAccess.MatchingFilesMembers | src/services/check_access.py:87-89 | the process is listed exactly when one of its open files equals the target up to case |
| CheckAccess.HoldersOnWindows | src/services/check_access.py:74-92 | every listed holder is the pid and name of a readable process in the snapshot |
| CheckAccess.HoldersOnWindowsAreHolders | src/services/check_access.py:84-92 | a holder is listed exactly when a readable process has the target open; unreadable processes and missing file lists give nothing |
| CheckAccess.Terminate | src/services/check_access.py:95-110 | a running process that may be stopped is gone afterwards; a missing or protected one is only logged; one log entry is added and nothing raises |
| CheckAccess.TerminateAll | src/services/check_access.py:39-42 | every stoppable holder is gone and nothing else stopped; each holder in order gets a termination entry followed by a one-second pause |
| CheckAccess.TerminateAllStep | src/services/check_access.py:39-42 | one more holder is terminated and then paused after the others |
| CheckAccess.ReleaseLocks | src/services/check_access.py:21-42 | an unsupported system only logs; on Windows the stoppable holders found in the snapshot stop and nothing raises; on macOS the stoppable holders `lsof` reports stop, or the error of reading its output escapes and nothing stops; no process is added to the running ones |
| CheckAccess.ReleaseLocksStopsHoldersOnWindows | src/services/check_access.py:21-42 | on Windows a running process stops exactly when it may be stopped and the snapshot shows it holding the file |
| CheckAccess.ReleaseLocksSeesNormalisedPath | src/services/check_access.py:16-34 | two paths with the same normalised form are released identically |
| CheckAccess.ProcessTable.TerminateProcess | src/services/check_access.py:95-110 | the table afterwards is `Terminate` of the table before |
| CheckAccess.ProcessTable.TerminateEach | src/services/check_access.py:39-42 | the table afterwards is `TerminateAll` of the table before |
| CheckAccess.ProcessTable.TerminateProcessesUsingFile | src/services/check_access.py:21-42 | the table afterwards and the escaping exception are those of `ReleaseLocks` |
| MetadataReader.OpenerEnd | src/services/img_metadata_reader.py:69 | a found end is where the opening tag with its `x-default` attribute ends |
| MetadataReader.OpenerEndComplete | src/services/img_metadata_reader.py:69 | the opening tag can end at only one place, and it is found |
| MetadataReader.SearchFrom | src/services/img_metadata_reader.py:68-72 | the match found is complete and starts leftmost; with no result there is no match |
| MetadataReader.ExtractXmp | src/services/img_metadata_reader.py:66-76 | the result holds no `</rdf:li>` and has no whitespace at either end |
| MetadataReader.NoCloserInContent | src/services/img_metadata_reader.py:69 | the lazy group never contains the closing tag |
| MetadataReader.ExtractXmpCharacterised | src/services/img_metadata_reader.py:66-76 | the result is the stripped group of the leftmost match of the stripped output, and nothing else |
| MetadataReader.LeftmostFound | src/services/img_metadata_reader.py:68-72 | the leftmost match is the one reported |
| MetadataReader.ExtractXmpNone | src/services/img_metadata_reader.py:74-76 | no result exactly when nothing matches |
| MetadataReader.ExtractsDefaultEntry | src/services/img_metadata_reader.py:66-75 | a caption without `<`, written as an `x-default` entry, is read back stripped |
| MetadataReader.ReadIptcData | src/services/img_metadata_reader.py:41-46 | a failed load gives no caption; a loaded container gives its caption |
| MetadataReader.ReadXmpData | src/services/img_metadata_reader.py:59-80 | a failed exiftool run gives no caption; otherwise the extraction from its output |
| MetadataReader.GetMetadata | src/services/img_metadata_reader.py:15-28 | a truthy IPTC caption wins; otherwise the XMP result is taken |
| MetadataReader.GetMetadataTruthy | src/services/img_metadata_reader.py:25-28 | the result is truthy exactly when one of the two readers gave a truthy caption, and it is one of the two |
| Responder.ParseKey | src/services/chatgpt_responder.py:32 | the key is missing exactly when the record has no `"; "`; a key has no whitespace at either end and no `"; "` |
| Responder.SplitFindsSeparator | src/services/chatgpt_responder.py:32 | splitting gives a second piece exactly when the separator occurs |
| Responder.ParseKeyOfRecord | src/services/chatgpt_responder.py:32 | `"<date>; <key>"` gives back the key |
| Responder.ReadKey | src/services/chatgpt_responder.py:29-42 | a missing file and any other read failure are the two exit reasons; a read file is parsed |
| Responder.GenPrompt | src/services/chatgpt_responder.py:48-53 | the prompt alone without a truthy caption; otherwise the prompt, the context sentence and the caption, in that order |
| Responder.ProcessPhoto | src/services/chatgpt_responder.py:29-77 | a key failure exits before the image is used; otherwise the request is well formed and carries the key, the generated prompt and the base64 image |
| Responder.ProcessPhotoFailsOnKeyAlone | src/services/chatgpt_responder.py:29-45 | whether the request can be built depends on the key file alone, whatever the image, prompt and caption |
| RunApp.ShownDestination | run_app.py:498 | an empty destination is shown as `Not specified` |
| RunApp.ConfirmAndRun | run_app.py:483-501 | an empty stripped prompt is refused first, then an empty source; otherwise the question is asked |
| RunApp.Question | run_app.py:496-501 | the question starts with the source line and the destination line, and ends with an empty line and the warning when the folders are equal |
| RunApp.ConfirmationLines | run_app.py:496-501 | the first two lines show the source and the destination; the warning is among the lines exactly when the folders are equal |
| RunApp.ConfirmationShowsFolders | run_app.py:496-501 | read line by line, the question shows the source, the destination and, after an empty line, the warning exactly when the folders are equal |
| RunApp.QuestionJoinsLines | run_app.py:496-501 | the question is its lines joined with line feeds |
| RunApp.DateStampHasNoSeparator | run_app.py:453 | a date stamp never holds `"; "` |
| RunApp.SaveAppSettings | run_app.py:446-455 | an empty key shows the error but is still written; the record written is exactly the date, `"; "` and the stripped key |
| RunApp.KeyRecordRoundTrip | run_app.py:446-455 | the key read back from the saved record is the stripped key entered, when it holds no `"; "` |
| RunApp.GetOpenaiKeyDate | run_app.py:431-438 | an empty record gives the no-key text; otherwise the lead text followed by the text before the first `"; "` of the record (all of it without one); a read failure gives nothing |
| RunApp.KeyDateOfRecord | run_app.py:431-436 | the saved record shows the date it was saved on |
| RunApp.RunAddMetadata | run_app.py:588-600 | the batch ends as `add_metadata` for the stripped prompt, the folders as entered and the author |
| RunApp.RunGenerateCsv | run_app.py:608-617 | the ledger is the one `write_data_to_csv` gives for the stripped prompt and the folders as entered |
| PathManager.StorageTail | src/data/path_manager.py:19-25 | each layout's tail is a directory that starts and ends with a separator |
| PathManager.AppStorage | src/data/path_manager.py:8-29 | a relative file name lands in the home directory, then the layout's folder for the system, then the name |
| PathManager.DataFilePath | src/data/path_manager.py:32-52 | bundled, the per-user storage path; otherwise `src/data/<name>` |
| PathManager.StorageSeparatesLayouts | src/data/path_manager.py:19-29 | two systems share a storage path only when they share a layout |
| OsPath.Join | src/data/path_manager.py:29 | an absolute second part replaces the first; otherwise the result is the first part, at most one character, and the second part, and that character is a separator whenever the first part is non-empty |
| OsPath.TrimSlashes | src/data/path_manager.py:20 | the result is a prefix of the home directory that does not end with a slash, and everything cut off is slashes |
| OsPath.ExpandHome | src/data/path_manager.py:20-25 | `~/` becomes the home directory without trailing slashes; other paths are kept |
| Text.Strip | src/services/img_metadata_reader.py:75 | the result is the argument with whitespace cut from both ends |
| Text.StripCharacterised | src/services/img_metadata_reader.py:75 | there is exactly one stripped form, and `strip()` gives it |
| Text.StripNoEdge | src/services/chatgpt_responder.py:32 | a string without edge whitespace is unchanged by `strip()` |
| Text.StripIdempotent | run_app.py:446 | stripping twice is stripping once |
| Text.StrippedKeepsAbsence | src/services/chatgpt_responder.py:32 | stripping cannot create an occurrence of a pattern |
| Text.IndexOf | src/services/img_metadata_reader.py:69 | the leftmost occurrence at or after the start, or none at all |
| Text.Split | src/services/chatgpt_responder.py:32 | the pieces join back into the string and none holds the separator |
| Text.SplitAfterHead | src/services/chatgpt_responder.py:32 | a head without `"; "` is the first piece of `head + "; " + rest` |
| Text.SplitSemicolonPair | run_app.py:434 | `"a; b"` splits into `a` and `b` when neither holds the separator |
| Text.Words | src/services/check_access.py:61 | the words are non-empty and hold no whitespace |
| Text.WordsAfterWord | src/services/check_access.py:61 | a word followed by whitespace is the first of the words |
| Text.WordsAfterSpace | src/services/check_access.py:61 | leading whitespace does not change the words |
| Text.SplitLines | src/services/check_access.py:59 | no line holds a line break |
| Text.SplitLinesOfJoin | src/services/check_access.py:59 | lines joined with line feeds are split back into the same lines |
| Text.Lower | src/services/check_access.py:88 | each character is lower-cased in place |
| Text.ParseInt | src/services/check_access.py:62 | a parsed token starts with a digit or a sign |
| Text.Decimal | src/services/check_access.py:62 | a decimal spelling is a non-empty run of digits |
| Text.ParseDecimal | src/services/check_access.py:62 | `int()` reads back the decimal spelling of every natural number |

## Left out

- Directories are not modelled: `os.makedirs` for the destination (src/image_describer.py:87-88, src/csv_generator.py:71-72, src/data/path_manager.py:27) is left out, and a path exists when it has bytes.
- `filter_files_by_extension`, `parse_response` and `execution_timer` are not part of this model. The filtered names are a parameter `files`. The service call together with `parse_response` is the oracle `Env.respond` (a description, or an exception). The timer's report is the `Finished`/`Written` counts.
- The HTTP request itself, base64 encoding (a function parameter), `exiftool` (its output per file, or an exception), `lsof` (its output per path), the `psutil` snapshot, `platform.system()` and `normcase(abspath(...))` are parameters of `Env`.
- Where a step raises is an oracle `Env.fails(step, item)` over the steps that can raise: open source, create temp, copy, `save_as`, move, open CSV.
- The IPTC codec is reduced to a map of dataset names per file. `save_as` writes the container into the file's entry. Its own `temp~` backup and the `destination~` it can leave are only represented by the removal of `destination~`.
- Temporary names are one per item (`TempFile(i)`), apart from the user's folders. A name already in use is modelled as a failing creation, not as a retry.
- A failing `os.remove` inside `remove_backup_file` or the `finally` block (swallowed, or raising) is not modelled. A failing final `os.remove(image_path)` is modelled only for an already missing source (`SourceMissing`).
- Logging text, log levels, timing (`perf_counter`), `time.sleep` durations beyond the pause events, and the GUI, threads and windows of `run_app.py` are left out. So is `save_prompt_message`, which writes the prompt to a file before a batch.
- `read_exif_data` is not used by either batch and is left out. So are `__str__` and the logger configuration.
- The CSV file's bytes are not on the model disk, and csv quoting is not modelled. A row is its list of fields. Only the failure to open the CSV file is modelled, not a failure of a later `writerow`.
- The clock is a parameter: the date stamp `now` of the CSV name and `date` of the key record.
- Text.Lower and Text.ParseInt: only ASCII letters are lower-cased, and only ASCII digits are read. Python also folds and reads other Unicode letters and digits.
- OsPath.Join and OsPath.ExpandHome follow POSIX rules. Windows drive letters and backslashes are not modelled.
- CheckAccess.ReleaseLocks: an exception from the lock release (`lsof` missing, a line with fewer than two columns, a pid `int()` refuses) is not caught by `add_metadata`, because the call sits outside its `try`. The model ends the batch (`LockFailed`) and does not log and continue. A CalledProcessError with another exit code is caught and logged, as in the code.
- Failing to reach the service is an ordinary per-item failure in the code (an Exception caught by the item's `except`). Only an unreadable key ends the batch (`sys.exit(1)` inside `process_photo`), and the model follows the code.
- Conclude: a path is its string, so two different strings are two different files. The code decides whether to delete the source with the string test `image_path != destination_path` (src/image_describer.py:153). Two different strings can name one file: folders that differ only in letter case on a case-insensitive volume, or a folder reached through a symbolic link. There `shutil.move` puts the committed copy over the source, and `os.remove(image_path)` then deletes it, so the photo is lost. The model does not capture that loss.
- ProcessedItemCommits: promises the committed file at the destination only under the same reading, distinct strings as distinct files (see Conclude).
- SourceRemovedOnlyAfterCommit: compares source and destination as strings, as the code does, and so says nothing about two strings naming one file (see Conclude).
- Annotate: `shutil.move` is modelled as all-or-nothing, so a failing move leaves the destination unchanged. Across file systems (the temporary directory is often on another one) the move is a copy followed by an unlink. A copy that fails midway can leave a truncated destination, which is the source itself when the two folders are the same. An unlink that fails after a complete copy leaves the destination replaced while the item counts as failed. TryItemKeeps and FailedItemKeepsFiles inherit this.
- Storage.Volume.MoveFile: models a completed move only; a move interrupted between its copy and its unlink is not represented (see Annotate).
- CheckAccess.Terminate: `process.wait()` has no timeout (src/services/check_access.py:105), so a process that ignores the termination signal blocks the batch for ever; the model takes it as stopped. `psutil.Process` refuses a negative pid with a ValueError that escapes; the model logs it as already gone. `process.name()` after the wait can raise NoSuchProcess, which logs the already-gone warning instead of the termination; the model logs the termination.
