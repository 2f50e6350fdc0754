/**
 * The checks and texts of the desktop front end (`run_app.py`) that decide what reaches
 * the pipeline: the run confirmation, the stored API-key record and its date line, and
 * the arguments handed to the two batches.
 */
module RunApp {
  import opened Wrappers
  import opened Text
  import Responder
  import Storage
  import Pipeline
  import CheckAccess
  import ImageDescriber
  import CsvGenerator

  // ---------------------------------------------------------------- confirm_and_run

  const PromptRequired := "Prompt is required."
  const SourceRequired := "Source folder is required."
  const SourceLabel := "Source Folder: "
  const DestinationLabel := "Destination Folder: "
  const NotSpecified := "Not specified"
  /** The overwrite warning, in three pieces. */
  const OverwriteWarning := WarningStart + WarningMiddle + WarningEnd
  const WarningStart := "Warning: Files may be overwritten "
  const WarningMiddle := "as source and destination folders "
  const WarningEnd := "are the same."

  /** What the user sees: an error box, or the question whether to start. */
  datatype Confirmation = Refused(error: string) | Confirm(message: string)

  /** The destination as shown: the folder, or `Not specified` for an empty one. */
  function ShownDestination(dst: string): (r: string)
    ensures dst != [] ==> r == dst
    ensures dst == [] ==> r == NotSpecified
  {
    if dst != [] then dst else NotSpecified
  }

  /**
   * `confirm_and_run`: the stripped prompt is checked first, then the source folder; the
   * question names both folders and adds the overwrite warning when they are the same.
   */
  function ConfirmAndRun(promptText: string, src: string, dst: string): (r: Confirmation)
    ensures Strip(promptText) == [] ==> r == Refused(PromptRequired)
    ensures Strip(promptText) != [] && src == [] ==> r == Refused(SourceRequired)
    ensures r.Confirm? <==> Strip(promptText) != [] && src != []
  {
    if Strip(promptText) == [] then Refused(PromptRequired)
    else if src == [] then Refused(SourceRequired)
    else Confirm(Question(src, dst))
  }

  /** The confirmation question for two folders. */
  function Question(src: string, dst: string): (q: string)
    ensures StartsWith(q, SourceLabel + src + "\n" + DestinationLabel + ShownDestination(dst))
    ensures src == dst ==> EndsWith(q, "\n\n" + OverwriteWarning)
  {
    var msg := SourceLabel + src + "\n" + DestinationLabel + ShownDestination(dst);
    if src == dst then msg + "\n\n" + OverwriteWarning else msg
  }

  /** The lines of the confirmation question: the two folders, then the warning exactly when they are the same. */
  function ConfirmationLines(src: string, dst: string): (lines: seq<string>)
    ensures |lines| >= 2 && lines[0] == SourceLabel + src && lines[1] == DestinationLabel + ShownDestination(dst)
    ensures OverwriteWarning in lines <==> src == dst
  {
    assert (SourceLabel + src)[0] == 'S' && (DestinationLabel + ShownDestination(dst))[0] == 'D';
    assert OverwriteWarning[0] == (WarningStart + WarningMiddle)[0] == WarningStart[0] == 'W';
    [SourceLabel + src, DestinationLabel + ShownDestination(dst)]
      + (if src == dst then ["", OverwriteWarning] else [])
  }

  lemma LabelsHaveNoBreak()
    ensures !HasLineBreak(SourceLabel) && !HasLineBreak(DestinationLabel)
    ensures !HasLineBreak(NotSpecified) && !HasLineBreak(OverwriteWarning)
  {
    FolderLabelsHaveNoBreak();
    WarningHasNoBreak();
  }

  lemma FolderLabelsHaveNoBreak()
    ensures !HasLineBreak(SourceLabel) && !HasLineBreak(DestinationLabel) && !HasLineBreak(NotSpecified)
  {
  }

  lemma WarningHasNoBreak()
    ensures !HasLineBreak(OverwriteWarning)
  {
    WarningStartHasNoBreak();
    WarningMiddleHasNoBreak();
    NoBreakInConcat(WarningStart, WarningMiddle);
    NoBreakInConcat(WarningStart + WarningMiddle, WarningEnd);
  }

  lemma WarningStartHasNoBreak()
    ensures !HasLineBreak(WarningStart)
  {
  }

  lemma WarningMiddleHasNoBreak()
    ensures !HasLineBreak(WarningMiddle)
  {
  }

  lemma WarningEndHasNoBreak()
    ensures !HasLineBreak(WarningEnd)
  {
  }

  lemma NoBreakInConcat(a: string, b: string)
    requires !HasLineBreak(a) && !HasLineBreak(b)
    ensures !HasLineBreak(a + b)
  {
    forall j | 0 <= j < |a + b| ensures !IsLineBreak((a + b)[j]) {
      if j < |a| { assert (a + b)[j] == a[j]; } else { assert (a + b)[j] == b[j - |a|]; }
    }
  }

  /**
   * Read line by line, the question shows the source folder, then the destination (or
   * `Not specified`), and then, after an empty line, the warning exactly when the two
   * folders are the same.
   */
  lemma ConfirmationShowsFolders(promptText: string, src: string, dst: string)
    requires Strip(promptText) != [] && src != []
    requires !HasLineBreak(src) && !HasLineBreak(dst)
    ensures ConfirmAndRun(promptText, src, dst).Confirm?
    ensures SplitLines(ConfirmAndRun(promptText, src, dst).message) == ConfirmationLines(src, dst)
  {
    var lines := ConfirmationLines(src, dst);
    QuestionJoinsLines(src, dst);
    LabelsHaveNoBreak();
    NoBreakInConcat(SourceLabel, src);
    NoBreakInConcat(DestinationLabel, ShownDestination(dst));
    assert forall i :: 0 <= i < |lines| ==> !HasLineBreak(lines[i]);
    SplitLinesOfJoin(lines);
  }

  /** The question is its lines joined with line feeds. */
  lemma QuestionJoinsLines(src: string, dst: string)
    ensures Question(src, dst) == JoinWith("\n", ConfirmationLines(src, dst))
  {
    var first := SourceLabel + src;
    var second := DestinationLabel + ShownDestination(dst);
    ConcatAssoc(first + "\n", DestinationLabel, ShownDestination(dst));
    if src == dst {
      assert ConfirmationLines(src, dst) == [first, second, "", OverwriteWarning];
      JoinFour(first, second, OverwriteWarning);
    } else {
      assert ConfirmationLines(src, dst) == [first, second];
      JoinTwo(first, second);
    }
  }

  lemma ConcatAssoc(a: string, b: string, c: string)
    ensures a + (b + c) == a + b + c
  {
  }

  lemma JoinTwo(a: string, b: string)
    ensures JoinWith("\n", [a, b]) == a + "\n" + b
  {
    assert [a, b][1..] == [b];
  }

  lemma JoinFour(a: string, b: string, w: string)
    ensures JoinWith("\n", [a, b, "", w]) == a + "\n" + b + "\n\n" + w
  {
    var last := ["", w];
    assert last[1..] == [w];
    assert JoinWith("\n", last) == "\n" + w;
    assert [b, "", w][1..] == last;
    assert JoinWith("\n", [b, "", w]) == b + "\n" + ("\n" + w);
    assert [a, b, "", w][1..] == [b, "", w];
    assert JoinWith("\n", [a, b, "", w]) == a + "\n" + (b + "\n" + ("\n" + w));
    assert "\n\n" == "\n" + "\n";
  }

  // ---------------------------------------------------------------- the key record

  /** `datetime.now().strftime('%d/%m/%Y %H:%M:%S')`: two digits, `/`, two digits, `/`, four digits, a space, and the time. */
  predicate IsDateStamp(d: string) {
    && |d| == 19
    && forall i :: 0 <= i < 19 ==>
      if i == 2 || i == 5 then d[i] == '/'
      else if i == 10 then d[i] == ' '
      else if i == 13 || i == 16 then d[i] == ':'
      else IsDigit(d[i])
  }

  lemma DateStampHasNoSeparator(d: string)
    requires IsDateStamp(d)
    ensures !Contains(d, Responder.Separator)
  {
    forall k | 0 <= k <= |d| - 2 ensures !OccursAt(d, Responder.Separator, k) {
      assert d[k..k + 2][0] == d[k] != ';';
    }
  }

  /** What `save_app_settings` does with the entered key. */
  datatype Saved = Saved(errorShown: bool, written: Option<string>)

  /**
   * `save_app_settings`: an empty (stripped) key shows an error but the record
   * `"<date>; <key>"` is still written; `canWrite` is whether opening the file succeeds.
   */
  function SaveAppSettings(date: string, entered: string, canWrite: bool): (r: Saved)
    ensures r.errorShown <==> Strip(entered) == []
    ensures r.written.Some? <==> canWrite
    ensures canWrite ==> StartsWith(r.written.value, date + Responder.Separator)
    ensures canWrite ==> r.written.value == date + Responder.Separator + Strip(entered)
  {
    var key := Strip(entered);
    var record := date + Responder.Separator + key;
    assert record[..|date + Responder.Separator|] == date + Responder.Separator;
    Saved(key == [], if canWrite then Some(record) else None)
  }

  /**
   * What is written is what the pipeline reads: the key `process_photo` takes from the
   * record is the stripped key the user entered, whenever it holds no `"; "`.
   */
  lemma KeyRecordRoundTrip(date: string, entered: string)
    requires IsDateStamp(date) && !Contains(Strip(entered), Responder.Separator)
    ensures Responder.ReadKey(Responder.KeyText(SaveAppSettings(date, entered, true).written.value))
      == Ok(Strip(entered))
  {
    DateStampHasNoSeparator(date);
    StripIdempotent(entered);
    StripNoEdge(Strip(entered));
    Responder.ParseKeyOfRecord(date, Strip(entered));
  }

  const KeyDateLead := "Last updated OpenAI API Key from "
  const NoKey := "No OpenAI API Key available"

  /**
   * `get_openai_key_date`: the text before the first `"; "` of the stored record, or
   * `No OpenAI API Key available` for an empty file; `None` when reading raised (the
   * method then returns nothing).
   */
  function GetOpenaiKeyDate(file: Responder.KeyFile): (r: Option<string>)
    ensures !file.KeyText? ==> r.None?
    ensures file.KeyText? && file.contents == [] ==> r == Some(NoKey)
    ensures file.KeyText? && file.contents != [] ==>
      r.Some? && StartsWith(r.value, KeyDateLead) && StartsWith(file.contents, r.value[|KeyDateLead|..])
    ensures file.KeyText? && file.contents != [] ==>
      var d := r.value[|KeyDateLead|..];
      && !Contains(d, Responder.Separator)
      && (d == file.contents || StartsWith(file.contents, d + Responder.Separator))
  {
    match file
    case KeyText(line) =>
      var parts := Split(line, Responder.Separator);
      var date := parts[0];
      assert StartsWith(line, date) && (date == line || StartsWith(line, date + Responder.Separator)) by {
        if |parts| > 1 {
          var sep := Responder.Separator;
          assert line == date + sep + JoinWith(sep, parts[1..]);
          assert line[..|date + sep|] == date + sep;
        }
        assert line[..|date|] == date;
      }
      var info := KeyDateLead + date;
      assert info[..|KeyDateLead|] == KeyDateLead && info[|KeyDateLead|..] == date;
      Some(if line != [] then info else NoKey)
    case _ => None
  }

  /** The record that was saved shows the date it was saved on. */
  lemma KeyDateOfRecord(date: string, entered: string)
    requires IsDateStamp(date)
    ensures GetOpenaiKeyDate(Responder.KeyText(SaveAppSettings(date, entered, true).written.value))
      == Some(KeyDateLead + date)
  {
    DateStampHasNoSeparator(date);
    SplitAfterHead(date, Strip(entered));
  }

  // ---------------------------------------------------------------- starting a batch

  /**
   * `run_add_metadata`: the stripped prompt, the two folders as entered and the author
   * (`None` without an author field) configure the describer, which then runs. The batch
   * ends as `add_metadata` ends for those settings, with an empty destination standing
   * for the source folder.
   */
  method RunAddMetadata(promptText: string, src: string, dst: string, author: Option<string>,
                        disk: Storage.Disk, procs: CheckAccess.ProcessTable, env: Pipeline.Env, files: seq<string>)
    returns (report: ImageDescriber.Report)
    modifies disk, procs
    ensures ImageDescriber.BatchEnd(disk.View(), procs.State(), report)
         == ImageDescriber.AddMetadataOf(ImageDescriber.Config(Strip(promptText), src, Pipeline.DestinationDir(src, dst), author),
                                         env, procs.protected, old(disk.View()), old(procs.State()), files)
  {
    var describer := new ImageDescriber.ImagesDescriber(Strip(promptText), src, dst, author);
    report := describer.AddMetadata(disk, procs, env, files);
  }

  /**
   * `run_generate_csv`: the stripped prompt and the two folders as entered configure the
   * generator, which then runs; the images are only read.
   */
  method RunGenerateCsv(promptText: string, src: string, dst: string, disk: Storage.Disk, env: Pipeline.Env,
                        files: seq<string>, now: string)
    returns (report: CsvGenerator.Report)
    ensures report == CsvGenerator.WriteDataToCsvOf(Strip(promptText), src, Pipeline.DestinationDir(src, dst),
                                                    env, disk.View(), files, now)
  {
    var generator := new CsvGenerator.CsvGenerator(Strip(promptText), src, dst);
    report := generator.WriteDataToCsv(disk, env, files, now);
  }
}
