/**
 * The CSV batch of `src/csv_generator.py`: for every image of the source folder, ask for
 * a title, a description and keywords (with the image's caption as context) and write
 * one row `image_name, title, description, keywords` to a CSV file named after the
 * current time in the destination folder. The images themselves are only read.
 *
 * `RowsOf` is the loop over the images as a specification; the class `CsvGenerator`
 * runs it with a `CsvWriter` and is proved to write exactly the header and those rows.
 */
module CsvGenerator {
  import opened Wrappers
  import opened Text
  import opened Storage
  import opened Pipeline
  import OsPath
  import Responder

  const Header: seq<string> := ["image_name", "title", "description", "keywords"]

  /** `[image_name, title, description, ','.join(keywords)]`. */
  function RowOf(name: string, d: Description): (row: seq<string>)
    ensures |row| == 4 && row[0] == name && row[1] == d.title && row[2] == d.description
    ensures d.keywords != [] && (forall k :: 0 <= k < |d.keywords| ==> !Contains(d.keywords[k], ",")) ==>
      Split(row[3], ",") == d.keywords
  {
    var cell := JoinWith(",", d.keywords);
    assert d.keywords != [] && (forall k :: 0 <= k < |d.keywords| ==> !Contains(d.keywords[k], ",")) ==>
      Split(cell, ",") == d.keywords by {
      if d.keywords != [] && (forall k :: 0 <= k < |d.keywords| ==> !Contains(d.keywords[k], ",")) {
        KeywordsCellRoundTrip(d.keywords);
      }
    }
    [name, d.title, d.description, JoinWith(",", d.keywords)]
  }

  /** The keywords cell, split at commas, gives back the keywords when none holds a comma. */
  lemma {:induction false} KeywordsCellRoundTrip(keywords: seq<string>)
    requires keywords != []
    requires forall k :: 0 <= k < |keywords| ==> !Contains(keywords[k], ",")
    ensures Split(JoinWith(",", keywords), ",") == keywords
  {
    if |keywords| == 1 {
      assert IndexOf(keywords[0], ",", 0).None?;
    } else {
      KeywordsCellRoundTrip(keywords[1..]);
      SplitAfterComma(keywords[0], JoinWith(",", keywords[1..]));
    }
  }

  /** A comma-free `a` is the first piece of `a + "," + b`. */
  lemma SplitAfterComma(a: string, b: string)
    requires !Contains(a, ",")
    ensures Split(a + "," + b, ",") == [a] + Split(b, ",")
  {
    var s := a + "," + b;
    assert OccursAt(s, ",", |a|) by { assert s[|a|..|a| + 1] == ","; }
    forall k | 0 <= k < |a| ensures !OccursAt(s, ",", k) {
      assert s[k..k + 1] == a[k..k + 1];
      assert !OccursAt(a, ",", k);
    }
    assert IndexOf(s, ",", 0) == Some(|a|);
    assert s[..|a|] == a && s[|a| + 1..] == b;
  }

  /** What one image gives: a row, nothing (an Exception was logged), or the exit of the program. */
  datatype ItemAnswer = Row(row: seq<string>) | NoRow | Exit(error: Responder.KeyError)

  /**
   * The body of the inner `try` for the `i`-th image `name`: open it, read its caption,
   * ask for a description and build its row.
   */
  function ItemRow(prompt: string, src: string, env: Env, vol: Volume, i: nat, name: string): (r: ItemAnswer)
    ensures r.Row? ==>
      && File(OsPath.Join(src, name)) in vol.data
      && var image := File(OsPath.Join(src, name));
         var answer := Describe(env, vol.data[image], prompt, CaptionFor(env, vol, image));
         answer.Described? && r.row == RowOf(name, answer.d)
    ensures r.Exit? ==> Responder.ReadKey(env.keyFile) == Err(r.error)
  {
    var image := File(OsPath.Join(src, name));
    if image !in vol.data || env.fails(OpenSource, i) then NoRow
    else match Describe(env, vol.data[image], prompt, CaptionFor(env, vol, image))
      case Described(d) => Row(RowOf(name, d))
      case NotDescribed => NoRow
      case KeyFailure(e) => Exit(e)
  }

  /** What the `j`-th image of `names` gives; past the list, nothing. */
  function AnswersOf(prompt: string, src: string, env: Env, vol: Volume, names: seq<string>): (answerOf: nat -> ItemAnswer)
    ensures forall j: nat {:trigger ItemRow(prompt, src, env, vol, j, names[j])} ::
      j < |names| ==> answerOf(j) == ItemRow(prompt, src, env, vol, j, names[j])
  {
    (j: nat) => if j < |names| then ItemRow(prompt, src, env, vol, j, names[j]) else NoRow
  }

  /**
   * The loop over the images so far: the rows written, the indices of the images they
   * came from, how many images were gone through, and the exit if one happened.
   */
  datatype RowsResult = RowsResult(rows: seq<seq<string>>, taken: seq<nat>, seen: nat, exited: Option<Responder.KeyError>)

  /** The loop of `write_data_to_csv` over the first `n` answers: rows are written until an exit. */
  function Collect(answerOf: nat -> ItemAnswer, n: nat): (r: RowsResult)
    ensures |r.rows| == |r.taken| <= r.seen <= n
    ensures r.exited.None? <==> r.seen == n
  {
    if n == 0 then RowsResult([], [], 0, None)
    else
      var prev := Collect(answerOf, n - 1);
      if prev.exited.Some? then prev else Extend(prev, n - 1, answerOf(n - 1))
  }

  /** The `i`-th answer after a loop that has not exited. */
  function Extend(prev: RowsResult, i: nat, answer: ItemAnswer): (r: RowsResult)
    ensures r.exited.Some? <==> answer.Exit?
    ensures r.seen == if answer.Exit? then i else i + 1
    ensures answer.Row? ==> r.rows == prev.rows + [answer.row] && r.taken == prev.taken + [i]
    ensures !answer.Row? ==> r.rows == prev.rows && r.taken == prev.taken
  {
    match answer
    case Row(row) => RowsResult(prev.rows + [row], prev.taken + [i], i + 1, None)
    case NoRow => RowsResult(prev.rows, prev.taken, i + 1, None)
    case Exit(e) => RowsResult(prev.rows, prev.taken, i, Some(e))
  }

  /** The loop over the image names `names`. */
  function RowsOf(prompt: string, src: string, env: Env, vol: Volume, names: seq<string>): (r: RowsResult)
    ensures |r.rows| == |r.taken| <= r.seen <= |names|
    ensures r.exited.None? <==> r.seen == |names|
  {
    Collect(AnswersOf(prompt, src, env, vol, names), |names|)
  }

  /** One more turn of the loop, from `i` answers gone through without an exit. */
  lemma CollectNext(answerOf: nat -> ItemAnswer, n: nat, i: nat, rows: seq<seq<string>>, taken: seq<nat>)
    requires i < n && Collect(answerOf, i) == RowsResult(rows, taken, i, None)
    ensures answerOf(i).Row? ==> Collect(answerOf, i + 1) == RowsResult(rows + [answerOf(i).row], taken + [i], i + 1, None)
    ensures answerOf(i).NoRow? ==> Collect(answerOf, i + 1) == RowsResult(rows, taken, i + 1, None)
    ensures answerOf(i).Exit? ==> Collect(answerOf, n) == RowsResult(rows, taken, i, Some(answerOf(i).error))
  {
    if answerOf(i).Exit? {
      CollectStopped(answerOf, i + 1, n);
    }
  }

  /** After the exit, later answers change nothing. */
  lemma {:induction false} CollectStopped(answerOf: nat -> ItemAnswer, k: nat, n: nat)
    requires k <= n
    requires Collect(answerOf, k).exited.Some?
    ensures Collect(answerOf, n) == Collect(answerOf, k)
    decreases n
  {
    if k < n {
      CollectStopped(answerOf, k, n - 1);
    }
  }

  /** Rows come from the answers in order, from rows only, and from each row given before the first exit. */
  ghost predicate CollectedFrom(answerOf: nat -> ItemAnswer, r: RowsResult) {
    && |r.rows| == |r.taken|
    && (forall k :: 0 <= k < |r.taken| ==> r.taken[k] < r.seen && answerOf(r.taken[k]) == Row(r.rows[k]))
    && (forall k, l :: 0 <= k < l < |r.taken| ==> r.taken[k] < r.taken[l])
    && (forall j :: 0 <= j < r.seen ==> (answerOf(j).Row? <==> j in r.taken))
    && (forall j :: 0 <= j < r.seen ==> !answerOf(j).Exit?)
    && (r.exited.Some? ==> answerOf(r.seen) == Exit(r.exited.value))
  }

  lemma {:induction false} CollectCharacterised(answerOf: nat -> ItemAnswer, n: nat)
    ensures CollectedFrom(answerOf, Collect(answerOf, n))
  {
    if n > 0 {
      CollectCharacterised(answerOf, n - 1);
      var prev := Collect(answerOf, n - 1);
      if prev.exited.None? {
        ExtendCollected(answerOf, prev, n - 1);
      }
    }
  }

  /** One more answer after a loop that has not exited keeps `CollectedFrom`. */
  lemma ExtendCollected(answerOf: nat -> ItemAnswer, prev: RowsResult, i: nat)
    requires prev.exited.None? && prev.seen == i && CollectedFrom(answerOf, prev)
    ensures CollectedFrom(answerOf, Extend(prev, i, answerOf(i)))
  {
    match answerOf(i)
    case Row(row) =>
      CollectedAfterRow(answerOf, prev, i, row);
    case NoRow =>
      CollectedAfterNoRow(answerOf, prev, i, Extend(prev, i, answerOf(i)));
    case Exit(e) =>
      CollectedAfterNoRow(answerOf, prev, i, Extend(prev, i, answerOf(i)));
  }

  lemma CollectedAfterRow(answerOf: nat -> ItemAnswer, prev: RowsResult, i: nat, row: seq<string>)
    requires answerOf(i) == Row(row)
    requires prev.exited.None? && prev.seen == i && CollectedFrom(answerOf, prev)
    ensures CollectedFrom(answerOf, RowsResult(prev.rows + [row], prev.taken + [i], i + 1, None))
  {
    var r := RowsResult(prev.rows + [row], prev.taken + [i], i + 1, None);
    forall k | 0 <= k < |r.taken| ensures r.taken[k] < r.seen && answerOf(r.taken[k]) == Row(r.rows[k]) {
      if k < |prev.taken| {
        assert r.taken[k] == prev.taken[k] && r.rows[k] == prev.rows[k];
      }
    }
    forall k, l | 0 <= k < l < |r.taken| ensures r.taken[k] < r.taken[l] {
      assert r.taken[k] == prev.taken[k];
      if l < |prev.taken| {
        assert r.taken[l] == prev.taken[l];
      }
    }
    forall j | 0 <= j < r.seen ensures answerOf(j).Row? <==> j in r.taken {
      if j < i {
        assert j in r.taken <==> j in prev.taken;
      } else {
        assert r.taken[|r.taken| - 1] == j;
      }
    }
  }

  lemma CollectedAfterNoRow(answerOf: nat -> ItemAnswer, prev: RowsResult, i: nat, r: RowsResult)
    requires !answerOf(i).Row?
    requires prev.exited.None? && prev.seen == i && CollectedFrom(answerOf, prev)
    requires r.rows == prev.rows && r.taken == prev.taken
    requires answerOf(i).NoRow? ==> r.seen == i + 1 && r.exited.None?
    requires answerOf(i).Exit? ==> r.seen == i && r.exited == Some(answerOf(i).error)
    ensures CollectedFrom(answerOf, r)
  {
    forall j | 0 <= j < r.seen ensures answerOf(j).Row? <==> j in r.taken {
      if j == i {
        assert forall k :: 0 <= k < |prev.taken| ==> prev.taken[k] < i;
      }
    }
  }

  /**
   * The rows of the loop come from the images in order, from those images only, and
   * from each of the images gone through that was described; the loop stops at the
   * first exit.
   */
  lemma RowsOfFromImages(prompt: string, src: string, env: Env, vol: Volume, names: seq<string>)
    ensures var r := RowsOf(prompt, src, env, vol, names);
      && (forall k :: 0 <= k < |r.taken| ==>
            r.taken[k] < r.seen && ItemRow(prompt, src, env, vol, r.taken[k], names[r.taken[k]]) == Row(r.rows[k]))
      && (forall k, l :: 0 <= k < l < |r.taken| ==> r.taken[k] < r.taken[l])
      && (forall j :: 0 <= j < r.seen ==> (ItemRow(prompt, src, env, vol, j, names[j]).Row? <==> j in r.taken))
      && (forall j :: 0 <= j < r.seen ==> !ItemRow(prompt, src, env, vol, j, names[j]).Exit?)
      && (r.exited.Some? ==> ItemRow(prompt, src, env, vol, r.seen, names[r.seen]) == Exit(r.exited.value))
  {
    var answerOf := AnswersOf(prompt, src, env, vol, names);
    CollectCharacterised(answerOf, |names|);
    assert forall j :: 0 <= j < |names| ==> answerOf(j) == ItemRow(prompt, src, env, vol, j, names[j]);
  }

  /** `os.path.join(dst_path, f"{current_datetime}.csv")`. */
  function CsvPath(dst: string, now: string): (path: string)
    ensures EndsWith(path, now + ".csv")
    ensures !StartsWith(now, "/") ==> StartsWith(path, dst) && |path| <= |dst| + 1 + |now| + 4
    ensures !StartsWith(now, "/") && dst != [] ==> |now| + 4 < |path| && path[|path| - |now| - 5] == '/'
  {
    var name := now + ".csv";
    assert !StartsWith(now, "/") ==> !StartsWith(name, "/") by {
      if now == [] { assert name[0] == '.'; } else { assert name[0] == now[0]; }
    }
    OsPath.Join(dst, now + ".csv")
  }

  /** How `write_data_to_csv` ends. */
  datatype Report =
    | NoImages                                                           // sys.exit(1) before any file
    | CannotOpen(path: string)                                           // "Failed to create CSV file"
    | Exited(path: string, lines: seq<seq<string>>, error: Responder.KeyError)  // sys.exit(1) in process_photo
    | Written(path: string, lines: seq<seq<string>>, processed: nat, unprocessed: nat)

  /** `write_data_to_csv` over the filtered image names `files`, at the time `now`, with `dst` the destination folder already resolved. */
  function WriteDataToCsvOf(prompt: string, src: string, dst: string, env: Env, vol: Volume,
                            files: seq<string>, now: string): (r: Report)
    ensures files == [] <==> r.NoImages?
    ensures r.CannotOpen? <==> files != [] && env.fails(OpenCsv, 0)
    ensures r.Written? ==>
      && r.path == CsvPath(dst, now)
      && |r.lines| == r.processed + 1 && r.lines[0] == Header
      && r.processed + r.unprocessed == |files|
  {
    if files == [] then NoImages
    else
      var path := CsvPath(dst, now);
      if env.fails(OpenCsv, 0) then CannotOpen(path)
      else
        var result := RowsOf(prompt, src, env, vol, files);
        if result.exited.Some? then Exited(path, [Header] + result.rows, result.exited.value)
        else Written(path, [Header] + result.rows, |result.rows|, |files| - |result.rows|)
  }

  /**
   * A finished CSV holds, after the header, one row per image that was described, in the
   * order of the images; an image that cannot be opened gives no row, and the processed
   * count is the number of such rows.
   */
  lemma WrittenRowsAreDescribedImages(prompt: string, src: string, dst: string, env: Env, vol: Volume,
                                      files: seq<string>, now: string)
    requires WriteDataToCsvOf(prompt, src, dst, env, vol, files, now).Written?
    ensures var r := WriteDataToCsvOf(prompt, src, dst, env, vol, files, now);
      var rows := RowsOf(prompt, src, env, vol, files);
      && r.lines == [Header] + rows.rows
      && r.processed == |rows.taken|
      && (forall j :: 0 <= j < |files| ==> (ItemRow(prompt, src, env, vol, j, files[j]).Row? <==> j in rows.taken))
      && (forall j :: 0 <= j < |files| && File(OsPath.Join(src, files[j])) !in vol.data ==> j !in rows.taken)
  {
    RowsOfFromImages(prompt, src, env, vol, files);
  }

  /** Without a usable key the first image ends the program and the CSV holds only the header. */
  lemma KeyFailureLeavesHeaderOnly(prompt: string, src: string, dst: string, env: Env, vol: Volume,
                                   files: seq<string>, now: string)
    requires files != [] && !env.fails(OpenCsv, 0) && Responder.ReadKey(env.keyFile).Err?
    requires File(OsPath.Join(src, files[0])) in vol.data && !env.fails(OpenSource, 0)
    ensures WriteDataToCsvOf(prompt, src, dst, env, vol, files, now)
      == Exited(CsvPath(dst, now), [Header], Responder.ReadKey(env.keyFile).error)
  {
    RowsOfFromImages(prompt, src, env, vol, files);
    var r := RowsOf(prompt, src, env, vol, files);
    assert ItemRow(prompt, src, env, vol, 0, files[0]).Exit?;
    assert r.seen == 0;
  }

  /** A csv.writer on the open file: the rows written so far. */
  class CsvWriter {
    var rows: seq<seq<string>>

    constructor ()
      ensures rows == []
    {
      rows := [];
    }

    method WriteRow(row: seq<string>)
      modifies this
      ensures rows == old(rows) + [row]
    {
      rows := rows + [row];
    }
  }

  class CsvGenerator {
    const prompt: string
    const srcPath: string
    const dstPath: string

    /** `__init__`: an empty destination means the source folder. */
    constructor (prompt: string, srcPath: string, dstPath: string)
      ensures this.prompt == prompt && this.srcPath == srcPath
      ensures this.dstPath == DestinationDir(srcPath, dstPath)
    {
      this.prompt := prompt;
      this.srcPath := srcPath;
      this.dstPath := DestinationDir(srcPath, dstPath);
    }

    /**
     * `write_data_to_csv` over the filtered image names `files`, at the time `now`. The
     * disk is only read; the rows go to a new writer.
     */
    method WriteDataToCsv(disk: Disk, env: Env, files: seq<string>, now: string) returns (report: Report)
      ensures report == WriteDataToCsvOf(prompt, srcPath, dstPath, env, disk.View(), files, now)
    {
      if files == [] {
        return NoImages;
      }
      var path := CsvPath(dstPath, now);
      if env.fails(OpenCsv, 0) {
        return CannotOpen(path);
      }
      var writer := new CsvWriter();
      writer.WriteRow(Header);
      var answerOf := AnswersOf(prompt, srcPath, env, disk.View(), files);
      var processed, exit := WriteRows(writer, answerOf, |files|);
      ghost var result := RowsOf(prompt, srcPath, env, disk.View(), files);
      assert result == Collect(answerOf, |files|);
      assert writer.rows == [Header] + result.rows && processed == |result.rows| && exit == result.exited;
      ghost var spec := WriteDataToCsvOf(prompt, srcPath, dstPath, env, disk.View(), files, now);
      if exit.Some? {
        assert spec == Exited(path, writer.rows, exit.value);
        return Exited(path, writer.rows, exit.value);
      }
      report := Written(path, writer.rows, processed, |files| - processed);
      assert spec == report;
    }
  }

  /**
   * The `for` loop over `n` images, the `i`-th of which gives `answerOf(i)`: each row is
   * written as it comes, and an exit ends the loop.
   */
  method WriteRows(writer: CsvWriter, answerOf: nat -> ItemAnswer, n: nat) returns (processed: nat, exit: Option<Responder.KeyError>)
    modifies writer
    ensures var r := Collect(answerOf, n);
      writer.rows == old(writer.rows) + r.rows && processed == |r.rows| && exit == r.exited
  {
    processed := 0;
    var taken: seq<nat> := [];
    ghost var rows: seq<seq<string>> := [];
    var i := 0;
    while i < n
      invariant 0 <= i <= n
      invariant writer.rows == old(writer.rows) + rows
      invariant Collect(answerOf, i) == RowsResult(rows, taken, i, None)
      invariant processed == |rows|
    {
      var answer := answerOf(i);
      CollectNext(answerOf, n, i, rows, taken);
      if answer.Exit? {
        return processed, Some(answer.error);
      }
      if answer.Row? {
        writer.WriteRow(answer.row);
        rows := rows + [answer.row];
        taken := taken + [i];
        processed := processed + 1;
      }
      i := i + 1;
    }
    exit := None;
  }
}
