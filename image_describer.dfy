/**
 * The metadata batch of `src/image_describer.py`: for every image of the source folder,
 * release the locks other processes hold on it, copy it to a temporary file, ask for a
 * title, a description and keywords, write them with the author into the copy's IPTC
 * container, move the copy to the destination folder, and delete the source once the
 * copy is in place.
 *
 * The specification functions follow the code block by block: `TryItem` is the `try`
 * block (with `Annotate` for its second half), `Finally` the `finally` block, `ItemStep`
 * one turn of the loop and `Run` the loop so far; `AddMetadataOf` is the whole
 * method. The class `ImagesDescriber` runs the same steps on a `Disk` and a
 * `ProcessTable` and is proved to end in the state these functions describe.
 */
module ImageDescriber {
  import opened Wrappers
  import opened Text
  import opened Storage
  import opened Pipeline
  import OsPath
  import CheckAccess
  import Responder

  /** The describer's settings: the prompt, the two folders and the author (`None` when there is no author field). */
  datatype Config = Config(prompt: string, src: string, dst: string, author: Option<string>)

  // ---------------------------------------------------------------- remove_backup_file

  /** The backup file the IPTC library leaves next to a file it rewrote: the name with `~` appended. */
  function BackupOf(filename: string): (p: Path)
    ensures p.File? && |p.name| == |filename| + 1 && p.name[..|filename|] == filename
  {
    File(filename + "~")
  }

  /**
   * `remove_backup_file(filename)`: nothing for a missing or blank name; otherwise the
   * backup is gone afterwards and every other file is as it was.
   */
  function RemoveBackup(v: Volume, filename: Option<string>): (r: Volume)
    ensures filename.None? || Strip(filename.value) == [] ==> r == v
    ensures filename.Some? && Strip(filename.value) != [] ==> BackupOf(filename.value) !in r.data
    ensures forall q :: (filename.None? || q != BackupOf(filename.value)) ==> v.SameAt(r, q)
    ensures v.Valid() ==> r.Valid()
  {
    if filename.None? || Strip(filename.value) == [] then v
    else v.RemoveIfExists(BackupOf(filename.value))
  }

  // ---------------------------------------------------------------- the try block

  /** How the `try` block of one item ends. */
  datatype Outcome =
    | Succeeded(d: Description)            // the copy was moved into place
    | Failed                               // an Exception was raised and logged
    | Exited(error: Responder.KeyError)    // process_photo called sys.exit(1)

  /** The volume after the `try` block, the value `temp_image_path` holds, and the outcome. */
  datatype Attempt = Attempt(vol: Volume, temp: Option<Path>, outcome: Outcome)

  /** The name `tempfile.NamedTemporaryFile` gives the copy of item `i`. */
  function TempOf(i: nat): Path {
    TempFile(i)
  }

  /** `info['object name'] = title` and the three assignments after it. */
  function WithFields(c: Container, d: Description, author: Option<string>): (r: Container)
    ensures r.Keys == c.Keys + {ObjectName, CaptionAbstract, Keywords, ByLine}
    ensures r[ObjectName] == Str(d.title) && r[CaptionAbstract] == Str(d.description)
    ensures r[Keywords] == Strs(d.keywords)
    ensures r[ByLine] == if author.Some? then Str(author.value) else NoValue
    ensures forall k :: k in c && k != ObjectName && k != CaptionAbstract && k != Keywords && k != ByLine ==> r[k] == c[k]
  {
    c[ObjectName := Str(d.title)][CaptionAbstract := Str(d.description)][Keywords := Strs(d.keywords)]
      [ByLine := if author.Some? then Str(author.value) else NoValue]
  }

  /** The description written into a file is the caption read back from it. */
  lemma WrittenDescriptionIsCaption(c: Container, d: Description, author: Option<string>)
    ensures CaptionOf(WithFields(c, d, author)) == Some(d.description)
  {
  }

  /**
   * The second half of the `try` block, once the temporary copy `t` exists in `v` and
   * `process_photo` gave `answer` for it: write the fields into the copy and move it to `dest`.
   */
  function Annotate(cfg: Config, env: Env, answer: Answer, v: Volume, t: Path, i: nat, dest: Path): (a: Attempt)
    requires t in v.data && t.TempFile? && dest.File?
    ensures a.temp == Some(t)
    ensures forall n :: TempFile(n) in a.vol.data ==> TempFile(n) in v.data
    ensures forall q: Path :: q.File? && q != dest ==> v.SameAt(a.vol, q)
    ensures !a.outcome.Succeeded? ==> v.SameAt(a.vol, dest)
    ensures a.outcome.Exited? <==> answer.KeyFailure?
    ensures a.outcome.Exited? ==> answer == KeyFailure(a.outcome.error)
    ensures a.outcome.Succeeded? ==>
      && answer == Described(a.outcome.d)
      && t !in a.vol.data
      && dest in a.vol.data && a.vol.data[dest] == v.data[t]
      && dest in a.vol.meta && a.vol.meta[dest] == WithFields(v.InfoOf(t), a.outcome.d, cfg.author)
  {
    match answer
    case KeyFailure(e) => Attempt(v, Some(t), Exited(e))
    case NotDescribed => Attempt(v, Some(t), Failed)
    case Described(d) =>
      if env.fails(SaveAs, i) then Attempt(v, Some(t), Failed)
      else
        var saved := v.SaveContainer(t, WithFields(v.InfoOf(t), d, cfg.author));
        if env.fails(MoveToDest, i) then Attempt(saved, Some(t), Failed)
        else Attempt(saved.MoveFile(t, dest), Some(t), Succeeded(d))
  }

  /**
   * The `try` block of item `i`: open the source, create the temporary file (a name that
   * is already taken makes the creation fail), copy the source into it, then `Annotate`.
   * Any step can raise; `temp` is what `temp_image_path` held before this item.
   */
  function TryItem(cfg: Config, env: Env, vol: Volume, temp: Option<Path>, i: nat, image: Path, dest: Path): (a: Attempt)
    requires image.File? && dest.File?
    ensures (a.vol == vol && a.temp == temp && a.outcome == Failed)
         || (a.temp == Some(TempOf(i)) && TempOf(i) !in vol.data)
    ensures !a.outcome.Failed? ==> image in vol.data
    ensures a.outcome.Exited? ==>
      Describe(env, vol.data[image], cfg.prompt, CaptionFor(env, vol, image)) == KeyFailure(a.outcome.error)
    ensures a.outcome.Succeeded? ==>
      && Describe(env, vol.data[image], cfg.prompt, CaptionFor(env, vol, image)) == Described(a.outcome.d)
      && TempOf(i) !in a.vol.data
      && dest in a.vol.data && a.vol.data[dest] == vol.data[image]
      && dest in a.vol.meta && a.vol.meta[dest] == WithFields(vol.InfoOf(image), a.outcome.d, cfg.author)
  {
    if image !in vol.data || env.fails(OpenSource, i) then Attempt(vol, temp, Failed)
    else
      var t := TempOf(i);
      if t in vol.data || env.fails(CreateTemp, i) then Attempt(vol, temp, Failed)
      else
        var created := vol.CreateEmpty(t);
        if env.fails(CopyToTemp, i) then Attempt(created, Some(t), Failed)
        else
          var copied := created.CopyFile(image, t);
          CopyReadsLikeSource(env, vol, image, t);
          Annotate(cfg, env, Describe(env, vol.data[image], cfg.prompt, CaptionFor(env, copied, t)), copied, t, i, dest)
  }

  /**
   * The `try` block creates no temporary file but the item's own, and changes no file but
   * the destination, and that one only when it succeeds.
   */
  lemma TryItemKeeps(cfg: Config, env: Env, vol: Volume, temp: Option<Path>, i: nat, image: Path, dest: Path)
    requires image.File? && dest.File?
    ensures var a := TryItem(cfg, env, vol, temp, i, image, dest);
      && (forall n :: TempFile(n) in a.vol.data ==> TempFile(n) in vol.data || n == i)
      && (forall q: Path :: q.File? && q != dest ==> vol.SameAt(a.vol, q))
      && (!a.outcome.Succeeded? ==> vol.SameAt(a.vol, dest))
  {
    var t := TempOf(i);
    if image in vol.data && !env.fails(OpenSource, i) && t !in vol.data && !env.fails(CreateTemp, i) {
      var created := vol.CreateEmpty(t);
      if env.fails(CopyToTemp, i) {
        forall q: Path | q.File? ensures vol.SameAt(created, q) {
          assert q != t;
        }
      } else {
        var copied := created.CopyFile(image, t);
        forall q: Path | q.File? ensures vol.SameAt(copied, q) {
          assert q != t;
        }
      }
    }
  }

  /** The fresh copy of a file has the file's bytes, container and caption. */
  lemma CopyReadsLikeSource(env: Env, vol: Volume, image: Path, t: Path)
    requires image in vol.data && image != t
    ensures var copied := vol.CreateEmpty(t).CopyFile(image, t);
      && t in copied.data && copied.data[t] == vol.data[image]
      && copied.InfoOf(t) == vol.InfoOf(image)
      && CaptionFor(env, copied, t) == CaptionFor(env, vol, image)
  {
    var copied := vol.CreateEmpty(t).CopyFile(image, t);
    assert IptcReadOf(copied, t) == IptcReadOf(vol, image);
  }

  // ---------------------------------------------------------------- the finally block and one item

  /**
   * The `finally` block: the destination's backup is removed, then the temporary file if
   * it still exists. With `temp_image_path` never bound (`None`) the block raises
   * `NameError` after the backup removal, which ends the batch.
   */
  function Finally(vol: Volume, temp: Option<Path>, destName: string): (r: (Volume, bool))
    ensures r.1 <==> temp.Some?
    ensures temp.Some? ==> temp.value !in r.0.data
    ensures forall q :: q != BackupOf(destName) && (temp.None? || q != temp.value) ==> vol.SameAt(r.0, q)
    ensures Strip(destName) != [] ==> BackupOf(destName) !in r.0.data
  {
    var v := RemoveBackup(vol, Some(destName));
    if temp.None? then (v, false) else (v.RemoveIfExists(temp.value), true)
  }

  /** Why a batch stops before its last item: an exception that `add_metadata` does not catch, or `sys.exit`. */
  datatype Abort =
    | LockFailed(lockError: CheckAccess.LockError)   // terminate_processes_using_file raised
    | TempUnbound                                    // NameError in the finally block
    | KeyFailed(keyError: Responder.KeyError)        // sys.exit(1) while reading the key
    | SourceMissing                                  // os.remove(image_path) raised

  /** The state the loop carries: the files, the processes, and `temp_image_path`. */
  datatype World = World(vol: Volume, procs: CheckAccess.ProcState, temp: Option<Path>)

  /** One turn of the loop: the next world and whether the item was processed, or the reason the batch stops. */
  datatype StepResult = Next(w: World, ok: bool) | Stop(w: World, why: Abort)

  function ImagePath(cfg: Config, name: string): Path {
    File(OsPath.Join(cfg.src, name))
  }

  function DestPath(cfg: Config, name: string): Path {
    File(OsPath.Join(cfg.dst, name))
  }

  /**
   * One turn of the loop for `name`, the `i`-th image: release the locks on the source,
   * then run the `try` block and `Conclude` the item.
   */
  function ItemStep(cfg: Config, env: Env, protected: set<int>, w: World, i: nat, name: string): (r: StepResult)
    ensures r.w.temp == w.temp || r.w.temp == Some(TempOf(i))
    ensures r.Stop? && r.why.LockFailed? ==> r.w.vol == w.vol && r.w.temp == w.temp
  {
    var (procs, lockError) := CheckAccess.ReleaseLocks(w.procs, protected, ImagePath(cfg, name).name, env.system,
                                                       env.normalize, env.lsof, env.snapshot);
    if lockError.Some? then Stop(World(w.vol, procs, w.temp), LockFailed(lockError.value))
    else Conclude(TryItem(cfg, env, w.vol, w.temp, i, ImagePath(cfg, name), DestPath(cfg, name)),
                  procs, ImagePath(cfg, name), DestPath(cfg, name))
  }

  /**
   * The end of an item after its `try` block `a`: the `finally` block, then the deletion
   * of the source after a success when the destination is another path.
   */
  function Conclude(a: Attempt, procs: CheckAccess.ProcState, image: Path, dest: Path): (r: StepResult)
    requires dest.File?
    ensures r.w.procs == procs && r.w.temp == a.temp
    ensures a.temp.None? ==> r == Stop(r.w, TempUnbound)
    ensures a.temp.Some? && a.outcome.Exited? ==> r == Stop(r.w, KeyFailed(a.outcome.error))
    ensures a.temp.Some? && a.outcome.Failed? ==> r == Next(r.w, false)
    ensures r.Next? ==> a.temp.Some? && r.ok == a.outcome.Succeeded?
    ensures r.Stop? && a.outcome.Succeeded? && a.temp.Some? ==> r.why == SourceMissing && image != dest
  {
    var (v, bound) := Finally(a.vol, a.temp, dest.name);
    var after := World(v, procs, a.temp);
    if !bound then Stop(after, TempUnbound)
    else match a.outcome
      case Exited(e) => Stop(after, KeyFailed(e))
      case Failed => Next(after, false)
      case Succeeded(_) =>
        if image == dest then Next(after, true)
        else if image in v.data then Next(after.(vol := v.Remove(image)), true)
        else Stop(after, SourceMissing)
  }

  /** After `Conclude` the temporary file and, for a non-blank destination, the backup are gone. */
  lemma ConcludeCleansUp(a: Attempt, procs: CheckAccess.ProcState, image: Path, dest: Path)
    requires dest.File?
    ensures var r := Conclude(a, procs, image, dest);
      && (a.temp.Some? ==> a.temp.value !in r.w.vol.data)
      && (Strip(dest.name) != [] ==> BackupOf(dest.name) !in r.w.vol.data)
  {
  }

  /** `Conclude` only deletes: every file after it was there before. */
  lemma ConcludeCreatesNothing(a: Attempt, procs: CheckAccess.ProcState, image: Path, dest: Path)
    requires dest.File?
    ensures forall q :: q in Conclude(a, procs, image, dest).w.vol.data ==> q in a.vol.data
  {
    var cleaned := RemoveBackup(a.vol, Some(dest.name));
    var (v, bound) := Finally(a.vol, a.temp, dest.name);
    forall q | q in v.data ensures q in a.vol.data {
      assert q in cleaned.data;
      if q != BackupOf(dest.name) {
        assert a.vol.SameAt(cleaned, q);
      }
    }
  }

  /**
   * `Conclude` changes only the backup, the temporary file and the source, and the source
   * only by deleting it after a success with another destination.
   */
  lemma ConcludeKeeps(a: Attempt, procs: CheckAccess.ProcState, image: Path, dest: Path, q: Path)
    requires dest.File?
    requires q != BackupOf(dest.name) && (a.temp.None? || q != a.temp.value)
    ensures var r := Conclude(a, procs, image, dest);
      && (q != image || r != Next(r.w, true) || image == dest ==> a.vol.SameAt(r.w.vol, q))
      && (q == image && r == Next(r.w, true) && image != dest ==> q !in r.w.vol.data)
  {
    var (v, bound) := Finally(a.vol, a.temp, dest.name);
    assert a.vol.SameAt(v, q);
    if bound && a.outcome.Succeeded? && image != dest && image in v.data && q != image {
      assert v.SameAt(v.Remove(image), q);
    }
  }

  // ---------------------------------------------------------------- the loop and the batch

  /** The loop after some items: the world, one success flag per finished item, and the abort if one happened. */
  datatype Progress = Progress(w: World, outcomes: seq<bool>, stop: Option<Abort>)

  /**
   * The loop over the first `n` items, where `step(w, k)` is the turn of item `k` from the
   * world `w`: one flag per item until an item stops the batch.
   */
  function Run(step: (World, nat) -> StepResult, start: World, n: nat): (p: Progress)
    ensures |p.outcomes| <= n
    ensures p.stop.None? ==> |p.outcomes| == n
  {
    if n == 0 then Progress(start, [], None)
    else
      var prev := Run(step, start, n - 1);
      if prev.stop.Some? then prev
      else Advance(prev, step(prev.w, n - 1))
  }

  /** The loop after one more item: its flag is added, or the abort recorded. */
  function Advance(prev: Progress, step: StepResult): (p: Progress)
    ensures p.w == step.w
    ensures step.Next? ==> p.outcomes == prev.outcomes + [step.ok] && p.stop.None?
    ensures step.Stop? ==> p.outcomes == prev.outcomes && p.stop == Some(step.why)
  {
    match step
    case Next(w, ok) => Progress(w, prev.outcomes + [ok], None)
    case Stop(w, why) => Progress(w, prev.outcomes, Some(why))
  }

  /** The turns of `add_metadata`'s loop over `names`: item `k` is `names[k]`. */
  function StepsOf(cfg: Config, env: Env, protected: set<int>, names: seq<string>): (steps: (World, nat) -> StepResult)
    ensures forall w: World, k: nat {:trigger ItemStep(cfg, env, protected, w, k, names[k])} ::
      k < |names| ==> steps(w, k) == ItemStep(cfg, env, protected, w, k, names[k])
  {
    (w: World, k: nat) => if k < |names| then ItemStep(cfg, env, protected, w, k, names[k]) else Next(w, false)
  }

  /** What the batch reports: nothing to do (`sys.exit(1)`), an abort, or the two counts it logs. */
  datatype Report = NoImages | Aborted(why: Abort) | Finished(processed: nat, unprocessed: nat)

  datatype BatchEnd = BatchEnd(vol: Volume, procs: CheckAccess.ProcState, report: Report)

  /** `add_metadata` over the filtered image names `files`. */
  function AddMetadataOf(cfg: Config, env: Env, protected: set<int>, vol: Volume, procs: CheckAccess.ProcState,
                         files: seq<string>): (r: BatchEnd)
    ensures files == [] ==> r == BatchEnd(vol, procs, NoImages)
    ensures r.report.Finished? ==> r.report.processed + r.report.unprocessed == |files|
  {
    if files == [] then BatchEnd(vol, procs, NoImages)
    else
      var p := Run(StepsOf(cfg, env, protected, files), World(vol, procs, None), |files|);
      var processed := CountTrue(p.outcomes);
      BatchEnd(p.w.vol, p.w.procs,
               if p.stop.Some? then Aborted(p.stop.value) else Finished(processed, |files| - processed))
  }

  /** The batch over a non-empty list ends where its loop ends. */
  lemma BatchOfProgress(cfg: Config, env: Env, protected: set<int>, vol: Volume, procs: CheckAccess.ProcState,
                        files: seq<string>, p: Progress)
    requires files != [] && Run(StepsOf(cfg, env, protected, files), World(vol, procs, None), |files|) == p
    ensures AddMetadataOf(cfg, env, protected, vol, procs, files)
      == BatchEnd(p.w.vol, p.w.procs, if p.stop.Some? then Aborted(p.stop.value)
                                      else Finished(CountTrue(p.outcomes), |files| - CountTrue(p.outcomes)))
  {
  }

  // ---------------------------------------------------------------- properties of one item

  /** Neither the lock release nor anything after it creates a temporary file that outlives the item. */
  ghost predicate NoNewTemps(before: Volume, after: Volume) {
    forall n :: TempFile(n) in after.data ==> TempFile(n) in before.data
  }

  /** The item's own files: its source, its destination and the destination's backup. */
  function ItemFiles(cfg: Config, name: string): set<Path> {
    {ImagePath(cfg, name), DestPath(cfg, name), BackupOf(DestPath(cfg, name).name)}
  }

  /** `temp_image_path` is unbound or names a temporary file. */
  ghost predicate TempNamed(w: World) {
    w.temp.None? || w.temp.value.TempFile?
  }

  /**
   * What a stretch of the loop may do: create no temporary file that outlives it, keep
   * `temp_image_path` a temporary name, and change no file outside `owned`.
   */
  ghost predicate Confined(before: World, after: World, owned: set<Path>) {
    && NoNewTemps(before.vol, after.vol)
    && TempNamed(after)
    && forall q: Path :: q.File? && q !in owned ==> before.vol.SameAt(after.vol, q)
  }

  /**
   * Whatever happens to an item, it leaves no temporary file behind and changes no file
   * but its own source, destination and backup.
   */
  lemma ItemTouchesOnlyItsFiles(cfg: Config, env: Env, protected: set<int>, w: World, i: nat, name: string)
    requires TempNamed(w)
    ensures Confined(w, ItemStep(cfg, env, protected, w, i, name).w, ItemFiles(cfg, name))
  {
    var (procs, lockError) := CheckAccess.ReleaseLocks(w.procs, protected, ImagePath(cfg, name).name, env.system,
                                                       env.normalize, env.lsof, env.snapshot);
    if lockError.None? {
      AttemptLeavesNoTemps(cfg, env, w, procs, i, name);
      forall q: Path | q.File? && q !in ItemFiles(cfg, name)
        ensures w.vol.SameAt(ItemStep(cfg, env, protected, w, i, name).w.vol, q)
      {
        AttemptKeepsOtherFile(cfg, env, w, procs, i, name, q);
      }
    }
  }

  /** The `try` and `finally` blocks of an item leave no temporary file behind. */
  lemma AttemptLeavesNoTemps(cfg: Config, env: Env, w: World, procs: CheckAccess.ProcState, i: nat, name: string)
    requires TempNamed(w)
    ensures var image, dest := ImagePath(cfg, name), DestPath(cfg, name);
      var r := Conclude(TryItem(cfg, env, w.vol, w.temp, i, image, dest), procs, image, dest);
      NoNewTemps(w.vol, r.w.vol) && TempNamed(r.w)
  {
    var image, dest := ImagePath(cfg, name), DestPath(cfg, name);
    var a := TryItem(cfg, env, w.vol, w.temp, i, image, dest);
    var r := Conclude(a, procs, image, dest);
    TryItemKeeps(cfg, env, w.vol, w.temp, i, image, dest);
    ConcludeCreatesNothing(a, procs, image, dest);
    ConcludeCleansUp(a, procs, image, dest);
    forall n | TempFile(n) in r.w.vol.data ensures TempFile(n) in w.vol.data {
      assert TempFile(n) in a.vol.data;
    }
  }

  /** The `try` and `finally` blocks of an item leave a file alone unless it is the item's source, destination or backup. */
  lemma AttemptKeepsOtherFile(cfg: Config, env: Env, w: World, procs: CheckAccess.ProcState, i: nat, name: string, q: Path)
    requires TempNamed(w) && q.File? && q !in ItemFiles(cfg, name)
    ensures var image, dest := ImagePath(cfg, name), DestPath(cfg, name);
      w.vol.SameAt(Conclude(TryItem(cfg, env, w.vol, w.temp, i, image, dest), procs, image, dest).w.vol, q)
  {
    var image, dest := ImagePath(cfg, name), DestPath(cfg, name);
    var a := TryItem(cfg, env, w.vol, w.temp, i, image, dest);
    TryItemKeeps(cfg, env, w.vol, w.temp, i, image, dest);
    assert w.vol.SameAt(a.vol, q);
    ConcludeKeeps(a, procs, image, dest, q);
  }

  /**
   * An item that fails inside the `try` block changes no file but the destination's
   * backup: the source and the destination are as they were.
   */
  lemma FailedItemKeepsFiles(cfg: Config, env: Env, protected: set<int>, w: World, i: nat, name: string)
    requires TempNamed(w)
    requires ItemStep(cfg, env, protected, w, i, name).Next?
    requires !ItemStep(cfg, env, protected, w, i, name).ok
    ensures forall q: Path :: q.File? && q != BackupOf(DestPath(cfg, name).name) ==>
      w.vol.SameAt(ItemStep(cfg, env, protected, w, i, name).w.vol, q)
  {
    var image, dest := ImagePath(cfg, name), DestPath(cfg, name);
    var (procs, lockError) := CheckAccess.ReleaseLocks(w.procs, protected, image.name, env.system,
                                                       env.normalize, env.lsof, env.snapshot);
    assert lockError.None?;
    var a := TryItem(cfg, env, w.vol, w.temp, i, image, dest);
    var r := Conclude(a, procs, image, dest);
    assert r == ItemStep(cfg, env, protected, w, i, name);
    TryItemKeeps(cfg, env, w.vol, w.temp, i, image, dest);
    forall q: Path | q.File? && q != BackupOf(dest.name) ensures w.vol.SameAt(r.w.vol, q) {
      ConcludeKeeps(a, procs, image, dest, q);
      assert w.vol.SameAt(a.vol, q);
    }
  }

  /**
   * An item that succeeds puts at the destination the source's bytes, with the source's
   * container (or a new one) carrying the description obtained for the source's bytes
   * and caption, and the author; the source is gone unless it is the destination.
   */
  lemma ProcessedItemCommits(cfg: Config, env: Env, protected: set<int>, w: World, i: nat, name: string)
    requires TempNamed(w)
    requires ItemStep(cfg, env, protected, w, i, name) == Next(ItemStep(cfg, env, protected, w, i, name).w, true)
    requires ImagePath(cfg, name) != BackupOf(DestPath(cfg, name).name)
    ensures var image, dest, v := ImagePath(cfg, name), DestPath(cfg, name), ItemStep(cfg, env, protected, w, i, name).w.vol;
      && image in w.vol.data
      && Describe(env, w.vol.data[image], cfg.prompt, CaptionFor(env, w.vol, image)).Described?
      && dest in v.data && v.data[dest] == w.vol.data[image]
      && dest in v.meta
      && v.meta[dest] == WithFields(w.vol.InfoOf(image),
                                    Describe(env, w.vol.data[image], cfg.prompt, CaptionFor(env, w.vol, image)).d,
                                    cfg.author)
      && (image != dest ==> image !in v.data)
  {
    var image, dest := ImagePath(cfg, name), DestPath(cfg, name);
    var (procs, lockError) := CheckAccess.ReleaseLocks(w.procs, protected, image.name, env.system,
                                                       env.normalize, env.lsof, env.snapshot);
    var a := TryItem(cfg, env, w.vol, w.temp, i, image, dest);
    var r := Conclude(a, procs, image, dest);
    assert r == ItemStep(cfg, env, protected, w, i, name);
    assert dest != BackupOf(dest.name);
    ConcludeKeeps(a, procs, image, dest, dest);
    ConcludeKeeps(a, procs, image, dest, image);
  }

  /**
   * The source of an item disappears only when the item succeeded and had another
   * destination (or when the source is itself the destination's backup).
   */
  lemma SourceRemovedOnlyAfterCommit(cfg: Config, env: Env, protected: set<int>, w: World, i: nat, name: string)
    requires TempNamed(w)
    requires ImagePath(cfg, name) in w.vol.data
    requires ImagePath(cfg, name) !in ItemStep(cfg, env, protected, w, i, name).w.vol.data
    ensures || ImagePath(cfg, name) == BackupOf(DestPath(cfg, name).name)
            || (&& ItemStep(cfg, env, protected, w, i, name) == Next(ItemStep(cfg, env, protected, w, i, name).w, true)
                && ImagePath(cfg, name) != DestPath(cfg, name))
  {
    var image, dest := ImagePath(cfg, name), DestPath(cfg, name);
    var (procs, lockError) := CheckAccess.ReleaseLocks(w.procs, protected, image.name, env.system,
                                                       env.normalize, env.lsof, env.snapshot);
    if lockError.None? {
      var a := TryItem(cfg, env, w.vol, w.temp, i, image, dest);
      var r := Conclude(a, procs, image, dest);
      assert r == ItemStep(cfg, env, protected, w, i, name);
      TryItemKeeps(cfg, env, w.vol, w.temp, i, image, dest);
      if image != BackupOf(dest.name) {
        ConcludeKeeps(a, procs, image, dest, image);
      }
      assert image != dest ==> w.vol.SameAt(a.vol, image);
      assert image == dest ==> a.outcome.Succeeded? || w.vol.SameAt(a.vol, image);
      assert image == dest && a.outcome.Succeeded? ==> image in a.vol.data;
    }
  }

  /**
   * Once the lock release succeeded, the destination's backup (for a non-blank
   * destination) and the temporary file the item ends with are gone.
   */
  lemma ItemCleansUp(cfg: Config, env: Env, protected: set<int>, w: World, i: nat, name: string)
    requires !ItemStep(cfg, env, protected, w, i, name).Stop?
          || !ItemStep(cfg, env, protected, w, i, name).why.LockFailed?
    ensures var r := ItemStep(cfg, env, protected, w, i, name);
      && (Strip(DestPath(cfg, name).name) != [] ==> BackupOf(DestPath(cfg, name).name) !in r.w.vol.data)
      && (r.w.temp.Some? ==> r.w.temp.value !in r.w.vol.data)
  {
    var image, dest := ImagePath(cfg, name), DestPath(cfg, name);
    var (procs, lockError) := CheckAccess.ReleaseLocks(w.procs, protected, image.name, env.system,
                                                       env.normalize, env.lsof, env.snapshot);
    var a := TryItem(cfg, env, w.vol, w.temp, i, image, dest);
    assert lockError.None?;
    assert Conclude(a, procs, image, dest) == ItemStep(cfg, env, protected, w, i, name);
    ConcludeCleansUp(a, procs, image, dest);
  }

  /**
   * `temp_image_path` is bound only inside the `try` block: when the first item fails
   * before its temporary file exists (here: its source cannot be opened), the `finally`
   * block raises and the batch ends there.
   */
  lemma FirstUnopenableImageAborts(cfg: Config, env: Env, protected: set<int>, vol: Volume,
                                   procs: CheckAccess.ProcState, files: seq<string>)
    requires files != []
    requires ImagePath(cfg, files[0]) !in vol.data
    requires CheckAccess.ReleaseLocks(procs, protected, ImagePath(cfg, files[0]).name, env.system,
                                      env.normalize, env.lsof, env.snapshot).1.None?
    ensures AddMetadataOf(cfg, env, protected, vol, procs, files).report == Aborted(TempUnbound)
  {
    var steps, start := StepsOf(cfg, env, protected, files), World(vol, procs, None);
    assert steps(start, 0) == ItemStep(cfg, env, protected, start, 0, files[0]);
    RunStopped(steps, start, 1, |files|);
  }

  // ---------------------------------------------------------------- properties of the loop

  /** The loop over `k + 1` items is the loop over `k`, advanced by item `k`. */
  lemma RunNext(step: (World, nat) -> StepResult, start: World, k: nat)
    requires Run(step, start, k).stop.None?
    ensures Run(step, start, k + 1) == Advance(Run(step, start, k), step(Run(step, start, k).w, k))
  {
  }

  /** After an abort, later items change nothing. */
  lemma {:induction false} RunStopped(step: (World, nat) -> StepResult, start: World, k: nat, n: nat)
    requires k <= n && Run(step, start, k).stop.Some?
    ensures Run(step, start, n) == Run(step, start, k)
    decreases n
  {
    if k < n {
      RunStopped(step, start, k, n - 1);
    }
  }

  /**
   * The `k`-th success flag of the loop is whether item `k`, started from the world the
   * earlier items left, was processed.
   */
  lemma {:induction false} RunCounts(step: (World, nat) -> StepResult, start: World, n: nat, k: nat)
    requires k < |Run(step, start, n).outcomes|
    ensures var before := Run(step, start, k);
      && before.stop.None?
      && step(before.w, k) == Next(step(before.w, k).w, Run(step, start, n).outcomes[k])
    decreases n
  {
    var prev := Run(step, start, n - 1);
    if k < |prev.outcomes| {
      RunCounts(step, start, n - 1, k);
    } else {
      assert prev.stop.None? && k == n - 1;
    }
  }

  /** Items that each keep to `owned` make a loop that keeps to `owned`. */
  lemma {:induction false} RunConfined(step: (World, nat) -> StepResult, start: World, n: nat, owned: set<Path>)
    requires TempNamed(start)
    requires forall w: World, k: nat :: k < n && TempNamed(w) ==> Confined(w, step(w, k).w, owned)
    ensures Confined(start, Run(step, start, n).w, owned)
    decreases n
  {
    if n > 0 {
      RunConfined(step, start, n - 1, owned);
      var prev := Run(step, start, n - 1);
      if prev.stop.None? {
        var next := step(prev.w, n - 1).w;
        assert Confined(prev.w, next, owned);
        forall q: Path | q.File? && q !in owned ensures start.vol.SameAt(next.vol, q) {
          assert start.vol.SameAt(prev.w.vol, q) && prev.w.vol.SameAt(next.vol, q);
        }
      }
    }
  }

  // ---------------------------------------------------------------- properties of the batch

  /** The files of the listed images: their sources, destinations and backups. */
  ghost function ListedFiles(cfg: Config, files: seq<string>): set<Path> {
    set k, q | 0 <= k < |files| && q in ItemFiles(cfg, files[k]) :: q
  }

  /**
   * The whole batch, however it ends, leaves no temporary file behind and changes only
   * the sources, destinations and backups of the listed images.
   */
  lemma AddMetadataTouchesOnlyListedFiles(cfg: Config, env: Env, protected: set<int>, vol: Volume,
                                          procs: CheckAccess.ProcState, files: seq<string>)
    ensures var r := AddMetadataOf(cfg, env, protected, vol, procs, files);
      && NoNewTemps(vol, r.vol)
      && forall q: Path :: q.File? && q !in ListedFiles(cfg, files) ==> vol.SameAt(r.vol, q)
  {
    if files != [] {
      var steps, owned := StepsOf(cfg, env, protected, files), ListedFiles(cfg, files);
      forall w: World, k: nat | k < |files| && TempNamed(w) ensures Confined(w, steps(w, k).w, owned) {
        ItemTouchesOnlyItsFiles(cfg, env, protected, w, k, files[k]);
        forall q | q in ItemFiles(cfg, files[k]) ensures q in owned {
        }
      }
      RunConfined(steps, World(vol, procs, None), |files|, owned);
    }
  }

  /**
   * The `k`-th success flag of the batch is whether the `k`-th image, started from the
   * world the earlier images left, was processed; so the processed count is the number
   * of images `ProcessedItemCommits` applies to.
   */
  lemma BatchOutcome(cfg: Config, env: Env, protected: set<int>, start: World, files: seq<string>, k: nat)
    requires k < |Run(StepsOf(cfg, env, protected, files), start, |files|).outcomes|
    ensures var before := Run(StepsOf(cfg, env, protected, files), start, k);
      && before.stop.None?
      && ItemStep(cfg, env, protected, before.w, k, files[k])
         == Next(ItemStep(cfg, env, protected, before.w, k, files[k]).w,
                 Run(StepsOf(cfg, env, protected, files), start, |files|).outcomes[k])
  {
    RunCounts(StepsOf(cfg, env, protected, files), start, |files|, k);
  }

  // ---------------------------------------------------------------- the class

  class ImagesDescriber {
    const prompt: string
    const srcPath: string
    const dstPath: string
    const authorName: Option<string>

    /** `__init__`: an empty destination means the source folder. */
    constructor (prompt: string, srcPath: string, dstPath: string, authorName: Option<string>)
      ensures this.prompt == prompt && this.srcPath == srcPath && this.authorName == authorName
      ensures this.dstPath == DestinationDir(srcPath, dstPath)
    {
      this.prompt := prompt;
      this.srcPath := srcPath;
      this.dstPath := DestinationDir(srcPath, dstPath);
      this.authorName := authorName;
    }

    function Settings(): Config {
      Config(prompt, srcPath, dstPath, authorName)
    }

    /** `remove_backup_file(filename)`. */
    static method RemoveBackupFile(disk: Disk, filename: Option<string>)
      modifies disk
      ensures disk.View() == RemoveBackup(old(disk.View()), filename)
    {
      if filename.None? || Strip(filename.value) == [] {
        return;
      }
      var backup := BackupOf(filename.value);
      if backup in disk.data {
        disk.Remove(backup);
      }
    }

    /** The `try` block of item `i` on the disk. */
    method TryItemOn(disk: Disk, env: Env, temp: Option<Path>, i: nat, image: Path, dest: Path)
      returns (tempAfter: Option<Path>, outcome: Outcome)
      requires image.File? && dest.File?
      modifies disk
      ensures Attempt(disk.View(), tempAfter, outcome) == TryItem(Settings(), env, old(disk.View()), temp, i, image, dest)
    {
      tempAfter := temp;
      if image !in disk.data || env.fails(OpenSource, i) {
        return tempAfter, Failed;
      }
      var imageBytes := disk.data[image];
      var t := TempOf(i);
      if t in disk.data || env.fails(CreateTemp, i) {
        return tempAfter, Failed;
      }
      disk.CreateEmpty(t);
      tempAfter := Some(t);
      if env.fails(CopyToTemp, i) {
        return tempAfter, Failed;
      }
      disk.CopyFile(image, t);
      var info := disk.View().InfoOf(t);
      var caption := CaptionFor(env, disk.View(), t);
      var answer := Describe(env, imageBytes, prompt, caption);
      match answer {
        case KeyFailure(e) =>
          return tempAfter, Exited(e);
        case NotDescribed =>
          return tempAfter, Failed;
        case Described(d) =>
          if env.fails(SaveAs, i) {
            return tempAfter, Failed;
          }
          disk.SaveContainer(t, WithFields(info, d, authorName));
          if env.fails(MoveToDest, i) {
            return tempAfter, Failed;
          }
          disk.MoveFile(t, dest);
          outcome := Succeeded(d);
      }
    }

    /** One turn of the loop of `add_metadata`. */
    method ProcessItem(disk: Disk, procs: CheckAccess.ProcessTable, env: Env, temp: Option<Path>, i: nat, name: string)
      returns (tempAfter: Option<Path>, ok: bool, stop: Option<Abort>)
      modifies disk, procs
      ensures ItemStep(Settings(), env, procs.protected, World(old(disk.View()), old(procs.State()), temp), i, name)
        == if stop.Some? then Stop(World(disk.View(), procs.State(), tempAfter), stop.value)
           else Next(World(disk.View(), procs.State(), tempAfter), ok)
    {
      var image := ImagePath(Settings(), name);
      var dest := DestPath(Settings(), name);
      var lockError := procs.TerminateProcessesUsingFile(image.name, env.system, env.normalize, env.lsof, env.snapshot);
      if lockError.Some? {
        return temp, false, Some(LockFailed(lockError.value));
      }
      var outcome;
      tempAfter, outcome := TryItemOn(disk, env, temp, i, image, dest);
      ok, stop := ConcludeOn(disk, procs.State(), tempAfter, outcome, image, dest);
    }

    /** The `finally` block of one turn and the deletion of the source after it. */
    method ConcludeOn(disk: Disk, ghost procs: CheckAccess.ProcState, temp: Option<Path>, outcome: Outcome,
                      image: Path, dest: Path)
      returns (ok: bool, stop: Option<Abort>)
      requires dest.File?
      modifies disk
      ensures Conclude(Attempt(old(disk.View()), temp, outcome), procs, image, dest)
        == if stop.Some? then Stop(World(disk.View(), procs, temp), stop.value)
           else Next(World(disk.View(), procs, temp), ok)
    {
      RemoveBackupFile(disk, Some(dest.name));
      if temp.None? {
        return false, Some(TempUnbound);
      }
      if temp.value in disk.data {
        disk.Remove(temp.value);
      }
      match outcome {
        case Exited(e) =>
          return false, Some(KeyFailed(e));
        case Failed =>
          return false, None;
        case Succeeded(_) =>
          if image != dest {
            if image !in disk.data {
              return false, Some(SourceMissing);
            }
            disk.Remove(image);
          }
          return true, None;
      }
    }

    /** `add_metadata` over the filtered image names `files`, on the disk and the process table. */
    method AddMetadata(disk: Disk, procs: CheckAccess.ProcessTable, env: Env, files: seq<string>)
      returns (report: Report)
      modifies disk, procs
      ensures BatchEnd(disk.View(), procs.State(), report)
        == AddMetadataOf(Settings(), env, procs.protected, old(disk.View()), old(procs.State()), files)
    {
      if files == [] {
        return NoImages;
      }
      ghost var start := World(disk.View(), procs.State(), None);
      ghost var steps := StepsOf(Settings(), env, procs.protected, files);
      forall w: World, k: nat | k < |files|
        ensures steps(w, k) == ItemStep(Settings(), env, procs.protected, w, k, files[k])
      {
      }
      var temp, outcomes, stop := RunLoop(disk, procs, env, files, start, steps);
      BatchOfProgress(Settings(), env, procs.protected, start.vol, start.procs, files,
                      Progress(World(disk.View(), procs.State(), temp), outcomes, stop));
      ghost var batch := AddMetadataOf(Settings(), env, procs.protected, start.vol, start.procs, files);
      assert start.vol == old(disk.View()) && start.procs == old(procs.State());
      if stop.Some? {
        assert batch == BatchEnd(disk.View(), procs.State(), Aborted(stop.value));
        return Aborted(stop.value);
      }
      var processed := CountTrue(outcomes);
      report := Finished(processed, |files| - processed);
      assert batch == BatchEnd(disk.View(), procs.State(), report);
    }

    /** The loop of `add_metadata`: one `ProcessItem` per name until an item stops the batch. */
    method RunLoop(disk: Disk, procs: CheckAccess.ProcessTable, env: Env, files: seq<string>,
                   ghost start: World, ghost steps: (World, nat) -> StepResult)
      returns (temp: Option<Path>, outcomes: seq<bool>, stop: Option<Abort>)
      requires start == World(disk.View(), procs.State(), None)
      requires forall w: World, k: nat {:trigger ItemStep(Settings(), env, procs.protected, w, k, files[k])} ::
        k < |files| ==> steps(w, k) == ItemStep(Settings(), env, procs.protected, w, k, files[k])
      modifies disk, procs
      ensures Run(steps, start, |files|) == Progress(World(disk.View(), procs.State(), temp), outcomes, stop)
    {
      temp, outcomes, stop := None, [], None;
      var i := 0;
      while i < |files|
        invariant 0 <= i <= |files|
        invariant Run(steps, start, i) == Progress(World(disk.View(), procs.State(), temp), outcomes, stop)
        invariant stop.None?
      {
        var ok;
        temp, ok, stop := ProcessStep(disk, procs, env, files, temp, i, steps);
        RunNext(steps, start, i);
        if stop.Some? {
          RunStopped(steps, start, i + 1, |files|);
          return;
        }
        outcomes := outcomes + [ok];
        i := i + 1;
      }
    }

    /** `ProcessItem` on the `i`-th name, as the turn `steps(w, i)` of the loop. */
    method ProcessStep(disk: Disk, procs: CheckAccess.ProcessTable, env: Env, files: seq<string>,
                       temp: Option<Path>, i: nat, ghost steps: (World, nat) -> StepResult)
      returns (tempAfter: Option<Path>, ok: bool, stop: Option<Abort>)
      requires i < |files|
      requires forall w: World, k: nat {:trigger ItemStep(Settings(), env, procs.protected, w, k, files[k])} ::
        k < |files| ==> steps(w, k) == ItemStep(Settings(), env, procs.protected, w, k, files[k])
      modifies disk, procs
      ensures steps(World(old(disk.View()), old(procs.State()), temp), i)
        == if stop.Some? then Stop(World(disk.View(), procs.State(), tempAfter), stop.value)
           else Next(World(disk.View(), procs.State(), tempAfter), ok)
    {
      tempAfter, ok, stop := ProcessItem(disk, procs, env, temp, i, files[i]);
    }
  }
}
