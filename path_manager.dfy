/** The two `os.path` functions the data-file paths are built with, under POSIX rules. */
module OsPath {
  import opened Text

  /**
   * `os.path.join(a, b)`: an absolute `b` replaces `a`; otherwise `b` is appended,
   * with one `/` in between unless `a` is empty or already ends with one.
   */
  function Join(a: string, b: string): (r: string)
    ensures StartsWith(b, "/") ==> r == b
    ensures !StartsWith(b, "/") ==> EndsWith(r, b) && StartsWith(r, a) && |a| + |b| <= |r| <= |a| + 1 + |b|
    ensures !StartsWith(b, "/") && a != [] ==> |r| > |b| && r[|r| - |b| - 1] == '/'
  {
    if StartsWith(b, "/") then b
    else if a == [] || EndsWith(a, "/") then
      assert (a + b)[|a + b| - |b|..] == b;
      a + b
    else
      assert (a + "/" + b)[|a + "/" + b| - |b|..] == b;
      a + "/" + b
  }

  /** `home` without its trailing slashes, as `expanduser` trims it. */
  function TrimSlashes(home: string): (r: string)
    ensures r == [] || r[|r| - 1] != '/'
    ensures StartsWith(home, r)
    ensures forall i :: |r| <= i < |home| ==> home[i] == '/'
  {
    if home != [] && home[|home| - 1] == '/' then TrimSlashes(home[..|home| - 1]) else home
  }

  /**
   * `os.path.expanduser(p)` for the `~/...` form, with `home` the user's home directory:
   * the `~` becomes the home directory without trailing slashes; other paths are kept.
   */
  function ExpandHome(home: string, p: string): (r: string)
    ensures StartsWith(p, "~/") ==> r == TrimSlashes(home) + p[1..]
    ensures !StartsWith(p, "~/") ==> r == p
  {
    if StartsWith(p, "~/") then TrimSlashes(home) + p[1..] else p
  }
}

/** Where the application keeps its data files (`openai_key.txt`, `prompt_msg.txt`). */
module PathManager {
  import opened Text
  import OsPath

  /** The three storage layouts `app_storage` distinguishes by `platform.system()`. */
  datatype Family = MacOS | Windows | OtherOs

  function FamilyOf(opSystem: string): Family {
    if opSystem == "Darwin" then MacOS else if opSystem == "Windows" then Windows else OtherOs
  }

  const MacSupportDir := "/Library/Application Support/SmartVisionAI/"
  const WindowsLocalDir := "/AppData/Local/SmartVisionAI/"
  const HiddenDir := "/.SmartVisionAI"

  /** The storage directory as written in the source, before `~` is expanded. */
  function StorageDir(opSystem: string): string {
    match FamilyOf(opSystem)
    case MacOS => "~" + MacSupportDir
    case Windows => "~" + WindowsLocalDir
    case OtherOs => "~" + HiddenDir
  }

  /** What follows the home directory in a stored file's path, for each layout. */
  function StorageTail(f: Family): (t: string)
    ensures |t| > 1 && t[0] == '/' && t[|t| - 1] == '/'
  {
    match f
    case MacOS => MacSupportDir
    case Windows => WindowsLocalDir
    case OtherOs => HiddenDir + "/"
  }

  /**
   * `app_storage(op_system, filename)`: the file inside the per-user storage directory.
   * For a relative file name the path is the home directory, the layout's directory and
   * the file name, in that order.
   */
  function AppStorage(opSystem: string, home: string, filename: string): (r: string)
    ensures !StartsWith(filename, "/") ==>
      r == OsPath.TrimSlashes(home) + StorageTail(FamilyOf(opSystem)) + filename
  {
    var f := FamilyOf(opSystem);
    var dir, h := OsPath.ExpandHome(home, StorageDir(opSystem)), OsPath.TrimSlashes(home);
    assert !StartsWith(filename, "/") ==> OsPath.Join(dir, filename) == h + StorageTail(f) + filename by {
      var rest := match f case MacOS => MacSupportDir case Windows => WindowsLocalDir case OtherOs => HiddenDir;
      assert rest[0] == '/' && StorageDir(opSystem) == "~" + rest;
      assert ("~" + rest)[..2] == "~/" && ("~" + rest)[1..] == rest;
      assert dir == h + rest;
      if f != OtherOs {
        assert rest[|rest| - 1] == '/';
        assert dir[|dir| - 1] == '/';
      }
    }
    OsPath.Join(dir, filename)
  }

  /**
   * `get_data_file_path(filename)`: inside a bundle the per-user storage path, run from
   * the source tree `src/data/<filename>`.
   */
  function DataFilePath(bundled: bool, opSystem: string, home: string, filename: string): (r: string)
    ensures bundled ==> r == AppStorage(opSystem, home, filename)
    ensures !bundled && !StartsWith(filename, "/") ==> r == "src/data/" + filename
  {
    if bundled then AppStorage(opSystem, home, filename)
    else OsPath.Join(OsPath.Join("src", "data"), filename)
  }

  /** Two platforms share a storage path for a file only when they share a layout. */
  lemma StorageSeparatesLayouts(os1: string, os2: string, home: string, filename: string)
    requires !StartsWith(filename, "/")
    requires AppStorage(os1, home, filename) == AppStorage(os2, home, filename)
    ensures FamilyOf(os1) == FamilyOf(os2)
  {
    var f1, f2 := FamilyOf(os1), FamilyOf(os2);
    var h := OsPath.TrimSlashes(home);
    assert h + StorageTail(f1) + filename == h + StorageTail(f2) + filename;
    assert |StorageTail(f1)| == |StorageTail(f2)|;
    TailLengthsDiffer(f1, f2);
  }

  /** Each layout has a tail of its own length. */
  lemma TailLengthsDiffer(f1: Family, f2: Family)
    requires |StorageTail(f1)| == |StorageTail(f2)|
    ensures f1 == f2
  {
  }
}
