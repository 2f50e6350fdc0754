/**
 * The file system both batches work on, reduced to what they touch: the bytes of each
 * file and, for image files, the IPTC container a metadata library can load from it.
 * Directories are not represented; a path exists when it has bytes.
 *
 * Temporary files live in a namespace of their own (`TempFile(n)`), as the system's
 * temporary directory is apart from the folders the user picks.
 */
module Storage {
  import opened Wrappers
  import opened Text

  newtype Byte = x: int | 0 <= x < 256

  datatype Path = File(name: string) | TempFile(n: nat)

  /** A value stored under one IPTC dataset name. */
  datatype Value = Str(s: string) | Strs(items: seq<string>) | NoValue

  /** An IPTC container: dataset name to value; `IPTCInfo(None)` is the empty one. */
  type Container = map<string, Value>

  const ObjectName := "object name"
  const CaptionAbstract := "caption/abstract"
  const Keywords := "keywords"
  const ByLine := "by-line"

  /** The caption a container gives for `info['caption/abstract']`: text, or none. */
  function CaptionOf(c: Container): (r: Option<string>)
    ensures r.Some? <==> CaptionAbstract in c && c[CaptionAbstract].Str?
  {
    if CaptionAbstract in c && c[CaptionAbstract].Str? then Some(c[CaptionAbstract].s) else None
  }

  /**
   * The files on the volume. `meta` holds the containers that can be loaded; a file with
   * bytes but no entry there is one whose IPTC data cannot be read.
   */
  datatype Volume = Volume(data: map<Path, seq<Byte>>, meta: map<Path, Container>) {

    /** Every file with a container also has bytes. */
    ghost predicate Valid() {
      meta.Keys <= data.Keys
    }

    /** `tempfile.NamedTemporaryFile(delete=False)`: a new empty file. */
    function CreateEmpty(p: Path): (v: Volume)
      ensures Valid() ==> v.Valid()
      ensures p in v.data && v.data[p] == [] && p !in v.meta
      ensures forall q :: q != p ==> SameAt(v, q)
    {
      Volume(data[p := []], meta - {p})
    }

    /** `shutil.copyfile(from, to)`: the bytes are copied, and with them the container. */
    function CopyFile(from: Path, to: Path): (v: Volume)
      requires from in data
      ensures Valid() ==> v.Valid()
      ensures v.data == data[to := data[from]]
      ensures v.meta == if from in meta then meta[to := meta[from]] else meta - {to}
    {
      Volume(data[to := data[from]], if from in meta then meta[to := meta[from]] else meta - {to})
    }

    /** `info.save_as(p)`: the container is written into the file. */
    function SaveContainer(p: Path, c: Container): (v: Volume)
      requires p in data
      ensures Valid() ==> v.Valid()
      ensures v.data == data && v.meta == meta[p := c]
    {
      Volume(data, meta[p := c])
    }

    /** `shutil.move(from, to)`: `to` gets the file, `from` is gone (unless they coincide). */
    function MoveFile(from: Path, to: Path): (v: Volume)
      requires from in data
      ensures Valid() ==> v.Valid()
      ensures to in v.data && v.data[to] == data[from]
      ensures from != to ==> from !in v.data && from !in v.meta
      ensures from in meta ==> to in v.meta && v.meta[to] == meta[from]
      ensures forall q :: q != from && q != to ==>
        (q in v.data <==> q in data) && (q in v.data ==> v.data[q] == data[q])
        && (q in v.meta <==> q in meta) && (q in v.meta ==> v.meta[q] == meta[q])
    {
      if from == to then this
      else
        var m := if from in meta then meta[to := meta[from]] else meta - {to};
        Volume(data[to := data[from]] - {from}, m - {from})
    }

    /** `os.remove(p)`. */
    function Remove(p: Path): (v: Volume)
      ensures Valid() ==> v.Valid()
      ensures p !in v.data && p !in v.meta
      ensures forall q :: q != p ==> SameAt(v, q)
    {
      Volume(data - {p}, meta - {p})
    }

    /** `os.remove(p)` guarded by `os.path.exists(p)`. */
    function RemoveIfExists(p: Path): (v: Volume)
      ensures p !in v.data && (p !in data ==> v == this)
    {
      if p in data then Remove(p) else this
    }

    /** `q` holds the same file (bytes and container) in both volumes, or is absent from both. */
    ghost predicate SameAt(other: Volume, q: Path) {
      && (q in data <==> q in other.data) && (q in data ==> data[q] == other.data[q])
      && (q in meta <==> q in other.meta) && (q in meta ==> meta[q] == other.meta[q])
    }

    /** The container a metadata library loads from `p`, or a new empty one (`IPTCInfo(None)`). */
    function InfoOf(p: Path): (c: Container)
      ensures p !in meta ==> c == map[]
    {
      if p in meta then meta[p] else map[]
    }
  }

  /** The file system, changed in place by the batch. */
  class Disk {
    var data: map<Path, seq<Byte>>
    var meta: map<Path, Container>

    constructor (v: Volume)
      ensures View() == v
    {
      data := v.data;
      meta := v.meta;
    }

    function View(): Volume
      reads this
    {
      Volume(data, meta)
    }

    method CreateEmpty(p: Path)
      modifies this
      ensures View() == old(View()).CreateEmpty(p)
    {
      data := data[p := []];
      meta := meta - {p};
    }

    method CopyFile(from: Path, to: Path)
      requires from in data
      modifies this
      ensures View() == old(View()).CopyFile(from, to)
    {
      if from in meta {
        meta := meta[to := meta[from]];
      } else {
        meta := meta - {to};
      }
      data := data[to := data[from]];
    }

    method SaveContainer(p: Path, c: Container)
      requires p in data
      modifies this
      ensures View() == old(View()).SaveContainer(p, c)
    {
      meta := meta[p := c];
    }

    method MoveFile(from: Path, to: Path)
      requires from in data
      modifies this
      ensures View() == old(View()).MoveFile(from, to)
    {
      if from != to {
        if from in meta {
          meta := meta[to := meta[from]];
        } else {
          meta := meta - {to};
        }
        meta := meta - {from};
        data := data[to := data[from]] - {from};
      }
    }

    method Remove(p: Path)
      modifies this
      ensures View() == old(View()).Remove(p)
    {
      data := data - {p};
      meta := meta - {p};
    }
  }
}
