/**
 * What the two batches (`image_describer.py` and `csv_generator.py`) share: the outside
 * world they consult, the caption lookup and the description call for one image.
 *
 * The collaborators that are not part of this model are fields of `Env`: where a step
 * fails, what exiftool prints for some bytes, the stored key file, base64 encoding, and
 * the service together with `parse_response` (a request in, a description or nothing
 * out). The operating system's answers to the lock release are fields too.
 */
module Pipeline {
  import opened Wrappers
  import opened Text
  import opened Storage
  import MetadataReader
  import Responder
  import CheckAccess

  /** `title, description, keywords = parse_response(...)`. */
  datatype Description = Description(title: string, description: string, keywords: seq<string>)

  /** The steps of one item that can raise, for the fault oracle `Env.fails`. */
  datatype Step = OpenSource | CreateTemp | CopyToTemp | SaveAs | MoveToDest | OpenCsv

  datatype Env = Env(
    fails: (Step, nat) -> bool,                              // step raises for item i
    exiftool: seq<Byte> -> Option<string>,                   // `exiftool -b -XMP` output, or it raised
    keyFile: Responder.KeyFile,                              // reading `openai_key.txt`
    base64: seq<Byte> -> string,                             // `base64.b64encode(...).decode('ascii')`
    respond: Responder.Request -> Option<Description>,       // HTTP call and `parse_response`; None: raised
    system: string,                                          // `platform.system()`
    normalize: string -> string,                             // `normcase(abspath(...))`
    lsof: string -> CheckAccess.LsofRun,                     // running `lsof <path>`
    snapshot: seq<CheckAccess.ProcEntry>                     // `psutil.process_iter(...)`
  )

  /** `dst_path if dst_path else src_path`. */
  function DestinationDir(src: string, dst: string): (r: string)
    ensures dst != [] ==> r == dst
    ensures dst == [] ==> r == src
  {
    if dst != [] then dst else src
  }

  /** Loading the IPTC container of `p`: it fails when the file has none that can be read. */
  function IptcReadOf(v: Volume, p: Path): (r: MetadataReader.IptcRead)
    ensures r.IptcFailed? <==> p !in v.meta
    ensures r.IptcLoaded? ==> r.caption == CaptionOf(v.meta[p])
  {
    if p in v.meta then MetadataReader.IptcLoaded(CaptionOf(v.meta[p])) else MetadataReader.IptcFailed
  }

  /** `get_metadata(p)` on the volume: the IPTC caption, else the XMP text of the file's bytes. */
  function CaptionFor(env: Env, v: Volume, p: Path): (r: Option<string>)
    requires p in v.data
    ensures r in {MetadataReader.ReadIptcData(IptcReadOf(v, p)), MetadataReader.ReadXmpData(env.exiftool(v.data[p]))}
  {
    MetadataReader.GetMetadataTruthy(IptcReadOf(v, p), env.exiftool(v.data[p]));
    MetadataReader.GetMetadata(IptcReadOf(v, p), env.exiftool(v.data[p]))
  }

  /** How asking for a description ends. */
  datatype Answer =
    | Described(d: Description)            // parse_response returned
    | NotDescribed                         // the call or the parsing raised an Exception
    | KeyFailure(error: Responder.KeyError) // process_photo called sys.exit(1)

  /**
   * `parse_response(image_file, prompt, caption)`: the request is built from the whole
   * image, the prompt and the caption; without a usable key the program exits.
   */
  function Describe(env: Env, image: seq<Byte>, prompt: string, caption: Option<string>): (r: Answer)
    ensures r.KeyFailure? <==> Responder.ReadKey(env.keyFile).Err?
    ensures r.KeyFailure? ==> r.error == Responder.ReadKey(env.keyFile).error
  {
    match Responder.ProcessPhoto(env.keyFile, image, prompt, caption, env.base64)
    case Err(e) => KeyFailure(e)
    case Ok(req) =>
      match env.respond(req)
      case None => NotDescribed
      case Some(d) => Described(d)
  }

  /** The number of items that succeeded. */
  function CountTrue(outcomes: seq<bool>): (n: nat)
    ensures n <= |outcomes|
  {
    if outcomes == [] then 0
    else CountTrue(outcomes[..|outcomes| - 1]) + (if outcomes[|outcomes| - 1] then 1 else 0)
  }
}
