/**
 * Building the description request for one image (`chatgpt_responder.py`,
 * `process_photo`): the API key from the stored `"<date>; <key>"` record, the prompt
 * with the image caption as context, and the chat-completions payload.
 *
 * Reading the key file is represented by its outcome, base64 encoding by a function
 * parameter, and the HTTP call is not part of this module: the request is its result.
 */
module Responder {
  import opened Wrappers
  import opened Text
  import Storage

  /** Opening and reading the key file: not found, some other failure, or its text. */
  datatype KeyFile = KeyMissing | KeyUnreadable | KeyText(contents: string)

  /** Why `process_photo` calls `sys.exit(1)`: the file is missing, or anything else failed. */
  datatype KeyError = KeyFileNotFound | KeyNotReadable

  const Separator := "; "

  /** The key is the second `"; "`-separated segment of the record, stripped. */
  function ParseKey(contents: string): (r: Result<string, KeyError>)
    ensures r.Err? <==> !Contains(contents, Separator)
    ensures r.Err? ==> r.error == KeyNotReadable
    ensures r.Ok? ==> NoEdgeSpace(r.value) && !Contains(r.value, Separator)
  {
    var parts := Split(contents, Separator);
    SplitFindsSeparator(contents, Separator);
    if |parts| < 2 then Err(KeyNotReadable)
    else
      StripNoEdge(Strip(parts[1]));
      StrippedKeepsAbsence(parts[1], Separator);
      Ok(Strip(parts[1]))
  }

  /** `split(sep)` gives more than one piece exactly when `sep` occurs. */
  lemma SplitFindsSeparator(s: string, sep: string)
    requires sep != []
    ensures |Split(s, sep)| >= 2 <==> Contains(s, sep)
  {
    var parts := Split(s, sep);
    if |parts| >= 2 {
      assert s == parts[0] + sep + JoinWith(sep, parts[1..]);
      assert s[|parts[0]|..|parts[0]| + |sep|] == sep;
      assert OccursAt(s, sep, |parts[0]|);
    } else {
      assert s == parts[0];
    }
  }

  /** The key record read back: a date and a key, neither holding the separator. */
  lemma ParseKeyOfRecord(date: string, key: string)
    requires !Contains(date, Separator) && !Contains(key, Separator) && NoEdgeSpace(key)
    ensures ParseKey(date + Separator + key) == Ok(key)
  {
    SplitSemicolonPair(date, key);
    StripNoEdge(key);
  }

  /** The `with open(...)` block and its two `except` clauses. */
  function ReadKey(file: KeyFile): (r: Result<string, KeyError>)
    ensures file.KeyMissing? ==> r == Err(KeyFileNotFound)
    ensures file.KeyUnreadable? ==> r == Err(KeyNotReadable)
    ensures file.KeyText? ==> r == ParseKey(file.contents)
  {
    match file
    case KeyMissing => Err(KeyFileNotFound)
    case KeyUnreadable => Err(KeyNotReadable)
    case KeyText(contents) => ParseKey(contents)
  }

  const ContextLead := ". Use the following context to enhance your response: "

  /**
   * `gen_prompt`: the prompt alone, or, with a non-empty caption, the prompt followed by
   * the context sentence and the caption.
   */
  function GenPrompt(prompt: string, caption: Option<string>): (r: string)
    ensures StartsWith(r, prompt)
    ensures !Truthy(caption) ==> r == prompt
    ensures Truthy(caption) ==>
      && |r| == |prompt| + |ContextLead| + |caption.value|
      && r[|prompt|..|prompt| + |ContextLead|] == ContextLead
      && r[|prompt| + |ContextLead|..] == caption.value
  {
    if Truthy(caption) then
      var r := prompt + ContextLead + caption.value;
      assert r[..|prompt|] == prompt;
      assert r[|prompt|..|prompt| + |ContextLead|] == ContextLead;
      assert r[|prompt| + |ContextLead|..] == caption.value;
      r
    else prompt
  }

  /** One element of a message's `content` list. */
  datatype Part = TextPart(text: string) | ImageUrlPart(url: string)

  datatype Message = Message(role: string, content: seq<Part>)

  datatype Payload = Payload(model: string, messages: seq<Message>, maxTokens: nat)

  /** What `requests.post` is called with. */
  datatype Request = Request(url: string, contentType: string, authorization: string, payload: Payload)

  const Endpoint := "https://api.openai.com/v1/chat/completions"
  const Model := "gpt-4o"
  const MaxTokens := 300
  const DataUrlPrefix := "data:image/jpeg;base64,"
  const BearerPrefix := "Bearer "

  /** The request shape the service expects: one user message, a text part, then an image part. */
  predicate WellFormed(req: Request) {
    && req.url == Endpoint
    && req.contentType == "application/json"
    && StartsWith(req.authorization, BearerPrefix)
    && req.payload.model == Model
    && req.payload.maxTokens == MaxTokens
    && |req.payload.messages| == 1
    && req.payload.messages[0].role == "user"
    && |req.payload.messages[0].content| == 2
    && req.payload.messages[0].content[0].TextPart?
    && req.payload.messages[0].content[1].ImageUrlPart?
    && StartsWith(req.payload.messages[0].content[1].url, DataUrlPrefix)
  }

  /** The key the request carries. */
  function KeyOf(req: Request): string
    requires WellFormed(req)
  {
    req.authorization[|BearerPrefix|..]
  }

  /** The instruction text the request carries. */
  function TextOf(req: Request): string
    requires WellFormed(req)
  {
    req.payload.messages[0].content[0].text
  }

  /** The base64 text of the image the request carries. */
  function ImageOf(req: Request): string
    requires WellFormed(req)
  {
    req.payload.messages[0].content[1].url[|DataUrlPrefix|..]
  }

  /**
   * `process_photo` up to the HTTP call: the key is read first, and a failure there ends
   * the program (the result `Err`) before the image is read; otherwise the request
   * carries the key, the generated prompt and the whole image, base64-encoded.
   */
  function ProcessPhoto(key: KeyFile, image: seq<Storage.Byte>, prompt: string, caption: Option<string>,
                        base64: seq<Storage.Byte> -> string): (r: Result<Request, KeyError>)
    ensures ReadKey(key).Err? ==> r == Err(ReadKey(key).error)
    ensures ReadKey(key).Ok? ==>
      && r.Ok? && WellFormed(r.value)
      && KeyOf(r.value) == ReadKey(key).value
      && TextOf(r.value) == GenPrompt(prompt, caption)
      && ImageOf(r.value) == base64(image)
  {
    match ReadKey(key)
    case Err(e) => Err(e)
    case Ok(apiKey) =>
      var auth := BearerPrefix + apiKey;
      var url := DataUrlPrefix + base64(image);
      assert auth[..|BearerPrefix|] == BearerPrefix && auth[|BearerPrefix|..] == apiKey;
      assert url[..|DataUrlPrefix|] == DataUrlPrefix && url[|DataUrlPrefix|..] == base64(image);
      var message := Message("user", [TextPart(GenPrompt(prompt, caption)), ImageUrlPart(url)]);
      Ok(Request(Endpoint, "application/json", auth, Payload(Model, [message], MaxTokens)))
  }

  /**
   * Whether the request can be built depends on the key file alone: the same key file
   * fails, or succeeds, for every image, prompt and caption.
   */
  lemma ProcessPhotoFailsOnKeyAlone(key: KeyFile, image1: seq<Storage.Byte>, image2: seq<Storage.Byte>,
                                    prompt1: string, prompt2: string,
                                    caption1: Option<string>, caption2: Option<string>,
                                    base64: seq<Storage.Byte> -> string)
    ensures ProcessPhoto(key, image1, prompt1, caption1, base64).Err?
        <==> ProcessPhoto(key, image2, prompt2, caption2, base64).Err?
    ensures ProcessPhoto(key, image1, prompt1, caption1, base64).Err? ==>
      ProcessPhoto(key, image1, prompt1, caption1, base64) == ProcessPhoto(key, image2, prompt2, caption2, base64)
  {
  }
}
