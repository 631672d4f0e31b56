/** The `POST` handler of `murphy/src/app/api/generate-audio/route.ts`: the
    request body as a JSON value, the chain of early-return checks, and the
    shaping of the success and failure responses. Everything the handler
    reaches outside itself (the body parser, the environment, the generator,
    the file read, base64) is a field of `Runtime`. */
module GenerateAudioRoute {
  import opened Wrappers
  import opened Strings

  // ------------------------------------------------------------ JS values

  /** A value as `request.json()` can produce it (plus `undefined`, which
      property access can). */
  datatype JsValue =
    | Undefined
    | Null
    | Bool(b: bool)
    | Number(n: int)
    | Str(s: string)
    | Array(items: seq<JsValue>)
    | Object(fields: map<string, JsValue>)

  /** JavaScript truthiness; an empty array or object is truthy. */
  predicate Truthy(v: JsValue) {
    match v
    case Undefined => false
    case Null => false
    case Bool(b) => b
    case Number(n) => n != 0
    case Str(s) => s != ""
    case Array(_) => true
    case Object(_) => true
  }

  /** Reading a property of a value that is neither `null` nor `undefined`. */
  function Property(v: JsValue, key: string): JsValue {
    match v
    case Object(fields) => if key in fields then fields[key] else Undefined
    case _ => Undefined
  }

  /** `v.length`: a number for strings and arrays, the `length` property of
      an object, `undefined` otherwise. */
  function Length(v: JsValue): JsValue {
    match v
    case Str(s) => Number(|s|)
    case Array(items) => Number(|items|)
    case Object(_) => Property(v, "length")
    case _ => Undefined
  }

  /** `===` on values from one parse: primitives compare by value; arrays
      and objects are distinct fresh objects, so never identical. */
  predicate StrictlyEqual(a: JsValue, b: JsValue) {
    match (a, b)
    case (Undefined, Undefined) => true
    case (Null, Null) => true
    case (Bool(x), Bool(y)) => x == y
    case (Number(x), Number(y)) => x == y
    case (Str(x), Str(y)) => x == y
    case _ => false
  }

  // ------------------------------------------------------------ runtime

  /** What a `throw` carries: an `Error` with its message, or anything else. */
  datatype Thrown = ErrorValue(message: string) | OtherValue

  /** How `generatePodcastAudio` ends: it returns a value (a path, or
      `undefined`, which is what the unfinished generator returns), or it
      throws. */
  datatype GenerationOutcome = Returned(path: Option<string>) | Raised(thrown: Thrown)

  /** The handler's surroundings: the parsed body (or the parse error), the
      `MURF_API_KEY` variable, the generator's outcome, `fs.readFileSync`,
      base64 encoding, and the messages of the `TypeError`s the runtime
      raises for destructuring a null body and for reading an undefined
      path. */
  datatype Runtime = Runtime(
    body: Result<JsValue, Thrown>,
    apiKey: Option<string>,
    generate: GenerationOutcome,
    readFile: string -> Result<seq<bv8>, Thrown>,
    base64: seq<bv8> -> string,
    nullBodyError: string,
    undefinedPathError: string)

  // ---------------------------------------------------------- responses

  datatype ResponseBody =
    | ErrorBody(error: string, details: Option<string>)
    | AudioBody(success: bool, audio: string, mimeType: string, fileName: string)

  datatype Response = Response(status: nat, body: ResponseBody)

  const MissingFieldsMessage := "Missing required fields: content, names, speakers"
  const LengthMismatchMessage := "Names and speakers arrays must have the same length"
  const MissingKeyMessage := "Murf API key not configured"
  const GenerationFailedMessage := "Failed to generate audio"
  const UnknownErrorDetails := "Unknown error"
  const AudioMimeType := "audio/mpeg"

  /** The `catch` block: 500 with the thrown error's message, if it is an
      `Error`, as details. */
  function Crash(thrown: Thrown): Response {
    Response(500, ErrorBody(GenerationFailedMessage,
      Some(match thrown case ErrorValue(m) => m case OtherValue => UnknownErrorDetails)))
  }

  // ------------------------------------------------------------ basename

  /** The path without its trailing slashes. */
  function StripTrailingSlashes(p: string): (r: string)
    ensures |r| <= |p| && r == p[..|r|]
    ensures r == [] || r[|r| - 1] != '/'
    ensures forall k :: |r| <= k < |p| ==> p[k] == '/'
  {
    if p != [] && p[|p| - 1] == '/' then StripTrailingSlashes(p[..|p| - 1]) else p
  }

  /** POSIX `path.basename`: what follows the last slash once trailing
      slashes are dropped. */
  function Basename(p: string): (r: string)
    ensures '/' !in r
  {
    var parts := Split(StripTrailingSlashes(p), '/');
    parts[|parts| - 1]
  }

  /** The base name holds no slash, and taking it twice changes nothing. */
  lemma BasenameIsLastSegment(p: string)
    ensures '/' !in Basename(p)
    ensures Basename(Basename(p)) == Basename(p)
  {
    var b := Basename(p);
    assert '/' !in b;
    assert b == [] || b[|b| - 1] != '/';
    assert StripTrailingSlashes(b) == b;
    assert IndexOf(b, '/') == None;
  }

  /** The base name of `dir + "/" + name` is `name`, for a name without a
      slash. */
  lemma BasenameOfJoin(dir: string, name: string)
    requires name != [] && '/' !in name
    ensures Basename(dir + "/" + name) == name
  {
    var p := dir + "/" + name;
    assert p[|p| - 1] == name[|name| - 1];
    assert StripTrailingSlashes(p) == p;
    assert p == dir + ['/'] + name;
    SplitLast(dir, '/', name);
  }

  /** Trailing slashes do not change the base name. */
  lemma BasenameIgnoresTrailingSlash(p: string)
    ensures Basename(p + "/") == Basename(p)
  {
    var q := p + "/";
    assert q[..|q| - 1] == p;
  }

  // ------------------------------------------------------------- handler

  /** The three checks in order, with the response of the first that fails,
      or `None` when all pass and the handler goes on to generate. */
  function Validate(content: JsValue, names: JsValue, speakers: JsValue, apiKey: Option<string>): (r: Option<Response>)
    ensures r.Some? ==> r.value.status in {400, 500} && r.value.body.ErrorBody? && r.value.body.details.None?
  {
    if !Truthy(content) || !Truthy(names) || !Truthy(speakers) then
      Some(Response(400, ErrorBody(MissingFieldsMessage, None)))
    else if !StrictlyEqual(Length(names), Length(speakers)) then
      Some(Response(400, ErrorBody(LengthMismatchMessage, None)))
    else if apiKey.None? || apiKey.value == "" then
      Some(Response(500, ErrorBody(MissingKeyMessage, None)))
    else
      None
  }

  /** The handler past validation: generate, read the file, answer with it
      encoded; anything thrown lands in the `catch` block. */
  function Generate(runtime: Runtime): (r: Response)
    ensures r.status in {200, 500}
    ensures r.status == 200 <==> r.body.AudioBody?
  {
    match runtime.generate
    case Raised(thrown) => Crash(thrown)
    case Returned(None) => Crash(ErrorValue(runtime.undefinedPathError))
    case Returned(Some(path)) =>
      match runtime.readFile(path)
      case Failure(thrown) => Crash(thrown)
      case Success(bytes) =>
        Response(200, AudioBody(true, runtime.base64(bytes), AudioMimeType, Basename(path)))
  }

  /** `POST`. */
  function Post(runtime: Runtime): (r: Response)
    ensures r.status in {200, 400, 500}
  {
    match runtime.body
    case Failure(thrown) => Crash(thrown)
    case Success(json) =>
      if json.Null? || json.Undefined? then Crash(ErrorValue(runtime.nullBodyError))
      else
        match Validate(Property(json, "content"), Property(json, "names"), Property(json, "speakers"), runtime.apiKey)
        case Some(response) => response
        case None => Generate(runtime)
  }

  // ---------------------------------------------------------------- lemmas

  /** The checks come in order: a falsy field gives the missing-fields 400
      whatever the lengths and the key; with all fields present, lengths
      that differ give the length 400 whatever the key; only then does a
      missing or empty key give the 500; and validation lets the request
      through exactly when all three pass. */
  lemma ValidationOrder(content: JsValue, names: JsValue, speakers: JsValue, apiKey: Option<string>)
    ensures !Truthy(content) || !Truthy(names) || !Truthy(speakers) ==>
      Validate(content, names, speakers, apiKey) == Some(Response(400, ErrorBody(MissingFieldsMessage, None)))
    ensures Truthy(content) && Truthy(names) && Truthy(speakers) && !StrictlyEqual(Length(names), Length(speakers)) ==>
      Validate(content, names, speakers, apiKey) == Some(Response(400, ErrorBody(LengthMismatchMessage, None)))
    ensures Truthy(content) && Truthy(names) && Truthy(speakers) && StrictlyEqual(Length(names), Length(speakers)) &&
            (apiKey.None? || apiKey.value == "") ==>
      Validate(content, names, speakers, apiKey) == Some(Response(500, ErrorBody(MissingKeyMessage, None)))
    ensures Validate(content, names, speakers, apiKey).None? <==>
      Truthy(content) && Truthy(names) && Truthy(speakers) && StrictlyEqual(Length(names), Length(speakers)) &&
      apiKey.Some? && apiKey.value != ""
  {
  }

  /** Two arrays pass the length check exactly when they have the same
      number of elements; two empty arrays pass every check. */
  lemma ArraysAgainstChecks(content: string, names: seq<JsValue>, speakers: seq<JsValue>, apiKey: string)
    requires content != "" && apiKey != ""
    ensures Validate(Str(content), Array(names), Array(speakers), Some(apiKey)).None? <==> |names| == |speakers|
    ensures Validate(Str(content), Array([]), Array([]), Some(apiKey)) == None
  {
  }

  /** When validation answers, the generator is never reached: the
      response does not depend on what generation, reading or encoding
      would have done. */
  lemma ValidationFailureSkipsGeneration(runtime: Runtime, other: Runtime)
    requires runtime.body == other.body && runtime.apiKey == other.apiKey
    requires runtime.body.Success? && !runtime.body.value.Null? && !runtime.body.value.Undefined?
    requires var json := runtime.body.value;
      Validate(Property(json, "content"), Property(json, "names"), Property(json, "speakers"), runtime.apiKey).Some?
    ensures Post(runtime) == Post(other)
  {
  }

  /** A request that passes validation and whose generator returns a path
      that can be read gets 200 with `success: true`, the file's bytes
      base64-encoded, `audio/mpeg`, and the path's base name. */
  lemma SuccessResponse(runtime: Runtime, path: string, bytes: seq<bv8>)
    requires runtime.body.Success? && runtime.body.value.Object?
    requires var json := runtime.body.value;
      Validate(Property(json, "content"), Property(json, "names"), Property(json, "speakers"), runtime.apiKey).None?
    requires runtime.generate == Returned(Some(path)) && runtime.readFile(path) == Success(bytes)
    ensures Post(runtime) == Response(200, AudioBody(true, runtime.base64(bytes), AudioMimeType, Basename(path)))
  {
  }

  /** Every response is one of five: 200 with audio, the missing-fields or
      length 400, the missing-key 500, or the 500 of the `catch` block,
      whose details are a thrown error's message or `Unknown error`. */
  lemma ResponseKinds(runtime: Runtime)
    ensures var r := Post(runtime);
      || (r.status == 200 && r.body.AudioBody? && r.body.success && r.body.mimeType == AudioMimeType)
      || r == Response(400, ErrorBody(MissingFieldsMessage, None))
      || r == Response(400, ErrorBody(LengthMismatchMessage, None))
      || r == Response(500, ErrorBody(MissingKeyMessage, None))
      || (exists t: Thrown :: r == Crash(t))
    ensures Post(runtime).status == 200 <==> Post(runtime).body.AudioBody?
  {
    var r := Post(runtime);
    match runtime.body {
      case Failure(thrown) =>
        assert r == Crash(thrown);
      case Success(json) =>
        if json.Null? || json.Undefined? {
          assert r == Crash(ErrorValue(runtime.nullBodyError));
        } else if Validate(Property(json, "content"), Property(json, "names"), Property(json, "speakers"), runtime.apiKey).None? {
          match runtime.generate {
            case Raised(thrown) =>
              assert r == Crash(thrown);
            case Returned(None) =>
              assert r == Crash(ErrorValue(runtime.undefinedPathError));
            case Returned(Some(path)) =>
              if runtime.readFile(path).Failure? {
                assert r == Crash(runtime.readFile(path).error);
              }
          }
        }
    }
  }

  /** Whatever is thrown after the body parses and validation passes ends
      as the 500 `Failed to generate audio`, with the error's message as
      details, or `Unknown error` for a thrown non-error. */
  lemma ThrownErrorDetails(runtime: Runtime, thrown: Thrown)
    requires runtime.body.Success? && runtime.body.value.Object?
    requires var json := runtime.body.value;
      Validate(Property(json, "content"), Property(json, "names"), Property(json, "speakers"), runtime.apiKey).None?
    requires runtime.generate == Raised(thrown) ||
             (runtime.generate.Returned? && runtime.generate.path.Some? &&
              runtime.readFile(runtime.generate.path.value) == Failure(thrown))
    ensures Post(runtime).status == 500
    ensures Post(runtime).body == ErrorBody(GenerationFailedMessage,
      Some(if thrown.ErrorValue? then thrown.message else UnknownErrorDetails))
  {
  }

  /** A body that does not parse is answered the same way. */
  lemma UnparsedBody(runtime: Runtime)
    requires runtime.body.Failure?
    ensures Post(runtime) == Crash(runtime.body.error)
    ensures Post(runtime).status == 500 && Post(runtime).body.error == GenerationFailedMessage
  {
  }

  /** With the generator as it stands, which returns nothing, a request
      that passes validation can only get the `catch` block's 500 carrying
      the message of the `TypeError` raised for reading an undefined path. */
  lemma UnfinishedGeneratorNeverSucceeds(runtime: Runtime)
    requires runtime.body.Success? && runtime.body.value.Object?
    requires var json := runtime.body.value;
      Validate(Property(json, "content"), Property(json, "names"), Property(json, "speakers"), runtime.apiKey).None?
    requires runtime.generate == Returned(None)
    ensures Post(runtime) == Response(500, ErrorBody(GenerationFailedMessage, Some(runtime.undefinedPathError)))
  {
  }
}
