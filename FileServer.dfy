/**
 * QuickGet's `ServerThread`: a NanoHTTPD server that holds the file to
 * serve, the name it is served under and its MIME type, and answers each
 * request by the routing rule of its `serve` override.
 *
 * The file system is not consulted here: whether the file can be opened and
 * its length are parameters of the routing decision. The response body is
 * not streamed either; a response names the text or the file it carries.
 */
module FileServer {
  import opened Wrappers
  import opened JavaString
  import opened MimeTypes

  /** NanoHTTPD's `MIME_PLAINTEXT`. */
  const MIME_PLAINTEXT: string := "text/plain"

  /** Files longer than this many bytes (64 KiB) are sent chunked. */
  const CHUNK_THRESHOLD: nat := 1024 * 64

  /**
   * A `java.io.File`, by its path; `/` is the name separator. The path is
   * taken to be in the normal form `File` gives it: no `//` and no trailing
   * `/` (except a path that is only `/`).
   */
  datatype FileRef = FileRef(path: string)

  /** `File.getName`: the part of the path after the last separator. */
  function BaseName(path: string): (name: string)
    ensures '/' !in name
    ensures EndsWith(path, name)
    ensures |name| < |path| ==> path[|path| - |name| - 1] == '/'
  {
    if path == [] then []
    else if path[|path| - 1] == '/' then []
    else BaseName(path[..|path| - 1]) + [path[|path| - 1]]
  }

  /** The request methods NanoHTTPD distinguishes. */
  datatype Method =
    | GET | PUT | POST | DELETE | HEAD | OPTIONS | TRACE | CONNECT | PATCH
    | PROPFIND | PROPPATCH | MKCOL | MOVE | COPY | LOCK | UNLOCK

  /** The response statuses `serve` produces itself, with their codes (RFC 9110, section 15). */
  datatype Status = OK | NOT_FOUND | METHOD_NOT_ALLOWED {
    function Code(): nat {
      match this
      case OK => 200
      case NOT_FOUND => 404
      case METHOD_NOT_ALLOWED => 405
    }
  }

  /**
   * The response `serve` returns:
   * - `FixedText`: fixed length, a short text body;
   * - `FixedFile`: fixed length, the file's bytes, `length` of them;
   * - `ChunkedFile`: chunked transfer coding (RFC 9112, section 7.1) of the file's bytes;
   * - `DefaultHandler`: whatever NanoHTTPD's own `serve` answers; it is not modelled.
   */
  datatype Response =
    | FixedText(status: Status, mimeType: string, text: string)
    | FixedFile(status: Status, mimeType: string, file: FileRef, length: nat)
    | ChunkedFile(status: Status, mimeType: string, file: FileRef)
    | DefaultHandler
  {
    predicate ServesFile() {
      FixedFile? || ChunkedFile?
    }
  }

  /** What a `ServerThread` serves, as read by one request. */
  datatype ServingConfig = ServingConfig(file: FileRef, name: string, mimeType: string)

  /** The request path with one leading `/` removed, if there is one. */
  function StripLeadingSlash(uri: string): (path: string)
    ensures StartsWith(uri, "/") ==> "/" + path == uri
    ensures !StartsWith(uri, "/") ==> path == uri
  {
    if StartsWith(uri, "/") then uri[1..] else uri
  }

  /** Whether a request for `uri` asks for the served name, ignoring case. */
  predicate RequestMatches(config: ServingConfig, uri: string) {
    EqualsIgnoreCase(config.name, StripLeadingSlash(uri))
  }

  /**
   * `ServerThread.serve` for a request with method `verb` and URI `uri`,
   * given whether the configured file can be opened and its length.
   */
  function Route(verb: Method, uri: string, config: ServingConfig, openable: bool, length: nat): Response {
    if verb != GET then
      FixedText(METHOD_NOT_ALLOWED, MIME_PLAINTEXT, "Method not allowed!")
    else if RequestMatches(config, uri) then
      if !openable then FixedText(NOT_FOUND, MIME_PLAINTEXT, "File not found!")
      else if length > CHUNK_THRESHOLD then ChunkedFile(OK, config.mimeType, config.file)
      else FixedFile(OK, config.mimeType, config.file, length)
    else
      DefaultHandler
  }

  /** Any method but GET is refused with 405 and a plain-text body, whatever the path and the file. */
  lemma RouteRefusesOtherMethods(verb: Method, uri: string, config: ServingConfig, openable: bool, length: nat)
    requires verb != GET
    ensures var r := Route(verb, uri, config, openable, length);
            r.FixedText? && r.status.Code() == 405 && r.mimeType == MIME_PLAINTEXT && !r.ServesFile()
  {
  }

  /**
   * The file is sent exactly when the request is a GET for the served name,
   * in any case, and the file can be opened; a request that does not ask for
   * the served name goes to the default handler, and only such a request.
   */
  lemma RouteServesIff(verb: Method, uri: string, config: ServingConfig, openable: bool, length: nat)
    ensures var r := Route(verb, uri, config, openable, length);
            r.ServesFile() <==> verb == GET && RequestMatches(config, uri) && openable
    ensures var r := Route(verb, uri, config, openable, length);
            r.DefaultHandler? <==> verb == GET && !RequestMatches(config, uri)
    ensures var r := Route(verb, uri, config, openable, length);
            (r.FixedText? && r.status == NOT_FOUND) <==> verb == GET && RequestMatches(config, uri) && !openable
  {
  }

  /**
   * When the file is sent it is the configured file with the configured MIME
   * type and status 200; it is chunked exactly when it is longer than 64 KiB,
   * and otherwise sent with its exact length.
   */
  lemma RouteFileResponse(verb: Method, uri: string, config: ServingConfig, openable: bool, length: nat)
    requires Route(verb, uri, config, openable, length).ServesFile()
    ensures var r := Route(verb, uri, config, openable, length);
            && r.status.Code() == 200 && r.file == config.file && r.mimeType == config.mimeType
            && (r.ChunkedFile? <==> length > 65536)
            && (r.FixedFile? ==> r.length == length)
  {
  }

  /** A GET for `/` followed by the served name in any mix of cases sends the file if it opens. */
  lemma RouteAnyCase(uriName: string, config: ServingConfig, length: nat)
    requires EqualsIgnoreCase(uriName, config.name)
    ensures Route(GET, "/" + uriName, config, true, length).ServesFile()
    ensures Route(GET, "/" + UpperCase(config.name), config, true, length).ServesFile()
  {
    EqualsIgnoreCaseEquivalence(uriName, config.name, config.name);
    assert StripLeadingSlash("/" + uriName) == uriName;
    EqualsIgnoreCaseIffUpperCase(UpperCase(config.name), config.name);
    assert UpperCase(UpperCase(config.name)) == UpperCase(config.name);
    EqualsIgnoreCaseEquivalence(config.name, UpperCase(config.name), config.name);
    assert StripLeadingSlash("/" + UpperCase(config.name)) == UpperCase(config.name);
  }

  /** Only one leading `/` is stripped: `//name` does not reach a served name without a leading `/`. */
  lemma RouteStripsOneSlash(config: ServingConfig, openable: bool, length: nat)
    requires !StartsWith(config.name, "/")
    ensures Route(GET, "//" + config.name, config, openable, length) == DefaultHandler
  {
    var path := StripLeadingSlash("//" + config.name);
    assert path == "/" + config.name;
  }

  /**
   * After the served name changes from `oldName` to a name that differs from it
   * beyond case, a request for the old name goes to the default handler and
   * a request for the new name sends the file.
   */
  lemma RouteAfterRename(config: ServingConfig, oldName: string, length: nat)
    requires !EqualsIgnoreCase(oldName, config.name)
    ensures Route(GET, "/" + oldName, config, true, length) == DefaultHandler
    ensures Route(GET, "/" + config.name, config, true, length).ServesFile()
  {
    assert StripLeadingSlash("/" + oldName) == oldName;
    EqualsIgnoreCaseEquivalence(config.name, oldName, oldName);
    RouteAnyCase(config.name, config, length);
  }

  /** The server thread of QuickGet: its port and the file, name and MIME type it serves. */
  class ServerThread {
    const port: int
    var file: FileRef
    var name: string
    var mimeType: string
    /** Whether NanoHTTPD's listener was started and not yet stopped. */
    var listening: bool

    /** The configuration the next request reads. */
    function Config(): ServingConfig
      reads this
    {
      ServingConfig(file, name, mimeType)
    }

    /** `new ServerThread(port, file, name, mimeType)`: not yet listening, configured as `setFile` does. */
    constructor (port: int, file: FileRef, name: Option<string>, mimeType: Option<string>)
      ensures this.port == port && !listening
      ensures this.file == file
      ensures this.name == if name.None? then BaseName(file.path) else name.value
      ensures this.mimeType == if mimeType.None? then MIME_OCTET_STREAM else mimeType.value
    {
      this.port := port;
      this.file := file;
      this.name := if name.None? then BaseName(file.path) else name.value;
      this.mimeType := if mimeType.None? then MIME_OCTET_STREAM else mimeType.value;
      listening := false;
    }

    /**
     * `setFile`: installs the file, the name (its base name when `name` is
     * null) and the MIME type (`application/octet-stream` when `mimeType` is
     * null). Only null falls back: an empty name or type is kept as it is.
     */
    method SetFile(file: FileRef, name: Option<string>, mimeType: Option<string>)
      modifies this`file, this`name, this`mimeType
      ensures this.file == file
      ensures this.name == if name.None? then BaseName(file.path) else name.value
      ensures this.mimeType == if mimeType.None? then MIME_OCTET_STREAM else mimeType.value
    {
      this.file := file;
      this.name := if name.None? then BaseName(file.path) else name.value;
      this.mimeType := if mimeType.None? then MIME_OCTET_STREAM else mimeType.value;
    }

    /** `start()`: the listener runs when the port could be bound (`bound`), otherwise start throws. */
    method Start(bound: bool)
      modifies this`listening
      ensures listening == bound
    {
      listening := bound;
    }

    /** `stop()`: the listener no longer runs. */
    method Stop()
      modifies this`listening
      ensures !listening
    {
      listening := false;
    }
  }
}
