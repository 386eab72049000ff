/**
 * The state QuickGet's window keeps beside its widgets, and the actions that
 * change it: starting and stopping the server, pushing an edited name or MIME
 * type to a running server, and refreshing the code image when the external
 * URL changes.
 *
 * The widgets are not modelled; the texts of the port, name and URL fields,
 * the selected MIME type and the start/stop button's label are fields here.
 * The code image itself is not drawn: `codeShown` is the URL it encodes and
 * `imageUpdates` counts how often a new image was generated.
 */
module Controller {
  import opened Wrappers
  import opened JavaString
  import JavaInteger
  import opened Settings
  import opened FileServer

  /** An entry of the window's log area. */
  datatype LogEntry = Info(message: string) | Error(message: string)

  /**
   * `evaluateCode`'s URL: the base URL, a `/` unless the base already ends
   * with one, and the served name.
   */
  function ComposeUrl(base: string, name: string): string {
    if EndsWith(base, "/") then base + name else base + "/" + name
  }

  /**
   * The composed URL starts with the base, ends with the name, and the name
   * is preceded by a `/`; a base with its trailing `/` already added gives
   * the same URL as the bare base.
   */
  lemma ComposeUrlShape(base: string, name: string)
    ensures var url := ComposeUrl(base, name);
            && StartsWith(url, base)
            && EndsWith(url, name)
            && |url| > |name| && url[|url| - |name| - 1] == '/'
            && |url| == |base| + |name| + (if EndsWith(base, "/") then 0 else 1)
    ensures !EndsWith(base, "/") ==> ComposeUrl(base + "/", name) == ComposeUrl(base, name)
  {
    var url := ComposeUrl(base, name);
    if EndsWith(base, "/") {
      assert url[..|base|] == base;
      assert url[|url| - |name| - 1] == base[|base| - 1];
    } else {
      assert url[..|base|] == base;
      assert (base + "/")[|base| + 1 - 1..] == "/";
    }
  }

  /**
   * The ports the start guard lets through: those `parsePort` returns above
   * 1, that is 2..65536. Port 1 is refused although it is a valid TCP port,
   * and 65536 is accepted although it is not one.
   */
  lemma StartGuardPorts(portText: string)
    ensures ParsePort(portText) > 1 <==> JavaInteger.ParseInt(portText).Some? && 2 <= JavaInteger.ParseInt(portText).value <= 65536
    ensures ParsePort(JavaInteger.Decimal(1)) == 1
    ensures ParsePort(JavaInteger.Decimal(65536)) == 65536
    ensures ParsePort(JavaInteger.Decimal(65537)) == -2
  {
    ParsePortDecimal(1);
    ParsePortDecimal(65536);
    JavaInteger.ParseIntDecimal(65537);
  }

  /** The log line `updateServer` writes for the configuration it installed. */
  function ServingMessage(config: ServingConfig): string {
    "Serving " + BaseName(config.file.path) + " as " + config.name + " (" + config.mimeType + ")"
  }

  /** The QuickGet window's state. */
  class QuickGet {
    var serverThread: ServerThread?
    var selectedFile: Option<FileRef>
    var codeUri: string
    var codeShown: string
    var imageUpdates: nat
    var portText: string
    var nameText: string
    var urlText: string
    var mimeSelected: string
    var buttonLabel: string
    var log: seq<LogEntry>

    /** The code image encodes `codeUri` (every URL is taken to fit in a QR code). */
    ghost predicate Valid()
      reads this
    {
      codeShown == codeUri
    }

    /** What the operator has entered: the file, the port, name and URL texts and the MIME type. */
    function Inputs(): (Option<FileRef>, string, string, string, string)
      reads this
    {
      (selectedFile, portText, nameText, urlText, mimeSelected)
    }

    /** Whether `updateServer` pushes the configuration: a server exists and a file is selected. */
    predicate Propagates()
      reads this
    {
      serverThread != null && selectedFile.Some?
    }

    /** The configuration the entered file, name and MIME type describe. */
    function EnteredConfig(): ServingConfig
      reads this
      requires selectedFile.Some?
    {
      ServingConfig(selectedFile.value, nameText, mimeSelected)
    }

    /**
     * The window after `createUI`: no server, the code image made for the
     * empty URL, the button labelled `Start`.
     */
    constructor (file: Option<FileRef>, portText: string, nameText: string, urlText: string, mimeSelected: string)
      ensures Valid()
      ensures serverThread == null && codeUri == "" && imageUpdates == 0 && buttonLabel == "Start" && log == []
      ensures Inputs() == (file, portText, nameText, urlText, mimeSelected)
    {
      serverThread := null;
      selectedFile := file;
      codeUri := "";
      codeShown := "";
      imageUpdates := 0;
      this.portText := portText;
      this.nameText := nameText;
      this.urlText := urlText;
      this.mimeSelected := mimeSelected;
      buttonLabel := "Start";
      log := [];
    }

    /** `updateCode`: a new code image is made only when the URL differs from the current one. */
    method UpdateCode(code: string)
      requires Valid()
      modifies this`codeUri, this`codeShown, this`imageUpdates
      ensures Valid()
      ensures codeUri == code
      ensures imageUpdates == old(imageUpdates) + (if old(codeUri) == code then 0 else 1)
    {
      if codeUri != code {
        codeUri := code;
        codeShown := code;
        imageUpdates := imageUpdates + 1;
      }
    }

    /** `evaluateCode`: shows the code of the URL composed from the URL field and the name field. */
    method EvaluateCode()
      requires Valid()
      modifies this`codeUri, this`codeShown, this`imageUpdates
      ensures Valid()
      ensures codeUri == ComposeUrl(urlText, nameText)
      ensures imageUpdates == old(imageUpdates) + (if old(codeUri) == ComposeUrl(urlText, nameText) then 0 else 1)
    {
      var file := nameText;
      var url := urlText;
      if !EndsWith(url, "/") {
        url := url + "/";
      }
      UpdateCode(url + file);
    }

    /**
     * `updateServer`: only while a server exists and a file is selected, the
     * server is given the selected file, the name text and the MIME type,
     * the log says so and the code is re-evaluated; otherwise nothing changes.
     */
    method UpdateServer()
      requires Valid()
      modifies this`codeUri, this`codeShown, this`imageUpdates, this`log, serverThread
      ensures Valid()
      ensures serverThread == old(serverThread) && Inputs() == old(Inputs())
      ensures serverThread != null ==> serverThread.listening == old(serverThread.listening)
      ensures Propagates() ==>
                && serverThread.Config() == EnteredConfig()
                && log == old(log) + [Info(ServingMessage(EnteredConfig()))]
                && codeUri == ComposeUrl(urlText, nameText)
                && imageUpdates == old(imageUpdates) + (if old(codeUri) == codeUri then 0 else 1)
      ensures !Propagates() ==>
                && (serverThread != null ==> serverThread.Config() == old(serverThread.Config()))
                && log == old(log) && codeUri == old(codeUri) && imageUpdates == old(imageUpdates)
    {
      if serverThread != null && selectedFile.Some? {
        serverThread.SetFile(selectedFile.value, Some(nameText), Some(mimeSelected));
        log := log + [Info(ServingMessage(serverThread.Config()))];
        EvaluateCode();
      }
    }

    /**
     * `startServer`. Without a selected file nothing happens. With one, a
     * port text that `parsePort` reads as more than 1 creates a new server for
     * the selected file, name and MIME type, installs it by `updateServer`,
     * labels the button `Stop` and starts it (`bound` says whether the port
     * could be bound); any other port text only logs an error. Port 1 is
     * refused, port 65536 is let through.
     */
    method StartServer(bound: bool)
      requires Valid()
      requires ParsePort(portText) == 65536 ==> !bound
      modifies this
      ensures Valid()
      ensures Inputs() == old(Inputs())
      ensures old(selectedFile).None? ==>
                serverThread == old(serverThread) && log == old(log) && codeUri == old(codeUri)
                && imageUpdates == old(imageUpdates) && buttonLabel == old(buttonLabel)
      ensures old(selectedFile).Some? && ParsePort(portText) <= 1 ==>
                serverThread == old(serverThread) && log == old(log) + [Error("Invalid port: " + portText)]
                && codeUri == old(codeUri) && imageUpdates == old(imageUpdates) && buttonLabel == old(buttonLabel)
      ensures old(selectedFile).Some? && ParsePort(portText) > 1 ==>
                && serverThread != null && fresh(serverThread)
                && serverThread.port == ParsePort(portText)
                && serverThread.Config() == EnteredConfig()
                && serverThread.listening == bound
                && buttonLabel == "Stop"
                && log == old(log) + [Info("Starting server..."), Info(ServingMessage(EnteredConfig()))]
                && codeUri == ComposeUrl(urlText, nameText)
                && imageUpdates == old(imageUpdates) + (if old(codeUri) == codeUri then 0 else 1)
    {
      var port := ParsePort(portText);
      if selectedFile.Some? {
        if port > 1 {
          LaunchServer(port, bound);
        } else {
          log := log + [Error("Invalid port: " + portText)];
        }
      }
    }

    /**
     * The accepting branch of `startServer`: a new server on `port` for the
     * selected file, name and MIME type, installed by `updateServer`, the
     * button labelled `Stop`, then `start()`, and on success the code
     * evaluated once more.
     */
    method LaunchServer(port: int, bound: bool)
      requires Valid() && selectedFile.Some?
      requires port <= 65535 || !bound
      modifies this`serverThread, this`log, this`codeUri, this`codeShown, this`imageUpdates, this`buttonLabel
      ensures Valid()
      ensures Inputs() == old(Inputs())
      ensures && serverThread != null && fresh(serverThread)
              && serverThread.port == port
              && serverThread.Config() == EnteredConfig()
              && serverThread.listening == bound
              && buttonLabel == "Stop"
              && log == old(log) + [Info("Starting server..."), Info(ServingMessage(EnteredConfig()))]
              && codeUri == ComposeUrl(urlText, nameText)
              && imageUpdates == old(imageUpdates) + (if old(codeUri) == codeUri then 0 else 1)
    {
      ghost var entered := EnteredConfig();
      var server := new ServerThread(port, selectedFile.value, Some(nameText), Some(mimeSelected));
      serverThread := server;
      log := log + [Info("Starting server...")];
      UpdateServer();
      assert server.Config() == entered && !server.listening && server.port == port;
      assert log == old(log) + [Info("Starting server..."), Info(ServingMessage(entered))];
      buttonLabel := "Stop";
      server.Start(bound);
      if bound {
        EvaluateCode();
      }
    }

    /**
     * The start/stop button. With a server: log, label `Start`, stop the
     * server and drop it. Without one: label `Stop`, then `startServer` —
     * so the label reads `Stop` even when the start guard refused.
     */
    method ToggleServer(bound: bool)
      requires Valid()
      requires ParsePort(portText) == 65536 ==> !bound
      modifies this, serverThread
      ensures Valid()
      ensures Inputs() == old(Inputs())
      ensures old(serverThread) != null ==>
                && serverThread == null && !old(serverThread).listening
                && buttonLabel == "Start" && log == old(log) + [Info("Stopping server...")]
                && codeUri == old(codeUri) && imageUpdates == old(imageUpdates)
      ensures old(serverThread) != null ==> old(serverThread).Config() == old(serverThread.Config())
      ensures old(serverThread) == null ==> buttonLabel == "Stop"
      ensures old(serverThread) == null && (old(selectedFile).None? || ParsePort(portText) <= 1) ==>
                && serverThread == null && codeUri == old(codeUri) && imageUpdates == old(imageUpdates)
                && log == old(log) + (if old(selectedFile).None? then [] else [Error("Invalid port: " + portText)])
      ensures old(serverThread) == null && old(selectedFile).Some? && ParsePort(portText) > 1 ==>
                && serverThread != null && fresh(serverThread)
                && serverThread.port == ParsePort(portText)
                && serverThread.Config() == EnteredConfig()
                && serverThread.listening == bound
                && log == old(log) + [Info("Starting server..."), Info(ServingMessage(EnteredConfig()))]
                && codeUri == ComposeUrl(urlText, nameText)
                && imageUpdates == old(imageUpdates) + (if old(codeUri) == codeUri then 0 else 1)
    {
      if serverThread != null {
        log := log + [Info("Stopping server...")];
        buttonLabel := "Start";
        serverThread.Stop();
        serverThread := null;
        return;
      }
      buttonLabel := "Stop";
      StartServer(bound);
    }

    /** The name field's document listener, after the field's text became `text`. */
    method EditName(text: string)
      requires Valid()
      modifies this`nameText, this`codeUri, this`codeShown, this`imageUpdates, this`log, serverThread
      ensures Valid()
      ensures nameText == text && serverThread == old(serverThread)
      ensures (selectedFile, portText, urlText, mimeSelected) == old((selectedFile, portText, urlText, mimeSelected))
      ensures serverThread != null ==> serverThread.listening == old(serverThread.listening)
      ensures Propagates() ==>
                && serverThread.Config() == EnteredConfig()
                && log == old(log) + [Info(ServingMessage(EnteredConfig()))]
                && codeUri == ComposeUrl(urlText, text)
                && imageUpdates == old(imageUpdates) + (if old(codeUri) == codeUri then 0 else 1)
      ensures !Propagates() ==>
                && (serverThread != null ==> serverThread.Config() == old(serverThread.Config()))
                && log == old(log) && codeUri == old(codeUri) && imageUpdates == old(imageUpdates)
    {
      nameText := text;
      UpdateServer();
    }

    /** The MIME box's item listener, after `mime` was selected. */
    method SelectMime(mime: string)
      requires Valid()
      modifies this`mimeSelected, this`codeUri, this`codeShown, this`imageUpdates, this`log, serverThread
      ensures Valid()
      ensures mimeSelected == mime && serverThread == old(serverThread)
      ensures (selectedFile, portText, nameText, urlText) == old((selectedFile, portText, nameText, urlText))
      ensures serverThread != null ==> serverThread.listening == old(serverThread.listening)
      ensures Propagates() ==>
                && serverThread.Config() == EnteredConfig()
                && log == old(log) + [Info(ServingMessage(EnteredConfig()))]
                && codeUri == ComposeUrl(urlText, nameText)
                && imageUpdates == old(imageUpdates) + (if old(codeUri) == codeUri then 0 else 1)
      ensures !Propagates() ==>
                && (serverThread != null ==> serverThread.Config() == old(serverThread.Config()))
                && log == old(log) && codeUri == old(codeUri) && imageUpdates == old(imageUpdates)
    {
      mimeSelected := mime;
      UpdateServer();
    }
  }
}
