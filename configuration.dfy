/**
 * The command-line configuration and `connect`'s decisions: reject a missing
 * server or user before dialling, then choose the nick handed to the client.
 */
module Configuration {
  import opened Wrappers

  /** The settings `connect` and `main` read; the log level and the version flag are not modelled. */
  datatype Config = Config(
    join: seq<string>,
    nick: string,
    port: int,
    quiet: bool,
    sendBurst: int,
    sendLimitNanos: int,
    server: string,
    serverPass: string,
    tls: bool,
    user: string)

  /** What `connect` hands to the IRC client besides the connection and the handler. */
  datatype ClientConfig = ClientConfig(nick: string, pass: string, user: string, sendBurst: int, sendLimitNanos: int)

  function MissingConfiguration(field: string): string {
    "missing configuration: " + field
  }

  /**
   * The required fields, each with whether it is set, in the order the
   * validation loop visits them. Go leaves map iteration order unspecified;
   * `serverFirst` stands for the order the runtime happens to pick.
   */
  function RequiredFields(cfg: Config, serverFirst: bool): seq<(string, bool)> {
    var server := ("server", cfg.server != "");
    var user := ("user", cfg.user != "");
    if serverFirst then [server, user] else [user, server]
  }

  /** The first field in `checks` that is not set. */
  function FirstMissing(checks: seq<(string, bool)>): (r: Option<string>)
    ensures r.None? <==> forall i :: 0 <= i < |checks| ==> checks[i].1
    ensures r.Some? ==> exists i :: 0 <= i < |checks| && checks[i] == (r.value, false) && forall j :: 0 <= j < i ==> checks[j].1
  {
    if checks == [] then None
    else if !checks[0].1 then Some(checks[0].0)
    else
      var rest := FirstMissing(checks[1..]);
      assert forall i :: 1 <= i < |checks| ==> checks[i] == checks[1..][i - 1];
      rest
  }

  /**
   * `connect` without the network: validation, then the dial (whose outcome
   * is the parameter `dialError`), then the client configuration.
   */
  function Connect(cfg: Config, serverFirst: bool, dialError: Option<string>): (r: Result<ClientConfig>)
    // validation rejects an empty server or user, naming the empty field
    ensures cfg.server == "" && cfg.user != "" ==> r == Failure(MissingConfiguration("server"))
    ensures cfg.user == "" && cfg.server != "" ==> r == Failure(MissingConfiguration("user"))
    ensures cfg.server == "" && cfg.user == "" ==>
      r == Failure(MissingConfiguration(if serverFirst then "server" else "user"))
    // a failed dial is reported wrapped, and only once validation passed
    ensures cfg.server != "" && cfg.user != "" && dialError.Some? ==>
      r == Failure("creating tcp connection: " + dialError.value)
    ensures r.Success? <==> cfg.server != "" && cfg.user != "" && dialError.None?
    // the nick defaults to the user; user, password and pacing pass through unchanged
    ensures r.Success? ==> r.value.nick == (if cfg.nick != "" then cfg.nick else cfg.user)
    ensures r.Success? ==> r.value.nick != ""
    ensures r.Success? ==> r.value.user == cfg.user && r.value.pass == cfg.serverPass
    ensures r.Success? ==> r.value.sendBurst == cfg.sendBurst && r.value.sendLimitNanos == cfg.sendLimitNanos
  {
    var checks := RequiredFields(cfg, serverFirst);
    match FirstMissing(checks)
    case Some(field) => Failure(MissingConfiguration(field))
    case None =>
      assert checks[0].1 && checks[1].1;
      match dialError
      case Some(e) => Failure("creating tcp connection: " + e)
      case None =>
        var nick := if cfg.nick == "" then cfg.user else cfg.nick;
        Success(ClientConfig(nick, cfg.serverPass, cfg.user, cfg.sendBurst, cfg.sendLimitNanos))
  }

  /** A configuration error is decided before any dial: the dial's outcome cannot change it. */
  lemma ValidationPrecedesDial(cfg: Config, serverFirst: bool, e1: Option<string>, e2: Option<string>)
    requires cfg.server == "" || cfg.user == ""
    ensures Connect(cfg, serverFirst, e1) == Connect(cfg, serverFirst, e2)
    ensures Connect(cfg, serverFirst, e1).Failure?
  {
  }
}
