/**
 * The command line (`App`): the flags, the merge of the configuration file
 * into them, the log level the verbosity selects, and the check that a URL or
 * a method subcommand was given.
 */
module Cli {
  import opened Results
  import opened Errors
  import opened Params
  import opened Requests

  /** Rust's `u8`. */
  newtype u8 = x: int | 0 <= x < 256

  /** The arguments of a method subcommand. */
  datatype MethodData = MethodData(url: string, parameters: seq<Parameter>)

  /** The method subcommands; each one carries a URL and parameters (`Method::data`). */
  datatype Subcommand =
    | HEAD(data: MethodData)
    | GET(data: MethodData)
    | PUT(data: MethodData)
    | POST(data: MethodData)
    | PATCH(data: MethodData)
    | DELETE(data: MethodData)

  /** The HTTP method a subcommand names (`From<&Method> for reqwest::Method`). */
  function MethodOf(cmd: Subcommand): (m: HttpMethod)
    ensures cmd.HEAD? <==> m == Head
    ensures cmd.GET? <==> m == Get
    ensures cmd.PUT? <==> m == Put
    ensures cmd.PATCH? <==> m == Patch
    ensures cmd.POST? <==> m == Post
    ensures cmd.DELETE? <==> m == Delete
  {
    match cmd
    case HEAD(_) => Head
    case GET(_) => Get
    case PUT(_) => Put
    case PATCH(_) => Patch
    case POST(_) => Post
    case DELETE(_) => Delete
  }

  /** The optional keys of the configuration file. */
  datatype Config = Config(
    verbose: Option<u8>,
    form: Option<bool>,
    auth: Option<string>,
    token: Option<string>,
    secure: Option<bool>)

  /** The flags the configuration file can supply. */
  datatype Settings = Settings(
    verbose: u8,
    form: bool,
    secure: bool,
    auth: Option<string>,
    token: Option<string>)

  /**
   * The configuration only fills flags the command line left at their
   * defaults: each of the five keys is taken from the file when the matching
   * flag is unset and the file has the key.
   */
  function MergeConfig(s: Settings, c: Config): Settings {
    Settings(
      if s.verbose == 0 && c.verbose.Some? then c.verbose.value else s.verbose,
      if !s.form && c.form.Some? then c.form.value else s.form,
      if !s.secure && c.secure.Some? then c.secure.value else s.secure,
      if s.auth.None? then c.auth else s.auth,
      if s.token.None? then c.token else s.token)
  }

  /** The same merge as written in `process_config_file`: the file's `form` key is stored into `secure`. */
  function MergeConfigAsWritten(s: Settings, c: Config): Settings {
    var secure1 := if !s.form && c.form.Some? then c.form.value else s.secure;
    Settings(
      if s.verbose == 0 && c.verbose.Some? then c.verbose.value else s.verbose,
      s.form,
      if !secure1 && c.secure.Some? then c.secure.value else secure1,
      if s.auth.None? then c.auth else s.auth,
      if s.token.None? then c.token else s.token)
  }

  /** A flag given on the command line is never overridden by the configuration file. */
  lemma MergeKeepsCommandLine(s: Settings, c: Config)
    ensures var m := MergeConfig(s, c);
      && (s.verbose != 0 ==> m.verbose == s.verbose)
      && (s.form ==> m.form)
      && (s.secure ==> m.secure)
      && (s.auth.Some? ==> m.auth == s.auth)
      && (s.token.Some? ==> m.token == s.token)
  {
  }

  /** A flag left unset takes the file's value when the file has the key, and stays unset otherwise. */
  lemma MergeFillsUnset(s: Settings, c: Config)
    ensures var m := MergeConfig(s, c);
      && (s.verbose == 0 ==> m.verbose == c.verbose.GetOr(0))
      && (!s.form ==> m.form == c.form.GetOr(false))
      && (!s.secure ==> m.secure == c.secure.GetOr(false))
      && (s.auth.None? ==> m.auth == c.auth)
      && (s.token.None? ==> m.token == c.token)
  {
  }

  /** Merging the same file twice changes nothing more. */
  lemma MergeIdempotent(s: Settings, c: Config)
    ensures MergeConfig(MergeConfig(s, c), c) == MergeConfig(s, c)
  {
  }

  /**
   * As written, `--secure` on the command line is switched off by a file that
   * sets `form = false` and has no `secure` key, and the file's `form = true`
   * never turns form mode on.
   */
  lemma MergeAsWrittenOverridesSecure()
    ensures var s := Settings(0, false, true, None, None);
      var c := Config(None, Some(false), None, None, None);
      && !MergeConfigAsWritten(s, c).secure
      && MergeConfig(s, c).secure
    ensures var s := Settings(0, false, false, None, None);
      var c := Config(None, Some(true), None, None, None);
      && !MergeConfigAsWritten(s, c).form
      && MergeConfig(s, c).form
  {
  }

  /** The names of the log levels, from the least to the most verbose. */
  const LevelNames: seq<string> := ["error", "warn", "info", "debug", "trace"]

  /** Level names rank by position in LevelNames. */
  function LevelRank(name: string): nat {
    if name == "error" then 0
    else if name == "warn" then 1
    else if name == "info" then 2
    else if name == "debug" then 3
    else 4
  }

  class App {
    var quiet: bool
    var verbose: u8
    var form: bool
    var auth: Option<string>
    var token: Option<string>
    var session: Option<string>
    var readOnly: bool
    var secure: bool
    var cmd: Option<Subcommand>
    var url: Option<string>
    var parameters: seq<Parameter>

    constructor(quiet: bool, verbose: u8, form: bool, auth: Option<string>, token: Option<string>,
                session: Option<string>, readOnly: bool, secure: bool,
                cmd: Option<Subcommand>, url: Option<string>, parameters: seq<Parameter>)
      ensures this.quiet == quiet && this.verbose == verbose && this.form == form
      ensures this.auth == auth && this.token == token && this.session == session
      ensures this.readOnly == readOnly && this.secure == secure
      ensures this.cmd == cmd && this.url == url && this.parameters == parameters
    {
      this.quiet := quiet;
      this.verbose := verbose;
      this.form := form;
      this.auth := auth;
      this.token := token;
      this.session := session;
      this.readOnly := readOnly;
      this.secure := secure;
      this.cmd := cmd;
      this.url := url;
      this.parameters := parameters;
    }

    /** The flags the configuration file may supply. */
    function CurrentSettings(): Settings
      reads this
    {
      Settings(verbose, form, secure, auth, token)
    }

    /** `validate`: a request needs a URL or a method subcommand. */
    function Validate(): (r: Result<(), Error>)
      reads this
      ensures r.Failure? <==> cmd.None? && url.None?
      ensures r.Failure? ==> r.error == MissingUrlAndCommand
    {
      if cmd.None? && url.None? then Failure(MissingUrlAndCommand) else Success(())
    }

    /**
     * `process_config_file`: `config` is the file as read, if there is one.
     * Flags set on the command line stay; unset ones are filled from the file.
     */
    method ProcessConfigFile(config: Option<Config>)
      modifies this
      ensures config.None? ==> CurrentSettings() == old(CurrentSettings())
      ensures config.Some? ==> CurrentSettings() == MergeConfig(old(CurrentSettings()), config.value)
      ensures quiet == old(quiet) && session == old(session) && readOnly == old(readOnly)
      ensures cmd == old(cmd) && url == old(url) && parameters == old(parameters)
    {
      if config.Some? {
        var c := config.value;
        ghost var merged := MergeConfig(CurrentSettings(), c);
        var v, f, sec, a, t := verbose, form, secure, auth, token;
        if v == 0 {
          if c.verbose.Some? {
            v := c.verbose.value;
          }
        }
        assert v == merged.verbose;
        if !f {
          if c.form.Some? {
            f := c.form.value;
          }
        }
        assert f == merged.form;
        if !sec {
          if c.secure.Some? {
            sec := c.secure.value;
          }
        }
        assert sec == merged.secure;
        if a.None? {
          a := c.auth;
        }
        if t.None? {
          t := c.token;
        }
        verbose, form, secure, auth, token := v, f, sec, a, t;
      }
    }

    /**
     * `log_level`: no logging when quiet or without `-v`; otherwise the n-th
     * level name for `-v` given n times, and the most verbose from five on.
     */
    function LogLevel(): (r: Option<string>)
      reads this
      ensures r.None? <==> quiet || verbose == 0
      ensures r.Some? ==> r.value == LevelNames[if verbose >= 5 then 4 else verbose as int - 1]
    {
      if quiet || verbose <= 0 then None
      else match verbose
        case 1 => Some("error")
        case 2 => Some("warn")
        case 3 => Some("info")
        case 4 => Some("debug")
        case _ => Some("trace")
    }
  }

  /** More `-v` flags never select a less verbose log level. */
  lemma LogLevelMonotone(a: App, b: App)
    requires !a.quiet && !b.quiet && 0 < a.verbose <= b.verbose
    ensures a.LogLevel().Some? && b.LogLevel().Some?
    ensures LevelRank(a.LogLevel().value) <= LevelRank(b.LogLevel().value)
  {
  }

  /**
   * Without a subcommand the method is POST when some parameter is data and
   * GET otherwise.
   */
  function DefaultMethod(ps: seq<Parameter>): (m: HttpMethod)
    ensures m == Post <==> exists i :: 0 <= i < |ps| && IsData(ps[i])
    ensures m == Get <==> forall i :: 0 <= i < |ps| ==> !IsData(ps[i])
  {
    if ps == [] then Get
    else if IsData(ps[0]) then Post
    else
      var m := DefaultMethod(ps[1..]);
      assert forall i :: 1 <= i < |ps| ==> ps[i] == ps[1..][i - 1];
      m
  }
}
