/** The configuration reader of the RIP daemon, `read_config_file`, and the
    defaults that `main` applies to what it returns.

    A configuration file is a sequence of lines. Each line is stripped and
    split into whitespace-separated tokens; blank lines are skipped. A line
    `router-id <id> ...` stores `<id>` verbatim under the key `router-id`; a
    line `input-ports <p1> <p2> ...` stores the integers `[int(p1), int(p2), ...]`
    under the key `input-ports`; any other line is ignored. A later line
    overwrites what an earlier line with the same keyword stored. */
module RipDaemon {
  import opened Wrappers
  import opened Strings
  import opened Integers

  /** The two keywords, which are also the keys of the configuration. */
  const RouterIdKey := "router-id"
  const InputPortsKey := "input-ports"

  /** What `main` shows when the file has no `router-id` line. */
  const RouterIdDefault := "Not specified"

  /** A value of the configuration dictionary: the router id as written, or
      the list of input ports. */
  datatype Value = Text(text: string) | Ports(ports: seq<int>)

  type Config = map<string, Value>

  /** The exceptions that escape `read_config_file`. */
  datatype ConfigError =
    | MissingRouterId            // IndexError: `router-id` with nothing after it
    | InvalidPort(token: string) // ValueError: `int()` rejects a token after `input-ports`

  /** `line.strip().split()`. */
  function Tokens(line: string): (parts: seq<string>)
    ensures forall i :: 0 <= i < |parts| ==> IsWord(parts[i])
  {
    Split(Strip(line))
  }

  /** The first token of `line` is `keyword`. */
  predicate StartsWith(line: string, keyword: string) {
    var parts := Tokens(line);
    |parts| > 0 && parts[0] == keyword
  }

  /** Tokens on which the loop body of `read_config_file` raises nothing. */
  predicate WellFormedTokens(parts: seq<string>) {
    && (|parts| > 0 && parts[0] == RouterIdKey ==> |parts| >= 2)
    && (|parts| > 0 && parts[0] == InputPortsKey ==> forall i :: 1 <= i < |parts| ==> ParseInt(parts[i]).Some?)
  }

  /** A line on which `read_config_file` raises nothing. */
  predicate WellFormedLine(line: string) {
    WellFormedTokens(Tokens(line))
  }

  /** The keys and value kinds a configuration can hold. */
  predicate Typed(config: Config) {
    && config.Keys <= {RouterIdKey, InputPortsKey}
    && (RouterIdKey in config ==> config[RouterIdKey].Text?)
    && (InputPortsKey in config ==> config[InputPortsKey].Ports?)
  }

  /** `[int(port) for port in tokens]`: the integers in order, or the error
      for the first token `int()` rejects. */
  function ParsePorts(tokens: seq<string>): (r: Result<seq<int>, ConfigError>)
    ensures r.Ok? <==> forall i :: 0 <= i < |tokens| ==> ParseInt(tokens[i]).Some?
    ensures r.Ok? ==> |r.value| == |tokens|
    ensures r.Ok? ==> forall i :: 0 <= i < |tokens| ==> ParseInt(tokens[i]) == Some(r.value[i])
  {
    if tokens == [] then Ok([])
    else
      match ParseInt(tokens[0])
      case None => Err(InvalidPort(tokens[0]))
      case Some(p) =>
        match ParsePorts(tokens[1..])
        case Err(e) => Err(e)
        case Ok(ps) => Ok([p] + ps)
  }

  /** The loop body of `read_config_file` on the tokens of one line. */
  function ApplyTokens(config: Config, parts: seq<string>): (r: Result<Config, ConfigError>)
    ensures r.Ok? <==> WellFormedTokens(parts)
    ensures r.Ok? && Typed(config) ==> Typed(r.value)
  {
    if parts == [] then Ok(config)
    else if parts[0] == RouterIdKey then
      if |parts| < 2 then Err(MissingRouterId) else Ok(config[RouterIdKey := Text(parts[1])])
    else if parts[0] == InputPortsKey then
      assert forall i :: 1 <= i < |parts| ==> parts[i] == parts[1..][i - 1];
      match ParsePorts(parts[1..])
      case Err(e) => Err(e)
      case Ok(ports) => Ok(config[InputPortsKey := Ports(ports)])
    else Ok(config)
  }

  /** One pass of the loop of `read_config_file`, over `line`. */
  function ApplyLine(config: Config, line: string): (r: Result<Config, ConfigError>)
    ensures r.Ok? <==> WellFormedLine(line)
    ensures r.Ok? && Typed(config) ==> Typed(r.value)
  {
    ApplyTokens(config, Tokens(line))
  }

  /** The loop of `read_config_file` over `lines`, starting from `config`. */
  function ParseFrom(config: Config, lines: seq<string>): (r: Result<Config, ConfigError>)
    ensures r.Ok? && Typed(config) ==> Typed(r.value)
    decreases |lines|
  {
    if lines == [] then Ok(config)
    else
      match ApplyLine(config, lines[0])
      case Err(e) => Err(e)
      case Ok(next) => ParseFrom(next, lines[1..])
  }

  /** What `read_config_file` returns, or the error it raises, for a file
      with these lines. The result only ever holds `router-id`, as a string,
      and `input-ports`, as a list of integers: every other keyword is
      ignored. */
  function ReadConfig(lines: seq<string>): (r: Result<Config, ConfigError>)
    ensures r.Ok? ==> Typed(r.value)
  {
    ParseFrom(map[], lines)
  }

  /** `read_config_file`, with the file given as its lines. */
  method ReadConfigFile(lines: seq<string>) returns (r: Result<Config, ConfigError>)
    ensures r == ReadConfig(lines)
  {
    var config: Config := map[];
    var i := 0;
    while i < |lines|
      invariant 0 <= i <= |lines|
      invariant ParseFrom(config, lines[i..]) == ReadConfig(lines)
    {
      assert lines[i..][0] == lines[i] && lines[i..][1..] == lines[i + 1..];
      var line := Strip(lines[i]);
      var parts := Split(line);
      if parts == [] {
        i := i + 1;
        continue;
      }
      if parts[0] == RouterIdKey {
        if |parts| < 2 {
          return Err(MissingRouterId);
        }
        config := config[RouterIdKey := Text(parts[1])];
      } else if parts[0] == InputPortsKey {
        var ports := ParsePorts(parts[1..]);
        if ports.Err? {
          return Err(ports.error);
        }
        config := config[InputPortsKey := Ports(ports.value)];
      }
      i := i + 1;
    }
    return Ok(config);
  }

  /** `config.get('router-id', "Not specified")`. */
  function RouterIdOrDefault(config: Config): (v: Value)
    ensures Typed(config) ==> v.Text?
  {
    if RouterIdKey in config then config[RouterIdKey] else Text(RouterIdDefault)
  }

  /** `config.get('input-ports', [])`. */
  function InputPortsOrDefault(config: Config): (v: Value)
    ensures Typed(config) ==> v.Ports?
  {
    if InputPortsKey in config then config[InputPortsKey] else Ports([])
  }
}
