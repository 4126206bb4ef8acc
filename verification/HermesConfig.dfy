/** The generated Hermes config: a printer and the line parser that reads it back. Models
    `build_hermes_config_document`, `render_hermes_config_yaml`, `parse_hermes_agentveil_stdio_config`
    and `_hermes_proxy_run_args` of agent_launcher.py. */
module HermesConfig {
  import opened PyText
  import opened HermesScalar

  const SERVER_NAME := "agentveil"
  const DISABLED_NATIVE_TOOLSETS := ["terminal", "web", "browser", "memory", "session_search", "cronjob",
                                     "code_execution", "delegation"]

  datatype Server = Server(command: string, args: seq<string>, env: seq<(string, string)>)

  /** The parts of a Hermes document the printer looks at. */
  datatype Document = Document(servers: seq<(string, Server)>, disabled: seq<string>)

  // --- Printer -----------------------------------------------------------------

  function ArgLine(arg: string): string { "      - " + Scalar(arg) }

  function EnvLine(entry: (string, string)): string { "      " + Scalar(entry.0) + ": " + Scalar(entry.1) }

  function DisabledLine(item: string): string { "    - " + Scalar(item) }

  function ArgLines(args: seq<string>): seq<string>
  {
    if args == [] then [] else ArgLines(args[..|args| - 1]) + [ArgLine(args[|args| - 1])]
  }

  function EnvLines(env: seq<(string, string)>): seq<string>
  {
    if env == [] then [] else EnvLines(env[..|env| - 1]) + [EnvLine(env[|env| - 1])]
  }

  function DisabledLines(items: seq<string>): seq<string>
  {
    if items == [] then [] else DisabledLines(items[..|items| - 1]) + [DisabledLine(items[|items| - 1])]
  }

  function ServerLines(name: string, server: Server): seq<string>
  {
    ["  " + Scalar(name) + ":"]
    + (if server.command != "" then ["    command: " + Scalar(server.command)] else [])
    + (if server.args != [] then ["    args:"] + ArgLines(server.args) else [])
    + (if server.env != [] then ["    env:"] + EnvLines(server.env) else [])
  }

  function AllServerLines(servers: seq<(string, Server)>): seq<string>
  {
    if servers == [] then []
    else
      var last := servers[|servers| - 1];
      AllServerLines(servers[..|servers| - 1]) + ServerLines(last.0, last.1)
  }

  function DocumentLines(doc: Document): seq<string>
  {
    ["mcp_servers:"] + AllServerLines(doc.servers)
    + (if doc.disabled != [] then ["agent:", "  disabled_toolsets:"] + DisabledLines(doc.disabled) else [])
  }

  method RenderServer(name: string, server: Server) returns (lines: seq<string>)
    ensures lines == ServerLines(name, server)
  {
    hide ArgLines, EnvLines, Scalar;
    lines := ["  " + Scalar(name) + ":"];
    if server.command != "" {
      lines := lines + ["    command: " + Scalar(server.command)];
    }
    if server.args != [] {
      lines := lines + ["    args:"];
      ghost var before := lines;
      NoLines(server.args[..0], server.env[..0], []);
      for i := 0 to |server.args|
        invariant lines == before + ArgLines(server.args[..i])
      {
        NextArgLine(server.args, i);
        lines := lines + ["      - " + Scalar(server.args[i])];
      }
      assert server.args[..|server.args|] == server.args;
    }
    if server.env != [] {
      lines := lines + ["    env:"];
      ghost var before := lines;
      NoLines(server.args[..0], server.env[..0], []);
      for i := 0 to |server.env|
        invariant lines == before + EnvLines(server.env[..i])
      {
        NextEnvLine(server.env, i);
        lines := lines + ["      " + Scalar(server.env[i].0) + ": " + Scalar(server.env[i].1)];
      }
      assert server.env[..|server.env|] == server.env;
    }
  }

  lemma NoLines(args: seq<string>, env: seq<(string, string)>, items: seq<string>)
    ensures args == [] ==> ArgLines(args) == []
    ensures env == [] ==> EnvLines(env) == []
    ensures items == [] ==> DisabledLines(items) == []
  {
  }

  lemma NextArgLine(args: seq<string>, i: nat)
    requires i < |args|
    ensures ArgLines(args[..i + 1]) == ArgLines(args[..i]) + [ArgLine(args[i])]
  {
    assert args[..i + 1][..i] == args[..i];
  }

  lemma NextEnvLine(env: seq<(string, string)>, i: nat)
    requires i < |env|
    ensures EnvLines(env[..i + 1]) == EnvLines(env[..i]) + [EnvLine(env[i])]
  {
    assert env[..i + 1][..i] == env[..i];
  }

  lemma NextDisabledLine(items: seq<string>, i: nat)
    requires i < |items|
    ensures DisabledLines(items[..i + 1]) == DisabledLines(items[..i]) + [DisabledLine(items[i])]
  {
    assert items[..i + 1][..i] == items[..i];
  }

  lemma NextServerLines(servers: seq<(string, Server)>, i: nat)
    requires i < |servers|
    ensures AllServerLines(servers[..i + 1])
         == AllServerLines(servers[..i]) + ServerLines(servers[i].0, servers[i].1)
  {
    assert servers[..i + 1][..i] == servers[..i];
  }

  /** `"\n".join(lines)` */
  function Join(lines: seq<string>): string
  {
    if lines == [] then ""
    else if |lines| == 1 then lines[0]
    else lines[0] + "\n" + Join(lines[1..])
  }

  lemma {:induction false} JoinThenNewline(lines: seq<string>)
    requires lines != []
    ensures Join(lines) + "\n" == JoinLines(lines)
  {
    if |lines| > 1 {
      JoinThenNewline(lines[1..]);
      assert lines[0] + "\n" + Join(lines[1..]) + "\n" == lines[0] + "\n" + (Join(lines[1..]) + "\n");
    } else {
      assert lines[1..] == [] && JoinLines(lines[1..]) == "";
    }
  }

  /** `render_hermes_config_yaml` */
  method Render(doc: Document) returns (text: string)
    ensures text == JoinLines(DocumentLines(doc))
  {
    hide DisabledLines, Scalar, ServerLines, AllServerLines;
    var lines := ["mcp_servers:"];
    NoServers(doc.servers[..0]);
    for i := 0 to |doc.servers|
      invariant lines == ["mcp_servers:"] + AllServerLines(doc.servers[..i])
    {
      NextServerLines(doc.servers, i);
      var more := RenderServer(doc.servers[i].0, doc.servers[i].1);
      lines := lines + more;
    }
    assert doc.servers[..|doc.servers|] == doc.servers;
    if doc.disabled != [] {
      lines := lines + ["agent:"];
      lines := lines + ["  disabled_toolsets:"];
      ghost var before := lines;
      NoLines([], [], doc.disabled[..0]);
      for i := 0 to |doc.disabled|
        invariant lines == before + DisabledLines(doc.disabled[..i])
      {
        NextDisabledLine(doc.disabled, i);
        lines := lines + ["    - " + Scalar(doc.disabled[i])];
      }
      assert doc.disabled[..|doc.disabled|] == doc.disabled;
    }
    assert lines == DocumentLines(doc);
    JoinThenNewline(lines);
    text := Join(lines) + "\n";
  }

  lemma NoServers(servers: seq<(string, Server)>)
    requires servers == []
    ensures AllServerLines(servers) == []
  {
  }

  // --- Parser ------------------------------------------------------------------

  datatype ParseError = MissingConfig | MissingCommand | MissingArgs

  datatype Parsed = Parsed(command: string, args: seq<string>, env: map<string, string>, disabled: seq<string>)

  /** The parser's flags and what it has collected. */
  datatype State = State(
    inAgentveil: bool,
    inArgs: bool,
    inEnv: bool,
    inDisabled: bool,
    command: Option<string>,
    args: seq<string>,
    env: map<string, string>,
    disabled: seq<string>)

  const START := State(false, false, false, false, None, [], map[], [])

  function IndexOfColon(s: string): (n: nat)
    ensures n <= |s| && ':' !in s[..n] && (n < |s| ==> s[n] == ':')
  {
    if s == "" || s[0] == ':' then 0 else 1 + IndexOfColon(s[1..])
  }

  /** `s.strip('"')` */
  function StripQuotes(s: string): string
    decreases |s|
  {
    if s != "" && s[0] == '"' then StripQuotes(s[1..])
    else if s != "" && s[|s| - 1] == '"' then StripQuotes(s[..|s| - 1])
    else s
  }

  /** `s[n:]` */
  function After(s: string, n: nat): string
  {
    if n <= |s| then s[n..] else ""
  }

  /** One turn of the parser's loop. */
  function ParseLine(st: State, raw: string): State
  {
    var stripped := Strip(raw);
    if stripped == "" || StartsWith(stripped, "#") then st
    else if stripped == SERVER_NAME + ":" then st.(inAgentveil := true, inArgs := false, inEnv := false)
    else if stripped == "agent:" then st.(inAgentveil := false, inDisabled := false)
    else if stripped == "disabled_toolsets:" then st.(inDisabled := true, inAgentveil := false)
    else if st.inDisabled && StartsWith(stripped, "- ")
    then st.(disabled := st.disabled + [StripQuotes(Strip(After(stripped, 2)))])
    else if !st.inAgentveil then st
    else if StartsWith(stripped, "command:")
    then st.(command := Some(Unquote(After(stripped, 8))), inArgs := false, inEnv := false)
    else if stripped == "args:" then st.(inArgs := true, inEnv := false)
    else if stripped == "env:" then st.(inEnv := true, inArgs := false)
    else if st.inArgs && StartsWith(stripped, "- ") then st.(args := st.args + [Unquote(After(stripped, 2))])
    else if st.inEnv && ':' in stripped
    then
      var n := IndexOfColon(stripped);
      st.(env := st.env[Strip(stripped[..n]) := Unquote(After(stripped, n + 1))])
    else if !StartsWith(raw, "  ") then st.(inAgentveil := false)
    else st
  }

  function ParseLines(st: State, lines: seq<string>): State
  {
    if lines == [] then st else ParseLine(ParseLines(st, lines[..|lines| - 1]), lines[|lines| - 1])
  }

  function Collect(st: State): Result<Parsed, ParseError>
  {
    if st.command == None || st.command == Some("") then Err(MissingCommand)
    else if st.args == [] then Err(MissingArgs)
    else Ok(Parsed(st.command.value, st.args, st.env, st.disabled))
  }

  /** The file's text, if there is a file. */
  function Parse(text: Option<string>): Result<Parsed, ParseError>
  {
    match text
    case None => Err(MissingConfig)
    case Some(t) => Collect(ParseLines(START, SplitLines(t)))
  }

  /** `parse_hermes_agentveil_stdio_config`, with its flags as variables. */
  method ParseConfig(text: Option<string>) returns (r: Result<Parsed, ParseError>)
    ensures r == Parse(text)
  {
    hide ParseLines, SplitLines, Unquote, Strip, StripQuotes, StartsWith, IndexOfColon;
    if text == None {
      return Err(MissingConfig);
    }
    var inAgentveil, inArgs, inEnv, inDisabled := false, false, false, false;
    var command: Option<string>, args: seq<string> := None, [];
    var env: map<string, string>, disabled: seq<string> := map[], [];
    var lines := SplitLines(text.value);
    NothingParsed(lines[..0]);
    for i := 0 to |lines|
      invariant State(inAgentveil, inArgs, inEnv, inDisabled, command, args, env, disabled)
             == ParseLines(START, lines[..i])
    {
      NextLine(START, lines, i);
      var raw := lines[i];
      var stripped := Strip(raw);
      if stripped == "" || StartsWith(stripped, "#") {
        continue;
      }
      if stripped == SERVER_NAME + ":" {
        inAgentveil, inArgs, inEnv := true, false, false;
        continue;
      }
      if stripped == "agent:" {
        inAgentveil, inDisabled := false, false;
        continue;
      }
      if stripped == "disabled_toolsets:" {
        inDisabled, inAgentveil := true, false;
        continue;
      }
      if inDisabled && StartsWith(stripped, "- ") {
        disabled := disabled + [StripQuotes(Strip(After(stripped, 2)))];
        continue;
      }
      if !inAgentveil {
        continue;
      }
      if StartsWith(stripped, "command:") {
        command := Some(Unquote(After(stripped, 8)));
        inArgs, inEnv := false, false;
      } else if stripped == "args:" {
        inArgs, inEnv := true, false;
      } else if stripped == "env:" {
        inEnv, inArgs := true, false;
      } else if inArgs && StartsWith(stripped, "- ") {
        args := args + [Unquote(After(stripped, 2))];
      } else if inEnv && ':' in stripped {
        var n := IndexOfColon(stripped);
        env := env[Strip(stripped[..n]) := Unquote(After(stripped, n + 1))];
      } else if !StartsWith(raw, "  ") {
        inAgentveil := false;
      }
    }
    assert lines[..|lines|] == lines;
    if command == None || command == Some("") {
      return Err(MissingCommand);
    }
    if args == [] {
      return Err(MissingArgs);
    }
    return Ok(Parsed(command.value, args, env, disabled));
  }

  lemma NothingParsed(none: seq<string>)
    ensures none == [] ==> ParseLines(START, none) == START
  {
  }

  lemma NextLine(st: State, lines: seq<string>, i: nat)
    requires i < |lines|
    ensures ParseLines(st, lines[..i + 1]) == ParseLine(ParseLines(st, lines[..i]), lines[i])
  {
    assert lines[..i + 1][..i] == lines[..i];
  }
}
