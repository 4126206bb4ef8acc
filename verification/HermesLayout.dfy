/** How the generated Hermes config is indented, which is what a YAML reader nests by. About `render_hermes_config_yaml`
    in agent_launcher.py. */
module HermesLayout {
  import opened PyText
  import opened HermesScalar
  import opened HermesConfig

  /** The spaces a line begins with. */
  function Spaces(line: string): nat
  {
    if line != "" && line[0] == ' ' then 1 + Spaces(line[1..]) else 0
  }

  function Depths(lines: seq<string>): seq<nat>
  {
    seq(|lines|, i requires 0 <= i < |lines| => Spaces(lines[i]))
  }

  function Fill(depth: nat, count: nat): seq<nat>
  {
    seq(count, _ => depth)
  }

  lemma DepthsConcat(a: seq<string>, b: seq<string>)
    ensures Depths(a + b) == Depths(a) + Depths(b)
  {
  }

  lemma DepthsOfOne(line: string)
    ensures Depths([line]) == [Spaces(line)] && Depths([]) == []
  {
  }

  lemma EvenDepths(lines: seq<string>, depth: nat)
    requires forall i :: 0 <= i < |lines| ==> Spaces(lines[i]) == depth
    ensures Depths(lines) == Fill(depth, |lines|)
  {
    hide Spaces;
  }

  predicate AllSpaces(pad: string)
  {
    forall i :: 0 <= i < |pad| ==> pad[i] == ' '
  }

  lemma {:induction false} Padded(pad: string, rest: string)
    requires AllSpaces(pad)
    ensures Spaces(pad + rest) == |pad| + Spaces(rest)
  {
    if pad == "" {
      assert pad + rest == rest;
    } else {
      assert (pad + rest)[0] == ' ' && (pad + rest)[1..] == pad[1..] + rest;
      Padded(pad[1..], rest);
    }
  }

  /** The line stands at this depth and is a list item. */
  predicate ItemAt(line: string, depth: nat)
  {
    Spaces(line) == depth && |line| >= depth + 2 && line[depth] == '-' && line[depth + 1] == ' '
  }

  lemma ArgDepth(arg: string)
    ensures ItemAt(ArgLine(arg), 6)
  {
    Padded("      ", "- " + Scalar(arg));
    assert ArgLine(arg) == "      " + ("- " + Scalar(arg));
    hide Scalar;
  }

  lemma DisabledDepth(item: string)
    ensures ItemAt(DisabledLine(item), 4)
  {
    Padded("    ", "- " + Scalar(item));
    assert DisabledLine(item) == "    " + ("- " + Scalar(item));
    hide Scalar;
  }

  /** A colon after the text does not change how it begins. */
  lemma {:induction false} SpacesInFront(text: string, rest: string)
    requires rest != "" && rest[0] == ':'
    ensures Spaces(text + rest) == Spaces(text)
  {
    if text == "" {
      assert text + rest == rest;
    } else {
      assert (text + rest)[0] == text[0] && (text + rest)[1..] == text[1..] + rest;
      SpacesInFront(text[1..], rest);
    }
  }

  lemma EnvDepth(entry: (string, string))
    ensures Spaces(EnvLine(entry)) == 6 + Spaces(Scalar(entry.0))
  {
    hide Scalar, Spaces;
    var key, rest := Scalar(entry.0), ": " + Scalar(entry.1);
    Padded("      ", key + rest);
    SpacesInFront(key, rest);
    assert EnvLine(entry) == "      " + (key + rest);
  }

  lemma {:induction false} ArgsLayout(args: seq<string>)
    ensures |ArgLines(args)| == |args| && forall i :: 0 <= i < |args| ==> ItemAt(ArgLines(args)[i], 6)
  {
    if args != [] {
      ArgsLayout(args[..|args| - 1]);
      ArgDepth(args[|args| - 1]);
      hide ItemAt, ArgLine;
    }
  }

  lemma {:induction false} DisabledsLayout(items: seq<string>)
    ensures |DisabledLines(items)| == |items| && forall i :: 0 <= i < |items| ==> ItemAt(DisabledLines(items)[i], 4)
  {
    if items != [] {
      DisabledsLayout(items[..|items| - 1]);
      DisabledDepth(items[|items| - 1]);
      hide ItemAt, DisabledLine;
    }
  }

  /** A key that is written plain keeps its own leading spaces. */
  function EnvDepths(env: seq<(string, string)>): seq<nat>
  {
    if env == [] then [] else EnvDepths(env[..|env| - 1]) + [6 + Spaces(Scalar(env[|env| - 1].0))]
  }

  lemma {:induction false} EnvLayout(env: seq<(string, string)>)
    ensures Depths(EnvLines(env)) == EnvDepths(env)
  {
    hide Depths, EnvLine, Scalar, Spaces;
    if env == [] {
      DepthsOfOne("");
    } else {
      var front, last := env[..|env| - 1], env[|env| - 1];
      EnvLayout(front);
      EnvDepth(last);
      DepthsConcat(EnvLines(front), [EnvLine(last)]);
      DepthsOfOne(EnvLine(last));
    }
  }

  lemma Indented(pad: string, text: string)
    requires AllSpaces(pad) && text != "" && text[0] != ' '
    ensures Spaces(pad + text) == |pad|
  {
    Padded(pad, text);
  }

  lemma TopDepths()
    ensures Spaces("mcp_servers:") == 0 && Spaces("agent:") == 0
  {
  }

  lemma DisabledHeaderDepth()
    ensures Spaces("  disabled_toolsets:") == 2
  {
    hide Spaces;
    Indented("  ", "disabled_toolsets:");
    assert "  " + "disabled_toolsets:" == "  disabled_toolsets:";
  }

  lemma ArgsHeaderDepth()
    ensures Spaces("    args:") == 4
  {
    hide Spaces;
    Indented("    ", "args:");
    assert "    " + "args:" == "    args:";
  }

  lemma EnvHeaderDepth()
    ensures Spaces("    env:") == 4
  {
    hide Spaces;
    Indented("    ", "env:");
    assert "    " + "env:" == "    env:";
  }

  lemma CommandDepth(scalar: string)
    ensures Spaces("    command: " + scalar) == 4
  {
    hide Spaces;
    Indented("    ", "command: " + scalar);
    assert "    " + ("command: " + scalar) == "    command: " + scalar;
  }

  lemma NameDepth(scalar: string)
    ensures Spaces("  " + scalar + ":") == 2 + Spaces(scalar)
  {
    hide Spaces;
    Padded("  ", scalar + ":");
    SpacesInFront(scalar, ":");
    assert "  " + (scalar + ":") == "  " + scalar + ":";
  }

  /** The depth of each line of a server: its name at 2, the three headers at 4, items and entries at 6. A name
      that is written plain keeps its own leading spaces. */
  function ServerDepths(name: string, server: Server): seq<nat>
  {
    [2 + Spaces(Scalar(name))]
    + (if server.command != "" then [4] else [])
    + (if server.args != [] then [4] + Fill(6, |server.args|) else [])
    + (if server.env != [] then [4] + EnvDepths(server.env) else [])
  }

  lemma ArgBlockDepths(args: seq<string>)
    ensures Depths(["    args:"] + ArgLines(args)) == [4] + Fill(6, |args|)
  {
    ArgsLayout(args);
    hide Spaces, ArgLines, Depths, Fill;
    EvenDepths(ArgLines(args), 6);
    ArgsHeaderDepth();
    DepthsOfOne("    args:");
    DepthsConcat(["    args:"], ArgLines(args));
  }

  lemma EnvBlockDepths(env: seq<(string, string)>)
    ensures Depths(["    env:"] + EnvLines(env)) == [4] + EnvDepths(env)
  {
    hide Spaces, EnvLines, Depths, EnvDepths;
    EnvLayout(env);
    EnvHeaderDepth();
    DepthsOfOne("    env:");
    DepthsConcat(["    env:"], EnvLines(env));
  }

  lemma ServerLayout(name: string, server: Server)
    ensures Depths(ServerLines(name, server)) == ServerDepths(name, server)
  {
    hide Depths, Spaces, Scalar, ArgLines, EnvLines, Fill;
    var header := ["  " + Scalar(name) + ":"];
    var command := if server.command != "" then ["    command: " + Scalar(server.command)] else [];
    var args := if server.args != [] then ["    args:"] + ArgLines(server.args) else [];
    var env := if server.env != [] then ["    env:"] + EnvLines(server.env) else [];
    assert ServerLines(name, server) == header + command + args + env;
    NameDepth(Scalar(name));
    CommandDepth(Scalar(server.command));
    DepthsOfOne("  " + Scalar(name) + ":");
    DepthsOfOne("    command: " + Scalar(server.command));
    ArgBlockDepths(server.args);
    EnvBlockDepths(server.env);
    DepthsConcat(header, command);
    DepthsConcat(header + command, args);
    DepthsConcat(header + command + args, env);
  }

  function AllServerDepths(servers: seq<(string, Server)>): seq<nat>
  {
    if servers == [] then []
    else
      var last := servers[|servers| - 1];
      AllServerDepths(servers[..|servers| - 1]) + ServerDepths(last.0, last.1)
  }

  lemma {:induction false} ServersLayout(servers: seq<(string, Server)>)
    ensures Depths(AllServerLines(servers)) == AllServerDepths(servers)
  {
    if servers != [] {
      var front, last := servers[..|servers| - 1], servers[|servers| - 1];
      ServersLayout(front);
      ServerLayout(last.0, last.1);
      DepthsConcat(AllServerLines(front), ServerLines(last.0, last.1));
      hide Depths, ServerLines, ServerDepths;
    }
  }

  lemma DisabledBlockDepths(items: seq<string>)
    ensures Depths(["agent:", "  disabled_toolsets:"] + DisabledLines(items)) == [0, 2] + Fill(4, |items|)
  {
    DisabledsLayout(items);
    hide Spaces, DisabledLines, Depths, Fill;
    EvenDepths(DisabledLines(items), 4);
    TopDepths();
    DisabledHeaderDepth();
    DepthsOfOne("agent:");
    DepthsOfOne("  disabled_toolsets:");
    DepthsConcat(["agent:"], ["  disabled_toolsets:"]);
    assert ["agent:"] + ["  disabled_toolsets:"] == ["agent:", "  disabled_toolsets:"];
    DepthsConcat(["agent:", "  disabled_toolsets:"], DisabledLines(items));
  }

  /** The depth of every line of a document: the top-level keys at 0, the servers below the first of them, the disabled
      toolsets at 2 and their items at 4. */
  lemma DocumentLayout(doc: Document)
    ensures Depths(DocumentLines(doc))
         == [0] + AllServerDepths(doc.servers) + (if doc.disabled != [] then [0, 2] + Fill(4, |doc.disabled|) else [])
  {
    hide Depths, AllServerLines, AllServerDepths, DisabledLines, Fill, Spaces;
    var servers := AllServerLines(doc.servers);
    var disabled := if doc.disabled != [] then ["agent:", "  disabled_toolsets:"] + DisabledLines(doc.disabled) else [];
    TopDepths();
    DepthsOfOne("mcp_servers:");
    ServersLayout(doc.servers);
    DisabledBlockDepths(doc.disabled);
    DepthsConcat(["mcp_servers:"], servers);
    DepthsConcat(["mcp_servers:"] + servers, disabled);
  }
}
