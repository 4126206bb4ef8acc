/** What the Hermes config parser makes of a rendered config: the round trip, and exactly when it is
    faithful. About `render_hermes_config_yaml` and `parse_hermes_agentveil_stdio_config` of
    agent_launcher.py. */
module HermesRoundTrip {
  import opened PyText
  import opened HermesScalar
  import opened HermesConfig

  /** Not a plain scalar made of whitespace alone, which would vanish from its line. */
  predicate Visible(value: string)
  {
    !(IsPlain(value) && Blank(value))
  }

  /** An environment key the parser can tell from everything else. */
  predicate GoodKey(key: string)
  {
    IsPlain(key) && Trimmed(key) && OneLine(key) && key != "command"
  }

  lemma VisibleScalar(value: string)
    requires Visible(value)
    ensures !Blank(Scalar(value))
  {
    if !IsPlain(value) {
      assert Scalar(value)[0] == '"';
    }
  }

  lemma StripLine(pad: string, head: string, tail: string)
    requires Blank(pad) && head != "" && !IsSpace(head[0]) && !Blank(tail)
    ensures Strip(pad + head + tail) == head + RStrip(tail) && RStrip(tail) != ""
  {
    assert pad + head + tail == pad + (head + tail);
    LStripPad(pad, head + tail);
    assert (head + tail)[0] == head[0];
    RStripTail(head, tail);
  }

  lemma StripHeader(pad: string, header: string)
    requires Blank(pad) && Trimmed(header)
    ensures Strip(pad + header) == header
  {
    LStripPad(pad, header);
    StripTrimmed(header);
  }

  lemma NotHeader(text: string, n: nat)
    requires n + 1 < |text| && text[n] == ':' && ':' !in text[..n]
    ensures text != SERVER_NAME + ":" && text != "agent:" && text != "disabled_toolsets:"
    ensures text != "args:" && text != "env:"
  {
    ColonsAtEnd(text, SERVER_NAME + ":", n);
    ColonsAtEnd(text, "agent:", n);
    ColonsAtEnd(text, "disabled_toolsets:", n);
    ColonsAtEnd(text, "args:", n);
    ColonsAtEnd(text, "env:", n);
  }

  lemma ColonsAtEnd(text: string, header: string, n: nat)
    requires n + 1 < |text| && text[n] == ':'
    requires header != "" && forall i :: 0 <= i < |header| - 1 ==> header[i] != ':'
    ensures text != header
  {
  }

  lemma CommandStripped(command: string)
    requires Visible(command)
    ensures var rest := RStrip(Scalar(command));
            && Strip("    command: " + Scalar(command)) == "command: " + rest && rest != ""
            && Unquote(" " + rest) == Kept(command)
  {
    VisibleScalar(command);
    StripLine("    ", "command: ", Scalar(command));
    UnquoteScalar(" ", command);
    CommandPrefix(Scalar(command));
    hide Strip, RStrip, Scalar, Unquote, Kept, Blank;
  }

  lemma CommandPrefix(scalar: string)
    ensures "    " + "command: " + scalar == "    command: " + scalar
  {
  }

  /** A blank value leaves nothing but what stands before it. */
  lemma BlankLine(pad: string, head: string, value: string)
    requires Blank(pad) && Blank(value) && Trimmed(head) && head != ""
    ensures Strip(pad + (head + (" " + value))) == head
  {
    LStripPad(pad, head + (" " + value));
    assert (head + (" " + value))[0] == head[0];
    RStripBlankTail(head, " " + value);
  }

  /** A plain scalar of whitespace alone is read back as nothing. */
  lemma BlankKept(value: string)
    requires !Visible(value)
    ensures Scalar(value) == value && Blank(value) && Kept(value) == "" && Unquote("") == ""
  {
    StripOfBlank(value);
    StripOfBlank("");
  }

  lemma CommandLine(st: State, command: string)
    requires st.inAgentveil && !st.inDisabled
    ensures ParseLine(st, "    command: " + Scalar(command))
         == st.(command := Some(Kept(command)), inArgs := false, inEnv := false)
  {
    if Visible(command) {
      CommandStripped(command);
      CommandText("command: " + RStrip(Scalar(command)), RStrip(Scalar(command)));
      hide Strip, RStrip, Scalar, Unquote, Kept, StartsWith, After, SERVER_NAME, Visible;
    } else {
      BlankCommandLine(st, command);
    }
  }

  lemma BlankCommandLine(st: State, command: string)
    requires st.inAgentveil && !st.inDisabled && !Visible(command)
    ensures ParseLine(st, "    command: " + Scalar(command))
         == st.(command := Some(Kept(command)), inArgs := false, inEnv := false)
  {
    BlankKept(command);
    BlankLine("    ", "command:", command);
    assert "    " + ("command:" + (" " + command)) == "    command: " + command;
    BlankCommandText();
    hide Strip, Scalar, Unquote, Kept, StartsWith, After, SERVER_NAME, Visible;
  }

  lemma BlankCommandText()
    ensures "command:" != SERVER_NAME + ":" && !StartsWith("command:", "#") && StartsWith("command:", "command:")
    ensures After("command:", 8) == ""
  {
    assert "command:"[0] == 'c' && (SERVER_NAME + ":")[0] == 'a';
  }

  lemma CommandText(text: string, rest: string)
    requires text == "command: " + rest && rest != ""
    ensures text != "" && !StartsWith(text, "#") && StartsWith(text, "command:")
    ensures text != SERVER_NAME + ":" && text != "agent:" && text != "disabled_toolsets:"
    ensures After(text, 8) == " " + rest
  {
    assert text[7] == ':' && text[..7] == "command";
    NotHeader(text, 7);
    NotComment(text);
    assert text[..8] == "command:";
  }

  lemma ArgParsed(st: State, arg: string)
    requires st.inAgentveil && st.inArgs && !st.inDisabled && Visible(arg)
    ensures ParseLine(st, ArgLine(arg)) == st.(args := st.args + [Kept(arg)])
  {
    VisibleScalar(arg);
    StripLine("      ", "- ", Scalar(arg));
    UnquoteScalar("", arg);
    var rest := RStrip(Scalar(arg));
    var text := "- " + rest;
    assert "      " + "- " + Scalar(arg) == ArgLine(arg);
    assert text[..2] == "- " && text[2..] == rest && "" + rest == rest;
    DashLine(text);
    hide Strip, RStrip, Scalar, Unquote, Kept, ArgLine, StartsWith, SERVER_NAME;
  }

  /** A plain argument made of whitespace alone vanishes. */
  lemma BlankArgVanishes(st: State, arg: string)
    requires st.inAgentveil && st.inArgs && !st.inEnv && !st.inDisabled && !Visible(arg)
    ensures ParseLine(st, ArgLine(arg)) == st
  {
    StripOfBlank(arg);
    assert ArgLine(arg) == "      " + ("- " + arg);
    LStripPad("      ", "- " + arg);
    RStripBlankTail("-", " " + arg);
    assert "- " + arg == "-" + (" " + arg);
    assert Strip(ArgLine(arg)) == "-";
    assert ArgLine(arg)[..2] == "  ";
    hide Strip, RStrip, LStrip, Scalar, Unquote, ArgLine;
  }

  lemma {:induction false} RStripBlankTail(a: string, b: string)
    requires Blank(b) && a != "" && !IsSpace(a[|a| - 1])
    ensures RStrip(a + b) == a
  {
    if b == "" {
      assert a + b == a;
    } else {
      assert (a + b)[|a + b| - 1] == b[|b| - 1] && (a + b)[..|a + b| - 1] == a + b[..|b| - 1];
      RStripBlankTail(a, b[..|b| - 1]);
    }
  }

  /** The keys that, with nothing behind their colon, read as a header of the config. */
  predicate HeaderName(key: string)
  {
    key == SERVER_NAME || key == "agent" || key == "disabled_toolsets" || key == "args" || key == "env"
  }

  /** What a line of the env block is when it is stripped. */
  lemma EnvStripped(key: string, value: string)
    requires GoodKey(key)
    ensures var rest := if Visible(value) then " " + RStrip(Scalar(value)) else "";
            && Strip(EnvLine((key, value))) == key + ":" + rest && Unquote(rest) == Kept(value)
            && (Visible(value) ==> |rest| > 1)
  {
    hide Strip, RStrip, Scalar, Unquote, Kept, EnvLine, Visible, GoodKey;
    if Visible(value) {
      VisibleEnvStripped(key, value);
    } else {
      BlankEnvStripped(key, value);
      assert key + ":" + "" == key + ":";
    }
  }

  lemma VisibleEnvStripped(key: string, value: string)
    requires GoodKey(key) && Visible(value)
    ensures var rest := " " + RStrip(Scalar(value));
            Strip(EnvLine((key, value))) == key + ":" + rest && Unquote(rest) == Kept(value) && |rest| > 1
  {
    GoodKeyChars(key);
    VisibleScalar(value);
    UnquoteScalar(" ", value);
    assert "      " + (key + ": ") + Scalar(value) == EnvLine((key, value));
    hide Strip, Scalar, Unquote, Kept, EnvLine, Visible, GoodKey, Blank;
    assert Blank(" ") && Blank("      ") by {
      SpacesAreBlank();
    }
    StripLine("      ", key + ": ", Scalar(value));
    assert key + ": " + RStrip(Scalar(value)) == key + ":" + (" " + RStrip(Scalar(value)));
  }

  lemma SpacesAreBlank()
    ensures Blank(" ") && Blank("      ")
  {
  }

  lemma BlankEnvStripped(key: string, value: string)
    requires GoodKey(key) && !Visible(value)
    ensures Strip(EnvLine((key, value))) == key + ":" && Unquote("") == Kept(value)
  {
    BlankKept(value);
    GoodKeyChars(key);
    BlankLine("      ", key + ":", value);
    assert "      " + ((key + ":") + (" " + value)) == "      " + key + ": " + value;
    EnvLineOfPlain(key, value);
    hide Strip, Scalar, Unquote, Kept, EnvLine;
  }

  lemma EnvLineOfPlain(key: string, value: string)
    requires GoodKey(key) && Scalar(value) == value
    ensures EnvLine((key, value)) == "      " + key + ": " + value
  {
  }

  lemma EnvParsed(st: State, key: string, value: string)
    requires st.inAgentveil && st.inEnv && !st.inArgs && !st.inDisabled && GoodKey(key)
    requires Visible(value) || !HeaderName(key)
    ensures ParseLine(st, EnvLine((key, value))) == st.(env := st.env[key := Kept(value)])
  {
    hide Strip, RStrip, Scalar, Unquote, Kept, EnvLine, IndexOfColon, StartsWith, SERVER_NAME, GoodKey, Visible, HeaderName;
    EnvStripped(key, value);
    var text := Strip(EnvLine((key, value)));
    EnvText(text, key);
    EnvColon(text, key);
  }

  /** In whatever state it is read, a line of the env block sets its own key or none. */
  lemma EnvAnyState(st: State, key: string, value: string)
    requires GoodKey(key)
    ensures var env := ParseLine(st, EnvLine((key, value))).env; env == st.env || env == st.env[key := Kept(value)]
  {
    hide Strip, RStrip, Scalar, Unquote, Kept, EnvLine, IndexOfColon, StartsWith, StripQuotes, SERVER_NAME, GoodKey,
      Visible, HeaderName;
    EnvStripped(key, value);
    EnvColon(Strip(EnvLine((key, value))), key);
    EnvOnlyHere(st, EnvLine((key, value)));
  }

  /** The one branch of the parser that sets a variable. */
  lemma EnvOnlyHere(st: State, raw: string)
    ensures var text := Strip(raw);
            var n := IndexOfColon(text);
            var env := ParseLine(st, raw).env;
            env == st.env || (':' in text && env == st.env[Strip(text[..n]) := Unquote(After(text, n + 1))])
  {
    hide Strip, Unquote, IndexOfColon, StartsWith, StripQuotes, After, SERVER_NAME;
  }

  lemma EnvColon(text: string, key: string)
    requires GoodKey(key) && |key| < |text| && text[..|key|] == key && text[|key|] == ':'
    ensures ':' in text
    ensures IndexOfColon(text) == |key| && Strip(text[..IndexOfColon(text)]) == key
    ensures After(text, IndexOfColon(text) + 1) == text[|key| + 1..]
  {
    GoodKeyChars(key);
    ColonAt(text, |key|);
    StripTrimmed(key);
    hide IndexOfColon, Strip, IsPlain, OneLine;
  }

  /** A text that begins with a good key and a colon is no comment and no command, and no header unless the key is
      the name of one and the colon ends it. */
  lemma EnvText(text: string, key: string)
    requires GoodKey(key) && |key| < |text| && text[..|key|] == key && text[|key|] == ':'
    ensures text != "" && !StartsWith(text, "#") && !StartsWith(text, "command:")
    ensures |key| + 1 < |text| || !HeaderName(key) ==>
              && text != SERVER_NAME + ":" && text != "agent:" && text != "disabled_toolsets:"
              && text != "args:" && text != "env:"
  {
    hide GoodKey, StartsWith, SERVER_NAME;
    GoodKeyChars(key);
    assert text[0] != '#' by {
      assert key != "" && text[..|key|][0] == text[0];
    }
    NotComment(text);
    NotCommand(text, key);
    if |key| + 1 < |text| {
      NotHeader(text, |key|);
    } else if !HeaderName(key) {
      assert text == key + ":";
      NotAHeader(key);
    }
  }

  lemma NotAHeader(key: string)
    requires !HeaderName(key)
    ensures key + ":" != SERVER_NAME + ":" && key + ":" != "agent:" && key + ":" != "disabled_toolsets:"
    ensures key + ":" != "args:" && key + ":" != "env:"
  {
    NotThisHeader(key, SERVER_NAME);
    NotThisHeader(key, "agent");
    NotThisHeader(key, "disabled_toolsets");
    NotThisHeader(key, "args");
    NotThisHeader(key, "env");
    assert "agent" + ":" == "agent:" && "disabled_toolsets" + ":" == "disabled_toolsets:";
    assert "args" + ":" == "args:" && "env" + ":" == "env:";
    hide SERVER_NAME;
  }

  lemma NotThisHeader(key: string, name: string)
    ensures key + ":" == name + ":" ==> key == name
  {
    if key + ":" == name + ":" {
      assert (key + ":")[..|key|] == key && (name + ":")[..|name|] == name;
    }
  }

  lemma ColonAt(text: string, n: nat)
    requires n < |text| && text[n] == ':' && ':' !in text[..n]
    ensures IndexOfColon(text) == n
  {
  }

  /** A line that begins with a dash is no header, comment or command. */
  lemma DashLine(text: string)
    requires StartsWith(text, "- ")
    ensures text != "" && !StartsWith(text, "#") && !StartsWith(text, "command:")
    ensures text != SERVER_NAME + ":" && text != "agent:" && text != "disabled_toolsets:"
    ensures text != "args:" && text != "env:"
  {
    assert text[0] == "- "[0] == '-';
  }

  lemma NotComment(text: string)
    requires text != "" && text[0] != '#'
    ensures !StartsWith(text, "#")
  {
  }

  lemma GoodKeyChars(key: string)
    requires GoodKey(key)
    ensures key != "" && key != "command" && ':' !in key && key[0] != '#' && !IsSpace(key[0])
  {
    assert IsSpecial(':') && IsSpecial('#');
  }

  lemma NotCommand(text: string, key: string)
    requires |key| < |text| && text[..|key|] == key && text[|key|] == ':'
    requires ':' !in key && key != "command"
    ensures !StartsWith(text, "command:")
  {
    if |text| >= 8 {
      var head := text[..8];
      if |key| < 7 {
        assert head[|key|] == ':' && "command:"[|key|] != ':';
      } else if |key| == 7 {
        assert head[..7] == key && "command:"[..7] == "command";
      } else {
        assert head[7] == key[7] && key[7] in key && "command:"[7] == ':';
      }
    }
  }

  /** What a disabled toolset comes back as: quotes are stripped off, escapes are left in. */
  function DisabledBack(item: string): string
  {
    StripQuotes(Strip(Scalar(item)))
  }

  lemma DisabledParsed(st: State, item: string)
    requires st.inDisabled && Visible(item)
    ensures ParseLine(st, DisabledLine(item)) == st.(disabled := st.disabled + [DisabledBack(item)])
  {
    VisibleScalar(item);
    StripLine("    ", "- ", Scalar(item));
    StripAfterRStrip(Scalar(item));
    var rest := RStrip(Scalar(item));
    var text := "- " + rest;
    assert "    " + "- " + Scalar(item) == DisabledLine(item);
    assert text[..2] == "- " && text[2..] == rest;
    DashLine(text);
    hide Strip, RStrip, Scalar, StripQuotes, DisabledLine, StartsWith, SERVER_NAME;
  }

  lemma BlankItemVanishes(st: State, item: string)
    requires st.inDisabled && !st.inAgentveil && !Visible(item)
    ensures ParseLine(st, DisabledLine(item)) == st
  {
    BlankKept(item);
    BlankLine("    ", "-", item);
    assert "    " + ("-" + (" " + item)) == DisabledLine(item);
    hide Strip, Scalar, Unquote, DisabledLine;
  }

  // --- Whole blocks ------------------------------------------------------------

  lemma {:induction false} ParseConcat(st: State, a: seq<string>, b: seq<string>)
    ensures ParseLines(st, a + b) == ParseLines(ParseLines(st, a), b)
  {
    hide ParseLine;
    if b == [] {
      assert a + b == a;
    } else {
      var c := a + b;
      assert c[..|c| - 1] == a + b[..|b| - 1] && c[|c| - 1] == b[|b| - 1];
      ParseConcat(st, a, b[..|b| - 1]);
    }
  }

  function KeptAll(values: seq<string>): seq<string>
  {
    seq(|values|, i requires 0 <= i < |values| => Kept(values[i]))
  }

  /** The dictionary that assigning the entries in order builds. */
  function AsMap(env: seq<(string, string)>): map<string, string>
  {
    if env == [] then map[]
    else AsMap(env[..|env| - 1])[env[|env| - 1].0 := env[|env| - 1].1]
  }

  function KeptEntries(env: seq<(string, string)>): seq<(string, string)>
  {
    seq(|env|, i requires 0 <= i < |env| => (env[i].0, Kept(env[i].1)))
  }

  function DisabledAll(items: seq<string>): seq<string>
  {
    seq(|items|, i requires 0 <= i < |items| => DisabledBack(items[i]))
  }

  predicate OneLiners(values: seq<string>)
  {
    forall i :: 0 <= i < |values| ==> OneLine(values[i])
  }

  /** The values that do not vanish. */
  function Seen(values: seq<string>): seq<string>
  {
    if values == [] then []
    else
      var last := values[|values| - 1];
      Seen(values[..|values| - 1]) + (if Visible(last) then [last] else [])
  }

  predicate GoodEnv(env: seq<(string, string)>)
  {
    forall i :: 0 <= i < |env| ==> GoodKey(env[i].0) && OneLine(env[i].1)
  }

  /** No entry of the env block reads as a header. */
  predicate Separable(env: seq<(string, string)>)
  {
    forall i :: 0 <= i < |env| ==> Visible(env[i].1) || !HeaderName(env[i].0)
  }

  lemma {:induction false} ArgsParsed(st: State, args: seq<string>)
    requires st.inAgentveil && st.inArgs && !st.inEnv && !st.inDisabled
    ensures ParseLines(st, ArgLines(args)) == st.(args := st.args + KeptAll(Seen(args)))
  {
    hide ParseLine, ArgLine, Kept, Visible;
    if args == [] {
      assert st.args + KeptAll(Seen(args)) == st.args;
    } else {
      var n := |args| - 1;
      ArgsParsed(st, args[..n]);
      var before := st.args + KeptAll(Seen(args[..n]));
      if Visible(args[n]) {
        ArgParsed(st.(args := before), args[n]);
        assert before + [Kept(args[n])] == st.args + KeptAll(Seen(args));
      } else {
        BlankArgVanishes(st.(args := before), args[n]);
        assert Seen(args) == Seen(args[..n]);
      }
    }
  }

  lemma {:induction false} EnvsParsed(st: State, env: seq<(string, string)>)
    requires st.inAgentveil && st.inEnv && !st.inArgs && !st.inDisabled && GoodEnv(env) && Separable(env)
    requires st.env == map[]
    ensures ParseLines(st, EnvLines(env)) == st.(env := AsMap(KeptEntries(env)))
  {
    hide ParseLine, EnvLine, Kept, Visible, GoodKey, HeaderName;
    if env != [] {
      var n := |env| - 1;
      EnvsParsed(st, env[..n]);
      EnvParsed(st.(env := AsMap(KeptEntries(env[..n]))), env[n].0, env[n].1);
      assert env[n] == (env[n].0, env[n].1);
      assert KeptEntries(env)[..n] == KeptEntries(env[..n]);
    }
  }

  predicate AllVisible(env: map<string, string>)
  {
    forall k :: k in env ==> Visible(env[k])
  }

  /** Nothing that vanishes is ever the value of a variable, in whatever state the block is read. */
  lemma {:induction false} EnvsStayVisible(st: State, env: seq<(string, string)>)
    requires GoodEnv(env) && AllVisible(st.env)
    ensures AllVisible(ParseLines(st, EnvLines(env)).env)
  {
    hide ParseLine, EnvLine, Kept, Visible, GoodKey;
    if env != [] {
      var n := |env| - 1;
      EnvsStayVisible(st, env[..n]);
      EnvAnyState(ParseLines(st, EnvLines(env[..n])), env[n].0, env[n].1);
      KeptIsVisible(env[n].1);
      assert env[n] == (env[n].0, env[n].1);
    }
  }

  lemma KeptIsVisible(value: string)
    ensures Visible(Kept(value))
  {
    if IsPlain(value) {
      StripTrimmed(value);
      hide Strip;
    }
  }

  lemma {:induction false} DisabledsParsed(st: State, items: seq<string>)
    requires st.inDisabled && !st.inAgentveil
    ensures ParseLines(st, DisabledLines(items)) == st.(disabled := st.disabled + DisabledAll(Seen(items)))
  {
    hide ParseLine, DisabledLine, DisabledBack, Visible;
    if items == [] {
      assert st.disabled + DisabledAll(Seen(items)) == st.disabled;
    } else {
      var n := |items| - 1;
      DisabledsParsed(st, items[..n]);
      var before := st.disabled + DisabledAll(Seen(items[..n]));
      if Visible(items[n]) {
        DisabledParsed(st.(disabled := before), items[n]);
        assert before + [DisabledBack(items[n])] == st.disabled + DisabledAll(Seen(items));
      } else {
        BlankItemVanishes(st.(disabled := before), items[n]);
        assert Seen(items) == Seen(items[..n]);
      }
    }
  }

  lemma ServersHeader(st: State)
    requires !st.inAgentveil && !st.inDisabled
    ensures ParseLine(st, "mcp_servers:") == st
  {
    StripHeader("", "mcp_servers:");
    assert "" + "mcp_servers:" == "mcp_servers:";
    hide Strip, StripQuotes, Unquote, IndexOfColon, After;
  }

  lemma AgentveilHeader(st: State)
    ensures ParseLine(st, "  agentveil:") == st.(inAgentveil := true, inArgs := false, inEnv := false)
  {
    StripHeader("  ", "agentveil:");
    assert "  " + "agentveil:" == "  agentveil:";
    hide Strip, StripQuotes, Unquote, IndexOfColon, After;
  }

  lemma ArgsHeader(st: State)
    requires st.inAgentveil && !st.inDisabled
    ensures ParseLine(st, "    args:") == st.(inArgs := true, inEnv := false)
  {
    StripHeader("    ", "args:");
    assert "    " + "args:" == "    args:";
    hide Strip, StripQuotes, Unquote, IndexOfColon, After;
  }

  lemma EnvHeader(st: State)
    requires st.inAgentveil && !st.inDisabled
    ensures ParseLine(st, "    env:") == st.(inEnv := true, inArgs := false)
  {
    StripHeader("    ", "env:");
    assert "    " + "env:" == "    env:";
    hide Strip, StripQuotes, Unquote, IndexOfColon, After;
  }

  lemma AgentHeader(st: State)
    ensures ParseLine(st, "agent:") == st.(inAgentveil := false, inDisabled := false)
  {
    StripHeader("", "agent:");
    assert "" + "agent:" == "agent:";
    hide Strip, StripQuotes, Unquote, IndexOfColon, After;
  }

  lemma DisabledHeader(st: State)
    ensures ParseLine(st, "  disabled_toolsets:") == st.(inDisabled := true, inAgentveil := false)
  {
    hide Strip, StripQuotes, Unquote, IndexOfColon, After;
    StripHeader("  ", "disabled_toolsets:");
    assert "  " + "disabled_toolsets:" == "  disabled_toolsets:";
  }

  // --- The whole config --------------------------------------------------------

  function HermesDocument(command: string, args: seq<string>, env: seq<(string, string)>,
                          disabled: seq<string>): Document
  {
    Document([(SERVER_NAME, Server(command, args, env))], disabled)
  }

  /** A command, an arg, one line each, and keys that can be told apart. */
  predicate InScope(command: string, args: seq<string>, env: seq<(string, string)>, disabled: seq<string>)
  {
    && command != "" && OneLine(command)
    && args != [] && OneLiners(args) && GoodEnv(env) && OneLiners(disabled)
  }

  function Rendered(command: string, args: seq<string>, env: seq<(string, string)>, disabled: seq<string>): string
  {
    JoinLines(DocumentLines(HermesDocument(command, args, env, disabled)))
  }

  lemma PlainServerName()
    ensures Scalar(SERVER_NAME) == SERVER_NAME
  {
    assert IsPlain(SERVER_NAME);
  }

  function ServerBlock(command: string, args: seq<string>): seq<string>
  {
    ["mcp_servers:"] + ["  agentveil:"] + ["    command: " + Scalar(command)] + ["    args:"] + ArgLines(args)
  }

  function EnvBlock(env: seq<(string, string)>): seq<string>
  {
    (if env != [] then ["    env:"] else []) + EnvLines(env)
  }

  function DisabledBlock(disabled: seq<string>): seq<string>
  {
    (if disabled != [] then ["agent:"] + ["  disabled_toolsets:"] else []) + DisabledLines(disabled)
  }

  lemma DocumentSplit(command: string, args: seq<string>, env: seq<(string, string)>, disabled: seq<string>)
    requires command != "" && args != []
    ensures DocumentLines(HermesDocument(command, args, env, disabled))
         == ServerBlock(command, args) + EnvBlock(env) + DisabledBlock(disabled)
  {
    hide ArgLines, EnvLines, DisabledLines, Scalar, AllServerLines;
    OneServer(command, args, env);
    NoLines([], env, disabled);
    assert EnvBlock(env) == if env != [] then ["    env:"] + EnvLines(env) else [];
    assert DisabledBlock(disabled)
        == if disabled != [] then ["agent:", "  disabled_toolsets:"] + DisabledLines(disabled) else [];
  }

  lemma OneServer(command: string, args: seq<string>, env: seq<(string, string)>)
    requires command != "" && args != []
    ensures ["mcp_servers:"] + AllServerLines([(SERVER_NAME, Server(command, args, env))])
         == ServerBlock(command, args) + (if env != [] then ["    env:"] + EnvLines(env) else [])
  {
    LoneServer(Server(command, args, env));
    hide ArgLines, EnvLines, Scalar, AllServerLines;
    var envLines := if env != [] then ["    env:"] + EnvLines(env) else [];
    Regroup(["mcp_servers:"], ["  agentveil:"], ["    command: " + Scalar(command)], ["    args:"],
            ArgLines(args), envLines);
  }

  lemma LoneServer(server: Server)
    requires server.command != "" && server.args != []
    ensures AllServerLines([(SERVER_NAME, server)]) ==
            ["  agentveil:"] + ["    command: " + Scalar(server.command)] + (["    args:"] + ArgLines(server.args))
            + (if server.env != [] then ["    env:"] + EnvLines(server.env) else [])
  {
    OnlyServerLines((SERVER_NAME, server));
    ServerHeader();
    hide ArgLines, EnvLines, Scalar, AllServerLines, SERVER_NAME;
  }

  lemma OnlyServerLines(entry: (string, Server))
    ensures AllServerLines([entry]) == ServerLines(entry.0, entry.1)
  {
    hide ServerLines;
    NoServers([entry][..0]);
    assert [entry][|[entry]| - 1] == entry;
  }

  lemma ServerHeader()
    ensures "  " + Scalar(SERVER_NAME) + ":" == "  agentveil:"
  {
    PlainServerName();
    assert "  " + SERVER_NAME + ":" == "  agentveil:";
  }

  lemma Regroup(a: seq<string>, b: seq<string>, c: seq<string>, d: seq<string>, e: seq<string>, f: seq<string>)
    ensures a + (b + c + (d + e) + f) == a + b + c + d + e + f
  {
  }

  lemma ParseOne(st: State, line: string)
    ensures ParseLines(st, [line]) == ParseLine(st, line)
  {
    assert [line][..0] == [] && ParseLines(st, []) == st;
  }

  lemma ServerParsed(command: string, args: seq<string>)
    requires command != ""
    ensures ParseLines(START, ServerBlock(command, args))
         == State(true, true, false, false, Some(Kept(command)), KeptAll(Seen(args)), map[], [])
  {
    hide ParseLine, ParseLines, ArgLines, Visible, Kept, Seen;
    var head := ["mcp_servers:"] + ["  agentveil:"] + ["    command: " + Scalar(command)];
    ParseConcat(START, head + ["    args:"], ArgLines(args));
    ParseConcat(START, head, ["    args:"]);
    ParseConcat(START, ["mcp_servers:"] + ["  agentveil:"], ["    command: " + Scalar(command)]);
    ParseConcat(START, ["mcp_servers:"], ["  agentveil:"]);
    ParseOne(START, "mcp_servers:");
    ServersHeader(START);
    ParseOne(START, "  agentveil:");
    AgentveilHeader(START);
    var st := START.(inAgentveil := true);
    ParseOne(st, "    command: " + Scalar(command));
    CommandLine(st, command);
    st := st.(command := Some(Kept(command)));
    ParseOne(st, "    args:");
    ArgsHeader(st);
    ArgsParsed(st.(inArgs := true), args);
    assert [] + KeptAll(Seen(args)) == KeptAll(Seen(args));
  }

  lemma EnvBlockParsed(st: State, env: seq<(string, string)>)
    requires st.inAgentveil && !st.inDisabled && GoodEnv(env) && Separable(env) && st.env == map[]
    ensures var r := ParseLines(st, EnvBlock(env));
            r == (if env != [] then st.(inEnv := true, inArgs := false) else st).(env := AsMap(KeptEntries(env)))
  {
    hide ParseLine, GoodEnv, Separable;
    if env == [] {
      NoLines([], env, []);
      assert [] + EnvLines(env) == [];
    } else {
      ParseConcat(st, ["    env:"], EnvLines(env));
      ParseOne(st, "    env:");
      EnvHeader(st);
      EnvsParsed(st.(inEnv := true, inArgs := false), env);
    }
  }

  lemma DisabledBlockParsed(st: State, disabled: seq<string>)
    ensures var r := ParseLines(st, DisabledBlock(disabled));
            && r.command == st.command && r.args == st.args && r.env == st.env
            && r.disabled == st.disabled + DisabledAll(Seen(disabled))
  {
    hide ParseLine, Seen;
    if disabled == [] {
      NoLines([], [], disabled);
      assert [] + DisabledLines(disabled) == [];
      SeenNone(disabled);
      assert st.disabled + [] == st.disabled;
    } else {
      ParseConcat(st, ["agent:"] + ["  disabled_toolsets:"], DisabledLines(disabled));
      ParseConcat(st, ["agent:"], ["  disabled_toolsets:"]);
      ParseOne(st, "agent:");
      AgentHeader(st);
      var agent := st.(inAgentveil := false, inDisabled := false);
      ParseOne(agent, "  disabled_toolsets:");
      DisabledHeader(agent);
      DisabledsParsed(agent.(inDisabled := true), disabled);
    }
  }

  lemma SeenNone(values: seq<string>)
    requires values == []
    ensures DisabledAll(Seen(values)) == []
  {
  }

  lemma LinesParsed(command: string, args: seq<string>, env: seq<(string, string)>, disabled: seq<string>)
    requires InScope(command, args, env, disabled) && Separable(env)
    ensures var r := ParseLines(START, DocumentLines(HermesDocument(command, args, env, disabled)));
            && r.command == Some(Kept(command)) && r.args == KeptAll(Seen(args))
            && r.env == AsMap(KeptEntries(env)) && r.disabled == DisabledAll(Seen(disabled))
  {
    DocumentSplit(command, args, env, disabled);
    hide ParseLine, ParseLines, DocumentLines, ServerBlock, EnvBlock, DisabledBlock, AsMap, KeptEntries, OneLiners,
      GoodEnv, Visible, Kept, Seen, Separable;
    var server := ServerBlock(command, args);
    ParseConcat(START, server + EnvBlock(env), DisabledBlock(disabled));
    ParseConcat(START, server, EnvBlock(env));
    ServerParsed(command, args);
    EnvBlockParsed(ParseLines(START, server), env);
    DisabledBlockParsed(ParseLines(START, server + EnvBlock(env)), disabled);
    assert [] + DisabledAll(Seen(disabled)) == DisabledAll(Seen(disabled));
  }

  lemma EnvOfLines(command: string, args: seq<string>, env: seq<(string, string)>, disabled: seq<string>)
    requires InScope(command, args, env, disabled)
    ensures AllVisible(ParseLines(START, DocumentLines(HermesDocument(command, args, env, disabled))).env)
  {
    DocumentSplit(command, args, env, disabled);
    hide ParseLine, ParseLines, DocumentLines, ServerBlock, DisabledBlock, OneLiners, GoodEnv, Visible, Kept, Seen,
      EnvLines;
    var server := ServerBlock(command, args);
    ParseConcat(START, server + EnvBlock(env), DisabledBlock(disabled));
    ParseConcat(START, server, EnvBlock(env));
    ServerParsed(command, args);
    var st := ParseLines(START, server);
    if env == [] {
      NoLines([], env, []);
      assert EnvBlock(env) == [];
      assert server + [] == server;
    } else {
      ParseConcat(st, ["    env:"], EnvLines(env));
      ParseOne(st, "    env:");
      EnvHeader(st);
      EnvsStayVisible(ParseLine(st, "    env:"), env);
    }
    DisabledBlockParsed(ParseLines(START, server + EnvBlock(env)), disabled);
  }

  lemma {:induction false} BlocksOneLine(args: seq<string>, env: seq<(string, string)>, disabled: seq<string>)
    requires OneLiners(args) && GoodEnv(env) && OneLiners(disabled)
    ensures forall i :: 0 <= i < |ArgLines(args)| ==> OneLine(ArgLines(args)[i])
    ensures forall i :: 0 <= i < |EnvLines(env)| ==> OneLine(EnvLines(env)[i])
    ensures forall i :: 0 <= i < |DisabledLines(disabled)| ==> OneLine(DisabledLines(disabled)[i])
    decreases |args| + |env| + |disabled|
  {
    hide Scalar, Visible;
    if args != [] {
      BlocksOneLine(args[..|args| - 1], [], []);
      ScalarOneLine(args[|args| - 1]);
    }
    if env != [] {
      BlocksOneLine([], env[..|env| - 1], []);
      ScalarOneLine(env[|env| - 1].0);
      ScalarOneLine(env[|env| - 1].1);
    }
    if disabled != [] {
      BlocksOneLine([], [], disabled[..|disabled| - 1]);
      ScalarOneLine(disabled[|disabled| - 1]);
    }
  }

  lemma DocumentOneLine(command: string, args: seq<string>, env: seq<(string, string)>, disabled: seq<string>)
    requires InScope(command, args, env, disabled)
    ensures var lines := DocumentLines(HermesDocument(command, args, env, disabled));
            forall i :: 0 <= i < |lines| ==> OneLine(lines[i])
  {
    DocumentSplit(command, args, env, disabled);
    ServerBlockOneLine(command, args);
    OtherBlocksOneLine(env, disabled);
    hide DocumentLines, ServerBlock, EnvBlock, DisabledBlock, OneLiners, GoodEnv, OneLine;
    AllOneLine(ServerBlock(command, args), EnvBlock(env), DisabledBlock(disabled));
  }

  lemma ServerBlockOneLine(command: string, args: seq<string>)
    requires OneLine(command) && OneLiners(args)
    ensures forall i :: 0 <= i < |ServerBlock(command, args)| ==> OneLine(ServerBlock(command, args)[i])
  {
    BlocksOneLine(args, [], []);
    ScalarOneLine(command);
    HeadersOneLine(Scalar(command));
    hide Scalar, ArgLines, OneLiners, OneLine;
  }

  lemma OtherBlocksOneLine(env: seq<(string, string)>, disabled: seq<string>)
    requires GoodEnv(env) && OneLiners(disabled)
    ensures forall i :: 0 <= i < |EnvBlock(env)| ==> OneLine(EnvBlock(env)[i])
    ensures forall i :: 0 <= i < |DisabledBlock(disabled)| ==> OneLine(DisabledBlock(disabled)[i])
  {
    BlocksOneLine([], env, disabled);
    HeadersOneLine("");
    hide EnvLines, DisabledLines, GoodEnv, OneLiners, OneLine;
  }

  lemma HeadersOneLine(scalar: string)
    requires OneLine(scalar)
    ensures OneLine("mcp_servers:") && OneLine("  agentveil:") && OneLine("    command: " + scalar)
    ensures OneLine("    args:") && OneLine("    env:") && OneLine("agent:") && OneLine("  disabled_toolsets:")
  {
  }

  lemma AllOneLine(a: seq<string>, b: seq<string>, c: seq<string>)
    requires forall i :: 0 <= i < |a| ==> OneLine(a[i])
    requires forall i :: 0 <= i < |b| ==> OneLine(b[i])
    requires forall i :: 0 <= i < |c| ==> OneLine(c[i])
    ensures forall i :: 0 <= i < |a + b + c| ==> OneLine((a + b + c)[i])
  {
    hide OneLine;
  }

  /** What parsing a rendered config gives back, for any number of args, entries and toolsets: plain scalars without
      their outer whitespace, without the args and toolsets that were nothing else, and an error when no
      command or no arg is left. */
  lemma ParseRendered(command: string, args: seq<string>, env: seq<(string, string)>, disabled: seq<string>)
    requires InScope(command, args, env, disabled) && Separable(env)
    ensures Parse(Some(Rendered(command, args, env, disabled)))
         == (if !Visible(command) then Err(MissingCommand)
             else if Seen(args) == [] then Err(MissingArgs)
             else Ok(Parsed(Kept(command), KeptAll(Seen(args)), AsMap(KeptEntries(env)), DisabledAll(Seen(disabled)))))
  {
    DocumentOneLine(command, args, env, disabled);
    SplitJoined(DocumentLines(HermesDocument(command, args, env, disabled)));
    LinesParsed(command, args, env, disabled);
    KeptVisible(command);
    hide ParseLines, DocumentLines, SplitLines, JoinLines, Kept, AsMap, KeptEntries, OneLiners, GoodEnv, Visible, Seen,
      Separable;
  }

  lemma KeptVisible(value: string)
    requires value != ""
    ensures Kept(value) != "" <==> Visible(value)
  {
    if !Visible(value) {
      BlankKept(value);
    } else if IsPlain(value) {
      VisibleScalar(value);
      LStripNotBlank(value);
    }
  }

  lemma {:induction false} LStripNotBlank(s: string)
    requires !Blank(s)
    ensures LStrip(s) != "" && !Blank(LStrip(s)) && Strip(s) != ""
  {
    if IsSpace(s[0]) {
      LStripNotBlank(s[1..]);
    }
    RStripTail("", LStrip(s));
    assert "" + LStrip(s) == LStrip(s);
  }

  predicate AllSurvive(values: seq<string>)
  {
    forall i :: 0 <= i < |values| ==> Survives(values[i])
  }

  predicate ValuesSurvive(env: seq<(string, string)>)
  {
    forall i :: 0 <= i < |env| ==> Survives(env[i].1)
  }

  predicate ToolsetsSurvive(items: seq<string>)
  {
    forall i :: 0 <= i < |items| ==> ToolsetSurvives(items[i])
  }

  predicate Survives(value: string)
  {
    !IsPlain(value) || Trimmed(value)
  }

  /** A toolset survives when it has no outer whitespace to lose and nothing that is escaped. */
  predicate ToolsetSurvives(item: string)
  {
    if IsPlain(item) then Trimmed(item) else '"' !in item && '\\' !in item
  }

  lemma KeptExactly(value: string)
    ensures Kept(value) == value <==> Survives(value)
  {
    StripTrimmed(value);
  }

  lemma DisabledBackExactly(item: string)
    ensures DisabledBack(item) == item <==> ToolsetSurvives(item)
  {
    if IsPlain(item) {
      StripTrimmed(item);
      NoQuotesInPlain(item);
      NoQuoteToStrip(Strip(item));
    } else {
      QuotedBack(item);
      hide StripQuotes, EscapedChars;
      if '"' !in item && '\\' !in item {
        NothingEscaped(item);
        QuotesStripped(item);
      } else {
        CountBackslashes(item);
        StripQuotesKeepsBackslashes(QUOTE + EscapedChars(item) + QUOTE);
      }
    }
  }

  lemma QuotedBack(item: string)
    requires !IsPlain(item)
    ensures DisabledBack(item) == StripQuotes(QUOTE + EscapedChars(item) + QUOTE)
  {
    EscapePass1(item);
    EscapePass2(item);
    assert Trimmed(Scalar(item));
    StripTrimmed(Scalar(item));
    hide StripQuotes, EscapedChars, Strip;
  }

  lemma QuotesStripped(item: string)
    requires '"' !in item
    ensures StripQuotes(QUOTE + item + QUOTE) == item
  {
    var text := QUOTE + item + QUOTE;
    assert text[1..] == item + QUOTE;
    NoQuoteToStrip(item);
    if item == "" {
      assert text[1..] == QUOTE && QUOTE[1..] == "";
    } else {
      assert (item + QUOTE)[0] == item[0] && (item + QUOTE)[..|item|] == item;
    }
  }

  lemma NoQuoteToStrip(s: string)
    requires '"' !in s
    ensures StripQuotes(s) == s
  {
  }

  lemma NoQuotesInPlain(item: string)
    requires IsPlain(item)
    ensures '"' !in Strip(item)
  {
    LStripPart(item);
    RStripEnds(LStrip(item));
    forall c | c in Strip(item) ensures c in item {
      assert c in LStrip(item);
    }
    assert IsSpecial('"');
  }

  lemma {:induction false} NothingEscaped(item: string)
    requires '"' !in item && '\\' !in item
    ensures EscapedChars(item) == item
  {
    if item != "" {
      NothingEscaped(item[1..]);
      assert item == [item[0]] + item[1..];
    }
  }

  lemma {:induction false} CountBackslashes(item: string)
    ensures multiset(EscapedChars(item))['\\'] == 2 * multiset(item)['\\'] + multiset(item)['"']
  {
    if item != "" {
      CountBackslashes(item[1..]);
      assert item == [item[0]] + item[1..];
      EscapedBackslashes(item[0]);
      assert EscapedChars(item) == EscapedChar(item[0]) + EscapedChars(item[1..]);
      hide EscapedChars, EscapedChar;
    }
  }

  lemma EscapedBackslashes(c: char)
    ensures multiset(EscapedChar(c))['\\'] == (if c == '\\' then 2 else if c == '"' then 1 else 0)
  {
  }

  lemma {:induction false} StripQuotesKeepsBackslashes(s: string)
    ensures multiset(StripQuotes(s))['\\'] == multiset(s)['\\']
    decreases |s|
  {
    if s != "" && s[0] == '"' {
      assert s == [s[0]] + s[1..];
      StripQuotesKeepsBackslashes(s[1..]);
    } else if s != "" && s[|s| - 1] == '"' {
      assert s == s[..|s| - 1] + [s[|s| - 1]];
      StripQuotesKeepsBackslashes(s[..|s| - 1]);
    }
  }

  function Keys(env: seq<(string, string)>): seq<string>
  {
    seq(|env|, i requires 0 <= i < |env| => env[i].0)
  }

  /** With distinct keys every entry can be looked up. */
  lemma {:induction false} AsMapAt(env: seq<(string, string)>, i: nat)
    requires Distinct(Keys(env)) && i < |env|
    ensures env[i].0 in AsMap(env) && AsMap(env)[env[i].0] == env[i].1
  {
    hide Distinct;
    var n := |env| - 1;
    if i < n {
      DistinctFront(Keys(env));
      assert Keys(env[..n]) == Keys(env)[..n];
      AsMapAt(env[..n], i);
      DistinctAt(Keys(env), i, n);
    }
  }

  lemma {:induction false} AsMapKeys(env: seq<(string, string)>, kept: seq<(string, string)>)
    requires Keys(env) == Keys(kept)
    ensures AsMap(env).Keys == AsMap(kept).Keys
    ensures forall k :: k in AsMap(env) ==> exists i :: 0 <= i < |env| && env[i].0 == k
  {
    assert |env| == |Keys(env)| == |kept|;
    if env != [] {
      var n := |env| - 1;
      assert Keys(env[..n]) == Keys(env)[..n] == Keys(kept[..n]);
      assert env[n].0 == Keys(env)[n] == kept[n].0;
      AsMapKeys(env[..n], kept[..n]);
      forall k | k in AsMap(env) ensures exists i :: 0 <= i < |env| && env[i].0 == k {
        if k != env[n].0 {
          var i :| 0 <= i < n && env[..n][i].0 == k;
          assert env[i].0 == k;
        }
      }
    }
  }

  lemma {:induction false} DistinctFront(xs: seq<string>)
    requires Distinct(xs) && xs != []
    ensures Distinct(xs[..|xs| - 1])
  {
    if |xs| > 1 {
      DistinctFront(xs[1..]);
      assert xs[1..][..|xs| - 2] == xs[..|xs| - 1][1..];
    }
  }

  predicate NoneVanishes(values: seq<string>)
  {
    forall i :: 0 <= i < |values| ==> Visible(values[i])
  }

  lemma {:induction false} SeenFewer(values: seq<string>)
    ensures |Seen(values)| <= |values|
    ensures |Seen(values)| == |values| ==> NoneVanishes(values)
  {
    hide Visible;
    if values != [] {
      var n := |values| - 1;
      SeenFewer(values[..n]);
      assert forall i :: 0 <= i < n ==> values[..n][i] == values[i];
    }
  }

  lemma {:induction false} SeenAll(values: seq<string>)
    requires NoneVanishes(values)
    ensures Seen(values) == values
  {
    hide Visible;
    if values != [] {
      var n := |values| - 1;
      assert NoneVanishes(values[..n]);
      SeenAll(values[..n]);
      assert values == values[..n] + [values[n]];
    }
  }

  lemma SurvivorsAreVisible(value: string)
    ensures Survives(value) ==> Visible(value)
    ensures ToolsetSurvives(value) ==> Visible(value)
  {
  }

  lemma KeptAllExactly(values: seq<string>)
    ensures KeptAll(Seen(values)) == values <==> AllSurvive(values)
  {
    hide Survives, Kept, Visible, Seen;
    SeenFewer(values);
    forall i | 0 <= i < |values|
      ensures Kept(values[i]) == values[i] <==> Survives(values[i])
      ensures Survives(values[i]) ==> Visible(values[i])
    {
      KeptExactly(values[i]);
      SurvivorsAreVisible(values[i]);
    }
    if NoneVanishes(values) {
      SeenAll(values);
      assert forall i :: 0 <= i < |values| ==> KeptAll(values)[i] == Kept(values[i]);
    }
  }

  lemma DisabledAllExactly(items: seq<string>)
    ensures DisabledAll(Seen(items)) == items <==> ToolsetsSurvive(items)
  {
    hide ToolsetSurvives, DisabledBack, Visible, Seen;
    SeenFewer(items);
    forall i | 0 <= i < |items|
      ensures DisabledBack(items[i]) == items[i] <==> ToolsetSurvives(items[i])
      ensures ToolsetSurvives(items[i]) ==> Visible(items[i])
    {
      DisabledBackExactly(items[i]);
      SurvivorsAreVisible(items[i]);
    }
    if NoneVanishes(items) {
      SeenAll(items);
      assert forall i :: 0 <= i < |items| ==> DisabledAll(items)[i] == DisabledBack(items[i]);
    }
  }

  lemma EntriesExactly(env: seq<(string, string)>)
    requires Distinct(Keys(env))
    ensures AsMap(KeptEntries(env)) == AsMap(env) <==> ValuesSurvive(env)
  {
    hide Survives, Kept, AsMap, Distinct;
    var kept := KeptEntries(env);
    assert Keys(kept) == Keys(env);
    AsMapKeys(env, kept);
    forall i | 0 <= i < |env|
      ensures env[i].0 in AsMap(env) && env[i].0 in AsMap(kept)
      ensures AsMap(kept)[env[i].0] == AsMap(env)[env[i].0] <==> Survives(env[i].1)
    {
      KeptExactly(env[i].1);
      AsMapAt(env, i);
      AsMapAt(kept, i);
    }
  }

  /** The round trip gives back the very same config exactly when every scalar survives it. */
  lemma RoundTripExactly(command: string, args: seq<string>, env: seq<(string, string)>, disabled: seq<string>)
    requires InScope(command, args, env, disabled) && Distinct(Keys(env))
    ensures Parse(Some(Rendered(command, args, env, disabled))) == Ok(Parsed(command, args, AsMap(env), disabled))
       <==> Survives(command) && AllSurvive(args) && ValuesSurvive(env) && ToolsetsSurvive(disabled)
  {
    if Separable(env) {
      ParseRendered(command, args, env, disabled);
      KeptExactly(command);
      SurvivorsAreVisible(command);
      KeptAllExactly(args);
      EntriesExactly(env);
      DisabledAllExactly(disabled);
      if AllSurvive(args) {
        SeenSome(args);
      }
    } else {
      var i :| 0 <= i < |env| && !Visible(env[i].1);
      SurvivorsAreVisible(env[i].1);
      AsMapAt(env, i);
      EnvComesVisible(command, args, env, disabled);
    }
    hide Parse, Rendered, InScope, Survives, AllSurvive, ToolsetsSurvive, Kept, KeptAll, DisabledAll, AsMap, KeptEntries,
      Distinct, Visible, Seen;
  }

  lemma SeenSome(args: seq<string>)
    requires args != [] && AllSurvive(args)
    ensures Seen(args) == args
  {
    forall i | 0 <= i < |args| ensures Visible(args[i]) {
      SurvivorsAreVisible(args[i]);
    }
    SeenAll(args);
  }

  lemma EnvComesVisible(command: string, args: seq<string>, env: seq<(string, string)>, disabled: seq<string>)
    requires InScope(command, args, env, disabled)
    ensures var parsed := Parse(Some(Rendered(command, args, env, disabled)));
            parsed.Ok? ==> AllVisible(parsed.value.env)
  {
    DocumentOneLine(command, args, env, disabled);
    SplitJoined(DocumentLines(HermesDocument(command, args, env, disabled)));
    EnvOfLines(command, args, env, disabled);
    hide ParseLines, DocumentLines, SplitLines, JoinLines, OneLiners, GoodEnv, Visible;
  }

  // --- The bootstrap config -----------------------------------------------------

  /** The args block of `build_hermes_config_document`: a Python interpreter is given the module. */
  function InvocationArgs(isPython: bool, runArgs: seq<string>): seq<string>
  {
    if isPython then ["-m", "agentveil_mcp_proxy.cli"] + runArgs else runArgs
  }

  /** `_hermes_proxy_run_args` */
  function ProxyRunArgs(args: seq<string>): Option<seq<string>>
  {
    if args == [] then None
    else if args[0] == "run" then Some(args)
    else if |args| >= 3 && args[0] == "-m" && args[1] == "agentveil_mcp_proxy.cli" && args[2] == "run"
    then Some(args[2..])
    else None
  }

  /** The arguments that are recovered begin with `run`, and the given ones are these, or these behind the module's name. */
  lemma ProxyRunArgsExactly(args: seq<string>, runArgs: seq<string>)
    ensures ProxyRunArgs(args) == Some(runArgs)
       <==> && runArgs != [] && runArgs[0] == "run"
            && (args == runArgs || args == ["-m", "agentveil_mcp_proxy.cli"] + runArgs)
  {
  }

  lemma RunArgsExactly(isPython: bool, runArgs: seq<string>)
    ensures ProxyRunArgs(InvocationArgs(isPython, runArgs)) == Some(runArgs) <==> runArgs != [] && runArgs[0] == "run"
  {
    var args := InvocationArgs(isPython, runArgs);
    if isPython {
      assert args[0] == "-m" && args[2..] == runArgs;
    }
  }

  /** From the written config, the launcher recovers the `run` arguments it was given, whichever way the
      proxy is invoked, exactly when they begin with `run`. */
  lemma BootstrapRecoversRunArgs(command: string, isPython: bool, runArgs: seq<string>,
                                 env: seq<(string, string)>)
    requires InScope(command, InvocationArgs(isPython, runArgs), env, DISABLED_NATIVE_TOOLSETS)
    requires Separable(env) && Visible(command) && AllSurvive(InvocationArgs(isPython, runArgs))
    ensures var parsed := Parse(Some(Rendered(command, InvocationArgs(isPython, runArgs), env,
                                              DISABLED_NATIVE_TOOLSETS)));
            && parsed.Ok?
            && (ProxyRunArgs(parsed.value.args) == Some(runArgs) <==> runArgs != [] && runArgs[0] == "run")
  {
    ParseRendered(command, InvocationArgs(isPython, runArgs), env, DISABLED_NATIVE_TOOLSETS);
    KeptAllExactly(InvocationArgs(isPython, runArgs));
    SeenSome(InvocationArgs(isPython, runArgs));
    RunArgsExactly(isPython, runArgs);
    hide *;
  }
}
