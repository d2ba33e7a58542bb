/** `Range.get_user_agent` (seco/range/__init__.py, lines 131-139): the `User-Agent` header the
    client sends with every request, naming the calling script, the library version, the user and
    the host. */
module UserAgent {
  import opened Optional
  import opened Strings

  /** `__version__` (line 19). */
  const Version := "2.0"

  /** The name used when neither an agent nor a script name is available (line 138). */
  const DefaultScript := "seco.range"

  /** What the process environment supplies: `socket.gethostname()`, `getpass.getuser()` and
      `sys.argv[0]`. */
  datatype Environment = Environment(hostname: string, user: string, script: string)

  /** `provided_agent or sys.argv[0] or 'seco.range'` (line 138): the first of the three that is
      present and not empty. */
  function AgentName(provided: Option<string>, script: string): (name: string)
    ensures name != ""
    ensures provided.Some? && provided.value != "" ==> name == provided.value
    ensures (provided.None? || provided.value == "") && script != "" ==> name == script
    ensures (provided.None? || provided.value == "") && script == "" ==> name == DefaultScript
  {
    if provided.Some? && provided.value != "" then provided.value
    else if script != "" then script
    else DefaultScript
  }

  /** The header value of line 139: `name/version (user; host)`. */
  function GetUserAgent(provided: Option<string>, env: Environment): string
  {
    AgentName(provided, env.script) + "/" + Version + " (" + env.user + "; " + env.hostname + ")"
  }

  /** The header starts with the agent name followed by `/2.0 (`, continues with the user, `; `
      and the host, and ends with `)`. When the name holds no `/`, the text before the first `/`
      is the name, so the name can be read back from the header. */
  lemma UserAgentFields(provided: Option<string>, env: Environment)
    ensures var ua := GetUserAgent(provided, env);
      var name := AgentName(provided, env.script);
      var n := |name| + |"/2.0 ("|;
      && ua[..|name|] == name
      && ua[|name|..n] == "/2.0 ("
      && ua[n..n + |env.user|] == env.user
      && ua[n + |env.user|..n + |env.user| + 2] == "; "
      && ua[n + |env.user| + 2..|ua| - 1] == env.hostname
      && ua[|ua| - 1] == ')'
      && ('/' !in name ==> ua[..IndexOf('/', ua)] == name)
  {
    var ua := GetUserAgent(provided, env);
    var name := AgentName(provided, env.script);
    if '/' !in name {
      assert ua[..|name|] == name && ua[|name|] == '/';
      FirstSlash(name, ua);
    }
  }

  /** A text that starts with `name` and then `/`, where `name` holds no `/`, has its first `/`
      right after `name`. */
  lemma FirstSlash(name: string, text: string)
    requires '/' !in name
    requires |name| < |text| && text[..|name|] == name && text[|name|] == '/'
    ensures IndexOf('/', text) == |name|
  {
    assert forall k | 0 <= k < |name| :: text[k] == name[k];
  }
}
