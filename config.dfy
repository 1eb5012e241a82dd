/** Start-up configuration: which endpoint to watch and which hostname to
    tag the measurements with. */
module Config {
  import opened Wrappers

  /** The target used when neither a command-line argument nor WATCH_ENDPOINT is given. */
  const DefaultEndpoint: string := "www.google.com"

  /** The endpoint for a process started with `args` (args[0] is the program
      itself) and the value of WATCH_ENDPOINT, None when it is not set. */
  function GetEndpoint(args: seq<string>, env: Option<string>): (e: string)
    ensures (|args| > 1 && e == args[1]) || (env.Some? && e == env.value) || e == DefaultEndpoint
  {
    if |args| > 1 then args[1]
    else if env.Some? then env.value
    else DefaultEndpoint
  }

  /** A command-line argument wins over the environment and the default. */
  lemma ArgumentFirst(args: seq<string>, env: Option<string>)
    requires |args| > 1
    ensures GetEndpoint(args, env) == args[1]
  {
  }

  /** Without an argument a set WATCH_ENDPOINT wins, even when it is empty. */
  lemma EnvironmentSecond(args: seq<string>, v: string)
    requires |args| <= 1
    ensures GetEndpoint(args, Some(v)) == v
  {
  }

  /** Without an argument or WATCH_ENDPOINT the default is used. */
  lemma DefaultLast(args: seq<string>)
    requires |args| <= 1
    ensures GetEndpoint(args, None) == "www.google.com"
  {
  }

  /** The hostname the scan of the hostname file settles on: the OS hostname
      when the file cannot be opened (`file` is None) or has no lines,
      otherwise the last line, whatever it holds. */
  function SelectHostname(osHostname: string, file: Option<seq<string>>): (h: string)
    ensures h == osHostname || (file.Some? && h in file.value)
  {
    match file
    case None => osHostname
    case Some(lines) => if lines == [] then osHostname else lines[|lines| - 1]
  }

  /** Scans the lines of the hostname file, each line overwriting the
      hostname. An empty line only prompts a fallback lookup whose result is
      bound to a fresh local and dropped, so the empty line is kept. */
  method ScanHostname(osHostname: string, file: Option<seq<string>>) returns (hostname: string)
    ensures hostname == SelectHostname(osHostname, file)
  {
    hostname := osHostname;
    if file.None? {
      return;
    }
    var lines := file.value;
    var i := 0;
    while i < |lines|
      invariant 0 <= i <= |lines|
      invariant hostname == if i == 0 then osHostname else lines[i - 1]
    {
      hostname := lines[i];
      // an empty line only triggers a lookup into a shadowing local: `hostname` keeps ""
      i := i + 1;
    }
  }

  /** A missing or empty file leaves the OS hostname. */
  lemma HostnameFallback(osHostname: string, file: Option<seq<string>>)
    requires file.None? || file.value == []
    ensures SelectHostname(osHostname, file) == osHostname
  {
  }

  /** A file with lines yields its last line, not its first. */
  lemma HostnameIsLastLine(osHostname: string, lines: seq<string>)
    requires lines != []
    ensures SelectHostname(osHostname, Some(lines)) == lines[|lines| - 1]
  {
  }

  /** An empty last line yields an empty hostname, whatever the OS hostname is. */
  lemma EmptyLastLineIsKept(osHostname: string, lines: seq<string>)
    requires lines != [] && lines[|lines| - 1] == ""
    ensures SelectHostname(osHostname, Some(lines)) == ""
  {
  }
}
