/** The parts of the running JVM's surroundings the orchestrator reads: environment, system properties, files. */
module Platform {
  import opened Results

  /**
   * The process environment (a missing variable is simply absent, Java's `null`) and the two system
   * properties the managers read, `os.name` and `user.home`.
   */
  datatype Host = Host(env: map<string, string>, osName: string, userHome: string)

  /** Which paths exist, which of them may be executed and which may be read. */
  datatype FileSystem = FileSystem(existing: set<string>, executable: set<string>, readable: set<string>)

  /** `System.getenv(name)`. */
  function GetEnv(env: map<string, string>, name: string): (r: Option<string>)
    ensures r.Some? <==> name in env
    ensures r.Some? ==> r.value == env[name]
  {
    if name in env then Some(env[name]) else None
  }

  predicate IsSlash(c: char) {
    c == '/' || c == '\\'
  }

  predicate IsAsciiLetter(c: char) {
    'a' <= c <= 'z' || 'A' <= c <= 'Z'
  }

  /**
   * `new File(path).isAbsolute()`: on Unix a leading '/', on Windows a drive letter followed by
   * ":" and a separator, or a UNC path starting with two separators.
   */
  predicate IsAbsolute(path: string, windows: bool) {
    if windows then
      (|path| >= 3 && IsAsciiLetter(path[0]) && path[1] == ':' && IsSlash(path[2]))
      || (|path| >= 2 && IsSlash(path[0]) && IsSlash(path[1]))
    else
      |path| > 0 && path[0] == '/'
  }

  /** `File.separator` on the platform the JVM runs on. */
  function Separator(windows: bool): string {
    if windows then "\\" else "/"
  }
}
