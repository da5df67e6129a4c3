/** The daemon-authentication cookie (src/config.rs): `Config::cookie_getter` picks
    a getter once, and each RPC call asks it for the cookie bytes. A static getter
    holds the configured string's bytes; a file getter reads `.cookie` in the
    daemon directory afresh on every call, so a cookie the daemon rotates is seen
    at the next call. The filesystem is a parameter: the contents of each path at
    the moment of the call, or `None` when the read fails. */
module Cookie {
  import opened Wrappers
  import opened Utf8
  import opened Decimal
  import opened Config

  datatype CookieGetter =
    | StaticCookie(value: seq<byte>)
    | CookieFile(daemonDir: Path)

  /** The error kind the cookie read reports; it names the path it tried. */
  datatype CookieError = Connection(path: Path)

  /** What `fs::read` sees at the moment of one call. */
  type FileSystem = Path -> Option<seq<byte>>

  const COOKIE_FILE_NAME := ".cookie"

  /** Where a file getter looks for the cookie. */
  function CookiePath(daemonDir: Path): (p: Path)
    ensures |p| == |daemonDir| + 1 && p[..|daemonDir|] == daemonDir
    ensures p[|daemonDir|] == COOKIE_FILE_NAME
  {
    daemonDir + [COOKIE_FILE_NAME]
  }

  /** `Config::cookie_getter`. */
  function GetterOf(c: Config): (g: CookieGetter)
    ensures g.StaticCookie? <==> c.cookie.Some?
    ensures g.StaticCookie? ==> DecodeString(g.value) == Some(c.cookie.value)
    ensures g.CookieFile? ==> g.daemonDir == c.daemonDir
  {
    match c.cookie
    case Some(value) =>
      EncodingIsExactlyDecodable(value, EncodeString(value));
      StaticCookie(EncodeString(value))
    case None => CookieFile(c.daemonDir)
  }

  /** `CookieGetter::get` for either kind of getter. */
  function Get(g: CookieGetter, fs: FileSystem): (r: Result<seq<byte>, CookieError>)
    ensures g.StaticCookie? ==> r == Ok(g.value)
    ensures g.CookieFile? && r.Ok? ==> fs(CookiePath(g.daemonDir)) == Some(r.value)
    ensures g.CookieFile? && r.Err? ==> fs(CookiePath(g.daemonDir)).None? && r.error == Connection(CookiePath(g.daemonDir))
  {
    match g
    case StaticCookie(value) => Ok(value)
    case CookieFile(daemonDir) =>
      var path := daemonDir + [COOKIE_FILE_NAME];
      match fs(path)
      case Some(contents) => Ok(contents)
      case None => Err(Connection(path))
  }

  /** A configured cookie is returned on every call, whatever the filesystem
      holds, as exactly the UTF-8 bytes of the configured string. */
  lemma StaticCookieIsConstant(c: Config, fs: FileSystem, fs': FileSystem)
    requires c.cookie.Some?
    ensures Get(GetterOf(c), fs) == Get(GetterOf(c), fs')
    ensures Get(GetterOf(c), fs) == Ok(EncodeString(c.cookie.value))
  {
  }

  /** Without a configured cookie, each call returns what `.cookie` in the daemon
      directory holds at that moment, and a failed read is a connection error. */
  lemma CookieFileIsReadEachCall(c: Config, fs: FileSystem)
    requires c.cookie.None?
    ensures var path := c.daemonDir + [".cookie"];
            Get(GetterOf(c), fs) == match fs(path)
                                    case Some(contents) => Ok(contents)
                                    case None => Err(Connection(path))
  {
  }

  /** Nothing is cached: when the file changes between two calls, so does the
      answer; the getter depends on the filesystem only through that one file. */
  lemma CookieFileSeesRotation(c: Config, fs: FileSystem, fs': FileSystem)
    requires c.cookie.None?
    ensures Get(GetterOf(c), fs) == Get(GetterOf(c), fs') <==>
              fs(c.daemonDir + [".cookie"]) == fs'(c.daemonDir + [".cookie"])
  {
  }

  /** Different configured cookies give different bytes. */
  lemma StaticCookiesDistinguish(c: Config, d: Config, fs: FileSystem)
    requires c.cookie.Some? && d.cookie.Some?
    ensures Get(GetterOf(c), fs) == Get(GetterOf(d), fs) <==> c.cookie == d.cookie
  {
    EncodeStringInjective(c.cookie.value, d.cookie.value);
  }

  /** Resolving the options then asking for the cookie: a `--cookie` value wins,
      otherwise the file in the resolved daemon directory is read. */
  lemma CookieFromArgs(m: Matches, home: Option<Path>, cpus: Usize, parse: AddrParser, fs: FileSystem)
    requires FromArgs(m, home, cpus, parse).Ok?
    ensures var c := FromArgs(m, home, cpus, parse).value;
            && (CookieOpt in m.values ==> Get(GetterOf(c), fs) == Ok(EncodeString(m.values[CookieOpt])))
            && (CookieOpt !in m.values ==> GetterOf(c) == CookieFile(c.daemonDir))
  {
  }
}
