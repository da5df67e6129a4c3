/** `Config::from_args` (src/config.rs): resolving parsed command-line options into
    the server's configuration. Everything `from_args` gets from its surroundings
    is a parameter here: the parsed options, the home directory, the number of CPUs
    and the socket-address parser. Each `panic!`, `expect` and `value_t_or_exit!`
    that would end the process becomes an `Err`, checked in the order `from_args` meets them. */
module Config {
  import opened Wrappers
  import opened Decimal
  import opened Network

  /** A filesystem path as its sequence of components; `join` and `push` append one. */
  type Path = seq<string>

  /** A socket address as the parser produces it. */
  datatype SocketAddr = SocketAddr(host: string, port: nat)

  /** The socket-address parser (`str::parse::<SocketAddr>`); `None` is a parse error. */
  type AddrParser = string -> Option<SocketAddr>

  /** The options that take a value. */
  datatype Opt =
    | DbDirOpt | DaemonDirOpt | CookieOpt | NetworkOpt
    | AddrOpt(service: Service)
    | IndexBatchSizeOpt | BulkIndexThreadsOpt | TxCacheSizeOpt

  /** The options that are flags: only their presence matters. */
  datatype Flag = Verbosity | Timestamp | JsonrpcImport | Light | DisablePrevout

  /** What the command-line parser hands over: the value of each option that was
      given, and the set of flags that were given. */
  datatype Matches = Matches(values: map<Opt, string>, flags: set<Flag>)

  datatype ConfigError =
    | UnsupportedNetwork(name: string)
    | InvalidAddress(service: Service, text: string)
    | NoHomeDir
    | InvalidValue(option: Opt)

  datatype Config = Config(
    network: Network,
    dbPath: Path,
    daemonDir: Path,
    daemonRpcAddr: SocketAddr,
    cookie: Option<string>,
    electrumRpcAddr: SocketAddr,
    httpAddr: SocketAddr,
    monitoringAddr: SocketAddr,
    jsonrpcImport: bool,
    indexBatchSize: Usize,
    bulkIndexThreads: Usize,
    txCacheSize: Usize,
    extendedDbEnabled: bool,
    prevoutEnabled: bool)

  const DEFAULT_DB_DIR := "./db"
  const DEFAULT_NETWORK := "mainnet"
  const DAEMON_DIR_NAME := ".viacoin"
  const LOOPBACK := "127.0.0.1"

  /** Default values declared with the options themselves. */
  function DeclaredDefault(o: Opt): Option<string> {
    match o
    case IndexBatchSizeOpt => Some("100")
    case BulkIndexThreadsOpt => Some("0")
    case TxCacheSizeOpt => Some("10000")
    case _ => None
  }

  /** The value of an option: the one given, else its declared default. Only
      the three numeric options have one, so they always have a value, and
      every other option has one exactly when it was given. */
  function ValueOf(values: map<Opt, string>, o: Opt): (r: Option<string>)
    ensures o in values ==> r == Some(values[o])
    ensures r.None? <==> o !in values && o !in {IndexBatchSizeOpt, BulkIndexThreadsOpt, TxCacheSizeOpt}
    ensures o !in values && o == IndexBatchSizeOpt ==> r == Some("100")
    ensures o !in values && o == BulkIndexThreadsOpt ==> r == Some("0")
    ensures o !in values && o == TxCacheSizeOpt ==> r == Some("10000")
  {
    if o in values then Some(values[o]) else DeclaredDefault(o)
  }

  predicate IsPresent(m: Matches, f: Flag) {
    f in m.flags
  }

  /** The text `format!("127.0.0.1:{}", port)` builds. */
  function LoopbackText(port: nat): string {
    LOOPBACK + ":" + ToDecimal(port)
  }

  /** The text that is parsed as the address of service `s`. */
  function AddrText(values: map<Opt, string>, s: Service, n: Network): string {
    ValueOf(values, AddrOpt(s)).GetOr(LoopbackText(DefaultPort(s, n)))
  }

  /** One address: the given text or the loopback default, then parsed; a text
      that does not parse is fatal. */
  function ResolveAddr(values: map<Opt, string>, s: Service, n: Network, parse: AddrParser): (r: Result<SocketAddr, ConfigError>)
    ensures r.Ok? <==> parse(AddrText(values, s, n)).Some?
    ensures r.Ok? ==> parse(AddrText(values, s, n)) == Some(r.value)
    ensures r.Err? ==> r.error == InvalidAddress(s, AddrText(values, s, n))
  {
    var text := ValueOf(values, AddrOpt(s)).GetOr(LoopbackText(DefaultPort(s, n)));
    match parse(text)
    case Some(a) => Ok(a)
    case None => Err(InvalidAddress(s, text))
  }

  /** The name `--network` resolves to. */
  function NetworkName(values: map<Opt, string>): string {
    ValueOf(values, NetworkOpt).GetOr(DEFAULT_NETWORK)
  }

  /** The network match; an unsupported name is fatal. */
  function ResolveNetwork(values: map<Opt, string>): (r: Result<Network, ConfigError>)
    ensures r.Ok? <==> FromName(NetworkName(values)).Some?
    ensures r.Ok? ==> NameOf(r.value) == NetworkName(values)
    ensures r.Err? ==> r.error == UnsupportedNetwork(NetworkName(values))
  {
    var name := ValueOf(values, NetworkOpt).GetOr(DEFAULT_NETWORK);
    match FromName(name)
    case Some(n) => Ok(n)
    case None => Err(UnsupportedNetwork(name))
  }

  /** The four resolved socket addresses. */
  datatype Addresses = Addresses(daemonRpc: SocketAddr, electrumRpc: SocketAddr, http: SocketAddr, monitoring: SocketAddr)

  /** The four addresses, parsed in the order `from_args` parses them; the first that does
      not parse is fatal. */
  function ResolveAddresses(values: map<Opt, string>, n: Network, parse: AddrParser): (r: Result<Addresses, ConfigError>)
    ensures r.Ok? <==> forall s: Service :: parse(AddrText(values, s, n)).Some?
    ensures r.Ok? ==> && parse(AddrText(values, DaemonRpc, n)) == Some(r.value.daemonRpc)
                      && parse(AddrText(values, ElectrumRpc, n)) == Some(r.value.electrumRpc)
                      && parse(AddrText(values, Http, n)) == Some(r.value.http)
                      && parse(AddrText(values, Monitoring, n)) == Some(r.value.monitoring)
  {
    var daemonRpc :- ResolveAddr(values, DaemonRpc, n, parse);
    var electrumRpc :- ResolveAddr(values, ElectrumRpc, n, parse);
    var http :- ResolveAddr(values, Http, n, parse);
    var monitoring :- ResolveAddr(values, Monitoring, n, parse);
    Ok(Addresses(daemonRpc, electrumRpc, http, monitoring))
  }

  /** The subdirectory the daemon keeps each network's data in. */
  function NetworkSubdir(n: Network): Path {
    match n
    case Bitcoin => []
    case Testnet => ["testnet3"]
    case Regtest => ["regtest"]
  }

  /** The daemon's data directory for network `n`: the one given, else `.viacoin`
      under the home directory, which must then be known; then the network's
      subdirectory. */
  function DaemonDir(values: map<Opt, string>, home: Option<Path>, n: Network): (r: Result<Path, ConfigError>)
    ensures r.Err? <==> DaemonDirOpt !in values && home.None?
    ensures r.Err? ==> r.error == NoHomeDir
    ensures r.Ok? && DaemonDirOpt in values ==> r.value == [values[DaemonDirOpt]] + NetworkSubdir(n)
    ensures r.Ok? && DaemonDirOpt !in values ==> r.value == home.value + [DAEMON_DIR_NAME] + NetworkSubdir(n)
  {
    var base :- match ValueOf(values, DaemonDirOpt)
      case Some(p) => Ok([p])
      case None =>
        match home
        case Some(h) => Ok(h + [DAEMON_DIR_NAME])
        case None => Err(NoHomeDir);
    Ok(base + NetworkSubdir(n))
  }

  /** `value_t_or_exit!(m, name, usize)`: the option's value parsed as a `usize`;
      a value that does not parse is fatal. */
  function UsizeOption(values: map<Opt, string>, o: Opt): (r: Result<Usize, ConfigError>)
    ensures r.Ok? <==> ValueOf(values, o).Some? && ParseUsize(ValueOf(values, o).value).Some?
    ensures r.Ok? ==> ParseUsize(ValueOf(values, o).value) == Some(r.value)
    ensures r.Err? ==> r.error == InvalidValue(o)
  {
    match ValueOf(values, o)
    case None => Err(InvalidValue(o))
    case Some(text) =>
      match ParseUsize(text)
      case None => Err(InvalidValue(o))
      case Some(v) => Ok(v)
  }

  /** The three numeric settings. */
  datatype Sizes = Sizes(bulkIndexThreads: Usize, indexBatchSize: Usize, txCacheSize: Usize)

  /** The numeric options, read in the order `from_args` reads them; a thread count of zero
      stands for the number of CPUs. */
  function ResolveSizes(values: map<Opt, string>, cpus: Usize): (r: Result<Sizes, ConfigError>)
    ensures r.Ok? <==> && UsizeOption(values, BulkIndexThreadsOpt).Ok?
                       && UsizeOption(values, IndexBatchSizeOpt).Ok?
                       && UsizeOption(values, TxCacheSizeOpt).Ok?
    ensures r.Ok? ==> r.value.bulkIndexThreads != 0 || cpus == 0
    ensures r.Ok? ==> && r.value.indexBatchSize == UsizeOption(values, IndexBatchSizeOpt).value
                      && r.value.txCacheSize == UsizeOption(values, TxCacheSizeOpt).value
  {
    var threadsOption :- UsizeOption(values, BulkIndexThreadsOpt);
    var bulkIndexThreads := if threadsOption == 0 then cpus else threadsOption;
    var indexBatchSize :- UsizeOption(values, IndexBatchSizeOpt);
    var txCacheSize :- UsizeOption(values, TxCacheSizeOpt);
    Ok(Sizes(bulkIndexThreads, indexBatchSize, txCacheSize))
  }

  /** `Config::from_args` once the options are parsed; `cpus` is what
      `num_cpus::get()` reports. */
  function FromArgs(m: Matches, home: Option<Path>, cpus: Usize, parse: AddrParser): (r: Result<Config, ConfigError>)
    ensures r.Ok? ==> FromName(NetworkName(m.values)) == Some(r.value.network)
    ensures r.Ok? ==> r.value.dbPath == [ValueOf(m.values, DbDirOpt).GetOr(DEFAULT_DB_DIR), NameOf(r.value.network)]
    ensures r.Ok? ==> parse(AddrText(m.values, DaemonRpc, r.value.network)) == Some(r.value.daemonRpcAddr)
    ensures r.Ok? ==> parse(AddrText(m.values, ElectrumRpc, r.value.network)) == Some(r.value.electrumRpcAddr)
    ensures r.Ok? ==> parse(AddrText(m.values, Http, r.value.network)) == Some(r.value.httpAddr)
    ensures r.Ok? ==> parse(AddrText(m.values, Monitoring, r.value.network)) == Some(r.value.monitoringAddr)
    ensures r.Ok? ==> r.value.cookie == ValueOf(m.values, CookieOpt)
    ensures r.Ok? ==> r.value.bulkIndexThreads != 0 || cpus == 0
    ensures r.Ok? ==> (r.value.jsonrpcImport <==> IsPresent(m, JsonrpcImport))
    ensures r.Ok? ==> (r.value.extendedDbEnabled <==> !IsPresent(m, Light))
    ensures r.Ok? ==> (r.value.prevoutEnabled <==> !IsPresent(m, DisablePrevout))
    ensures FromName(NetworkName(m.values)).None? ==> r == Err(UnsupportedNetwork(NetworkName(m.values)))
  {
    var network :- ResolveNetwork(m.values);
    var dbDir := ValueOf(m.values, DbDirOpt).GetOr(DEFAULT_DB_DIR);
    var dbPath := [dbDir] + [NetworkName(m.values)];
    var addrs :- ResolveAddresses(m.values, network, parse);
    var daemonDir :- DaemonDir(m.values, home, network);
    var cookie := ValueOf(m.values, CookieOpt);
    var sizes :- ResolveSizes(m.values, cpus);
    Ok(Config(
      network,
      dbPath,
      daemonDir,
      addrs.daemonRpc,
      cookie,
      addrs.electrumRpc,
      addrs.http,
      addrs.monitoring,
      IsPresent(m, JsonrpcImport),
      sizes.indexBatchSize,
      sizes.bulkIndexThreads,
      sizes.txCacheSize,
      !IsPresent(m, Light),
      !IsPresent(m, DisablePrevout)))
  }
}
