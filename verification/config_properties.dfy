/** Properties of `Config::from_args` that relate several calls or state the
    resolution against independent reference definitions. */
module ConfigProperties {
  import opened Wrappers
  import opened Decimal
  import opened Network
  import opened Config

  /** One fallible step of the resolution: whether it passes, and the error it
      reports when it does not. */
  datatype Check = Check(passes: bool, error: ConfigError)

  /** The error of the first failing check, if any. */
  function FirstFailure(checks: seq<Check>): (r: Option<ConfigError>)
    ensures r.None? <==> forall i :: 0 <= i < |checks| ==> checks[i].passes
    ensures r.Some? ==> exists i :: && 0 <= i < |checks| && !checks[i].passes && checks[i].error == r.value
                                     && forall j :: 0 <= j < i ==> checks[j].passes
  {
    if checks == [] then None
    else if !checks[0].passes then Some(checks[0].error)
    else FirstFailure(checks[1..])
  }

  /** The network the later checks use; irrelevant when the name is unsupported,
      since that check comes first. */
  function ChosenNetwork(values: map<Opt, string>): Network {
    FromName(NetworkName(values)).GetOr(Bitcoin)
  }

  function AddrCheck(values: map<Opt, string>, s: Service, parse: AddrParser): Check {
    var text := AddrText(values, s, ChosenNetwork(values));
    Check(parse(text).Some?, InvalidAddress(s, text))
  }

  function NumberCheck(values: map<Opt, string>, o: Opt): Check {
    Check(ValueOf(values, o).Some? && ParseUsize(ValueOf(values, o).value).Some?, InvalidValue(o))
  }

  /** The address checks, in the order `from_args` meets them. */
  function AddrChecks(values: map<Opt, string>, parse: AddrParser): seq<Check> {
    [ AddrCheck(values, DaemonRpc, parse),
      AddrCheck(values, ElectrumRpc, parse),
      AddrCheck(values, Http, parse),
      AddrCheck(values, Monitoring, parse) ]
  }

  /** The numeric checks, in the order `from_args` meets them. */
  function NumberChecks(values: map<Opt, string>): seq<Check> {
    [ NumberCheck(values, BulkIndexThreadsOpt),
      NumberCheck(values, IndexBatchSizeOpt),
      NumberCheck(values, TxCacheSizeOpt) ]
  }

  /** Every way the resolution can fail, in the order `from_args` meets them. */
  function Checks(values: map<Opt, string>, home: Option<Path>, parse: AddrParser): seq<Check> {
    [Check(FromName(NetworkName(values)).Some?, UnsupportedNetwork(NetworkName(values)))]
    + AddrChecks(values, parse)
    + [Check(DaemonDirOpt in values || home.Some?, NoHomeDir)]
    + NumberChecks(values)
  }

  lemma {:induction false} FirstFailureCons(c: Check, rest: seq<Check>)
    ensures FirstFailure([c] + rest) == if c.passes then FirstFailure(rest) else Some(c.error)
  {
    assert ([c] + rest)[0] == c && ([c] + rest)[1..] == rest;
  }

  lemma {:induction false} FirstFailureAppend(a: seq<Check>, b: seq<Check>)
    ensures FirstFailure(a + b) == if FirstFailure(a).Some? then FirstFailure(a) else FirstFailure(b)
  {
    if a == [] {
      assert a + b == b;
    } else {
      assert a + b == [a[0]] + (a[1..] + b);
      FirstFailureCons(a[0], a[1..] + b);
      FirstFailureAppend(a[1..], b);
    }
  }

  /** Resolving the addresses fails exactly at the first address check that fails. */
  lemma AddressesFailAtFirstFailedCheck(values: map<Opt, string>, parse: AddrParser)
    ensures var r := ResolveAddresses(values, ChosenNetwork(values), parse);
            r.Ok? ==> FirstFailure(AddrChecks(values, parse)).None?
    ensures var r := ResolveAddresses(values, ChosenNetwork(values), parse);
            r.Err? ==> FirstFailure(AddrChecks(values, parse)) == Some(r.error)
  {
    var cs := AddrChecks(values, parse);
    FirstFailureCons(cs[0], cs[1..]);
    FirstFailureCons(cs[1], cs[2..]);
    FirstFailureCons(cs[2], cs[3..]);
    FirstFailureCons(cs[3], []);
  }

  /** Resolving the numbers fails exactly at the first numeric check that fails. */
  lemma SizesFailAtFirstFailedCheck(values: map<Opt, string>, cpus: Usize)
    ensures ResolveSizes(values, cpus).Ok? ==> FirstFailure(NumberChecks(values)).None?
    ensures ResolveSizes(values, cpus).Err? ==> FirstFailure(NumberChecks(values)) == Some(ResolveSizes(values, cpus).error)
  {
    var cs := NumberChecks(values);
    FirstFailureCons(cs[0], cs[1..]);
    FirstFailureCons(cs[1], cs[2..]);
    FirstFailureCons(cs[2], []);
  }

  /** `FromArgs` runs its four fallible stages in order and stops at the first failure. */
  lemma FromArgsStages(m: Matches, home: Option<Path>, cpus: Usize, parse: AddrParser)
    ensures var r := FromArgs(m, home, cpus, parse);
            var net := ResolveNetwork(m.values);
            var addrs := ResolveAddresses(m.values, ChosenNetwork(m.values), parse);
            var dir := DaemonDir(m.values, home, ChosenNetwork(m.values));
            var sizes := ResolveSizes(m.values, cpus);
            && (r.Ok? <==> net.Ok? && addrs.Ok? && dir.Ok? && sizes.Ok?)
            && (r.Err? ==> r.error == if net.Err? then net.error
                                      else if addrs.Err? then addrs.error
                                      else if dir.Err? then dir.error
                                      else sizes.error)
  {
  }

  /** The first failing check, stage by stage. */
  lemma ChecksInStages(values: map<Opt, string>, home: Option<Path>, parse: AddrParser)
    ensures FirstFailure(Checks(values, home, parse)) ==
              if FromName(NetworkName(values)).None? then Some(UnsupportedNetwork(NetworkName(values)))
              else if FirstFailure(AddrChecks(values, parse)).Some? then FirstFailure(AddrChecks(values, parse))
              else if DaemonDirOpt !in values && home.None? then Some(NoHomeDir)
              else FirstFailure(NumberChecks(values))
  {
    var c0 := Check(FromName(NetworkName(values)).Some?, UnsupportedNetwork(NetworkName(values)));
    var c5 := Check(DaemonDirOpt in values || home.Some?, NoHomeDir);
    var addrs := AddrChecks(values, parse);
    var numbers := NumberChecks(values);
    assert Checks(values, home, parse) == [c0] + (addrs + ([c5] + numbers));
    FirstFailureCons(c0, addrs + ([c5] + numbers));
    FirstFailureAppend(addrs, [c5] + numbers);
    FirstFailureCons(c5, numbers);
  }

  /** The resolution fails exactly when one of the checks fails, and then with the
      error of the first failing one; it succeeds exactly when all pass. */
  lemma FromArgsFailsAtFirstFailedCheck(m: Matches, home: Option<Path>, cpus: Usize, parse: AddrParser)
    ensures FromArgs(m, home, cpus, parse).Ok? <==> FirstFailure(Checks(m.values, home, parse)).None?
    ensures FromArgs(m, home, cpus, parse).Err? ==>
              FirstFailure(Checks(m.values, home, parse)) == Some(FromArgs(m, home, cpus, parse).error)
  {
    FromArgsStages(m, home, cpus, parse);
    ChecksInStages(m.values, home, parse);
    AddressesFailAtFirstFailedCheck(m.values, parse);
    SizesFailAtFirstFailedCheck(m.values, cpus);
  }

  /** The daemon directory: the one given, else `.viacoin` under the home
      directory; then `testnet3` or `regtest` below it for those networks. */
  lemma DaemonDirResolution(m: Matches, home: Option<Path>, cpus: Usize, parse: AddrParser)
    requires FromArgs(m, home, cpus, parse).Ok?
    ensures var c := FromArgs(m, home, cpus, parse).value;
            c.daemonDir ==
              (if DaemonDirOpt in m.values then [m.values[DaemonDirOpt]] else home.value + [".viacoin"])
              + (match c.network
                 case Bitcoin => []
                 case Testnet => ["testnet3"]
                 case Regtest => ["regtest"])
  {
  }

  /** The declared default texts parse to their numbers. */
  lemma DefaultThreadsParse()
    ensures UsizeOption(map[], BulkIndexThreadsOpt) == Ok(0)
  {
    ParseToDecimal(0);
  }

  lemma DefaultBatchSizeParse()
    ensures UsizeOption(map[], IndexBatchSizeOpt) == Ok(100)
  {
    assert ToDecimal(10) == "10";
    assert ToDecimal(100) == "100";
    ParseToDecimal(100);
  }

  lemma DefaultCacheSizeParse()
    ensures UsizeOption(map[], TxCacheSizeOpt) == Ok(10000)
  {
    assert ToDecimal(10) == "10";
    assert ToDecimal(100) == "100";
    assert ToDecimal(1000) == "1000";
    assert ToDecimal(10000) == "10000";
    ParseToDecimal(10000);
  }

  /** An option that was not given reads as if the map were empty. */
  lemma AbsentOptionReadsDefault(values: map<Opt, string>, o: Opt)
    requires o !in values
    ensures UsizeOption(values, o) == UsizeOption(map[], o)
  {
  }

  lemma SizesResolution(values: map<Opt, string>, cpus: Usize)
    requires ResolveSizes(values, cpus).Ok?
    ensures var z := ResolveSizes(values, cpus).value;
            var given := ParseUsize(ValueOf(values, BulkIndexThreadsOpt).value);
            && given.Some?
            && z.bulkIndexThreads == (if given.value == 0 then cpus else given.value)
            && (BulkIndexThreadsOpt !in values ==> z.bulkIndexThreads == cpus)
            && (IndexBatchSizeOpt !in values ==> z.indexBatchSize == 100)
            && (TxCacheSizeOpt !in values ==> z.txCacheSize == 10000)
            && (IndexBatchSizeOpt in values ==> ParseUsize(values[IndexBatchSizeOpt]) == Some(z.indexBatchSize))
            && (TxCacheSizeOpt in values ==> ParseUsize(values[TxCacheSizeOpt]) == Some(z.txCacheSize))
  {
    if BulkIndexThreadsOpt !in values {
      AbsentOptionReadsDefault(values, BulkIndexThreadsOpt);
      DefaultThreadsParse();
    }
    if IndexBatchSizeOpt !in values {
      AbsentOptionReadsDefault(values, IndexBatchSizeOpt);
      DefaultBatchSizeParse();
    }
    if TxCacheSizeOpt !in values {
      AbsentOptionReadsDefault(values, TxCacheSizeOpt);
      DefaultCacheSizeParse();
    }
  }

  /** A resolved configuration carries the three numbers `ResolveSizes` gives. */
  lemma FromArgsTakesSizes(m: Matches, home: Option<Path>, cpus: Usize, parse: AddrParser)
    requires FromArgs(m, home, cpus, parse).Ok?
    ensures var c := FromArgs(m, home, cpus, parse).value;
            var z := ResolveSizes(m.values, cpus);
            && z.Ok?
            && c.bulkIndexThreads == z.value.bulkIndexThreads
            && c.indexBatchSize == z.value.indexBatchSize
            && c.txCacheSize == z.value.txCacheSize
  {
  }

  /** A thread count of zero (the declared default) means one thread per CPU;
      any other count is kept. */
  lemma BulkIndexThreadsResolution(m: Matches, home: Option<Path>, cpus: Usize, parse: AddrParser)
    requires FromArgs(m, home, cpus, parse).Ok?
    ensures var c := FromArgs(m, home, cpus, parse).value;
            var given := ParseUsize(ValueOf(m.values, BulkIndexThreadsOpt).value);
            given.Some? && (c.bulkIndexThreads == if given.value == 0 then cpus else given.value)
    ensures BulkIndexThreadsOpt !in m.values ==> FromArgs(m, home, cpus, parse).value.bulkIndexThreads == cpus
    ensures cpus >= 1 ==> FromArgs(m, home, cpus, parse).value.bulkIndexThreads >= 1
  {
    FromArgsTakesSizes(m, home, cpus, parse);
    SizesResolution(m.values, cpus);
  }

  /** The batch size and the cache size are the values given, 100 and 10000 when absent. */
  lemma NumericDefaults(m: Matches, home: Option<Path>, cpus: Usize, parse: AddrParser)
    requires FromArgs(m, home, cpus, parse).Ok?
    ensures var c := FromArgs(m, home, cpus, parse).value;
            && (IndexBatchSizeOpt !in m.values ==> c.indexBatchSize == 100)
            && (TxCacheSizeOpt !in m.values ==> c.txCacheSize == 10000)
            && (IndexBatchSizeOpt in m.values ==> ParseUsize(m.values[IndexBatchSizeOpt]) == Some(c.indexBatchSize))
            && (TxCacheSizeOpt in m.values ==> ParseUsize(m.values[TxCacheSizeOpt]) == Some(c.txCacheSize))
  {
    FromArgsTakesSizes(m, home, cpus, parse);
    SizesResolution(m.values, cpus);
  }

  /** The flags set their own fields and nothing else: two option sets that
      differ only in flags resolve alike, field for field, except those three. */
  lemma FlagsAffectOnlyTheirFields(values: map<Opt, string>, f: set<Flag>, g: set<Flag>,
                                   home: Option<Path>, cpus: Usize, parse: AddrParser)
    ensures var r := FromArgs(Matches(values, f), home, cpus, parse);
            var q := FromArgs(Matches(values, g), home, cpus, parse);
            && (r.Err? <==> q.Err?)
            && (r.Err? ==> r == q)
            && (r.Ok? ==> r.value.(jsonrpcImport := q.value.jsonrpcImport,
                                   extendedDbEnabled := q.value.extendedDbEnabled,
                                   prevoutEnabled := q.value.prevoutEnabled) == q.value)
  {
  }

  /** The default addresses as the options' help texts advertise them. */
  function AdvertisedDefault(s: Service, n: Network): string {
    match (s, n)
    case (DaemonRpc, Bitcoin) => "127.0.0.1:5222"
    case (DaemonRpc, Testnet) => "127.0.0.1:25222"
    case (DaemonRpc, Regtest) => "127.0.0.1:25222"
    case (ElectrumRpc, Bitcoin) => "127.0.0.1:50001"
    case (ElectrumRpc, Testnet) => "127.0.0.1:60001"
    case (ElectrumRpc, Regtest) => "127.0.0.1:60401"
    case (Http, Bitcoin) => "127.0.0.1:3000"
    case (Http, Testnet) => "127.0.0.1:3001"
    case (Http, Regtest) => "127.0.0.1:3002"
    case (Monitoring, Bitcoin) => "127.0.0.1:4224"
    case (Monitoring, Testnet) => "127.0.0.1:14224"
    case (Monitoring, Regtest) => "127.0.0.1:24224"
  }

  lemma LoopbackTextIs(p: nat, digits: string)
    requires ToDecimal(p) == digits
    ensures LoopbackText(p) == "127.0.0.1:" + digits
  {
  }

  /** The default ports' address texts, each evaluated digit by digit. */
  lemma Port5222Text()
    ensures LoopbackText(5222) == "127.0.0.1:5222"
  {
    assert ToDecimal(52) == "52";
    assert ToDecimal(522) == "522";
    LoopbackTextIs(5222, "5222");
  }

  lemma Port25222Text()
    ensures LoopbackText(25222) == "127.0.0.1:25222"
  {
    assert ToDecimal(25) == "25";
    assert ToDecimal(252) == "252";
    assert ToDecimal(2522) == "2522";
    LoopbackTextIs(25222, "25222");
  }

  lemma Port50001Text()
    ensures LoopbackText(50001) == "127.0.0.1:50001"
  {
    assert ToDecimal(50) == "50";
    assert ToDecimal(500) == "500";
    assert ToDecimal(5000) == "5000";
    LoopbackTextIs(50001, "50001");
  }

  lemma Port60001Text()
    ensures LoopbackText(60001) == "127.0.0.1:60001"
  {
    assert ToDecimal(60) == "60";
    assert ToDecimal(600) == "600";
    assert ToDecimal(6000) == "6000";
    LoopbackTextIs(60001, "60001");
  }

  lemma Port60401Text()
    ensures LoopbackText(60401) == "127.0.0.1:60401"
  {
    assert ToDecimal(60) == "60";
    assert ToDecimal(604) == "604";
    assert ToDecimal(6040) == "6040";
    LoopbackTextIs(60401, "60401");
  }

  lemma Port3000Text()
    ensures LoopbackText(3000) == "127.0.0.1:3000"
  {
    assert ToDecimal(30) == "30";
    assert ToDecimal(300) == "300";
    LoopbackTextIs(3000, "3000");
  }

  lemma Port3001Text()
    ensures LoopbackText(3001) == "127.0.0.1:3001"
  {
    assert ToDecimal(30) == "30";
    assert ToDecimal(300) == "300";
    LoopbackTextIs(3001, "3001");
  }

  lemma Port3002Text()
    ensures LoopbackText(3002) == "127.0.0.1:3002"
  {
    assert ToDecimal(30) == "30";
    assert ToDecimal(300) == "300";
    LoopbackTextIs(3002, "3002");
  }

  lemma Port4224Text()
    ensures LoopbackText(4224) == "127.0.0.1:4224"
  {
    assert ToDecimal(42) == "42";
    assert ToDecimal(422) == "422";
    LoopbackTextIs(4224, "4224");
  }

  lemma Port14224Text()
    ensures LoopbackText(14224) == "127.0.0.1:14224"
  {
    assert ToDecimal(14) == "14";
    assert ToDecimal(142) == "142";
    assert ToDecimal(1422) == "1422";
    LoopbackTextIs(14224, "14224");
  }

  lemma Port24224Text()
    ensures LoopbackText(24224) == "127.0.0.1:24224"
  {
    assert ToDecimal(24) == "24";
    assert ToDecimal(242) == "242";
    assert ToDecimal(2422) == "2422";
    LoopbackTextIs(24224, "24224");
  }


  /** The default-address tables, one service at a time. */
  lemma DaemonRpcDefaultMatchesHelp(n: Network)
    ensures LoopbackText(DefaultPort(DaemonRpc, n)) == AdvertisedDefault(DaemonRpc, n)
  {
    if n == Bitcoin { Port5222Text(); } else { Port25222Text(); }
  }

  lemma ElectrumRpcDefaultMatchesHelp(n: Network)
    ensures LoopbackText(DefaultPort(ElectrumRpc, n)) == AdvertisedDefault(ElectrumRpc, n)
  {
    match n
    case Bitcoin => Port50001Text();
    case Testnet => Port60001Text();
    case Regtest => Port60401Text();
  }

  lemma HttpDefaultMatchesHelp(n: Network)
    ensures LoopbackText(DefaultPort(Http, n)) == AdvertisedDefault(Http, n)
  {
    match n
    case Bitcoin => Port3000Text();
    case Testnet => Port3001Text();
    case Regtest => Port3002Text();
  }

  lemma MonitoringDefaultMatchesHelp(n: Network)
    ensures LoopbackText(DefaultPort(Monitoring, n)) == AdvertisedDefault(Monitoring, n)
  {
    match n
    case Bitcoin => Port4224Text();
    case Testnet => Port14224Text();
    case Regtest => Port24224Text();
  }

  /** The default address texts are exactly the ones the help texts advertise. */
  lemma DefaultAddressesMatchHelp(s: Service, n: Network)
    ensures LoopbackText(DefaultPort(s, n)) == AdvertisedDefault(s, n)
  {
    match s
    case DaemonRpc => DaemonRpcDefaultMatchesHelp(n);
    case ElectrumRpc => ElectrumRpcDefaultMatchesHelp(n);
    case Http => HttpDefaultMatchesHelp(n);
    case Monitoring => MonitoringDefaultMatchesHelp(n);
  }

  /** Distinct ports give distinct default address texts. */
  lemma LoopbackTextInjective(p: nat, q: nat)
    ensures LoopbackText(p) == LoopbackText(q) ==> p == q
  {
    if LoopbackText(p) == LoopbackText(q) {
      var prefix := LOOPBACK + ":";
      assert LoopbackText(p)[|prefix|..] == ToDecimal(p);
      assert LoopbackText(q)[|prefix|..] == ToDecimal(q);
      ValueOfToDecimal(p);
      ValueOfToDecimal(q);
    }
  }

  /** Within one network the four default addresses are pairwise distinct. */
  lemma DefaultAddressesDistinct(n: Network, s: Service, t: Service)
    ensures s != t ==> LoopbackText(DefaultPort(s, n)) != LoopbackText(DefaultPort(t, n))
  {
    DefaultPortsDistinct(n, s, t);
    LoopbackTextInjective(DefaultPort(s, n), DefaultPort(t, n));
  }

  /** A parser that reads `127.0.0.1:<port>` as the loopback host and that port. */
  predicate ReadsLoopback(parse: AddrParser) {
    forall p: nat :: p < 0x1_0000 ==> parse(LoopbackText(p)) == Some(SocketAddr(LOOPBACK, p))
  }

  /** Option maps that give at most the network, `n`. */
  predicate OnlyNetworkGiven(values: map<Opt, string>, n: Network) {
    values == map[NetworkOpt := NameOf(n)] || (values == map[] && n == Bitcoin)
  }

  lemma OnlyNetworkResolvesNetwork(values: map<Opt, string>, n: Network)
    requires OnlyNetworkGiven(values, n)
    ensures ResolveNetwork(values) == Ok(n)
  {
    assert NetworkName(values) == NameOf(n);
  }

  lemma OnlyNetworkResolvesAddresses(values: map<Opt, string>, n: Network, parse: AddrParser)
    requires ReadsLoopback(parse)
    requires OnlyNetworkGiven(values, n)
    ensures ResolveAddresses(values, n, parse) == Ok(Addresses(
              SocketAddr(LOOPBACK, DefaultPort(DaemonRpc, n)),
              SocketAddr(LOOPBACK, DefaultPort(ElectrumRpc, n)),
              SocketAddr(LOOPBACK, DefaultPort(Http, n)),
              SocketAddr(LOOPBACK, DefaultPort(Monitoring, n))))
  {
    forall s: Service
      ensures parse(AddrText(values, s, n)) == Some(SocketAddr(LOOPBACK, DefaultPort(s, n)))
    {
      assert AddrOpt(s) !in values;
    }
  }

  lemma OnlyNetworkResolvesSizes(values: map<Opt, string>, n: Network, cpus: Usize)
    requires OnlyNetworkGiven(values, n)
    ensures ResolveSizes(values, cpus) == Ok(Sizes(cpus, 100, 10000))
  {
    AbsentOptionReadsDefault(values, BulkIndexThreadsOpt);
    DefaultThreadsParse();
    AbsentOptionReadsDefault(values, IndexBatchSizeOpt);
    DefaultBatchSizeParse();
    AbsentOptionReadsDefault(values, TxCacheSizeOpt);
    DefaultCacheSizeParse();
  }

  lemma OnlyNetworkResolvesDaemonDir(values: map<Opt, string>, n: Network, home: Path)
    requires OnlyNetworkGiven(values, n)
    ensures DaemonDir(values, Some(home), n) == Ok(home + [DAEMON_DIR_NAME] + NetworkSubdir(n))
  {
    assert DaemonDirOpt !in values;
  }

  /** The configuration `FromArgs` assembles once all four stages succeed. */
  lemma FromArgsAssembles(m: Matches, home: Option<Path>, cpus: Usize, parse: AddrParser,
                          n: Network, addrs: Addresses, dir: Path, sizes: Sizes)
    requires ResolveNetwork(m.values) == Ok(n)
    requires ResolveAddresses(m.values, n, parse) == Ok(addrs)
    requires DaemonDir(m.values, home, n) == Ok(dir)
    requires ResolveSizes(m.values, cpus) == Ok(sizes)
    ensures FromArgs(m, home, cpus, parse) == Ok(Config(
              n, [ValueOf(m.values, DbDirOpt).GetOr(DEFAULT_DB_DIR), NameOf(n)], dir,
              addrs.daemonRpc, ValueOf(m.values, CookieOpt), addrs.electrumRpc, addrs.http, addrs.monitoring,
              JsonrpcImport in m.flags, sizes.indexBatchSize, sizes.bulkIndexThreads, sizes.txCacheSize,
              Light !in m.flags, DisablePrevout !in m.flags))
  {
  }

  /** With only the network given (or nothing, for mainnet), a home directory
      known and a parser that reads the loopback defaults, every field takes its
      default, and the flags decide the rest. */
  lemma OnlyNetworkGivenGivesDefaults(m: Matches, n: Network, home: Path, cpus: Usize, parse: AddrParser)
    requires ReadsLoopback(parse)
    requires OnlyNetworkGiven(m.values, n)
    ensures FromArgs(m, Some(home), cpus, parse) == Ok(Config(
              n,
              [DEFAULT_DB_DIR, NameOf(n)],
              home + [DAEMON_DIR_NAME] + NetworkSubdir(n),
              SocketAddr(LOOPBACK, DefaultPort(DaemonRpc, n)),
              None,
              SocketAddr(LOOPBACK, DefaultPort(ElectrumRpc, n)),
              SocketAddr(LOOPBACK, DefaultPort(Http, n)),
              SocketAddr(LOOPBACK, DefaultPort(Monitoring, n)),
              JsonrpcImport in m.flags,
              100,
              cpus,
              10000,
              Light !in m.flags,
              DisablePrevout !in m.flags))
  {
    var values := m.values;
    OnlyNetworkResolvesNetwork(values, n);
    OnlyNetworkResolvesAddresses(values, n, parse);
    OnlyNetworkResolvesSizes(values, n, cpus);
    OnlyNetworkResolvesDaemonDir(values, n, home);
    assert DbDirOpt !in values && CookieOpt !in values;
    FromArgsAssembles(m, Some(home), cpus, parse, n,
      Addresses(SocketAddr(LOOPBACK, DefaultPort(DaemonRpc, n)), SocketAddr(LOOPBACK, DefaultPort(ElectrumRpc, n)),
                SocketAddr(LOOPBACK, DefaultPort(Http, n)), SocketAddr(LOOPBACK, DefaultPort(Monitoring, n))),
      home + [DAEMON_DIR_NAME] + NetworkSubdir(n), Sizes(cpus, 100, 10000));
  }

  /** With nothing given at all, the configuration is mainnet's, with the
      constants spelled out. */
  lemma NoOptionsGiveMainnetDefaults(m: Matches, home: Path, cpus: Usize, parse: AddrParser)
    requires ReadsLoopback(parse)
    requires m.values == map[]
    ensures FromArgs(m, Some(home), cpus, parse) == Ok(Config(
              Bitcoin,
              ["./db", "mainnet"],
              home + [".viacoin"],
              SocketAddr("127.0.0.1", 5222),
              None,
              SocketAddr("127.0.0.1", 50001),
              SocketAddr("127.0.0.1", 3000),
              SocketAddr("127.0.0.1", 4224),
              JsonrpcImport in m.flags,
              100,
              cpus,
              10000,
              Light !in m.flags,
              DisablePrevout !in m.flags))
  {
    OnlyNetworkGivenGivesDefaults(m, Bitcoin, home, cpus, parse);
    MainnetDefaultsSpelledOut(home);
  }

  lemma MainnetDefaultsSpelledOut(home: Path)
    ensures [DEFAULT_DB_DIR, NameOf(Bitcoin)] == ["./db", "mainnet"]
    ensures home + [DAEMON_DIR_NAME] + NetworkSubdir(Bitcoin) == home + [".viacoin"]
    ensures SocketAddr(LOOPBACK, DefaultPort(DaemonRpc, Bitcoin)) == SocketAddr("127.0.0.1", 5222)
    ensures SocketAddr(LOOPBACK, DefaultPort(ElectrumRpc, Bitcoin)) == SocketAddr("127.0.0.1", 50001)
    ensures SocketAddr(LOOPBACK, DefaultPort(Http, Bitcoin)) == SocketAddr("127.0.0.1", 3000)
    ensures SocketAddr(LOOPBACK, DefaultPort(Monitoring, Bitcoin)) == SocketAddr("127.0.0.1", 4224)
  {
    assert home + [DAEMON_DIR_NAME] + [] == home + [".viacoin"];
  }
}
