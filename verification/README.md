# Configuration resolution of the Viacoin Electrum server

This project models how the server (`src/config.rs`) turns its parsed command-line options into a `Config` record, and how that record picks the source of the daemon's authentication cookie.

`Config::from_args` does the following, in order:

- It reads the network name, "mainnet" by default. An unknown name is fatal.
- It builds the database path: the database directory, followed by the network name.
- It picks each socket address. This is either the text given or `127.0.0.1:<port>`, where the port comes from that network's default-port table. A text that does not parse as an address is fatal.
- It finds the daemon directory. This is either the directory given or `.viacoin` under the home directory. The home directory is required only in the second case. Testnet and regtest then add their own subdirectory.
- It reads the three numeric options as `usize`. Each has a declared default. A thread count of zero means one thread per CPU.
- It sets three fields from presence flags. Two of them are negated: `--light` and `--disable-prevout`.

`Config::cookie_getter` then chooses the cookie source:

- If `--cookie` was given, a static getter holds that string's bytes.
- Otherwise, a file getter reads `.cookie` in the daemon directory on every call.

Every fatal exit in `from_args` (`panic!`, `expect`, `value_t_or_exit!`) is a `ConfigError` in the model. `FromArgs` returns a `Result` and meets the checks in the same order as the Rust code.

Some inputs come from outside the function and are parameters of `FromArgs`:

- the parsed options: a map from option to value text, plus the set of flags present;
- the home directory, as an `Option`;
- the CPU count;
- the socket-address parser, as a partial function.

`Get` takes the filesystem as a function from path to contents. `None` stands for a failed read.

Modules:

- `Wrappers`: the `Option` and `Result` types.
- `Network`: the three networks, their names and the default-port tables.
- `Decimal`: two pieces of decimal text handling, with 64-bit `usize`:
  - `format!("{}", n)`, which builds the default address text;
  - `usize::from_str`, which reads the numeric options.
- `Utf8`: `str::as_bytes`, as UTF-8 encoding, with a strict decoder as its inverse.
- `Config`: the option-by-option resolution and `FromArgs`.
- `ConfigProperties`: properties that state `FromArgs` against independent definitions:
  - an ordered list of checks, whose first failure is the error;
  - the option defaults;
  - the defaults advertised in the help texts.
- `Cookie`: `cookie_getter` and the two `get` implementations.

## Model

| member | source | states |
|---|---|---|
| Network.FromName | src/config.rs:134-138 | A name that is accepted selects the network whose name it is. |
| Network.FromNameIff | src/config.rs:134-137 | A name selects network `n` exactly when it is `n`'s name ("mainnet", "testnet", "regtest"). |
| Network.UnsupportedName | src/config.rs:138 | Every name other than the three is rejected, and none of the three is. |
| Network.DefaultPort | src/config.rs:143-162 | Every default port is a valid TCP port (1..65535). |
| Network.DefaultPortsDistinct | src/config.rs:143-162 | Within one network, the four services' default ports are pairwise distinct. |
| Network.DefaultPortsAcrossNetworks | src/config.rs:143-162 | One service's default port is the same on two networks exactly when the networks are equal, or the service is the daemon RPC and both networks are testnet or regtest. |
| Decimal.ToDecimalIsCanonical | src/config.rs:166 | The formatted port is non-empty, all digits, and has no leading zero; it starts with '0' only for zero. |
| Decimal.ValueOfToDecimal | src/config.rs:166 | The formatted text's digits denote the number formatted. |
| Decimal.ParseUsize | src/config.rs:208 | A successful parse reads only digits after an optional leading '+', with at least one digit. Digit text within 64 bits, with or without a '+', parses to its value. Digit text above 2^64-1, with or without a '+', is rejected. |
| Decimal.ParseUsizeIff | src/config.rs:208 | A text parses to `n` exactly when it is an optional '+', then any number of zeros, then `n` formatted. |
| Decimal.PlusSignAndOverflow | src/config.rs:208 | "+7" reads as 7. "+", the empty text and "-1" are rejected, and so is 2^64 formatted. |
| Decimal.ParseToDecimal | src/config.rs:208 | Parsing a formatted `usize` gives it back. |
| Decimal.ParseCanonicalIff | src/config.rs:208 | A canonical text parses to `n` exactly when it is `n` formatted. |
| Utf8.EncodeChar | src/config.rs:236 | A character encodes to 1-4 bytes. The lead byte is ASCII exactly for one-byte encodings, and the trailing bytes are continuation bytes. |
| Utf8.EncodeString | src/config.rs:236 | A string encodes to between 1 and 4 bytes per character. |
| Utf8.EncodeThenDecode | src/config.rs:236 | Decoding a string's bytes gives the string back. |
| Utf8.DecodeThenEncode | src/config.rs:236 | Bytes that decode are exactly the encoding of what they decode to. |
| Utf8.EncodingIsExactlyDecodable | src/config.rs:236 | `b` is the byte form of `s` exactly when `b` decodes to `s`. |
| Utf8.EncodeStringInjective | src/config.rs:236 | Distinct strings have distinct byte forms. |
| Config.ValueOf | src/config.rs:104-119 | A given value is read as given. Without one, the three numeric options read as their declared defaults "100", "0" and "10000". Every other option reads as absent exactly when it was not given. |
| Config.ResolveNetwork | src/config.rs:133-139 | Succeeds exactly when the given name (default "mainnet") is supported; then the network's name is that name. Otherwise it fails with the name as the error. |
| Config.ResolveAddr | src/config.rs:164-168 | Succeeds exactly when the parser accepts the given text, or the loopback default when none is given. On success the result is the parsed address; otherwise the error names the service and the text. |
| Config.ResolveAddresses | src/config.rs:164-183 | Succeeds exactly when all four address texts parse, and each field is the parse of its own service's text. |
| Config.DaemonDir | src/config.rs:185-197 | Fails, with the no-home-directory error, exactly when no directory is given and the home directory is unknown. Otherwise it is the given directory, or `<home>/.viacoin`, followed by the network's subdirectory. |
| Config.UsizeOption | src/config.rs:208 | Succeeds exactly when the option's value, or its declared default, parses as a `usize`, and then returns that parse. Otherwise it fails naming the option. |
| Config.ResolveSizes | src/config.rs:208-225 | Succeeds exactly when all three numeric options parse. The thread count is non-zero unless the CPU count is zero. The batch and cache sizes are their options' values. |
| Config.FromArgs | src/config.rs:133-228 | On success: the network is the named one; the database path is `<db dir>/<network name>`; each address is the parse of its text; the cookie is the option's value; threads are non-zero when CPUs are; the three flag fields are exactly their flag's presence or absence. An unsupported name yields that error. |
| ConfigProperties.AddressesFailAtFirstFailedCheck | src/config.rs:164-183 | Address resolution fails with the error of the first address check, in source order, that fails, and succeeds when none fails. |
| ConfigProperties.SizesFailAtFirstFailedCheck | src/config.rs:208-225 | Numeric resolution fails with the first failing check among threads, batch size and cache size, in that order. |
| ConfigProperties.FromArgsStages | src/config.rs:133-228 | The resolution succeeds exactly when all four fallible stages succeed. The error is that of the first stage that fails. |
| ConfigProperties.FromArgsFailsAtFirstFailedCheck | src/config.rs:133-228 | Against the ordered list of every check (network, four addresses, home directory, three numbers): resolution succeeds exactly when no check fails, and otherwise reports the first failing check's error. |
| ConfigProperties.DaemonDirResolution | src/config.rs:185-197 | The resolved daemon directory is the given one, or `<home>/.viacoin`, followed by nothing, `testnet3` or `regtest` by network. |
| ConfigProperties.DefaultThreadsParse | src/config.rs:113 | The declared thread-count default reads as 0. |
| ConfigProperties.DefaultBatchSizeParse | src/config.rs:107 | The declared batch-size default reads as 100. |
| ConfigProperties.DefaultCacheSizeParse | src/config.rs:119 | The declared cache-size default reads as 10000. |
| ConfigProperties.SizesResolution | src/config.rs:208-225 | The thread count is the given count, or the CPU count when that is zero or absent. Batch and cache sizes are the given values, else 100 and 10000. |
| ConfigProperties.BulkIndexThreadsResolution | src/config.rs:208-211 | Zero or absent threads mean the CPU count; any other count is kept; with at least one CPU the count is at least one. |
| ConfigProperties.NumericDefaults | src/config.rs:223-225 | In the resolved configuration, the batch size is 100 and the cache size 10000 when absent, and otherwise the parse of the given text. |
| ConfigProperties.FlagsAffectOnlyTheirFields | src/config.rs:222-227 | Two option sets that differ only in flags fail alike, or resolve to configurations equal in every field but the three flag fields. |
| ConfigProperties.DaemonRpcDefaultMatchesHelp | src/config.rs:89 | The daemon RPC default address text is the one its help text advertises, per network. |
| ConfigProperties.ElectrumRpcDefaultMatchesHelp | src/config.rs:77 | The Electrum RPC default address text is the one its help text advertises, per network. |
| ConfigProperties.HttpDefaultMatchesHelp | src/config.rs:83 | The HTTP default address text is the one its help text advertises, per network. |
| ConfigProperties.MonitoringDefaultMatchesHelp | src/config.rs:95 | The monitoring default address text is the one its help text advertises, per network. |
| ConfigProperties.DefaultAddressesMatchHelp | src/config.rs:143-183 | For every service and network, the default address text is `127.0.0.1:` followed by the advertised port. |
| ConfigProperties.LoopbackTextInjective | src/config.rs:166 | Distinct ports give distinct default address texts. |
| ConfigProperties.DefaultAddressesDistinct | src/config.rs:143-183 | Within one network the four default address texts are pairwise distinct. |
| ConfigProperties.OnlyNetworkGivenGivesDefaults | src/config.rs:133-228 | With at most the network given, a home directory known and a parser that reads loopback addresses, every field takes its documented default and the flags decide the rest. |
| ConfigProperties.NoOptionsGiveMainnetDefaults | src/config.rs:133-228 | With no option values at all, the configuration is mainnet's, with the constants spelled out: `./db/mainnet`, `<home>/.viacoin`, ports 5222, 50001, 3000 and 4224, batch 100, cache 10000 and threads equal to the CPU count. |
| Cookie.CookiePath | src/config.rs:262 | The cookie file is `.cookie` directly inside the daemon directory. |
| Cookie.GetterOf | src/config.rs:233-243 | A configured cookie gives a static getter whose bytes decode back to the cookie. Otherwise it is a file getter on the configured daemon directory. |
| Cookie.Get | src/config.rs:250-268 | A static getter returns its bytes. A file getter returns the cookie file's contents, or a connection error naming that path when the read fails. |
| Cookie.StaticCookieIsConstant | src/config.rs:250-254 | With a configured cookie, every call returns the same bytes, the cookie's UTF-8 encoding, whatever the filesystem holds. |
| Cookie.CookieFileIsReadEachCall | src/config.rs:260-268 | Without one, each call returns what `<daemon dir>/.cookie` holds at that moment, or a connection error. |
| Cookie.CookieFileSeesRotation | src/config.rs:260-268 | Two calls of a file getter agree exactly when the cookie file's contents agree; nothing is cached. |
| Cookie.StaticCookiesDistinguish | src/config.rs:233-237 | Two configured cookies give the same bytes exactly when they are the same string. |
| Cookie.CookieFromArgs | src/config.rs:233-243 | A `--cookie` value is returned as its bytes. Without one, the getter reads the file in the resolved daemon directory. |

## Left out

- Command-line parsing itself (src/config.rs:18-131, clap): the model starts from the parsed matches. An option given twice, and clap's own usage errors, are not modelled.
- The logger (src/config.rs:200-207) and the debug print of the configuration (src/config.rs:229): side effects with no result, and the `Config` record has no `log` field here. A failing `log.init()` is not one of the modelled errors.
- Parameters stand in for three things. The model does not state their behaviour:
  - `home_dir()`;
  - `num_cpus::get()`;
  - `SocketAddr` parsing.
- Real file reads: the filesystem is a function from path to contents, read at the moment of each call. The error is reduced to the path it names, not its message text.
- Paths are sequences of components, and a user-supplied directory is one component. Operating-system rules for `join` are not modelled, for example an absolute component replacing the base.
- `usize` is taken to be 64 bits wide. On other targets the largest accepted value differs.
- The cookie's "USER:PASSWORD" format: the help text mentions it, but the code never checks it.
- `src/lib.rs`: crate and module declarations only. The indexing, storage, query, mempool and daemon modules it names are not part of this model.
- The cookie help text (src/config.rs:65) gives `~/.viacoin/.cookie` as the default. For testnet and regtest the code reads `.cookie` below the network's subdirectory, which `DaemonDirResolution` and `CookieFromArgs` state.
