/** The three chains the server can follow, their command-line names, and the
    per-network default ports of the four sockets it uses (src/config.rs). */
module Network {
  import opened Wrappers

  datatype Network = Bitcoin | Testnet | Regtest

  /** The four sockets whose address the configuration resolves. */
  datatype Service = DaemonRpc | ElectrumRpc | Http | Monitoring

  /** The name `--network` accepts for each chain. */
  function NameOf(n: Network): string {
    match n
    case Bitcoin => "mainnet"
    case Testnet => "testnet"
    case Regtest => "regtest"
  }

  /** The match on the network name; any name but the three is unsupported. */
  function FromName(name: string): (r: Option<Network>)
    ensures r.Some? ==> NameOf(r.value) == name
  {
    match name
    case "mainnet" => Some(Bitcoin)
    case "testnet" => Some(Testnet)
    case "regtest" => Some(Regtest)
    case _ => None
  }

  /** A name is accepted exactly when it is the name of some network, and then
      it selects that network. */
  lemma FromNameIff(name: string, n: Network)
    ensures FromName(name) == Some(n) <==> name == NameOf(n)
  {
  }

  lemma UnsupportedName(name: string)
    ensures FromName(name).None? <==> name !in {"mainnet", "testnet", "regtest"}
  {
  }

  /** The four tables of default ports, one per service. */
  function DefaultPort(s: Service, n: Network): (p: nat)
    ensures 0 < p < 0x1_0000
  {
    match s
    case DaemonRpc =>
      (match n
       case Bitcoin => 5222
       case Testnet => 25222
       case Regtest => 25222)
    case ElectrumRpc =>
      (match n
       case Bitcoin => 50001
       case Testnet => 60001
       case Regtest => 60401)
    case Http =>
      (match n
       case Bitcoin => 3000
       case Testnet => 3001
       case Regtest => 3002)
    case Monitoring =>
      (match n
       case Bitcoin => 4224
       case Testnet => 14224
       case Regtest => 24224)
  }

  /** Within one network no two services default to the same port. */
  lemma DefaultPortsDistinct(n: Network, s: Service, t: Service)
    ensures s != t ==> DefaultPort(s, n) != DefaultPort(t, n)
  {
  }

  /** Across networks the defaults differ, except that testnet and regtest share
      the daemon RPC port. */
  lemma DefaultPortsAcrossNetworks(s: Service, n: Network, m: Network)
    ensures DefaultPort(s, n) == DefaultPort(s, m) <==>
            n == m || (s == DaemonRpc && n != Bitcoin && m != Bitcoin)
  {
  }
}
