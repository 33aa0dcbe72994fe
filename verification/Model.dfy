/** The monitored objects and their check codes. */
module Model {

  datatype Option<+T> = None | Some(value: T)

  datatype CheckType =
    | Ping | Ping6 | Tcp | Udp | Smtp | Pop3 | Pop3s | Imap | Imaps | Dns
    | Http | Https | Ssh | Mysql | Ftp | Ftps | Telnet

  predicate IsPing(t: CheckType) {
    t == Ping || t == Ping6
  }

  /** The port a check type implies; `None` where the configuration supplies it or none applies. */
  function DefaultPort(t: CheckType): Option<int> {
    match t
    case Ping | Ping6 | Tcp | Udp => None
    case Smtp => Some(25)
    case Pop3 => Some(110)
    case Pop3s => Some(995)
    case Imap => Some(143)
    case Imaps => Some(993)
    case Dns => Some(53)
    case Http => Some(80)
    case Https => Some(443)
    case Ssh => Some(22)
    case Mysql => Some(3306)
    case Ftp => Some(21)
    case Ftps => Some(990)
    case Telnet => Some(23)
  }

  /** One configuration stanza. `children` live in the graph or tree that holds the node. */
  datatype Node = Node(
    hostname: string,
    checkType: CheckType,
    port: int,
    desc: string,
    contact: string,
    group: string,
    contactOn: string,
    source: Option<string>,
    username: string,
    password: string,
    url: string,
    urlText: Option<string>,
    maxDown: int,
    interval: Option<real>,
    sendPings: Option<int>,
    minPings: Option<int>)

  /** The identity under which runtime state is carried from one configuration to the next. */
  datatype Key = Key(hostname: string, checkType: CheckType, port: int)

  function KeyOf(n: Node): Key {
    Key(n.hostname, n.checkType, n.port)
  }

  // Status codes that the engine treats specially.
  const OK := 0
  const NO_DNS := 5
  const UNPINGABLE := 6
  const DEGRADED := 14

  predicate IsUp(code: int) {
    code == OK
  }

  predicate IsReachable(code: int) {
    code == OK || code == DEGRADED
  }
}
