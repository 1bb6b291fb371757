/** Values shared by the option parsers: the collaborators whose code lives
    outside opt.c, and the error taxonomy of `err_exit`. */
module Types {

  /** Result of the address-family classifier `get_ipstr_family`;
      `NoFamily` stands for its `-1`. */
  datatype Family = Inet | Inet6 | NoFamily

  /** The abstract value `build_socket_addr` fills in. */
  datatype SockAddr = SockAddr(family: Family, ip: string, port: nat)

  /** The two upstream groups: china-dns (`-c`) and trust-dns (`-t`). */
  datatype Group = China | Trust

  /** What the model takes from the unseen header and helper files:
      the classifier, `SERVER_GROUP_CNT` and `IP_PORT_STRLEN`. */
  datatype Env = Env(classify: string -> Family, groupCount: nat, ipPortStrLen: nat)

  /** One constructor per distinct `err_exit` message in opt.c; the two
      unknown-option sites share `UnknownOption`. */
  datatype Error =
    | MissingOptarg(option: string)
    | UnknownOption(option: string)
    | InvalidListenIp(ip: string)
    | InvalidListenPort(arg: string)
    | InvalidDefaultTag(arg: string)
    | InvalidTimeout(arg: string)
    | InvalidRepeatTimes(arg: string)
    | NoIpv6NeedsArgument
    | InvalidNoAaaaRule(rule: char)
    | TooManyServers(group: Group, max: nat)
    | ServerAddrTooLong(token: string)
    | InvalidServerPort(port: string)
    | InvalidServerIp(ip: string)
}
