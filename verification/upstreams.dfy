/** `parse_upstream_addrs`: a comma-separated list of `ip[#port]` servers
    for one upstream group, parsed into the group's slots in order. */
module Upstreams {
  import opened Wrappers
  import opened Types
  import opened Strings
  import opened Decimal
  import opened Widths

  /** One slot of `g_remote_ipports` / `g_remote_skaddrs`: the token as
      written (port suffix included) and the socket address built from it. */
  datatype Server = Server(ipPort: string, addr: SockAddr)

  const DefaultPort: nat := 53

  /** A port number as the parsers read it: `strtoul`, then stored into
      the 16-bit `portno_t`. */
  function PortNumber(s: string): (p: nat)
    ensures p < 0x1_0000
    ensures Strtoul(s) < 0x1_0000 ==> p == Strtoul(s)
  {
    ToU16(Strtoul(s))
  }

  /** One token, already known to fit the buffer: split at the first '#',
      read the port, then classify the address part. */
  function ParseServer(env: Env, token: string): (r: Result<Server, Error>)
    ensures r.Success? ==> r.value.ipPort == token
    ensures r.Success? ==> r.value.addr.family != NoFamily && 0 < r.value.addr.port < 0x1_0000
    ensures r.Success? ==> '#' !in r.value.addr.ip && r.value.addr.ip <= token
  {
    var hash := IndexOf(token, '#');
    var ip := if hash.Some? then token[..hash.value] else token;
    var portStr := if hash.Some? then token[hash.value + 1..] else "";
    var port := if hash.Some? then PortNumber(portStr) else DefaultPort;
    if port == 0 then Failure(InvalidServerPort(portStr))
    else
      var family := env.classify(ip);
      if family == NoFamily then Failure(InvalidServerIp(ip))
      else Success(Server(token, SockAddr(family, ip, port)))
  }

  /** A token `parse_upstream_addrs` accepts in a free slot. */
  predicate ServerOk(env: Env, token: string) {
    |token| < env.ipPortStrLen && ParseServer(env, token).Success?
  }

  /** The error a rejected token is reported with: the length bound is
      checked before the port and the address. */
  function ServerError(env: Env, token: string): Error
    requires !ServerOk(env, token)
  {
    if |token| >= env.ipPortStrLen then ServerAddrTooLong(token) else ParseServer(env, token).error
  }

  /** The do-while loop of `parse_upstream_addrs` from the point where
      `cnt` servers of the group are already stored and `arg` is the rest
      of the list. */
  function ParseFrom(env: Env, arg: string, group: Group, cnt: nat): (r: Result<seq<Server>, Error>)
    ensures r.Success? ==> 1 <= |r.value| && cnt + |r.value| <= env.groupCount
    ensures r.Success? ==> forall i :: 0 <= i < |r.value| ==> r.value[i].addr.family != NoFamily
    decreases |arg|
  {
    if cnt + 1 > env.groupCount then Failure(TooManyServers(group, env.groupCount))
    else
      var comma := IndexOf(arg, ',');
      var len := if comma.Some? then comma.value else |arg|;
      if len + 1 > env.ipPortStrLen then Failure(ServerAddrTooLong(arg[..len]))
      else
        var server :- ParseServer(env, arg[..len]);
        if comma.Some? then
          var rest :- ParseFrom(env, arg[len + 1..], group, cnt + 1);
          Success([server] + rest)
        else
          Success([server])
  }

  /** `parse_upstream_addrs(arg, group)`: the servers of the group, slot
      by slot. */
  function ParseUpstreams(env: Env, arg: string, group: Group): (r: Result<seq<Server>, Error>)
    ensures r.Success? ==> 1 <= |r.value| <= env.groupCount
  {
    ParseFrom(env, arg, group, 0)
  }

  /** The first token of a list: the text before the first comma. */
  function Head(arg: string): string {
    match IndexOf(arg, ',')
    case None => arg
    case Some(k) => arg[..k]
  }

  /** The list after the first comma. */
  function Rest(arg: string): string
    requires ',' in arg
  {
    arg[IndexOf(arg, ',').value + 1..]
  }

  lemma SplitHeadRest(arg: string)
    ensures Split(arg, ',')[0] == Head(arg)
    ensures ',' !in arg ==> Split(arg, ',') == [arg]
    ensures ',' in arg ==> Split(arg, ',')[1..] == Split(Rest(arg), ',')
  {
  }

  /** One turn of the loop, phrased with the first token and the rest. */
  lemma ParseFromUnfold(env: Env, arg: string, group: Group, cnt: nat)
    ensures ParseFrom(env, arg, group, cnt) ==
      if cnt + 1 > env.groupCount then Failure(TooManyServers(group, env.groupCount))
      else if !ServerOk(env, Head(arg)) then Failure(ServerError(env, Head(arg)))
      else if ',' !in arg then Success([ParseServer(env, Head(arg)).value])
      else
        match ParseFrom(env, Rest(arg), group, cnt + 1)
        case Failure(e) => Failure(e)
        case Success(rest) => Success([ParseServer(env, Head(arg)).value] + rest)
  {
    if ',' !in arg {
      assert arg[..|arg|] == arg;
    }
  }

  /** The list parser against the comma split: it succeeds exactly when the
      pieces fit in the free slots and each is a good server, and then slot
      `cnt + i` holds piece `i`. */
  lemma {:induction false} ParseFromMeaning(env: Env, arg: string, group: Group, cnt: nat)
    ensures var ts := Split(arg, ',');
      ParseFrom(env, arg, group, cnt).Success? <==>
        cnt + |ts| <= env.groupCount && forall i :: 0 <= i < |ts| ==> ServerOk(env, ts[i])
    ensures var ts := Split(arg, ',');
      var r := ParseFrom(env, arg, group, cnt);
      r.Success? ==>
        (|r.value| == |ts| && forall i :: 0 <= i < |ts| ==> ParseServer(env, ts[i]) == Success(r.value[i]))
    decreases |arg|
  {
    var ts := Split(arg, ',');
    ParseFromUnfold(env, arg, group, cnt);
    SplitHeadRest(arg);
    if cnt + 1 <= env.groupCount && ServerOk(env, Head(arg)) && ',' in arg {
      var tail := Split(Rest(arg), ',');
      assert tail == ts[1..];
      ParseFromMeaning(env, Rest(arg), group, cnt + 1);
      assert forall i :: 1 <= i < |ts| ==> ts[i] == tail[i - 1];
    }
  }

  /** When the first free slots all receive good servers and pieces are
      left over, the error is the group's server limit. */
  lemma {:induction false} TooManyServersReported(env: Env, arg: string, group: Group, cnt: nat)
    requires var ts := Split(arg, ',');
      cnt + |ts| > env.groupCount &&
      forall i :: 0 <= i < |ts| && cnt + i < env.groupCount ==> ServerOk(env, ts[i])
    ensures ParseFrom(env, arg, group, cnt) == Failure(TooManyServers(group, env.groupCount))
    decreases |arg|
  {
    var ts := Split(arg, ',');
    ParseFromUnfold(env, arg, group, cnt);
    SplitHeadRest(arg);
    if cnt + 1 <= env.groupCount {
      assert ServerOk(env, ts[0]);
      var tail := Split(Rest(arg), ',');
      assert forall i :: 0 <= i < |tail| ==> tail[i] == ts[i + 1];
      TooManyServersReported(env, Rest(arg), group, cnt + 1);
    }
  }

  /** The first bad piece that still has a slot is the one reported, with
      the error its first failing check gives. */
  lemma {:induction false} FirstBadServerReported(env: Env, arg: string, group: Group, cnt: nat, k: nat)
    requires var ts := Split(arg, ',');
      k < |ts| && cnt + k < env.groupCount && !ServerOk(env, ts[k]) &&
      forall i :: 0 <= i < k ==> ServerOk(env, ts[i])
    ensures ParseFrom(env, arg, group, cnt) == Failure(ServerError(env, Split(arg, ',')[k]))
    decreases |arg|
  {
    var ts := Split(arg, ',');
    SplitHeadRest(arg);
    if k == 0 {
      BadHeadReported(env, arg, group, cnt);
    } else {
      assert ServerOk(env, Head(arg));
      var tail := Split(Rest(arg), ',');
      assert tail == ts[1..];
      forall i | 0 <= i < k - 1
        ensures ServerOk(env, tail[i])
      {
        assert tail[i] == ts[i + 1];
      }
      assert tail[k - 1] == ts[k];
      FirstBadServerReported(env, Rest(arg), group, cnt + 1, k - 1);
      GoodHeadPassesFailure(env, arg, group, cnt);
    }
  }

  /** A bad first piece with a free slot ends the loop with its error. */
  lemma BadHeadReported(env: Env, arg: string, group: Group, cnt: nat)
    requires cnt < env.groupCount && !ServerOk(env, Head(arg))
    ensures ParseFrom(env, arg, group, cnt) == Failure(ServerError(env, Head(arg)))
  {
    ParseFromUnfold(env, arg, group, cnt);
  }

  /** After a good first piece, a failure in the rest of the list is the
      failure of the whole list. */
  lemma GoodHeadPassesFailure(env: Env, arg: string, group: Group, cnt: nat)
    requires cnt < env.groupCount && ServerOk(env, Head(arg)) && ',' in arg
    requires ParseFrom(env, Rest(arg), group, cnt + 1).Failure?
    ensures ParseFrom(env, arg, group, cnt) == ParseFrom(env, Rest(arg), group, cnt + 1)
  {
    ParseFromUnfold(env, arg, group, cnt);
  }

  /** Without '#', the whole token is the address and the port is 53. */
  lemma ServerWithoutPort(env: Env, token: string)
    requires '#' !in token
    ensures var r := ParseServer(env, token);
      && (r.Success? <==> env.classify(token) != NoFamily)
      && (r.Success? ==> r.value == Server(token, SockAddr(env.classify(token), token, DefaultPort)))
      && (r.Failure? ==> r.error == InvalidServerIp(token))
  {
  }

  /** With '#', the address is the text before the first '#' and the port
      the decimal prefix of the text after it, cut to 16 bits; a port that
      reads as zero is rejected before the address is looked at. */
  lemma ServerWithPort(env: Env, token: string, k: nat)
    requires k < |token| && token[k] == '#'
    requires forall j :: 0 <= j < k ==> token[j] != '#'
    ensures var r := ParseServer(env, token);
      var ip := token[..k];
      var portStr := token[k + 1..];
      && (r.Success? <==> PortNumber(portStr) != 0 && env.classify(ip) != NoFamily)
      && (r.Success? ==> r.value == Server(token, SockAddr(env.classify(ip), ip, PortNumber(portStr))))
      && (PortNumber(portStr) == 0 ==> r == Failure(InvalidServerPort(portStr)))
      && (PortNumber(portStr) != 0 && env.classify(ip) == NoFamily ==> r == Failure(InvalidServerIp(ip)))
  {
    IndexOfFirst(token, '#', k);
  }

  /** Writing an address and a port that fits in 16 bits as `ip#port`
      and parsing it back gives the same address, family and port, and
      keeps the text. */
  lemma ServerRoundTrip(env: Env, ip: string, port: nat)
    requires '#' !in ip && 0 < port < 0x1_0000 && env.classify(ip) != NoFamily
    ensures var token := ip + "#" + ToDecimal(port);
      ParseServer(env, token) == Success(Server(token, SockAddr(env.classify(ip), ip, port)))
  {
    var digits := ToDecimal(port);
    var token := ip + "#" + digits;
    var k := |ip|;
    PortOfDecimal(port);
    assert token[k + 1..] == digits;
    assert token[..k] == ip;
    assert token[k] == '#';
    assert forall j :: 0 <= j < k ==> token[j] == ip[j];
    ServerWithPort(env, token, k);
  }

  /** A rendered port below 2^16 reads back as itself. */
  lemma PortOfDecimal(n: nat)
    requires n < 0x1_0000
    ensures PortNumber(ToDecimal(n)) == n
  {
    StrtoulOfDecimal(n);
  }

  /** `strtoul` skips leading blanks and reads one sign, so a port may be
      written after blanks and with a '+', and a minus-signed port `n` is
      taken as `65536 - n`. */
  lemma {:induction false} PortOfSigned(ws: string, n: nat)
    requires forall i :: 0 <= i < |ws| ==> IsSpace(ws[i])
    requires 0 < n < 0x1_0000
    ensures PortNumber(ws + ToDecimal(n)) == n
    ensures PortNumber(ws + "+" + ToDecimal(n)) == n
    ensures PortNumber(ws + "-" + ToDecimal(n)) == 0x1_0000 - n
  {
    PortAfterBlanks(ws, n);
    PortWithSign(ws, '+', n);
    PortWithSign(ws, '-', n);
  }

  lemma {:induction false} PortAfterBlanks(ws: string, n: nat)
    requires forall i :: 0 <= i < |ws| ==> IsSpace(ws[i])
    requires 0 < n < 0x1_0000
    ensures PortNumber(ws + ToDecimal(n)) == n
  {
    StrtoulSigned(ws, n);
  }

  lemma {:induction false} PortWithSign(ws: string, sign: char, n: nat)
    requires forall i :: 0 <= i < |ws| ==> IsSpace(ws[i])
    requires 0 < n < 0x1_0000 && (sign == '+' || sign == '-')
    ensures PortNumber(ws + [sign] + ToDecimal(n)) == if sign == '+' then n else 0x1_0000 - n
  {
    StrtoulWithSign(ws, sign, n);
    if sign == '-' {
      NegationToU16(n);
    }
  }

  /** The port wraps at 2^16: a written port of `n` up to `ULONG_MAX` is
      taken as `n mod 65536`, so "65536" is refused as zero. */
  lemma PortWraps(n: nat)
    requires n <= UlongMax
    ensures PortNumber(ToDecimal(n)) == n % 0x1_0000
    ensures PortNumber(ToDecimal(n)) == 0 <==> n % 0x1_0000 == 0
  {
    StrtoulOfDecimal(n);
  }

  /** A list of one address without port is one server on port 53. */
  lemma SingleServerList(env: Env, token: string, group: Group)
    requires ',' !in token && '#' !in token
    requires env.classify(token) != NoFamily
    requires env.groupCount >= 1 && |token| < env.ipPortStrLen
    ensures ParseUpstreams(env, token, group) == Success([Server(token, SockAddr(env.classify(token), token, DefaultPort))])
  {
    SplitHeadRest(token);
    ServerWithoutPort(env, token);
    ParseFromMeaning(env, token, group, 0);
  }

  /** Two good tokens joined by a comma fill two slots, in order. */
  lemma TwoServerList(env: Env, group: Group, a: string, b: string)
    requires ',' !in a && ',' !in b
    requires ServerOk(env, a) && ServerOk(env, b) && env.groupCount >= 2
    ensures ParseUpstreams(env, a + "," + b, group) ==
      Success([ParseServer(env, a).value, ParseServer(env, b).value])
  {
    var arg := a + "," + b;
    IndexOfAfter(a, ',', b);
    assert arg == a + [','] + b;
    assert Head(arg) == a && Rest(arg) == b;
    assert Head(b) == b by { assert b[..|b|] == b; }
    ParseFromUnfold(env, b, group, 1);
    ParseFromUnfold(env, arg, group, 0);
    assert [ParseServer(env, a).value] + [ParseServer(env, b).value] == [ParseServer(env, a).value, ParseServer(env, b).value];
  }

  /** A port written after one address does not carry over to the next. */
  lemma PortPerToken(env: Env, group: Group, ip1: string, port: nat, ip2: string)
    requires '#' !in ip1 && ',' !in ip1 && '#' !in ip2 && ',' !in ip2
    requires 0 < port < 0x1_0000 && env.classify(ip1) != NoFamily && env.classify(ip2) != NoFamily
    requires env.groupCount >= 2
    requires |ip1| + 1 + |ToDecimal(port)| < env.ipPortStrLen && |ip2| < env.ipPortStrLen
    ensures var first := ip1 + "#" + ToDecimal(port);
      ParseUpstreams(env, first + "," + ip2, group) == Success([
        Server(first, SockAddr(env.classify(ip1), ip1, port)),
        Server(ip2, SockAddr(env.classify(ip2), ip2, DefaultPort))])
  {
    var digits := ToDecimal(port);
    var first := ip1 + "#" + digits;
    assert ',' !in first by {
      forall j | 0 <= j < |first| ensures first[j] != ',' {
        if j < |ip1| { assert first[j] == ip1[j]; }
        else if j > |ip1| { assert first[j] == digits[j - |ip1| - 1]; assert IsDigit(digits[j - |ip1| - 1]); }
      }
    }
    ServerRoundTrip(env, ip1, port);
    ServerWithoutPort(env, ip2);
    TwoServerList(env, group, first, ip2);
  }

  /** An empty list or a trailing comma leaves an empty token, which an
      address classifier that rejects "" turns into an error. */
  lemma EmptyServerRejected(env: Env, arg: string, group: Group)
    requires env.classify("") == NoFamily
    ensures ParseUpstreams(env, "", group).Failure?
    ensures ParseUpstreams(env, arg + ",", group).Failure?
  {
    ParseFromMeaning(env, "", group, 0);
    assert Split("", ',') == [""];
    assert !ServerOk(env, "");
    ParseFromMeaning(env, arg + ",", group, 0);
    SplitTrailingSeparator(arg, ',');
    var ts := Split(arg + ",", ',');
    assert !ServerOk(env, ts[|ts| - 1]);
  }
}
