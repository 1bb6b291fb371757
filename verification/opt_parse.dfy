/** `opt_parse`: the dispatch loop over getopt's events, acting on the
    configuration record, and the finalisation that follows it. */
module OptParse {
  import opened Wrappers
  import opened Types
  import opened Decimal
  import opened Widths
  import opened Options
  import AaaaFilter
  import opened Upstreams

  /** `NAME_TAG_*`, the values `-d/--default-tag` accepts. */
  datatype NameTag = NameGfw | NameChn | NameNone

  /** The global configuration variables of opt.c. */
  datatype Config = Config(
    verbose: bool,
    reusePort: bool,
    noipAsChnip: bool,
    noAaaa: AaaaFilter.Mask,
    defaultTag: NameTag,
    gfwlistFiles: Option<string>,
    chnlistFiles: Option<string>,
    gfwlistFirst: bool,
    addTagchnIp: bool,
    ipsetName4: string,
    ipsetName6: string,
    bindIp: string,
    bindPort: nat,
    timeoutSec: nat,
    repeatTimes: nat)

  const DefaultBindIp: string := "127.0.0.1"

  /** The initial values of the globals. */
  const DefaultConfig: Config := Config(
    false, false, false, {}, NameNone, None, None, true, false,
    "chnroute", "chnroute6", DefaultBindIp, 65353, 5, 1)

  const DefaultChinaDns: string := "114.114.114.114"
  const DefaultTrustDns: string := "8.8.8.8"

  /** The loop's state: the globals plus the two local server-list strings,
      which are parsed only after the loop. */
  datatype ScanState = ScanState(cfg: Config, chinaDns: string, trustDns: string)

  const InitialState: ScanState := ScanState(DefaultConfig, DefaultChinaDns, DefaultTrustDns)

  /** The configuration once finalised: the bind socket and both groups
      are resolved. */
  datatype Settings = Settings(cfg: Config, bindAddr: SockAddr, chinaServers: seq<Server>, trustServers: seq<Server>)

  /** How `opt_parse` ends: by returning, by printing the version or the
      help and exiting 0, or through `err_exit`. */
  datatype Outcome = Ready(settings: Settings) | ShowVersion | ShowHelp | Failed(error: Error)

  datatype Progress = Continue(state: ScanState) | Stop(outcome: Outcome)

  /** The process exit status; `None` when `opt_parse` returns normally. */
  function ExitStatus(o: Outcome): (r: Option<int>)
    ensures r.None? <==> o.Ready?
    ensures r == Some(1) <==> o.Failed?
    ensures o.ShowVersion? || o.ShowHelp? ==> r == Some(0)
  {
    match o
    case Ready(_) => None
    case ShowVersion => Some(0)
    case ShowHelp => Some(0)
    case Failed(_) => Some(1)
  }

  function DefaultTagOf(arg: string): Option<NameTag> {
    if arg == "gfw" then Some(NameGfw)
    else if arg == "chn" then Some(NameChn)
    else if arg == "none" then Some(NameNone)
    else None
  }

  /** The cases of the switch for options that carry an argument. */
  function WithArgument(env: Env, st: ScanState, code: char, arg: string): (r: Progress)
    ensures r.Stop? ==> r.outcome.Failed?
    ensures r.Continue? && Valid(env, st.cfg) ==> Valid(env, r.state.cfg)
  {
    var cfg := st.cfg;
    match code
    case 'b' =>
      if env.classify(arg) == NoFamily then Stop(Failed(InvalidListenIp(arg)))
      else Continue(st.(cfg := cfg.(bindIp := arg)))
    case 'l' =>
      var port := PortNumber(arg);
      if port == 0 then Stop(Failed(InvalidListenPort(arg)))
      else Continue(st.(cfg := cfg.(bindPort := port)))
    case 'c' => Continue(st.(chinaDns := arg))
    case 't' => Continue(st.(trustDns := arg))
    case '4' => Continue(st.(cfg := cfg.(ipsetName4 := arg)))
    case '6' => Continue(st.(cfg := cfg.(ipsetName6 := arg)))
    case 'g' => Continue(st.(cfg := cfg.(gfwlistFiles := Some(arg))))
    case 'm' => Continue(st.(cfg := cfg.(chnlistFiles := Some(arg))))
    case 'd' =>
      (match DefaultTagOf(arg)
       case None => Stop(Failed(InvalidDefaultTag(arg)))
       case Some(tag) => Continue(st.(cfg := cfg.(defaultTag := tag))))
    case 'o' =>
      var sec := ToInt32(Strtoul(arg));
      if sec <= 0 then Stop(Failed(InvalidTimeout(arg)))
      else Continue(st.(cfg := cfg.(timeoutSec := sec)))
    case 'p' =>
      var times := ToU8(Strtoul(arg));
      if times == 0 then Stop(Failed(InvalidRepeatTimes(arg)))
      else Continue(st.(cfg := cfg.(repeatTimes := times)))
    case _ => Continue(st)
  }

  /** The cases of the switch for options without an argument. */
  function Flag(st: ScanState, code: char): (r: Progress)
    ensures r.Stop? ==> r.outcome == ShowVersion || r.outcome == ShowHelp
    ensures r.Continue? ==> r.state.cfg.bindIp == st.cfg.bindIp && r.state.cfg.bindPort == st.cfg.bindPort
    ensures r.Continue? ==> r.state.cfg.timeoutSec == st.cfg.timeoutSec && r.state.cfg.repeatTimes == st.cfg.repeatTimes
    ensures r.Continue? ==> r.state.cfg.noAaaa == st.cfg.noAaaa
  {
    var cfg := st.cfg;
    match code
    case 'M' => Continue(st.(cfg := cfg.(gfwlistFirst := false)))
    case 'a' => Continue(st.(cfg := cfg.(addTagchnIp := true)))
    case 'f' => Continue(st)
    case 'r' => Continue(st.(cfg := cfg.(reusePort := true)))
    case 'n' => Continue(st.(cfg := cfg.(noipAsChnip := true)))
    case 'v' => Continue(st.(cfg := cfg.(verbose := true)))
    case 'V' => Stop(ShowVersion)
    case 'h' => Stop(ShowHelp)
    case _ => Continue(st)
  }

  /** What the loop keeps true of the globals between options. */
  predicate Valid(env: Env, cfg: Config) {
    && 0 < cfg.bindPort < 0x1_0000
    && 0 < cfg.timeoutSec < 0x8000_0000
    && 0 < cfg.repeatTimes < 256
    && AaaaFilter.Simplified(cfg.noAaaa)
    && (cfg.bindIp == DefaultBindIp || env.classify(cfg.bindIp) != NoFamily)
  }

  /** One turn of the `while (getopt_long(...))` loop. */
  function Step(env: Env, st: ScanState, e: Event): (r: Progress)
    ensures r.Stop? ==> !r.outcome.Ready?
    ensures r.Continue? && Valid(env, st.cfg) ==> Valid(env, r.state.cfg)
  {
    match e
    case MissingArg(option) => Stop(Failed(MissingOptarg(option)))
    case UnknownShort(c) => Stop(Failed(UnknownOption(['-', c])))
    case UnknownLong(option) => Stop(Failed(UnknownOption(LongOptionName(option))))
    case Opt(code, arg) =>
      match code
      case 'N' =>
        (match AaaaFilter.ParseRules(st.cfg.noAaaa, arg)
         case Failure(err) => Stop(Failed(err))
         case Success(mask) => Continue(st.(cfg := st.cfg.(noAaaa := mask))))
      case 'M' | 'a' | 'f' | 'r' | 'n' | 'v' | 'V' | 'h' => Flag(st, code)
      case 'b' | 'l' | 'c' | 't' | '4' | '6' | 'g' | 'm' | 'd' | 'o' | 'p' =>
        // getopt reports a required argument that is absent as ':'
        (match arg
         case Some(a) => WithArgument(env, st, code, a)
         case None => Stop(Failed(MissingOptarg(['-', code]))))
      case _ => Continue(st)
  }

  /** The loop over all events: it stops at the first event that ends the
      process. */
  function Scan(env: Env, st: ScanState, events: seq<Event>): (r: Progress)
    ensures r.Stop? ==> !r.outcome.Ready?
    ensures r.Continue? && Valid(env, st.cfg) ==> Valid(env, r.state.cfg)
    decreases |events|
  {
    if |events| == 0 then Continue(st)
    else
      match Step(env, st, events[0])
      case Stop(o) => Stop(o)
      case Continue(next) => Scan(env, next, events[1..])
  }

  /** After the loop: the bind socket is built, then the china list and
      the trust list are parsed, in that order. */
  function Finalize(env: Env, st: ScanState): (r: Outcome)
    ensures r.Ready? || r.Failed?
    ensures r.Ready? <==>
      ParseUpstreams(env, st.chinaDns, China).Success? && ParseUpstreams(env, st.trustDns, Trust).Success?
    // a bad china list is reported whatever the trust list holds
    ensures ParseUpstreams(env, st.chinaDns, China).Failure? ==>
      r == Failed(ParseUpstreams(env, st.chinaDns, China).error)
    ensures ParseUpstreams(env, st.chinaDns, China).Success? && ParseUpstreams(env, st.trustDns, Trust).Failure? ==>
      r == Failed(ParseUpstreams(env, st.trustDns, Trust).error)
    ensures r.Ready? ==> r.settings.cfg == st.cfg
    ensures r.Ready? ==> r.settings.chinaServers == ParseUpstreams(env, st.chinaDns, China).value
    ensures r.Ready? ==> r.settings.trustServers == ParseUpstreams(env, st.trustDns, Trust).value
    ensures r.Ready? ==> 1 <= |r.settings.chinaServers| <= env.groupCount
    ensures r.Ready? ==> 1 <= |r.settings.trustServers| <= env.groupCount
    ensures r.Ready? ==> r.settings.bindAddr == SockAddr(env.classify(st.cfg.bindIp), st.cfg.bindIp, st.cfg.bindPort)
  {
    var bind := SockAddr(env.classify(st.cfg.bindIp), st.cfg.bindIp, st.cfg.bindPort);
    match ParseUpstreams(env, st.chinaDns, China)
    case Failure(err) => Failed(err)
    case Success(china) =>
      match ParseUpstreams(env, st.trustDns, Trust)
      case Failure(err) => Failed(err)
      case Success(trust) => Ready(Settings(st.cfg, bind, china, trust))
  }

  /** `opt_parse` on the events getopt produces from the command line. */
  function Parse(env: Env, events: seq<Event>): (r: Outcome)
    ensures r.Ready? ==> Valid(env, r.settings.cfg)
    ensures r.Ready? ==> 1 <= |r.settings.chinaServers| <= env.groupCount
    ensures r.Ready? ==> 1 <= |r.settings.trustServers| <= env.groupCount
  {
    match Scan(env, InitialState, events)
    case Stop(o) => o
    case Continue(st) => Finalize(env, st)
  }

  // ---------------------------------------------------------------------
  // The loop as a fold

  /** Running the loop over two stretches of events is running it over
      the first and, unless that ended the process, over the second. */
  lemma {:induction false} ScanAppend(env: Env, st: ScanState, a: seq<Event>, b: seq<Event>)
    ensures Scan(env, st, a + b) ==
      match Scan(env, st, a)
      case Stop(o) => Stop(o)
      case Continue(s) => Scan(env, s, b)
    decreases |a|
  {
    if |a| == 0 {
      assert a + b == b;
    } else {
      assert (a + b)[0] == a[0];
      assert (a + b)[1..] == a[1..] + b;
      match Step(env, st, a[0])
      case Stop(_) =>
      case Continue(next) => ScanAppend(env, next, a[1..], b);
    }
  }

  /** An event that ends the process decides the outcome: nothing after
      it is looked at and no finalisation happens. */
  lemma StopIsFinal(env: Env, before: seq<Event>, e: Event, after: seq<Event>)
    requires Scan(env, InitialState, before).Continue?
    requires Step(env, Scan(env, InitialState, before).state, e).Stop?
    ensures Parse(env, before + [e] + after) == Step(env, Scan(env, InitialState, before).state, e).outcome
  {
    var st := Scan(env, InitialState, before).state;
    ScanAppend(env, InitialState, before, [e] + after);
    assert before + [e] + after == before + ([e] + after);
    assert ([e] + after)[0] == e;
  }

  /** `-V` and `-h` end the process at once, whatever follows and however
      the server lists would have parsed. */
  lemma VersionAndHelpEndParsing(env: Env, before: seq<Event>, arg: Option<string>, after: seq<Event>)
    requires Scan(env, InitialState, before).Continue?
    ensures Parse(env, before + [Opt('V', arg)] + after) == ShowVersion
    ensures Parse(env, before + [Opt('h', arg)] + after) == ShowHelp
  {
    StopIsFinal(env, before, Opt('V', arg), after);
    StopIsFinal(env, before, Opt('h', arg), after);
  }

  /** For every result getopt can return, the switch reaches the handler
      the option tables name: an option that requires an argument is
      handled with it, one that takes none by the flag cases, and no
      result falls through the switch unhandled. */
  lemma WellFormedDispatch(env: Env, st: ScanState, code: char, arg: Option<string>)
    requires WellFormed(Opt(code, arg))
    ensures code in ArgumentCodes || code in FlagCodes || code == 'N'
    ensures code in ArgumentCodes ==>
      arg.Some? && Step(env, st, Opt(code, arg)) == WithArgument(env, st, code, arg.value)
    ensures code in FlagCodes ==> Step(env, st, Opt(code, arg)) == Flag(st, code)
  {
    ShortCodes(code);
  }

  /** An option that requires an argument and has one is handled by the
      cases of the switch that read it. */
  lemma ArgumentStep(env: Env, st: ScanState, code: char, a: string)
    requires code in ArgumentCodes
    ensures Step(env, st, Opt(code, Some(a))) == WithArgument(env, st, code, a)
  {
  }

  /** The first bad option is the one reported: `err_exit` never returns. */
  lemma FirstErrorWins(env: Env, before: seq<Event>, e: Event, after: seq<Event>, err: Error)
    requires Scan(env, InitialState, before).Continue?
    requires Step(env, Scan(env, InitialState, before).state, e) == Stop(Failed(err))
    ensures Parse(env, before + [e] + after) == Failed(err)
  {
    StopIsFinal(env, before, e, after);
  }

  // ---------------------------------------------------------------------
  // Each option touches its own field

  datatype Field =
    | Verbose | ReusePort | NoipAsChnip | NoAaaaMask | DefaultTag
    | GfwlistFiles | ChnlistFiles | GfwlistFirst | AddTagchnIp
    | IpsetName4 | IpsetName6 | BindIp | BindPort | TimeoutSec | RepeatTimes

  /** The fields on which two configurations differ. */
  function Changed(a: Config, b: Config): set<Field> {
    (if a.verbose != b.verbose then {Verbose} else {})
    + (if a.reusePort != b.reusePort then {ReusePort} else {})
    + (if a.noipAsChnip != b.noipAsChnip then {NoipAsChnip} else {})
    + (if a.noAaaa != b.noAaaa then {NoAaaaMask} else {})
    + (if a.defaultTag != b.defaultTag then {DefaultTag} else {})
    + (if a.gfwlistFiles != b.gfwlistFiles then {GfwlistFiles} else {})
    + (if a.chnlistFiles != b.chnlistFiles then {ChnlistFiles} else {})
    + (if a.gfwlistFirst != b.gfwlistFirst then {GfwlistFirst} else {})
    + (if a.addTagchnIp != b.addTagchnIp then {AddTagchnIp} else {})
    + (if a.ipsetName4 != b.ipsetName4 then {IpsetName4} else {})
    + (if a.ipsetName6 != b.ipsetName6 then {IpsetName6} else {})
    + (if a.bindIp != b.bindIp then {BindIp} else {})
    + (if a.bindPort != b.bindPort then {BindPort} else {})
    + (if a.timeoutSec != b.timeoutSec then {TimeoutSec} else {})
    + (if a.repeatTimes != b.repeatTimes then {RepeatTimes} else {})
  }

  /** The field each option of the table is documented to set; `-c`, `-t`
      and `-f` set none. */
  function FieldOf(code: char): set<Field> {
    match code
    case 'b' => {BindIp}
    case 'l' => {BindPort}
    case '4' => {IpsetName4}
    case '6' => {IpsetName6}
    case 'g' => {GfwlistFiles}
    case 'm' => {ChnlistFiles}
    case 'd' => {DefaultTag}
    case 'o' => {TimeoutSec}
    case 'p' => {RepeatTimes}
    case 'N' => {NoAaaaMask}
    case 'M' => {GfwlistFirst}
    case 'a' => {AddTagchnIp}
    case 'r' => {ReusePort}
    case 'n' => {NoipAsChnip}
    case 'v' => {Verbose}
    case _ => {}
  }

  function FieldsOf(e: Event): set<Field> {
    if e.Opt? then FieldOf(e.code) else {}
  }

  /** The fields the options of `events` may set. */
  function FieldsIn(events: seq<Event>): set<Field>
    decreases |events|
  {
    if |events| == 0 then {} else FieldsOf(events[0]) + FieldsIn(events[1..])
  }

  lemma WithArgumentChangesOnlyItsField(env: Env, st: ScanState, code: char, a: string)
    requires WithArgument(env, st, code, a).Continue?
    ensures Changed(st.cfg, WithArgument(env, st, code, a).state.cfg) <= FieldOf(code)
  {
    var c := st.cfg;
    var d := WithArgument(env, st, code, a).state.cfg;
    match code
    case 'b' => assert d == c.(bindIp := a);
    case 'l' => assert d == c.(bindPort := PortNumber(a));
    case '4' => assert d == c.(ipsetName4 := a);
    case '6' => assert d == c.(ipsetName6 := a);
    case 'g' => assert d == c.(gfwlistFiles := Some(a));
    case 'm' => assert d == c.(chnlistFiles := Some(a));
    case 'd' => assert d == c.(defaultTag := d.defaultTag);
    case 'o' => assert d == c.(timeoutSec := ToInt32(Strtoul(a)));
    case 'p' => assert d == c.(repeatTimes := ToU8(Strtoul(a)));
    case _ => assert d == c;
  }

  lemma FlagChangesOnlyItsField(st: ScanState, code: char)
    requires Flag(st, code).Continue?
    ensures Changed(st.cfg, Flag(st, code).state.cfg) <= FieldOf(code)
  {
    var c := st.cfg;
    var d := Flag(st, code).state.cfg;
    match code
    case 'M' => assert d == c.(gfwlistFirst := false);
    case 'a' => assert d == c.(addTagchnIp := true);
    case 'r' => assert d == c.(reusePort := true);
    case 'n' => assert d == c.(noipAsChnip := true);
    case 'v' => assert d == c.(verbose := true);
    case _ => assert d == c;
  }

  /** Every option changes at most the field it is documented to set. */
  lemma StepChangesOnlyItsField(env: Env, st: ScanState, e: Event)
    requires Step(env, st, e).Continue?
    ensures Changed(st.cfg, Step(env, st, e).state.cfg) <= FieldsOf(e)
  {
    match e
    case Opt(code, arg) =>
      if code == 'N' {
        var d := Step(env, st, e).state.cfg;
        assert d == st.cfg.(noAaaa := d.noAaaa);
      } else if code in "MafrnvVh" {
        FlagChangesOnlyItsField(st, code);
      } else if code in "blct46gmdop" {
        WithArgumentChangesOnlyItsField(env, st, code, arg.value);
      }
    case _ =>
  }

  lemma ChangedTriangle(a: Config, b: Config, c: Config)
    ensures Changed(a, c) <= Changed(a, b) + Changed(b, c)
  {
  }

  /** Over a whole run, only fields some option names can change. */
  lemma {:induction false} ScanChangesOnlyNamedFields(env: Env, st: ScanState, events: seq<Event>)
    requires Scan(env, st, events).Continue?
    ensures Changed(st.cfg, Scan(env, st, events).state.cfg) <= FieldsIn(events)
    decreases |events|
  {
    if |events| > 0 {
      var next := Step(env, st, events[0]).state;
      StepChangesOnlyItsField(env, st, events[0]);
      ScanChangesOnlyNamedFields(env, next, events[1..]);
      ChangedTriangle(st.cfg, next.cfg, Scan(env, st, events).state.cfg);
    }
  }

  lemma {:induction false} FieldsInMembers(events: seq<Event>, f: Field)
    ensures f in FieldsIn(events) <==> exists i :: 0 <= i < |events| && f in FieldsOf(events[i])
    decreases |events|
  {
    if |events| > 0 {
      FieldsInMembers(events[1..], f);
      assert forall i :: 1 <= i < |events| ==> events[1..][i - 1] == events[i];
      if f in FieldsIn(events[1..]) {
        var i :| 0 <= i < |events[1..]| && f in FieldsOf(events[1..][i]);
        assert f in FieldsOf(events[i + 1]);
      }
    }
  }

  lemma NoIpv6FieldOnlyFromN(e: Event)
    ensures NoAaaaMask in FieldsOf(e) <==> e.Opt? && e.code == 'N'
  {
  }

  lemma UnchangedMask(a: Config, b: Config)
    requires NoAaaaMask !in Changed(a, b)
    ensures a.noAaaa == b.noAaaa
  {
  }

  /** Without `-N` the AAAA filter stays empty: no AAAA query is filtered. */
  lemma NoIpv6AbsentLeavesMaskEmpty(env: Env, events: seq<Event>)
    requires forall i :: 0 <= i < |events| ==> !(events[i].Opt? && events[i].code == 'N')
    ensures Parse(env, events).Ready? ==> Parse(env, events).settings.cfg.noAaaa == {}
  {
    match Scan(env, InitialState, events)
    case Stop(_) =>
    case Continue(st) =>
      ScanChangesOnlyNamedFields(env, InitialState, events);
      FieldsInMembers(events, NoAaaaMask);
      assert NoAaaaMask !in FieldsIn(events) by {
        forall i | 0 <= i < |events|
          ensures NoAaaaMask !in FieldsOf(events[i])
        {
          NoIpv6FieldOnlyFromN(events[i]);
        }
      }
      UnchangedMask(DefaultConfig, st.cfg);
      assert Parse(env, events) == Finalize(env, st);
  }

  /** The flags set their field; `-f` changes nothing at all. */
  lemma FlagEffects(env: Env, st: ScanState)
    ensures Step(env, st, Opt('M', None)).state.cfg.gfwlistFirst == false
    ensures Step(env, st, Opt('a', None)).state.cfg.addTagchnIp == true
    ensures Step(env, st, Opt('r', None)).state.cfg.reusePort == true
    ensures Step(env, st, Opt('n', None)).state.cfg.noipAsChnip == true
    ensures Step(env, st, Opt('v', None)).state.cfg.verbose == true
    ensures Step(env, st, Opt('f', None)) == Continue(st)
  {
  }

  // ---------------------------------------------------------------------
  // Options with a checked argument

  /** `-d` accepts exactly "gfw", "chn" and "none". */
  lemma DefaultTagHandler(env: Env, st: ScanState, a: string)
    ensures var r := Step(env, st, Opt('d', Some(a)));
      && (r.Continue? <==> a == "gfw" || a == "chn" || a == "none")
      && (a == "gfw" ==> r.state.cfg.defaultTag == NameGfw)
      && (a == "chn" ==> r.state.cfg.defaultTag == NameChn)
      && (a == "none" ==> r.state.cfg.defaultTag == NameNone)
      && (r.Stop? ==> r.outcome == Failed(InvalidDefaultTag(a)))
  {
  }

  /** getopt's ':' and '?' end parsing with the offending option: a short
      one as "-c", a long one cut before its first '='. */
  lemma ErrorEvents(env: Env, st: ScanState, option: string, c: char, name: string, value: string)
    requires '=' !in name
    ensures Step(env, st, MissingArg(option)) == Stop(Failed(MissingOptarg(option)))
    ensures Step(env, st, UnknownShort(c)) == Stop(Failed(UnknownOption(['-', c])))
    ensures Step(env, st, UnknownLong(name)) == Stop(Failed(UnknownOption(name)))
    ensures Step(env, st, UnknownLong(name + "=" + value)) == Stop(Failed(UnknownOption(name)))
  {
    LongOptionNameOf(name, value);
  }

  /** `-b` accepts an address exactly when the classifier does. */
  lemma BindAddrHandler(env: Env, st: ScanState, a: string)
    ensures var r := Step(env, st, Opt('b', Some(a)));
      && (r.Continue? <==> env.classify(a) != NoFamily)
      && (r.Continue? ==> r.state.cfg.bindIp == a)
      && (r.Stop? ==> r.outcome == Failed(InvalidListenIp(a)))
  {
  }

  /** `-l`, `-o` and `-p` reject a value that reads as zero once stored
      into its C variable (16-bit port, `int` seconds, `uint8_t` count);
      `-o` also rejects a negative `int`. */
  lemma NumericHandlers(env: Env, st: ScanState, a: string)
    ensures var r := Step(env, st, Opt('l', Some(a)));
      && (r.Continue? <==> Strtoul(a) % 0x1_0000 != 0)
      && (r.Continue? ==> r.state.cfg.bindPort == Strtoul(a) % 0x1_0000)
      && (r.Stop? ==> r.outcome == Failed(InvalidListenPort(a)))
    ensures var r := Step(env, st, Opt('o', Some(a)));
      && (r.Continue? <==> 0 < Strtoul(a) % 0x1_0000_0000 < 0x8000_0000)
      && (r.Continue? ==> r.state.cfg.timeoutSec == Strtoul(a) % 0x1_0000_0000)
      && (r.Stop? ==> r.outcome == Failed(InvalidTimeout(a)))
    ensures var r := Step(env, st, Opt('p', Some(a)));
      && (r.Continue? <==> Strtoul(a) % 0x100 != 0)
      && (r.Continue? ==> r.state.cfg.repeatTimes == Strtoul(a) % 0x100)
      && (r.Stop? ==> r.outcome == Failed(InvalidRepeatTimes(a)))
  {
    ListenPortStep(env, st, a, Strtoul(a));
    RepeatTimesStep(env, st, a, Strtoul(a));
    TimeoutStep(env, st, a, Strtoul(a));
    ToInt32Positive(Strtoul(a));
  }

  // ---------------------------------------------------------------------
  // Server lists: only the last -c / -t counts

  function UpstreamArg(st: ScanState, g: Group): string {
    if g == China then st.chinaDns else st.trustDns
  }

  function SetUpstreamArg(st: ScanState, g: Group, x: string): ScanState {
    if g == China then st.(chinaDns := x) else st.(trustDns := x)
  }

  function GroupCode(g: Group): char {
    if g == China then 'c' else 't'
  }

  /** The event is a `-c` (china) or `-t` (trust) option with its list. */
  predicate SetsUpstream(e: Event, g: Group) {
    e.Opt? && e.code == GroupCode(g) && e.arg.Some?
  }

  predicate HasUpstreamSetter(events: seq<Event>, g: Group) {
    exists i :: 0 <= i < |events| && SetsUpstream(events[i], g)
  }

  /** The list of the last `-c` / `-t` option, read from the end of the
      command line, or `dflt` when there is none. */
  function LastUpstreamArg(events: seq<Event>, g: Group, dflt: string): string
    decreases |events|
  {
    if |events| == 0 then dflt
    else
      var e := events[|events| - 1];
      if SetsUpstream(e, g) then e.arg.value else LastUpstreamArg(events[..|events| - 1], g, dflt)
  }

  lemma StepUpstreamArg(env: Env, st: ScanState, e: Event, g: Group)
    requires Step(env, st, e).Continue?
    ensures UpstreamArg(Step(env, st, e).state, g) == if SetsUpstream(e, g) then e.arg.value else UpstreamArg(st, g)
  {
    match e
    case Opt(code, arg) =>
      if code in ArgumentCodes && arg.Some? {
        ArgumentStep(env, st, code, arg.value);
        match code
        case 'l' =>
        case 'o' =>
        case 'p' =>
        case _ =>
      }
    case _ =>
  }

  /** After the loop, each group's list is that of its last option. */
  lemma {:induction false} ScanKeepsLastUpstreamArg(env: Env, st: ScanState, events: seq<Event>, g: Group)
    requires Scan(env, st, events).Continue?
    ensures UpstreamArg(Scan(env, st, events).state, g) == LastUpstreamArg(events, g, UpstreamArg(st, g))
    decreases |events|
  {
    if |events| > 0 {
      var n := |events| - 1;
      var init := events[..n];
      var last := events[n];
      assert events == init + [last];
      ScanAppend(env, st, init, [last]);
      var mid := Scan(env, st, init).state;
      assert [last][1..] == [];
      ScanKeepsLastUpstreamArg(env, st, init, g);
      StepUpstreamArg(env, mid, last, g);
    }
  }

  /** Finalisation parses the last `-c` and `-t` lists, or the built-in
      defaults when the option is absent. */
  lemma ParseUsesLastUpstreamArgs(env: Env, events: seq<Event>)
    requires Scan(env, InitialState, events).Continue?
    ensures var st := Scan(env, InitialState, events).state;
      && st.chinaDns == LastUpstreamArg(events, China, DefaultChinaDns)
      && st.trustDns == LastUpstreamArg(events, Trust, DefaultTrustDns)
      && Parse(env, events) == Finalize(env, st)
  {
    ScanKeepsLastUpstreamArg(env, InitialState, events, China);
    ScanKeepsLastUpstreamArg(env, InitialState, events, Trust);
  }

  lemma StepIgnoresUpstreamArg(env: Env, st: ScanState, e: Event, g: Group, x: string)
    ensures Step(env, SetUpstreamArg(st, g, x), e) ==
      match Step(env, st, e)
      case Stop(o) => Stop(o)
      case Continue(s) => Continue(if SetsUpstream(e, g) then s else SetUpstreamArg(s, g, x))
  {
    var st' := SetUpstreamArg(st, g, x);
    assert st'.cfg == st.cfg;
    match e
    case Opt(code, arg) =>
      if code == 'N' {
      } else if code in "MafrnvVh" {
        assert Flag(st', code) == match Flag(st, code) case Stop(o) => Stop(o) case Continue(s) => Continue(SetUpstreamArg(s, g, x));
      } else if code in "blct46gmdop" && arg.Some? {
        WithArgumentIgnoresUpstreamArg(env, st, code, arg.value, g, x);
      }
    case _ =>
  }

  lemma WithArgumentIgnoresUpstreamArg(env: Env, st: ScanState, code: char, a: string, g: Group, x: string)
    ensures WithArgument(env, SetUpstreamArg(st, g, x), code, a) ==
      match WithArgument(env, st, code, a)
      case Stop(o) => Stop(o)
      case Continue(s) => Continue(if code == GroupCode(g) then s else SetUpstreamArg(s, g, x))
  {
    assert SetUpstreamArg(st, g, x).cfg == st.cfg;
    match code
    case 'l' =>
    case 'o' =>
    case 'p' =>
    case _ =>
  }

  /** The loop never reads a server list: starting it with another list
      changes nothing but that list, and not even that once an option
      replaces it. */
  lemma {:induction false} ScanIgnoresUpstreamArg(env: Env, st: ScanState, events: seq<Event>, g: Group, x: string)
    ensures Scan(env, SetUpstreamArg(st, g, x), events) ==
      match Scan(env, st, events)
      case Stop(o) => Stop(o)
      case Continue(s) => Continue(if HasUpstreamSetter(events, g) then s else SetUpstreamArg(s, g, x))
    decreases |events|
  {
    if |events| > 0 {
      var e := events[0];
      var rest := events[1..];
      StepIgnoresUpstreamArg(env, st, e, g, x);
      assert HasUpstreamSetter(events, g) <==> SetsUpstream(e, g) || HasUpstreamSetter(rest, g) by {
        if HasUpstreamSetter(rest, g) {
          var i :| 0 <= i < |rest| && SetsUpstream(rest[i], g);
          assert events[i + 1] == rest[i];
        }
        if HasUpstreamSetter(events, g) && !SetsUpstream(e, g) {
          var i :| 0 <= i < |events| && SetsUpstream(events[i], g);
          assert rest[i - 1] == events[i];
        }
      }
      match Step(env, st, e)
      case Stop(_) =>
      case Continue(s) =>
        if SetsUpstream(e, g) {
        } else {
          ScanIgnoresUpstreamArg(env, s, rest, g, x);
        }
    } else {
      assert !HasUpstreamSetter(events, g);
    }
  }

  /** A `-c` / `-t` list followed later by another one is never parsed,
      so an error in it is never reported. */
  lemma EarlierUpstreamArgIgnored(env: Env, before: seq<Event>, g: Group, x: string, after: seq<Event>)
    requires HasUpstreamSetter(after, g)
    ensures Parse(env, before + [Opt(GroupCode(g), Some(x))] + after) == Parse(env, before + after)
  {
    var e := Opt(GroupCode(g), Some(x));
    ScanAppend(env, InitialState, before, [e] + after);
    ScanAppend(env, InitialState, before, after);
    assert before + [e] + after == before + ([e] + after);
    match Scan(env, InitialState, before)
    case Stop(_) =>
    case Continue(s) =>
      assert ([e] + after)[0] == e && ([e] + after)[1..] == after;
      ArgumentStep(env, s, GroupCode(g), x);
      assert Step(env, s, e) == Continue(SetUpstreamArg(s, g, x));
      ScanIgnoresUpstreamArg(env, s, after, g, x);
  }

  // ---------------------------------------------------------------------
  // Whole runs

  /** With no options at all, the result is the built-in configuration
      with one china server 114.114.114.114 and one trust server 8.8.8.8,
      both on port 53. */
  lemma NoOptionsGiveDefaults(env: Env)
    requires env.classify(DefaultChinaDns) != NoFamily && env.classify(DefaultTrustDns) != NoFamily
    requires env.groupCount >= 1 && env.ipPortStrLen > |DefaultChinaDns|
    ensures Parse(env, []) == Ready(Settings(
      DefaultConfig,
      SockAddr(env.classify(DefaultBindIp), DefaultBindIp, 65353),
      [Server(DefaultChinaDns, SockAddr(env.classify(DefaultChinaDns), DefaultChinaDns, 53))],
      [Server(DefaultTrustDns, SockAddr(env.classify(DefaultTrustDns), DefaultTrustDns, 53))]))
  {
    assert ',' !in DefaultChinaDns && '#' !in DefaultChinaDns;
    assert ',' !in DefaultTrustDns && '#' !in DefaultTrustDns;
    SingleServerList(env, DefaultChinaDns, China);
    SingleServerList(env, DefaultTrustDns, Trust);
    assert Scan(env, InitialState, []) == Continue(InitialState);
  }

  /** One `-N` option with rule letters other than `a` ORs their flags
      into whatever mask earlier `-N` options left, then simplifies. */
  lemma NoIpv6Step(env: Env, st: ScanState, s: string)
    requires AaaaFilter.ValidRules(s) && 'a' !in s
    requires |s| > 0 && s[0] != '='
    ensures Step(env, st, Opt('N', Some(s))) ==
      Continue(st.(cfg := st.cfg.(noAaaa := AaaaFilter.Simplify(st.cfg.noAaaa + AaaaFilter.Flags(s)))))
  {
    var mask := AaaaFilter.Simplify(st.cfg.noAaaa + AaaaFilter.Flags(s));
    assert AaaaFilter.ParseRules(st.cfg.noAaaa, Some(s)) == Success(mask) by {
      AaaaFilter.ApplyAddsFlags(st.cfg.noAaaa, s);
    }
  }

  /** getopt hands `-N` an argument only when it is attached (`-Ngm`,
      `--no-ipv6=gm`). Without one, as in `-N gm`, the mask becomes exactly
      `NOAAAA_ALL`, whatever earlier `-N` options left. */
  lemma NoIpv6WithoutArgument(env: Env, st: ScanState)
    ensures Step(env, st, Opt('N', None)) == Continue(st.(cfg := st.cfg.(noAaaa := {AaaaFilter.All})))
  {
  }

  /** Repeated `-N` options accumulate: `-Ng -Nm -Nn` ends with every
      tag filtered, which simplifies to filtering everything. */
  lemma NoIpv6Accumulates(env: Env)
    ensures var r := Scan(env, InitialState, [Opt('N', Some("g")), Opt('N', Some("m")), Opt('N', Some("n"))]);
      r.Continue? && r.state.cfg.noAaaa == {AaaaFilter.All}
  {
    var events := [Opt('N', Some("g")), Opt('N', Some("m")), Opt('N', Some("n"))];
    assert AaaaFilter.Flags("g") == {AaaaFilter.TagGfw};
    assert AaaaFilter.Flags("m") == {AaaaFilter.TagChn};
    assert AaaaFilter.Flags("n") == {AaaaFilter.TagNone};
    NoIpv6Step(env, InitialState, "g");
    var s1 := Step(env, InitialState, events[0]);
    assert s1.Continue? && s1.state.cfg.noAaaa == {AaaaFilter.TagGfw};
    NoIpv6Step(env, s1.state, "m");
    var s2 := Step(env, s1.state, events[1]);
    assert s2.Continue? && s2.state.cfg.noAaaa == {AaaaFilter.TagGfw, AaaaFilter.TagChn};
    NoIpv6Step(env, s2.state, "n");
    var s3 := Step(env, s2.state, events[2]);
    assert s3.Continue? && s3.state.cfg.noAaaa == {AaaaFilter.All};
    assert events[1..][1..][1..] == [];
    assert Scan(env, s2.state, events[1..][1..]) == s3;
    assert Scan(env, s1.state, events[1..]) == s3;
  }

  /** `-l n` for a written number `n`: refused when `n` is a multiple of
      65536 (so "0" and "65536"), otherwise the port is `n mod 65536`. */
  lemma BindPortOfDecimal(env: Env, st: ScanState, n: nat)
    requires n <= UlongMax
    ensures var r := Step(env, st, Opt('l', Some(ToDecimal(n))));
      && (n % 0x1_0000 == 0 ==> r == Stop(Failed(InvalidListenPort(ToDecimal(n)))))
      && (n % 0x1_0000 != 0 ==> r == Continue(st.(cfg := st.cfg.(bindPort := n % 0x1_0000))))
  {
    StrtoulOfDecimal(n);
  }

  /** The numeric options read their argument with `strtoul`, which
      negates a minus-signed number modulo 2^64 (`StrtoulSigned`): an
      argument read as `-n` listens on port `65536 - n`, repeats
      `256 - n` times and, as an `int`, is a negative timeout and refused.
      So "-l -1" listens on 65535 and "-p -1" repeats 255 times. */
  lemma NegativeArguments(env: Env, st: ScanState, a: string, n: nat)
    requires 0 < n < 0x100 && Strtoul(a) == Negate(n)
    ensures Step(env, st, Opt('l', Some(a))) == Continue(st.(cfg := st.cfg.(bindPort := 0x1_0000 - n)))
    ensures Step(env, st, Opt('p', Some(a))) == Continue(st.(cfg := st.cfg.(repeatTimes := 0x100 - n)))
    ensures Step(env, st, Opt('o', Some(a))) == Stop(Failed(InvalidTimeout(a)))
  {
    NegationToU16(n);
    NegationToU8(n);
    NegationToInt32(n);
    ListenPortStep(env, st, a, UlongMax + 1 - n);
    RepeatTimesStep(env, st, a, UlongMax + 1 - n);
    TimeoutStep(env, st, a, UlongMax + 1 - n);
  }

  // The three numeric cases of the switch, for an argument `strtoul`
  // reads as `v`.

  lemma ListenPortStep(env: Env, st: ScanState, a: string, v: nat)
    requires Strtoul(a) == v
    ensures Step(env, st, Opt('l', Some(a))) ==
      if ToU16(v) == 0 then Stop(Failed(InvalidListenPort(a)))
      else Continue(st.(cfg := st.cfg.(bindPort := ToU16(v))))
  {
    ArgumentStep(env, st, 'l', a);
  }

  lemma RepeatTimesStep(env: Env, st: ScanState, a: string, v: nat)
    requires Strtoul(a) == v
    ensures Step(env, st, Opt('p', Some(a))) ==
      if ToU8(v) == 0 then Stop(Failed(InvalidRepeatTimes(a)))
      else Continue(st.(cfg := st.cfg.(repeatTimes := ToU8(v))))
  {
    ArgumentStep(env, st, 'p', a);
  }

  lemma TimeoutStep(env: Env, st: ScanState, a: string, v: nat)
    requires Strtoul(a) == v
    ensures Step(env, st, Opt('o', Some(a))) ==
      if ToInt32(v) <= 0 then Stop(Failed(InvalidTimeout(a)))
      else Continue(st.(cfg := st.cfg.(timeoutSec := ToInt32(v))))
  {
    ArgumentStep(env, st, 'o', a);
  }
}
