/** The option table `opt_parse` hands to `getopt_long` (short-option
    string and long-option array) and the events getopt produces from it. */
module Options {
  import opened Wrappers
  import opened Strings

  datatype HasArg = NoArgument | RequiredArgument | OptionalArgument

  datatype LongOption = LongOption(name: string, hasArg: HasArg, code: char)

  /** The short-option string: a leading ':' asks getopt to report a
      missing argument as ':'; one ':' after a code means a required
      argument and two mean an optional one. */
  const ShortOpts: string := ":b:l:c:t:4:6:g:m:d:o:p:N::MafrnvVh"

  const LongOpts: seq<LongOption> := [
    LongOption("bind-addr", RequiredArgument, 'b'),
    LongOption("bind-port", RequiredArgument, 'l'),
    LongOption("china-dns", RequiredArgument, 'c'),
    LongOption("trust-dns", RequiredArgument, 't'),
    LongOption("ipset-name4", RequiredArgument, '4'),
    LongOption("ipset-name6", RequiredArgument, '6'),
    LongOption("gfwlist-file", RequiredArgument, 'g'),
    LongOption("chnlist-file", RequiredArgument, 'm'),
    LongOption("default-tag", RequiredArgument, 'd'),
    LongOption("timeout-sec", RequiredArgument, 'o'),
    LongOption("repeat-times", RequiredArgument, 'p'),
    LongOption("no-ipv6", OptionalArgument, 'N'),
    LongOption("chnlist-first", NoArgument, 'M'),
    LongOption("add-tagchn-ip", NoArgument, 'a'),
    LongOption("fair-mode", NoArgument, 'f'),
    LongOption("reuse-port", NoArgument, 'r'),
    LongOption("noip-as-chnip", NoArgument, 'n'),
    LongOption("verbose", NoArgument, 'v'),
    LongOption("version", NoArgument, 'V'),
    LongOption("help", NoArgument, 'h')
  ]

  /** How getopt reads the argument kind of `code` from `ShortOpts`,
      looking from position `k` on: find the code's first occurrence,
      then count the ':' after it. */
  function KindFrom(code: char, k: nat): Option<HasArg>
    decreases |ShortOpts| - k
  {
    if k >= |ShortOpts| then None
    else if ShortOpts[k] == code then
      if k + 1 < |ShortOpts| && ShortOpts[k + 1] == ':' then
        if k + 2 < |ShortOpts| && ShortOpts[k + 2] == ':' then Some(OptionalArgument) else Some(RequiredArgument)
      else Some(NoArgument)
    else KindFrom(code, k + 1)
  }

  /** The argument kind of a short code; ':' is never an option. */
  function ShortHasArg(code: char): Option<HasArg> {
    if code == ':' then None else KindFrom(code, 0)
  }

  /** One result of a `getopt_long` call: a recognised option with its
      `optarg`, the ':' of a missing argument (with the offending
      `argv` element), or the '?' of an unknown short or long option. */
  datatype Event =
    | Opt(code: char, arg: Option<string>)
    | MissingArg(option: string)
    | UnknownShort(short: char)
    | UnknownLong(option: string)

  /** Positions that do not hold the code are skipped over. */
  lemma {:induction false} KindFromSkips(code: char, k: nat, j: nat)
    requires k <= j <= |ShortOpts|
    requires forall m :: k <= m < j ==> ShortOpts[m] != code
    ensures KindFrom(code, k) == KindFrom(code, j)
    decreases j - k
  {
    if k < j {
      KindFromSkips(code, k + 1, j);
    }
  }

  /** The kind of a code is read at its first occurrence, from the colons
      that follow it. */
  lemma KindAt(code: char, k: nat, kind: HasArg)
    requires code != ':' && k < |ShortOpts| && ShortOpts[k] == code
    requires forall m :: 0 <= m < k ==> ShortOpts[m] != code
    requires kind == (if k + 1 < |ShortOpts| && ShortOpts[k + 1] == ':' then
      (if k + 2 < |ShortOpts| && ShortOpts[k + 2] == ':' then OptionalArgument else RequiredArgument)
      else NoArgument)
    ensures ShortHasArg(code) == Some(kind)
  {
    KindFromSkips(code, 0, k);
  }

  // The argument kind getopt reads for each code of the table, one code
  // per lemma so that each proof stays small.

  lemma KindBindAddr() ensures ShortHasArg('b') == Some(RequiredArgument) { KindAt('b', 1, RequiredArgument); }
  lemma KindBindPort() ensures ShortHasArg('l') == Some(RequiredArgument) { KindAt('l', 3, RequiredArgument); }
  lemma KindChinaDns() ensures ShortHasArg('c') == Some(RequiredArgument) { KindAt('c', 5, RequiredArgument); }
  lemma KindTrustDns() ensures ShortHasArg('t') == Some(RequiredArgument) { KindAt('t', 7, RequiredArgument); }
  lemma KindIpsetName4() ensures ShortHasArg('4') == Some(RequiredArgument) { KindAt('4', 9, RequiredArgument); }
  lemma KindIpsetName6() ensures ShortHasArg('6') == Some(RequiredArgument) { KindAt('6', 11, RequiredArgument); }
  lemma KindGfwlistFile() ensures ShortHasArg('g') == Some(RequiredArgument) { KindAt('g', 13, RequiredArgument); }
  lemma KindChnlistFile() ensures ShortHasArg('m') == Some(RequiredArgument) { KindAt('m', 15, RequiredArgument); }
  lemma KindDefaultTag() ensures ShortHasArg('d') == Some(RequiredArgument) { KindAt('d', 17, RequiredArgument); }
  lemma KindTimeoutSec() ensures ShortHasArg('o') == Some(RequiredArgument) { KindAt('o', 19, RequiredArgument); }
  lemma KindRepeatTimes() ensures ShortHasArg('p') == Some(RequiredArgument) { KindAt('p', 21, RequiredArgument); }
  lemma KindNoIpv6() ensures ShortHasArg('N') == Some(OptionalArgument) { KindAt('N', 23, OptionalArgument); }
  lemma KindChnlistFirst() ensures ShortHasArg('M') == Some(NoArgument) { KindAt('M', 26, NoArgument); }
  lemma KindAddTagchnIp() ensures ShortHasArg('a') == Some(NoArgument) { KindAt('a', 27, NoArgument); }
  lemma KindFairMode() ensures ShortHasArg('f') == Some(NoArgument) { KindAt('f', 28, NoArgument); }
  lemma KindReusePort() ensures ShortHasArg('r') == Some(NoArgument) { KindAt('r', 29, NoArgument); }
  lemma KindNoipAsChnip() ensures ShortHasArg('n') == Some(NoArgument) { KindAt('n', 30, NoArgument); }
  lemma KindVerbose() ensures ShortHasArg('v') == Some(NoArgument) { KindAt('v', 31, NoArgument); }
  lemma KindVersion() ensures ShortHasArg('V') == Some(NoArgument) { KindAt('V', 32, NoArgument); }
  lemma KindHelp() ensures ShortHasArg('h') == Some(NoArgument) { KindAt('h', 33, NoArgument); }

  /** The codes the short table gives a required argument, and those it
      gives none; 'N' alone takes an optional one. */
  const ArgumentCodes: string := "blct46gmdop"
  const FlagCodes: string := "MafrnvVh"

  /** A code that does not occur from `k` on is not found from `k`. */
  lemma {:induction false} KindFromAbsent(code: char, k: nat)
    requires forall j :: k <= j < |ShortOpts| ==> ShortOpts[j] != code
    ensures KindFrom(code, k).None?
    decreases |ShortOpts| - k
  {
    if k < |ShortOpts| {
      KindFromAbsent(code, k + 1);
    }
  }

  /** A character the short table does not list is not an option. */
  lemma NotInTable(code: char)
    requires code !in ArgumentCodes && code !in FlagCodes && code != 'N'
    ensures ShortHasArg(code).None?
  {
    if code != ':' {
      assert code !in ShortOpts;
      assert forall j :: 0 <= j < |ShortOpts| ==> ShortOpts[j] in ShortOpts;
      KindFromAbsent(code, 0);
    }
  }

  lemma ArgumentCodesRequire(code: char)
    requires code in ArgumentCodes
    ensures ShortHasArg(code) == Some(RequiredArgument)
  {
    if code == 'b' { KindBindAddr(); }
    else if code == 'l' { KindBindPort(); }
    else if code == 'c' { KindChinaDns(); }
    else if code == 't' { KindTrustDns(); }
    else if code == '4' { KindIpsetName4(); }
    else if code == '6' { KindIpsetName6(); }
    else if code == 'g' { KindGfwlistFile(); }
    else if code == 'm' { KindChnlistFile(); }
    else if code == 'd' { KindDefaultTag(); }
    else if code == 'o' { KindTimeoutSec(); }
    else { KindRepeatTimes(); }
  }

  lemma FlagCodesTakeNone(code: char)
    requires code in FlagCodes
    ensures ShortHasArg(code) == Some(NoArgument)
  {
    if code == 'M' { KindChnlistFirst(); }
    else if code == 'a' { KindAddTagchnIp(); }
    else if code == 'f' { KindFairMode(); }
    else if code == 'r' { KindReusePort(); }
    else if code == 'n' { KindNoipAsChnip(); }
    else if code == 'v' { KindVerbose(); }
    else if code == 'V' { KindVersion(); }
    else { KindHelp(); }
  }

  /** The short table in full: which codes take a required argument, an
      optional one, none, or are not options at all. */
  lemma ShortCodes(code: char)
    ensures ShortHasArg(code) == Some(RequiredArgument) <==> code in ArgumentCodes
    ensures ShortHasArg(code) == Some(OptionalArgument) <==> code == 'N'
    ensures ShortHasArg(code) == Some(NoArgument) <==> code in FlagCodes
  {
    if code in ArgumentCodes {
      ArgumentCodesRequire(code);
    } else if code in FlagCodes {
      FlagCodesTakeNone(code);
    } else if code == 'N' {
      KindNoIpv6();
    } else {
      NotInTable(code);
    }
  }

  /** What getopt guarantees of the option results it returns: the code is
      in the short table, and the argument is there exactly as the table
      says (an optional one may be either). */
  predicate WellFormed(e: Event) {
    e.Opt? ==>
      match ShortHasArg(e.code)
      case None => false
      case Some(NoArgument) => e.arg.None?
      case Some(RequiredArgument) => e.arg.Some?
      case Some(OptionalArgument) => true
  }

  /** The short and the long table agree: every long option's code is a
      short code with the same argument kind. */
  lemma TablesAgree()
    ensures forall i :: 0 <= i < |LongOpts| ==> ShortHasArg(LongOpts[i].code) == Some(LongOpts[i].hasArg)
  {
    KindBindAddr();
    KindBindPort();
    KindChinaDns();
    KindTrustDns();
    KindIpsetName4();
    KindIpsetName6();
    KindGfwlistFile();
    KindChnlistFile();
    KindDefaultTag();
    KindTimeoutSec();
    KindRepeatTimes();
    KindNoIpv6();
    KindChnlistFirst();
    KindAddTagchnIp();
    KindFairMode();
    KindReusePort();
    KindNoipAsChnip();
    KindVerbose();
    KindVersion();
    KindHelp();
    forall i | 0 <= i < |LongOpts|
      ensures ShortHasArg(LongOpts[i].code) == Some(LongOpts[i].hasArg)
    {
      assert LongOpts[i] in LongOpts;
    }
  }

  /** The name an unknown long option is reported under: the `argv`
      element up to its first '='. */
  function LongOptionName(option: string): (r: string)
    ensures '=' !in r
    ensures r <= option
    ensures |r| < |option| ==> option[|r|] == '='
  {
    match IndexOf(option, '=')
    case None => option
    case Some(k) => option[..k]
  }
  /** The name of `name=value`, or of a bare `name`, is `name`. */
  lemma LongOptionNameOf(name: string, value: string)
    requires '=' !in name
    ensures LongOptionName(name) == name
    ensures LongOptionName(name + "=" + value) == name
  {
    IndexOfAfter(name, '=', value);
    assert name + "=" + value == name + ['='] + value;
    assert (name + ['='] + value)[..|name|] == name;
  }

}
