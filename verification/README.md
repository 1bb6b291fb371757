# chinadns-ng command-line parsing, in Dafny

This project models `opt.c` of chinadns-ng: the code that turns the command
line into the process configuration. It covers:

- the initial values of the global settings;
- the `getopt_long` tables;
- the dispatch loop of `opt_parse`, one handler per option;
- `parse_noaaaa_rules`, which builds the `-N/--no-ipv6` filter mask;
- `parse_upstream_addrs`, which parses the `-c/--china-dns` and
  `-t/--trust-dns` lists of `ip[#port]` servers into slots;
- the finalisation: the listen socket address is built, then the china
  list and the trust list are parsed, in that order.

Modules, one per file:

| module | file | what it holds |
|---|---|---|
| `Wrappers` | wrappers.dfy | `Option` and `Result` (with `:-`). |
| `Types` | types.dfy | Address family, socket address, server group, every `err_exit` message as an `Error` constructor, and the `Env` parameter described below. |
| `Widths` | widths.dfy | The C integer conversions: to `uint8_t`, to the 16-bit `portno_t`, and to a 32-bit two's-complement `int`. |
| `Strings` | strings.dfy | `strchr` (`IndexOf`), plus a `Split`/`Join` pair used to state what the list parser does. |
| `Decimal` | decimal.dfy | `strtoul(s, NULL, 10)`: leading white space, one optional sign, the leading digit run, saturation at `ULONG_MAX` and negation modulo 2^64. Also `ToDecimal`, which reads back through it. |
| `Options` | options.dfy | The short- and long-option tables, how getopt reads an argument kind from the short string, getopt's results as `Event`s, and the name cut out of an unknown `--name=value`. |
| `AaaaFilter` | aaaa_filter.dfy | `parse_noaaaa_rules`: letters to flags, with the final simplification to `NOAAAA_ALL`. |
| `Upstreams` | upstreams.dfy | `parse_upstream_addrs`. |
| `OptParse` | opt_parse.dfy | The configuration record, its defaults, one step of the loop, the loop (`Scan`), `Finalize`, and `Parse`, which is the whole of `opt_parse`. |

`err_exit` and `exit(0)` become outcomes: `Failed(error)`, `ShowVersion`
and `ShowHelp`. `ExitStatus` maps those to exit codes 1, 0 and 0. A normal
return is `Ready(settings)`.

The command line enters as the sequence of results `getopt_long` returns
(`Options.Event`). A result is one of:

- a recognised option code with its `optarg`;
- `':'` for a missing argument, with the offending `argv` element;
- `'?'` for an unknown short option or an unknown long option.

Three things from `opt.h` are not part of this model. They are fields of an
`Env` parameter:

- `classify` stands for `get_ipstr_family`. `NoFamily` stands for its `-1`.
- `groupCount` stands for `SERVER_GROUP_CNT`.
- `ipPortStrLen` stands for `IP_PORT_STRLEN`.

`build_socket_addr` is modelled as the record `SockAddr(family, ip, port)`.

The `-N` mask is a set of eight flags. `NOAAAA_ALL` is a flag of its own,
`All`. `is_filter_all_v6` and the flag values live in a header that is not
part of this model. The model assumes that `is_filter_all_v6(m)` means "the
`All` flag is set in `m`" (`AaaaFilter.IsFilterAll`). The broader meaning,
"this mask filters every AAAA query", is kept as `FiltersEverything`. The
simplification at opt.c:238-244 is proved to preserve it, and the parsed
mask is proved to carry `All` whenever it holds.

Facts about `opt.c` that the model keeps:

- The string stored for a server (`g_remote_ipports`) is the whole token,
  including any `#port` suffix (opt.c:167-169, 190).
- The address is split from the port at the FIRST `#` (opt.c:177).
- A list with more tokens than `SERVER_GROUP_CNT` fails with the
  "max count" error only when the first `SERVER_GROUP_CNT` tokens are all
  valid. The loop checks the count at the top of each turn and reports a bad
  token as soon as it reaches it (opt.c:151-186). So a bad token that still
  has a slot is reported instead (`Upstreams.FirstBadServerReported`).
- Ports and counts go through their C types (opt.c:180, 264, 296, 300):
  `strtoul` saturates, `g_bind_portno` is a `portno_t`,
  `g_upstream_timeout_sec` is an `int`, and `g_repeat_times` is a `uint8_t`
  (opt.c:26, 31-32). So `-l 65536`, a server `ip#65536`, `-p 256` and
  `-o 4294967296` are all refused as zero, while `-l 65537` listens on port
  1 (`Upstreams.PortWraps`, `OptParse.NumericHandlers`). The widths are
  assumptions: `portno_t` is declared in a header that is not part of this
  model and is taken to be a 16-bit unsigned type, `unsigned long` is taken
  to be 64 bits wide and `int` 32 bits wide, as on LP64 Linux.
- `strtoul` skips leading white space and reads one `+` or `-` before the
  digits, and a `-` negates the value modulo 2^64 (opt.c:180, 264, 296, 300).
  So `-l " 53"` and `-l +53` listen on 53, `-l -1` listens on 65535,
  `-p -1` repeats 255 times, `-o -1` is refused, and a server
  `1.2.3.4#+53` is on port 53 (`OptParse.NegativeArguments`,
  `Upstreams.PortOfSigned`).
- Every option code getopt can return reaches a case of the switch
  (opt.c:256-349 against the tables at opt.c:55-101):
  `OptParse.WellFormedDispatch`.

## Model

| member | source | states |
|---|---|---|
| OptParse.NoOptionsGiveDefaults | opt.c:11-32 | With no options the configuration is exactly the initial values of the globals. The servers are one china server, 114.114.114.114:53, and one trust server, 8.8.8.8:53, and the listen address is 127.0.0.1:65353. |
| OptParse.ExitStatus | opt.c:141-145 | Exit status 1 exactly for an error, 0 for version and help, and no exit exactly when parsing returns. |
| Options.TablesAgree | opt.c:55-102 | Every one of the 20 long options has a code that the short-option string lists, with the same argument kind. |
| Options.LongOptionName | opt.c:343-346 | The reported name of an unknown long option is a prefix of the `argv` element. It contains no `=` and stops exactly at the first `=`, if there is one. |
| Options.LongOptionNameOf | opt.c:343-346 | `--name=value` and `--name` are both reported as `--name`. |
| OptParse.ErrorEvents | opt.c:332-348 | A missing argument is reported with its `argv` element. An unknown short option is reported as `-c`, and an unknown long option by its name before the first `=`. |
| OptParse.BindAddrHandler | opt.c:258-262 | `-b` succeeds exactly when the address classifies, and then stores it. Otherwise it fails with the invalid-listen-ip error. |
| OptParse.NumericHandlers | opt.c:263-302 | `-l` fails exactly when the 16-bit port is zero. `-o` fails exactly when the 32-bit `int` is not positive. `-p` fails exactly when the 8-bit count is zero. Otherwise each stores the converted value, and each failure is its own error. |
| OptParse.NegativeArguments | opt.c:263-302 | An argument `strtoul` reads as minus `n` (`0 < n < 256`) makes `-l` listen on `65536 - n` and `-p` repeat `256 - n` times, and makes `-o` fail with the invalid-timeout error. |
| OptParse.BindPortOfDecimal | opt.c:263-266 | For any `n` up to `ULONG_MAX`, `-l n` is refused when `n` is a multiple of 65536 (so `0` and `65536`), and otherwise listens on `n mod 65536`. |
| OptParse.DefaultTagHandler | opt.c:285-294 | `-d` accepts exactly `gfw`, `chn` and `none`, each setting its tag. Anything else is the invalid-tag error. |
| OptParse.FlagEffects | opt.c:306-323 | `-M`, `-a`, `-r`, `-n` and `-v` set their booleans, and `-f` changes nothing. |
| OptParse.Flag | opt.c:306-331 | An option without an argument either stops with version or help, or leaves the listen address, the timeout, the repeat count and the mask alone. |
| OptParse.WithArgument | opt.c:258-302 | An option with an argument stops only with an error, and keeps every setting within its valid range. |
| OptParse.Step | opt.c:256-349 | One turn of the loop never ends in a normal return, and keeps the configuration valid. |
| Options.ShortCodes | opt.c:55-78 | The short-option string lists exactly `blct46gmdop` as requiring an argument, only `N` as taking an optional one, and exactly `MafrnvVh` as taking none. |
| OptParse.WellFormedDispatch | opt.c:256-331 | For any option result getopt can return, the code has a case in the switch. An option that requires an argument is handled with that argument, and an option that takes none is handled by the flag cases. |
| OptParse.VersionAndHelpEndParsing | opt.c:324-331 | `-V` and `-h` end parsing with version or help, whatever follows them and however the server lists would parse. |
| OptParse.StopIsFinal | opt.c:256-350 | The first option that ends the process decides the outcome. Later options are never looked at. |
| OptParse.FirstErrorWins | opt.c:256-350 | The first failing option's error is the result of the whole parse. |
| OptParse.ScanAppend | opt.c:256-350 | Running the loop over `a + b` is running it over `a`, then, unless it stopped, over `b` from where it left off. |
| OptParse.Scan | opt.c:256-350 | The loop never ends in a normal return by itself, and keeps the configuration valid. |
| OptParse.StepChangesOnlyItsField | opt.c:256-349 | One option changes at most the setting it names. `-c`, `-t` and `-f` change no setting. |
| OptParse.WithArgumentChangesOnlyItsField | opt.c:258-302 | Each option with an argument changes at most its own setting. |
| OptParse.FlagChangesOnlyItsField | opt.c:306-323 | Each option without an argument changes at most its own setting. |
| OptParse.ScanChangesOnlyNamedFields | opt.c:256-350 | A run of the loop changes only settings that some option on the command line names. |
| OptParse.FieldsInMembers | opt.c:256-350 | A setting is named by a command line exactly when one of its options names it. |
| OptParse.NoIpv6FieldOnlyFromN | opt.c:303-305 | Only `-N` names the mask. |
| OptParse.NoIpv6AbsentLeavesMaskEmpty | opt.c:14 | Without `-N` the mask keeps its initial value 0 (no AAAA filtering). |
| OptParse.StepUpstreamArg | opt.c:267-272 | `-c` and `-t` replace the pending list of their own group and leave the other group's list alone. |
| OptParse.ScanKeepsLastUpstreamArg | opt.c:253-272 | After the loop, each group's pending list is the one from its last option. This is a reference defined by reading the command line from the end. |
| OptParse.ParseUsesLastUpstreamArgs | opt.c:253-354 | Finalisation parses the last `-c` list, or 114.114.114.114, and the last `-t` list, or 8.8.8.8. |
| OptParse.StepIgnoresUpstreamArg | opt.c:256-349 | No option's outcome depends on a group's pending list. The list only changes when that group's option is given. |
| OptParse.WithArgumentIgnoresUpstreamArg | opt.c:258-302 | Each handler with an argument behaves the same whatever the pending lists hold. |
| OptParse.ScanIgnoresUpstreamArg | opt.c:256-350 | The loop's outcome does not depend on the pending lists, and a group's list survives unless the command line sets it. |
| OptParse.EarlierUpstreamArgIgnored | opt.c:267-272 | A `-c` or `-t` option followed later by another of the same group has no effect at all. |
| OptParse.Finalize | opt.c:352-354 | The result is a normal return exactly when both lists parse, and then holds those parses' servers, the loop's configuration, and the listen address built from the final `-b`/`-l` values with the family `get_ipstr_family` gives. A bad china list is the error whatever the trust list holds. A bad trust list after a good china list is the error. Each group has between 1 and `SERVER_GROUP_CNT` servers. |
| OptParse.Parse | opt.c:247-355 | A normal return has a valid configuration and between 1 and `SERVER_GROUP_CNT` servers in each group. A valid configuration has a listen port in 1..65535, a timeout in 1..2^31-1, a repeat count in 1..255, a simplified mask, and a listen address that classifies or is the default. |
| OptParse.NoIpv6Step | opt.c:194-245 | For any earlier mask, one `-N` whose rule letters are valid, contain no `a` and do not start with `=` ORs those letters' flags into the mask and then simplifies it. The outcome depends on the earlier `-N` options only through the mask they left. |
| OptParse.NoIpv6WithoutArgument | opt.c:195-198 | A `-N` that getopt hands over without an argument sets the mask to exactly `NOAAAA_ALL`, whatever earlier `-N` options left. |
| OptParse.NoIpv6Accumulates | opt.c:303-305 | An example of that accumulation: `-Ng -Nm -Nn` ends with the mask `{All}`. |
| AaaaFilter.ParseRules | opt.c:194-245 | No argument means filter all. An empty argument (after one optional `=`) is the needs-an-argument error, invalid letters fail, and valid letters succeed. A successful result is simplified. |
| AaaaFilter.Apply | opt.c:206-236 | The letter loop succeeds exactly when every letter is a rule letter. |
| AaaaFilter.EqualsPrefixIgnored | opt.c:200-201 | One leading `=` makes no difference: `-N=s` (whose argument is `=s`) has the same outcome as `-Ns` and `--no-ipv6=s`, for every incoming mask and every `s` that does not itself start with `=`. |
| AaaaFilter.SecondEqualsRejected | opt.c:200-234 | Only one `=` is dropped: `-N==s` fails with the unknown-rule error naming `=`. |
| AaaaFilter.FirstInvalidRuleReported | opt.c:232-234 | The first letter that is not a rule is the one the error names. |
| AaaaFilter.ApplyAddsFlags | opt.c:206-236 | Without `a`, the letters OR their flags into the incoming mask. |
| AaaaFilter.ApplyAfterReset | opt.c:208-209 | `a` replaces the mask with `NOAAAA_ALL`. Only the letters after the last `a` add to it. |
| AaaaFilter.FlagsMembers | opt.c:206-236 | A flag is set by a rule string exactly when one of its letters names that flag. |
| AaaaFilter.Simplify | opt.c:238-244 | The simplified mask is either the mask itself or exactly `NOAAAA_ALL`. A mask with `All` is kept, what the mask filters is unchanged, and a mask that filters everything carries `All`. |
| AaaaFilter.RulesOrderIrrelevant | opt.c:206-244 | Two rule strings with the same letters, neither containing `a`, give the same result: the same mask or the same kind of outcome. |
| AaaaFilter.ValidRulesByLetters | opt.c:206-236 | Validity depends only on which letters occur. |
| AaaaFilter.CoveringRulesCollapse | opt.c:238-244 | Letters naming all three tags (`gmn`, `ngm`, `gggmn`) or both upstreams (`ct`) give exactly `NOAAAA_ALL`, when the incoming mask does not already hold `All`. |
| AaaaFilter.PartialRulesKept | opt.c:206-244 | Letters that do not cover everything, such as `c` alone, just add their flags to the incoming mask. |
| Upstreams.ParseServer | opt.c:176-190 | An accepted token is stored as written. Its address has a family and a port in 1..65535, and the address part has no `#` and is a prefix of the token. |
| Upstreams.PortNumber | opt.c:176-182 | A port is below 65536, and equals the value `strtoul` reads whenever that is below 65536. |
| Upstreams.ServerWithoutPort | opt.c:176-186 | Without `#`, the token is the address with port 53. It is accepted exactly when it classifies, and is otherwise the invalid-server-ip error. |
| Upstreams.ServerWithPort | opt.c:176-190 | With `#`, the address is the text before the first `#` and the port is read from the text after it. A zero port is the invalid-port error before the address is checked. |
| Upstreams.ServerRoundTrip | opt.c:176-190 | `ip#port` for any port in 1..65535 parses back to the same address, family and port. |
| Upstreams.PortWraps | opt.c:176-182 | A written port `n` is taken as `n mod 65536`, and is refused exactly when that is 0. |
| Upstreams.ParseFrom | opt.c:147-192 | A successful list fills between 1 slot and the free slots, each with an address that has a family. |
| Upstreams.ParseUpstreams | opt.c:147-192 | A successful list holds between 1 and `SERVER_GROUP_CNT` servers. |
| Upstreams.ParseFromMeaning | opt.c:147-192 | Checked against the comma split: the list parses exactly when its pieces fit in the free slots and each piece is a good server. Slot `i` then holds the server of piece `i`. |
| Upstreams.TooManyServersReported | opt.c:152-153 | When every piece that gets a slot is good but pieces are left over, the error is the group's max-count error. |
| Upstreams.FirstBadServerReported | opt.c:155-186 | The first bad piece that still has a slot is reported, with the error of its first failing check (length, then port, then address). |
| Upstreams.SingleServerList | opt.c:147-192 | A one-address list is one server on port 53. |
| Upstreams.TwoServerList | opt.c:147-192 | Two good tokens joined by a comma fill two slots, in order. |
| Upstreams.PortPerToken | opt.c:147-192 | In `ip1#port,ip2`, the explicit port applies to the first server only. The second gets 53. |
| Upstreams.EmptyServerRejected | opt.c:155-186 | Assuming `get_ipstr_family("")` is -1, an empty list, or one with a trailing comma, is rejected. |
| Decimal.Strtoul | opt.c:180 | `strtoul` returns at most `ULONG_MAX`. |
| Decimal.StrtoulSkipsSpace | opt.c:180 | Leading white space (blank, tab, newline, vertical tab, form feed, carriage return) does not change what `strtoul` reads. |
| Decimal.StrtoulSigned | opt.c:264 | After any white space, a rendered `unsigned long` reads back as itself, with `+` as itself, and with `-` as its negation modulo 2^64. |
| Decimal.StrtoulSaturates | opt.c:296 | A written number above `ULONG_MAX`, with or without a sign, reads as `ULONG_MAX`. |
| Decimal.NegateWraps | opt.c:300 | The negation `strtoul` applies is negation modulo 2^64: adding the value back gives a multiple of 2^64. |
| Decimal.LeadingValueIsValue | opt.c:180 | The digit loop reads exactly the leading digit run. Its result is the value of that run, most significant digit first. |
| Decimal.LeadingValueZero | opt.c:180 | The number reads as zero exactly when its leading digits are all `0` or absent. So `""`, `"abc"` and `"00x"` read as zero. |
| Decimal.StrtoulOfDecimal | opt.c:180 | `strtoul` reads back any rendered `unsigned long`. |
| Decimal.LeadingValueOfDecimal | opt.c:180 | A rendered number followed by non-digit text reads back as the number. |
| Upstreams.PortOfDecimal | opt.c:176-182 | A rendered port below 65536 reads back as itself. |
| Upstreams.PortOfSigned | opt.c:176-182 | A port written after white space reads as itself, with `+` as itself, and with `-` as `65536 - n`. |
| Widths.ToInt32Positive | opt.c:296 | The stored timeout is positive exactly when the low 32 bits of the value read are nonzero with the sign bit clear, and it is then those bits. |
| Widths.NegationToU8 | opt.c:300 | A `uint8_t` keeps `256 - n` of the negation of a small `n`. |
| Widths.NegationToU16 | opt.c:264 | A 16-bit `portno_t` keeps `65536 - n` of the negation of a port-sized `n`. |
| Widths.NegationToInt32 | opt.c:296 | An `int` reads the negation of an `n` up to 2^31 as `-n`. |
| Widths.ToU16 | opt.c:176 | The stored port is below 2^16 and congruent to the value read, modulo 2^16. |
| Widths.ToInt32 | opt.c:296 | The stored timeout is a 32-bit signed value congruent to the value read, modulo 2^32. |
| Widths.ToU8 | opt.c:300 | The stored repeat count is below 256 and congruent to the value read, modulo 256. |
| Strings.IndexOf | opt.c:155 | `strchr`: no position exactly when the character is absent. Otherwise the position holds the character and no earlier position does. |
| Strings.SplitJoin | opt.c:151-191 | Splitting at commas and joining back gives the original list. This is the reference the list parser is compared with. |

## Left out

- Tokenising `argv` (permutation, `--`, abbreviated long options, `optind`) belongs to the C library's `getopt_long`. The model starts from the sequence of results it returns.
- Printing the help text, the version string and the error messages, and calling `exit`. The model returns the outcome, its `Error` value and the exit status instead.
- `get_ipstr_family`, `build_socket_addr`, `SERVER_GROUP_CNT` and `IP_PORT_STRLEN` are declared in headers that are not part of this model. They are parameters (`Env`).
- The slot index `CHINADNS1_IDX`/`TRUSTDNS1_IDX + cnt - 1` and the global arrays. Each group's servers are returned as a sequence in slot order.
- Memory handling: `malloc` of the stored token, and the stack buffer bounded by the length check, which the model keeps as a check.
- Decimal.Strtoul: only base 10 in the "C" locale is modelled, which is how every call in `opt.c` uses it. `errno` and the end pointer are not modelled, because `opt.c` passes `NULL` and never reads `errno`.
- AaaaFilter.Simplify: the flag values and `is_filter_all_v6` come from a header that is not part of this model. If `is_filter_all_v6(f)` there means `f == NOAAAA_ALL` rather than "the `All` bit is set", then a mask that already holds `All` and more flags, such as the one `-Nagmn` builds, collapses to `{All}` in the C code, while the model keeps `{All, TagGfw, TagChn, TagNone}`. Both forms filter every AAAA query.
- Strings are taken to be free of NUL characters, as C `argv` strings are.
- Upstreams.ParseFrom: `argv` is taken to be ASCII, one byte per character. `strlen` counts bytes, so a token with multi-byte UTF-8 characters can fail the `IP_PORT_STRLEN` check in C (opt.c:155-159) where the model, counting characters, lets it through. For the same reason `AaaaFilter.FirstInvalidRuleReported` names a character where C names one byte of it.
- `opterr = 0` (opt.c:248) only silences getopt's own messages. The model has no printing, so there is nothing to silence.
