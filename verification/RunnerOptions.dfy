/** The options of programs/run.c: parsed and validated by vmnet-run, printed as
    the helper's argument vector, and parsed again by the helper. */
module RunnerOptions {
  import opened Wrappers
  import opened Numbers
  import opened Getopt
  import opened HelperOptions
  import opened Descriptors

  /** struct client_options, and the verbose flag: arguments are kept as text. */
  datatype Client = Client(
    interfaceId: Option<string>, mode: Option<string>,
    startAddress: Option<string>, endAddress: Option<string>, subnetMask: Option<string>,
    sharedInterface: Option<string>, network: Option<string>, statsInterval: Option<string>,
    tso: bool, checksumOffload: bool, isolation: bool, verbose: bool)

  const NO_OPTIONS := Client(None, None, None, None, None, None, None, None, false, false, false, false)

  predicate IsMode(arg: string) { arg == "shared" || arg == "host" || arg == "bridged" }

  /** One case of the switch of vmnet-run's parse_options(). */
  function Store(libc: Libc, item: Item, c: Client): Outcome<Client> {
    var arg := item.arg;
    match item.opt
    case InterfaceId => if libc.uuid(arg).Some? then Ok(c.(interfaceId := Some(arg))) else Reject
    case OperationMode => if IsMode(arg) then Ok(c.(mode := Some(arg))) else Reject
    case SharedInterface => Ok(c.(sharedInterface := Some(arg)))
    case StartAddress => if libc.isAddress(arg) then Ok(c.(startAddress := Some(arg))) else Reject
    case EndAddress => if libc.isAddress(arg) then Ok(c.(endAddress := Some(arg))) else Reject
    case SubnetMask => if libc.isAddress(arg) then Ok(c.(subnetMask := Some(arg))) else Reject
    case EnableTso => Ok(c.(tso := true))
    case EnableChecksumOffload => Ok(c.(checksumOffload := true))
    case EnableIsolation => Ok(c.(isolation := true))
    case Network => Ok(c.(network := Some(arg)))
    case StatsInterval => Ok(c.(statsInterval := Some(arg)))
    case Verbose => Ok(c.(verbose := true))
    case Version => Quit
    case Help => Quit
    case Fd => Reject
    case Socket => Reject
    case ListSharedInterfaces => Reject
  }

  datatype CommandLine = CommandLine(client: Client, command: seq<string>)

  function ReadArgs(libc: Libc, tokens: seq<string>, c: Client): Outcome<CommandLine>
    decreases |tokens|
  {
    match NextOption(RUNNER_OPTIONS, tokens)
    case Finished(rest) => Ok(CommandLine(c, rest))
    case Invalid => Reject
    case Found(opt, arg, rest) =>
      match Store(libc, Item(opt, arg), c)
      case Ok(next) => ReadArgs(libc, rest, next)
      case Reject => Reject
      case Quit => Quit
  }

  /** The checks vmnet-run makes after its loop. */
  predicate Consistent(c: Client) {
    if c.network.Some? then
      c.mode.None? && c.sharedInterface.None? && c.startAddress.None? && c.endAddress.None? && c.subnetMask.None?
    else if c.mode == Some("bridged") then c.sharedInterface.Some? && !c.isolation
    else true
  }

  function RunnerParse(libc: Libc, tokens: seq<string>): Outcome<CommandLine> {
    var r := ReadArgs(libc, tokens, NO_OPTIONS);
    if r.Ok? && (!Consistent(r.value.client) || r.value.command == []) then Reject else r
  }

  /** vmnet-run's parse_options(). */
  method RunnerParseLoop(libc: Libc, argv: seq<string>) returns (r: Outcome<CommandLine>)
    ensures r == RunnerParse(libc, argv)
  {
    var options, optind := NO_OPTIONS, argv;
    while true
      invariant ReadArgs(libc, argv, NO_OPTIONS) == ReadArgs(libc, optind, options)
      decreases |optind|
    {
      var scan := NextOption(RUNNER_OPTIONS, optind);
      if scan.Finished? {
        optind := scan.rest;
        break;
      }
      if scan.Invalid? {
        return Reject;
      }
      var stored := Store(libc, Item(scan.opt, scan.arg), options);
      match stored {
        case Ok(next) => options, optind := next, scan.rest;
        case Reject => return Reject;
        case Quit => return Quit;
      }
    }
    if !Consistent(options) || optind == [] {
      return Reject;
    }
    return Ok(CommandLine(options, optind));
  }

  /** The order in which build_helper_argv() prints the options. */
  const PRINT_ORDER: seq<Opt> := [
    InterfaceId, OperationMode, StartAddress, EndAddress, SubnetMask, SharedInterface,
    EnableTso, EnableChecksumOffload, EnableIsolation, Network, StatsInterval, Verbose]

  /** The argument to print for an option: empty for a flag that is on. */
  function Argument(c: Client, o: Opt): Option<string> {
    match o
    case InterfaceId => c.interfaceId
    case OperationMode => c.mode
    case StartAddress => c.startAddress
    case EndAddress => c.endAddress
    case SubnetMask => c.subnetMask
    case SharedInterface => c.sharedInterface
    case EnableTso => if c.tso then Some("") else None
    case EnableChecksumOffload => if c.checksumOffload then Some("") else None
    case EnableIsolation => if c.isolation then Some("") else None
    case Network => c.network
    case StatsInterval => c.statsInterval
    case Verbose => if c.verbose then Some("") else None
    case Fd => None
    case Socket => None
    case ListSharedInterfaces => None
    case Version => None
    case Help => None
  }

  function ItemFor(c: Client, o: Opt): seq<Item> {
    if Argument(c, o).Some? then [Item(o, Argument(c, o).value)] else []
  }

  function ItemsFor(c: Client, opts: seq<Opt>): seq<Item> {
    if opts == [] then [] else ItemsFor(c, opts[..|opts| - 1]) + ItemFor(c, opts[|opts| - 1])
  }

  function Items(c: Client): seq<Item> { ItemsFor(c, PRINT_ORDER) }

  const SUDO: seq<string> := ["sudo", "--non-interactive", "--close-from=4"]

  function HelperArgs(c: Client): seq<string> { ["--fd=3"] + Print(Items(c)) }

  function HelperArgv(root: bool, path: string, c: Client): seq<string> {
    (if root then SUDO else []) + [path] + HelperArgs(c)
  }

  /** Every value of the client is one that vmnet-run lets through. */
  predicate ValuesValid(libc: Libc, c: Client) {
    && (c.interfaceId.Some? ==> libc.uuid(c.interfaceId.value).Some?)
    && (c.mode.Some? ==> IsMode(c.mode.value))
    && (c.startAddress.Some? ==> libc.isAddress(c.startAddress.value))
    && (c.endAddress.Some? ==> libc.isAddress(c.endAddress.value))
    && (c.subnetMask.Some? ==> libc.isAddress(c.subnetMask.value))
  }

  predicate StatsValid(c: Client) {
    c.statsInterval.Some? ==> ParseStatsInterval(c.statsInterval.value).Some?
  }

  /** What the helper checks and vmnet-run does not. */
  predicate AddressesTogether(c: Client) {
    || c.network.Some? || c.mode == Some("bridged")
    || (c.startAddress.Some? && c.endAddress.Some? && c.subnetMask.Some?)
    || (c.startAddress.None? && c.endAddress.None? && c.subnetMask.None?)
  }

  /** The settings a client asks the helper for. */
  function Meaning(libc: Libc, c: Client): Options
    requires ValuesValid(libc, c) && StatsValid(c)
  {
    Options(
      3, None, if c.mode.Some? then ParseMode(c.mode.value) else Unset,
      if c.interfaceId.Some? then libc.uuid(c.interfaceId.value).value else 0,
      c.startAddress, c.endAddress, c.subnetMask, c.sharedInterface, c.network,
      c.isolation, c.tso, c.checksumOffload, 0, 0,
      if c.statsInterval.Some? then ParseStatsInterval(c.statsInterval.value).value else 0,
      c.verbose)
  }

  function HelperReads(libc: Libc, c: Client): Outcome<Options> {
    if ValuesValid(libc, c) && StatsValid(c) then Ok(Meaning(libc, c)) else Reject
  }

  function RunnerReads(libc: Libc, c: Client): Outcome<Client> {
    if ValuesValid(libc, c) then Ok(c) else Reject
  }

  /** b, with the option o as c has it. */
  function With(b: Client, c: Client, o: Opt): Client {
    match o
    case InterfaceId => b.(interfaceId := c.interfaceId)
    case OperationMode => b.(mode := c.mode)
    case StartAddress => b.(startAddress := c.startAddress)
    case EndAddress => b.(endAddress := c.endAddress)
    case SubnetMask => b.(subnetMask := c.subnetMask)
    case SharedInterface => b.(sharedInterface := c.sharedInterface)
    case EnableTso => b.(tso := c.tso)
    case EnableChecksumOffload => b.(checksumOffload := c.checksumOffload)
    case EnableIsolation => b.(isolation := c.isolation)
    case Network => b.(network := c.network)
    case StatsInterval => b.(statsInterval := c.statsInterval)
    case Verbose => b.(verbose := c.verbose)
    case _ => b
  }

  /** The client that gave only these options. */
  function Only(c: Client, opts: seq<Opt>): Client {
    if opts == [] then NO_OPTIONS
    else With(Only(c, opts[..|opts| - 1]), c, opts[|opts| - 1])
  }

  lemma ArgumentOfWith(b: Client, c: Client, o: Opt, x: Opt)
    ensures Argument(With(b, c, o), x) == if x == o then Argument(c, x) else Argument(b, x)
  {
  }

  lemma {:induction false} ArgumentOfOnly(c: Client, opts: seq<Opt>, x: Opt)
    ensures Argument(Only(c, opts), x) == if x in opts then Argument(c, x) else None
  {
    if opts != [] {
      var done, o := opts[..|opts| - 1], opts[|opts| - 1];
      assert x in opts <==> x in done || x == o;
      ArgumentOfOnly(c, done, x);
      ArgumentOfWith(Only(c, done), c, o, x);
      hide Argument, With;
    }
  }

  lemma SameArguments(a: Client, b: Client)
    requires forall o :: Argument(a, o) == Argument(b, o)
    ensures a == b
  {
    assert Argument(a, InterfaceId) == Argument(b, InterfaceId);
    assert Argument(a, OperationMode) == Argument(b, OperationMode);
    assert Argument(a, StartAddress) == Argument(b, StartAddress) && Argument(a, EndAddress) == Argument(b, EndAddress);
    assert Argument(a, SubnetMask) == Argument(b, SubnetMask);
    assert Argument(a, SharedInterface) == Argument(b, SharedInterface);
    assert Argument(a, EnableTso) == Argument(b, EnableTso) && Argument(a, Network) == Argument(b, Network);
    assert Argument(a, EnableChecksumOffload) == Argument(b, EnableChecksumOffload);
    assert Argument(a, EnableIsolation) == Argument(b, EnableIsolation);
    assert Argument(a, StatsInterval) == Argument(b, StatsInterval) && Argument(a, Verbose) == Argument(b, Verbose);
  }

  /** One more option read by the helper. */
  lemma HelperReadsOneMore(libc: Libc, b: Client, c: Client, o: Opt)
    requires Argument(b, o) == None
    ensures var arg, was := Argument(c, o), HelperReads(libc, b);
            HelperReads(libc, With(b, c, o))
            == if was.Ok? && arg.Some? then Apply(libc, Item(o, arg.value), was.value) else was
  {
  }

  /** One more option read by vmnet-run. */
  lemma RunnerReadsOneMore(libc: Libc, b: Client, c: Client, o: Opt)
    requires Argument(b, o) == None
    ensures var arg, was := Argument(c, o), RunnerReads(libc, b);
            RunnerReads(libc, With(b, c, o))
            == if was.Ok? && arg.Some? then Store(libc, Item(o, arg.value), was.value) else was
  {
  }

  ghost predicate NoRepeats(order: seq<Opt>) {
    forall i, j :: 0 <= i < j < |order| ==> order[i] != order[j]
  }

  /** The helper applying the options of a client, in any order. */
  lemma {:induction false} ApplyItems(libc: Libc, c: Client, order: seq<Opt>)
    requires NoRepeats(order)
    ensures ApplyAll(libc, ItemsFor(c, order), INITIAL.(fd := 3)) == HelperReads(libc, Only(c, order))
  {
    if order != [] {
      var done, o := order[..|order| - 1], order[|order| - 1];
      assert order == done + [o];
      hide Apply, HelperReads, Argument, With;
      ArgumentOfOnly(c, done, o);
      HelperReadsOneMore(libc, Only(c, done), c, o);
      ApplyItems(libc, c, done);
      ApplyAllConcat(libc, ItemsFor(c, done), ItemFor(c, o), INITIAL.(fd := 3));
    }
  }

  function Position(o: Opt): int {
    match o
    case InterfaceId => 0
    case OperationMode => 1
    case StartAddress => 2
    case EndAddress => 3
    case SubnetMask => 4
    case SharedInterface => 5
    case EnableTso => 6
    case EnableChecksumOffload => 7
    case EnableIsolation => 8
    case Network => 9
    case StatsInterval => 10
    case Verbose => 11
    case _ => -1
  }

  lemma EachPrintedOnce()
    ensures NoRepeats(PRINT_ORDER) && forall o :: 0 <= Position(o) ==> o in PRINT_ORDER
  {
    assert |PRINT_ORDER| == 12;
    assert forall i :: 0 <= i < 12 ==> Position(PRINT_ORDER[i]) == i;
    forall o | 0 <= Position(o)
      ensures o in PRINT_ORDER
    {
      assert PRINT_ORDER[Position(o)] == o;
    }
  }

  lemma OnlyAllIsAll(c: Client, order: seq<Opt>)
    requires forall o :: 0 <= Position(o) ==> o in order
    ensures Only(c, order) == c
  {
    forall o
      ensures Argument(Only(c, order), o) == Argument(c, o)
    {
      ArgumentOfOnly(c, order, o);
      assert Position(o) < 0 ==> Argument(c, o) == None;
    }
    hide Only, Argument;
    SameArguments(Only(c, order), c);
  }

  lemma {:induction false} ItemsArePrintable(c: Client, order: seq<Opt>, table: seq<Opt>)
    requires forall o :: o in order ==> o in table
    ensures Printable(ItemsFor(c, order), table)
  {
    hide TakesArgument, Argument, ItemFor;
    if order != [] {
      ItemsArePrintable(c, order[..|order| - 1], table);
      ItemIsPrintable(c, order[|order| - 1], table);
    }
  }

  lemma ItemIsPrintable(c: Client, o: Opt, table: seq<Opt>)
    requires o in table
    ensures Printable(ItemFor(c, o), table)
  {
  }

  lemma FdIsThree(rest: seq<string>)
    ensures NextOption(HELPER_OPTIONS, ["--fd=3"] + rest) == Found(Fd, "3", rest) && ParseFd("3") == Some(3)
  {
    var tokens, body := ["--fd=3"] + rest, "fd=3";
    assert tokens[0][2..] == body && tokens[1..] == rest;
    assert body[..2] == Name(Fd) && body[3..] == "3";
    NameEndIs(body, 2);
    NamesDiffer(Fd, Lookup(HELPER_OPTIONS, "fd").value);
    assert Decimal(3) == "3";
    DecimalRoundTrip(3);
  }

  predicate IdsValid(env: Env) {
    && (env.sudoUid.Some? ==> ParseId(env.sudoUid.value).Some?)
    && (env.sudoGid.Some? ==> ParseId(env.sudoGid.value).Some?)
  }

  /** The settings the helper ends up with: the default mode and the ids filled in. */
  function Settings(libc: Libc, env: Env, c: Client): Options
    requires ValuesValid(libc, c) && StatsValid(c) && IdsValid(env)
  {
    var o := Meaning(libc, c);
    o.(mode := if o.mode == Unset && o.network.None? then Shared else o.mode,
       uid := if env.sudoUid.Some? then ParseId(env.sudoUid.value).value else env.uid,
       gid := if env.sudoGid.Some? then ParseId(env.sudoGid.value).value else env.gid)
  }

  /** For every client record, valid or not: the helper accepts the tokens printed
      for it exactly when vmnet-run would accept the record and, besides, the
      stats interval, the addresses and the ids satisfy what only the helper
      checks; and then its settings are the ones the record asks for. */
  lemma HelperAcceptsPrinted(libc: Libc, env: Env, c: Client)
    ensures ParseOptions(libc, env, HelperArgs(c))
         == if ValuesValid(libc, c) && Consistent(c) && StatsValid(c) && AddressesTogether(c) && IdsValid(env)
            then Ok(Settings(libc, env, c)) else Reject
  {
    hide HelperArgs, ParseArgs;
    ParsePrinted(libc, c);
    if ValuesValid(libc, c) && StatsValid(c) {
      ValidateMeaning(libc, env, c);
    }
  }

  /** Which word selects which mode, and what none selects. */
  lemma ModeReachesHelper(libc: Libc, env: Env, c: Client)
    requires ParseOptions(libc, env, HelperArgs(c)).Ok?
    ensures var mode := ParseOptions(libc, env, HelperArgs(c)).value.mode;
            && (mode == Shared <==> c.mode == Some("shared") || (c.mode.None? && c.network.None?))
            && (mode == Host <==> c.mode == Some("host"))
            && (mode == Bridged <==> c.mode == Some("bridged"))
            && (mode == Unset <==> c.network.Some?)
  {
    HelperAcceptsPrinted(libc, env, c);
    hide HelperArgs, ParseOptions, ParseId, ParseStatsInterval;
  }

  lemma ValidateMeaning(libc: Libc, env: Env, c: Client)
    requires ValuesValid(libc, c) && StatsValid(c)
    ensures var o := Validate(Meaning(libc, c));
            (if o.Ok? then Complete(env, o.value) else o)
            == if Consistent(c) && AddressesTogether(c) && IdsValid(env) then Ok(Settings(libc, env, c)) else Reject
  {
    hide ParseId, ParseStatsInterval;
  }

  lemma ParsePrinted(libc: Libc, c: Client)
    ensures ParseArgs(libc, HelperArgs(c), INITIAL) == HelperReads(libc, c)
  {
    var opts := INITIAL.(fd := 3);
    FdIsThree(Print(Items(c)));
    assert Apply(libc, Item(Fd, "3"), INITIAL) == Ok(opts);
    assert forall o :: o in PRINT_ORDER ==> o in HELPER_OPTIONS;
    ItemsArePrintable(c, PRINT_ORDER, HELPER_OPTIONS);
    EachPrintedOnce();
    OnlyAllIsAll(c, PRINT_ORDER);
    hide NextOption, Print, Apply, ItemsFor, HelperReads, ParseFd, Only, ApplyAll;
    ParseOfPrint(libc, Items(c), opts);
    ApplyItems(libc, c, PRINT_ORDER);
  }

  /** Storing a list of options directly, as vmnet-run does one by one. */
  function StoreAll(libc: Libc, items: seq<Item>, c: Client): Outcome<Client> {
    if items == [] then Ok(c)
    else
      match Store(libc, items[0], c)
      case Ok(next) => StoreAll(libc, items[1..], next)
      case Reject => Reject
      case Quit => Quit
  }

  lemma {:induction false} ReadOfPrint(libc: Libc, items: seq<Item>, tail: seq<string>, c: Client)
    requires Printable(items, RUNNER_OPTIONS)
    ensures ReadArgs(libc, Print(items) + tail, c) ==
            match StoreAll(libc, items, c)
            case Ok(next) => ReadArgs(libc, tail, next)
            case Reject => Reject
            case Quit => Quit
    decreases |items|
  {
    hide Store, NextOption, PrintItem;
    if items != [] {
      var rest := Print(items[1..]) + tail;
      assert Print(items) + tail == PrintItem(items[0]) + rest;
      hide Print;
      PrintedOptionIsFound(RUNNER_OPTIONS, items[0], rest);
      assert items[0] == Item(items[0].opt, items[0].arg);
      var stored := Store(libc, items[0], c);
      if stored.Ok? {
        ReadOfPrint(libc, items[1..], tail, stored.value);
      }
    } else {
      assert Print(items) + tail == tail;
    }
  }

  lemma {:induction false} StoreAllConcat(libc: Libc, a: seq<Item>, b: seq<Item>, c: Client)
    ensures StoreAll(libc, a + b, c) ==
            match StoreAll(libc, a, c)
            case Ok(next) => StoreAll(libc, b, next)
            case Reject => Reject
            case Quit => Quit
    decreases |a|
  {
    if a == [] {
      assert a + b == b;
    } else {
      assert (a + b)[1..] == a[1..] + b;
      var stored := Store(libc, a[0], c);
      if stored.Ok? {
        StoreAllConcat(libc, a[1..], b, stored.value);
      }
    }
  }

  lemma {:induction false} StoreItems(libc: Libc, c: Client, order: seq<Opt>)
    requires NoRepeats(order)
    ensures StoreAll(libc, ItemsFor(c, order), NO_OPTIONS) == RunnerReads(libc, Only(c, order))
  {
    if order != [] {
      var done, o := order[..|order| - 1], order[|order| - 1];
      assert order == done + [o];
      hide Store, RunnerReads, Argument, With;
      ArgumentOfOnly(c, done, o);
      RunnerReadsOneMore(libc, Only(c, done), c, o);
      StoreItems(libc, c, done);
      StoreAllConcat(libc, ItemsFor(c, done), ItemFor(c, o), NO_OPTIONS);
    }
  }

  /** vmnet-run reads back the options printed for any client record, and accepts
      them exactly when the record is valid and a command follows. */
  lemma RunnerAcceptsPrinted(libc: Libc, c: Client, command: seq<string>)
    ensures RunnerParse(libc, Print(Items(c)) + (["--"] + command))
         == if ValuesValid(libc, c) && Consistent(c) && command != [] then Ok(CommandLine(c, command)) else Reject
  {
    assert forall o :: o in PRINT_ORDER ==> o in RUNNER_OPTIONS;
    ItemsArePrintable(c, PRINT_ORDER, RUNNER_OPTIONS);
    EachPrintedOnce();
    OnlyAllIsAll(c, PRINT_ORDER);
    assert NextOption(RUNNER_OPTIONS, ["--"] + command) == Finished(command) by {
      assert (["--"] + command)[1..] == command;
    }
    hide NextOption, Print, Store, ItemsFor, Only;
    ReadOfPrint(libc, Items(c), ["--"] + command, NO_OPTIONS);
    StoreItems(libc, c, PRINT_ORDER);
  }

  /** Without the dashes too, when nothing in the command looks like an option. */
  lemma RunnerAcceptsPlainCommand(libc: Libc, c: Client, command: seq<string>)
    requires forall word :: word in command ==> !("-" <= word)
    ensures RunnerParse(libc, Print(Items(c)) + command)
         == if ValuesValid(libc, c) && Consistent(c) && command != [] then Ok(CommandLine(c, command)) else Reject
  {
    assert forall o :: o in PRINT_ORDER ==> o in RUNNER_OPTIONS;
    ItemsArePrintable(c, PRINT_ORDER, RUNNER_OPTIONS);
    EachPrintedOnce();
    OnlyAllIsAll(c, PRINT_ORDER);
    assert NextOption(RUNNER_OPTIONS, command) == Finished(command) by {
      if command != [] {
        assert command[0] in command;
      }
    }
    hide NextOption, Print, Store, ItemsFor, Only;
    ReadOfPrint(libc, Items(c), command, NO_OPTIONS);
    StoreItems(libc, c, PRINT_ORDER);
  }

  lemma AskingRunnerQuits(libc: Libc, word: string, rest: seq<string>)
    requires word in {"--help", "--version"}
    ensures RunnerParse(libc, [word] + rest) == Quit
  {
    var o := if word == "--help" then Help else Version;
    AskingWords();
    hide NextOption, Name;
    PrintedOptionIsFound(RUNNER_OPTIONS, Item(o, ""), rest);
    assert PrintItem(Item(o, "")) == [word];
  }

  lemma StoreSound(libc: Libc, item: Item, c: Client)
    requires ValuesValid(libc, c)
    ensures var r := Store(libc, item, c); r.Ok? ==> ValuesValid(libc, r.value)
  {
    hide IsMode;
    match item.opt
    case InterfaceId =>
    case OperationMode =>
    case StartAddress =>
    case EndAddress =>
    case SubnetMask =>
    case SharedInterface =>
    case Network =>
    case StatsInterval =>
    case _ =>
  }

  lemma {:induction false} ReadArgsSound(libc: Libc, tokens: seq<string>, c: Client)
    requires ValuesValid(libc, c)
    ensures var r := ReadArgs(libc, tokens, c); r.Ok? ==> ValuesValid(libc, r.value.client)
    decreases |tokens|
  {
    hide Store, NextOption, ValuesValid;
    var scan := NextOption(RUNNER_OPTIONS, tokens);
    if scan.Found? {
      StoreSound(libc, Item(scan.opt, scan.arg), c);
      var stored := Store(libc, Item(scan.opt, scan.arg), c);
      if stored.Ok? {
        ReadArgsSound(libc, scan.rest, stored.value);
      }
    }
  }

  /** From a command line that vmnet-run accepts to the helper's settings: the
      helper accepts exactly when the stats interval, the addresses and the ids
      pass the checks that vmnet-run leaves to it. */
  lemma CommandLineToSettings(libc: Libc, env: Env, tokens: seq<string>)
    requires RunnerParse(libc, tokens).Ok?
    ensures var c := RunnerParse(libc, tokens).value.client;
            && ValuesValid(libc, c)
            && ParseOptions(libc, env, HelperArgs(c))
               == if StatsValid(c) && AddressesTogether(c) && IdsValid(env) then Ok(Settings(libc, env, c)) else Reject
  {
    ReadArgsSound(libc, tokens, NO_OPTIONS);
    HelperAcceptsPrinted(libc, env, RunnerParse(libc, tokens).value.client);
  }

  const ARGV_SLOTS: nat := 32
  /** The guard compares with sizeof(helper_argv) - 1, a number of bytes. */
  const ARGV_GUARD: nat := 255

  /** helper_argv and helper_next. */
  class ArgVector {
    const slots: array<Option<string>>
    var next: nat
    ghost var contents: seq<string>

    ghost predicate Valid()
      reads this, slots
    {
      && slots.Length == ARGV_SLOTS && next == |contents| < ARGV_SLOTS
      && (forall i :: 0 <= i < next ==> slots[i] == Some(contents[i]))
      && (forall i :: next <= i < ARGV_SLOTS ==> slots[i] == None)
    }

    constructor ()
      ensures Valid() && contents == [] && fresh(slots)
    {
      slots := new Option<string>[ARGV_SLOTS](_ => None);
      next, contents := 0, [];
    }

    /** append_helper_arg(). */
    method Append(arg: string) returns (ok: bool)
      requires Valid() && next + 1 < ARGV_SLOTS
      modifies this, slots
      ensures ok && Valid() && contents == old(contents) + [arg]
    {
      if next == ARGV_GUARD {
        return false;
      }
      slots[next] := Some(arg);
      next, contents := next + 1, contents + [arg];
      return true;
    }

    /** One `if` of build_helper_argv(): the option and its argument, when given. */
    method AppendItem(c: Client, o: Opt) returns (ok: bool)
      requires Valid() && next + 2 < ARGV_SLOTS
      modifies this, slots
      ensures ok && Valid() && next <= old(next) + 2 && contents == old(contents) + Print(ItemFor(c, o))
    {
      var arg := Argument(c, o);
      ok := true;
      if arg.Some? {
        PrintOne(Item(o, arg.value));
        hide Print, Name;
        ok := Append("--" + Name(o));
        if ok && TakesArgument(o) {
          ok := Append(arg.value);
        }
      }
    }

    /** The same, for the option at position k of the print order. */
    method AppendOption(c: Client, o: Opt, ghost head: seq<string>, ghost k: nat) returns (ok: bool)
      requires Valid() && k == Position(o) && next <= 5 + 2 * k
      requires contents == head + PrintedBefore(c, k)
      modifies this, slots
      ensures ok && Valid() && next <= 5 + 2 * (k + 1)
      ensures contents == head + PrintedBefore(c, k + 1)
    {
      hide Print, PrintedBefore, ItemFor;
      ok := AppendItem(c, o);
      PrintNext(c, o);
      assert head + PrintedBefore(c, k) + Print(ItemFor(c, o)) == head + PrintedBefore(c, k + 1);
    }
  }

  /** What the options before position k print. */
  function PrintedBefore(c: Client, k: nat): seq<string> {
    if k <= |PRINT_ORDER| then Print(ItemsFor(c, PRINT_ORDER[..k])) else []
  }

  lemma PrintNext(c: Client, o: Opt)
    requires 0 <= Position(o)
    ensures PrintedBefore(c, Position(o) + 1) == PrintedBefore(c, Position(o)) + Print(ItemFor(c, o))
  {
    var k := Position(o);
    assert PRINT_ORDER[k] == o;
    var done, more := PRINT_ORDER[..k], PRINT_ORDER[..k + 1];
    assert more[..k] == done && more[k] == o;
    hide Print, ItemFor;
    PrintConcat(ItemsFor(c, done), ItemFor(c, o));
  }

  function Words(c: Client, o: Opt): (n: nat)
    ensures n <= 2
  {
    if Argument(c, o).None? then 0 else if TakesArgument(o) then 2 else 1
  }

  lemma PrintOne(item: Item)
    ensures Print([item]) == PrintItem(item)
  {
  }

  /** The first words of the vector, before the options. */
  function Head(root: bool, path: string): (head: seq<string>)
    ensures |head| <= 5
  {
    (if root then SUDO else []) + [path, "--fd=3"]
  }

  lemma PrintedBeforeStart(head: seq<string>, c: Client)
    ensures head + PrintedBefore(c, 0) == head && |PrintedBefore(c, 0)| == 0
  {
    assert PrintedBefore(c, 0) == [];
  }

  lemma PrintedBeforeEnd(c: Client)
    ensures PrintedBefore(c, 12) == Print(Items(c))
  {
    assert PRINT_ORDER[..12] == PRINT_ORDER;
  }

  lemma ArgvParts(root: bool, path: string, c: Client)
    ensures Head(root, path) + Print(Items(c)) == HelperArgv(root, path, c)
  {
    hide Print, Items;
  }

  /** build_helper_argv(): the 32 slots always suffice, so the vector stays
      terminated although the guard could never stop it at the end. */
  method BuildHelperArgv(root: bool, path: string, c: Client) returns (argv: ArgVector)
    ensures fresh(argv) && argv.Valid() && argv.contents == HelperArgv(root, path, c)
    ensures argv.slots.Length == 32 && argv.next <= 25 && forall i :: argv.next <= i < 32 ==> argv.slots[i] == None
  {
    ArgvIsShort(root, path, c);
    hide HelperArgv, PrintedBefore, Print, Items, Head;
    argv := new ArgVector();
    AppendHead(argv, root, path);
    PrintedBeforeStart(argv.contents, c);
    ghost var head := argv.contents;
    AppendNetworkOptions(argv, c, head);
    AppendOtherOptions(argv, c, head);
    PrintedBeforeEnd(c);
    ArgvParts(root, path, c);
  }

  /** The words of build_helper_argv() before the options. */
  method AppendHead(argv: ArgVector, root: bool, path: string)
    requires argv.Valid() && argv.contents == []
    modifies argv, argv.slots
    ensures argv.Valid() && argv.contents == Head(root, path)
  {
    var ok;
    if root {
      ok := argv.Append("sudo");
      ok := argv.Append("--non-interactive");
      ok := argv.Append("--close-from=4");
      assert argv.contents == SUDO;
    }
    ok := argv.Append(path);
    ok := argv.Append("--fd=3");
  }

  /** The first options of build_helper_argv(), which describe the network. */
  method AppendNetworkOptions(argv: ArgVector, c: Client, ghost head: seq<string>)
    requires argv.Valid() && argv.next <= 5 && argv.contents == head + PrintedBefore(c, 0)
    modifies argv, argv.slots
    ensures argv.Valid() && argv.next <= 17 && argv.contents == head + PrintedBefore(c, 6)
  {
    hide *;
    Positions();
    var ok;
    ok := argv.AppendOption(c, InterfaceId, head, 0);
    ok := argv.AppendOption(c, OperationMode, head, 1);
    ok := argv.AppendOption(c, StartAddress, head, 2);
    ok := argv.AppendOption(c, EndAddress, head, 3);
    ok := argv.AppendOption(c, SubnetMask, head, 4);
    ok := argv.AppendOption(c, SharedInterface, head, 5);
  }

  /** The other options. */
  method AppendOtherOptions(argv: ArgVector, c: Client, ghost head: seq<string>)
    requires argv.Valid() && argv.next <= 17 && argv.contents == head + PrintedBefore(c, 6)
    modifies argv, argv.slots
    ensures argv.Valid() && argv.contents == head + PrintedBefore(c, 12)
  {
    hide *;
    Positions();
    var ok;
    ok := argv.AppendOption(c, EnableTso, head, 6);
    ok := argv.AppendOption(c, EnableChecksumOffload, head, 7);
    ok := argv.AppendOption(c, EnableIsolation, head, 8);
    ok := argv.AppendOption(c, Network, head, 9);
    ok := argv.AppendOption(c, StatsInterval, head, 10);
    ok := argv.AppendOption(c, Verbose, head, 11);
  }

  lemma OptionWords(c: Client, o: Opt, k: nat)
    requires k == Position(o)
    ensures |PrintedBefore(c, k + 1)| == |PrintedBefore(c, k)| + Words(c, o)
  {
    PrintNext(c, o);
    if Argument(c, o).Some? {
      PrintOne(ItemFor(c, o)[0]);
    }
  }

  lemma NetworkWords(c: Client)
    ensures |PrintedBefore(c, 6)|
         == Words(c, InterfaceId) + Words(c, OperationMode) + Words(c, StartAddress) + Words(c, EndAddress)
            + Words(c, SubnetMask) + Words(c, SharedInterface)
  {
    hide *;
    PrintedBeforeStart([], c);
    Positions();
    OptionWords(c, InterfaceId, 0);
    OptionWords(c, OperationMode, 1);
    OptionWords(c, StartAddress, 2);
    OptionWords(c, EndAddress, 3);
    OptionWords(c, SubnetMask, 4);
    OptionWords(c, SharedInterface, 5);
  }

  lemma OtherWords(c: Client)
    ensures |PrintedBefore(c, 12)|
         == |PrintedBefore(c, 6)| + Words(c, EnableTso) + Words(c, EnableChecksumOffload) + Words(c, EnableIsolation)
            + Words(c, Network) + Words(c, StatsInterval) + Words(c, Verbose)
  {
    hide *;
    Positions();
    OptionWords(c, EnableTso, 6);
    OptionWords(c, EnableChecksumOffload, 7);
    OptionWords(c, EnableIsolation, 8);
    OptionWords(c, Network, 9);
    OptionWords(c, StatsInterval, 10);
    OptionWords(c, Verbose, 11);
  }

  /** The vector holds at most 25 words, and at most 23 for a client that
      vmnet-run accepts. */
  lemma ArgvIsShort(root: bool, path: string, c: Client)
    ensures |HelperArgv(root, path, c)| <= 25
    ensures Consistent(c) ==> |HelperArgv(root, path, c)| <= 23
  {
    hide PrintedBefore, Print, Items, HelperArgv;
    NetworkWords(c);
    OtherWords(c);
    PrintedBeforeEnd(c);
    ArgvParts(root, path, c);
  }

  lemma Positions()
    ensures Position(InterfaceId) == 0 && Position(OperationMode) == 1 && Position(StartAddress) == 2
    ensures Position(EndAddress) == 3 && Position(SubnetMask) == 4 && Position(SharedInterface) == 5
    ensures Position(EnableTso) == 6 && Position(EnableChecksumOffload) == 7 && Position(EnableIsolation) == 8
    ensures Position(Network) == 9 && Position(StatsInterval) == 10 && Position(Verbose) == 11
  {
  }

  function Spelled(name: string, arg: Option<string>): seq<string> {
    if arg.Some? then [name, arg.value] else []
  }

  function Flag(name: string, on: bool): seq<string> {
    if on then [name] else []
  }

  /** The words that one `if` of build_helper_argv() appends. */
  function Spelling(c: Client, o: Opt): seq<string> {
    match o
    case InterfaceId => Spelled("--interface-id", c.interfaceId)
    case OperationMode => Spelled("--operation-mode", c.mode)
    case StartAddress => Spelled("--start-address", c.startAddress)
    case EndAddress => Spelled("--end-address", c.endAddress)
    case SubnetMask => Spelled("--subnet-mask", c.subnetMask)
    case SharedInterface => Spelled("--shared-interface", c.sharedInterface)
    case EnableTso => Flag("--enable-tso", c.tso)
    case EnableChecksumOffload => Flag("--enable-checksum-offload", c.checksumOffload)
    case EnableIsolation => Flag("--enable-isolation", c.isolation)
    case Network => Spelled("--network", c.network)
    case StatsInterval => Spelled("--stats-interval", c.statsInterval)
    case Verbose => Flag("--verbose", c.verbose)
    case _ => []
  }

  lemma NetworkNamesSpelled()
    ensures "--" + Name(InterfaceId) == "--interface-id" && "--" + Name(OperationMode) == "--operation-mode"
    ensures "--" + Name(StartAddress) == "--start-address" && "--" + Name(EndAddress) == "--end-address"
    ensures "--" + Name(SubnetMask) == "--subnet-mask" && "--" + Name(SharedInterface) == "--shared-interface"
  {
  }

  lemma OtherNamesSpelled()
    ensures "--" + Name(EnableTso) == "--enable-tso" && "--" + Name(EnableIsolation) == "--enable-isolation"
    ensures "--" + Name(EnableChecksumOffload) == "--enable-checksum-offload"
    ensures "--" + Name(Network) == "--network" && "--" + Name(StatsInterval) == "--stats-interval"
    ensures "--" + Name(Verbose) == "--verbose"
  {
  }

  lemma ItemSpelled(c: Client, o: Opt)
    requires 0 <= Position(o)
    ensures Print(ItemFor(c, o)) == Spelling(c, o)
  {
    NetworkNamesSpelled();
    OtherNamesSpelled();
    hide Name, Print;
    if Argument(c, o).Some? {
      PrintOne(Item(o, Argument(c, o).value));
    } else {
      assert ItemFor(c, o) == [];
      PrintNone();
    }
  }

  lemma PrintNone()
    ensures Print([]) == []
  {
  }

  lemma OptionSpelled(c: Client, o: Opt, k: nat)
    requires k == Position(o)
    ensures PrintedBefore(c, k + 1) == PrintedBefore(c, k) + Spelling(c, o)
  {
    hide *;
    PrintNext(c, o);
    ItemSpelled(c, o);
  }

  lemma NetworkSpelled(c: Client)
    ensures PrintedBefore(c, 6)
         == Spelling(c, InterfaceId) + Spelling(c, OperationMode) + Spelling(c, StartAddress)
            + Spelling(c, EndAddress) + Spelling(c, SubnetMask) + Spelling(c, SharedInterface)
  {
    hide *;
    PrintedBeforeStart([], c);
    Positions();
    OptionSpelled(c, InterfaceId, 0);
    OptionSpelled(c, OperationMode, 1);
    OptionSpelled(c, StartAddress, 2);
    OptionSpelled(c, EndAddress, 3);
    OptionSpelled(c, SubnetMask, 4);
    OptionSpelled(c, SharedInterface, 5);
  }

  /** The words of the vector, spelled out. */
  lemma ArgvSpelled(root: bool, path: string, c: Client)
    ensures HelperArgv(root, path, c)
         == (if root then ["sudo", "--non-interactive", "--close-from=4"] else []) + [path, "--fd=3"]
            + (Spelling(c, InterfaceId) + Spelling(c, OperationMode) + Spelling(c, StartAddress)
               + Spelling(c, EndAddress) + Spelling(c, SubnetMask) + Spelling(c, SharedInterface)
               + Spelling(c, EnableTso) + Spelling(c, EnableChecksumOffload) + Spelling(c, EnableIsolation)
               + Spelling(c, Network) + Spelling(c, StatsInterval) + Spelling(c, Verbose))
  {
    assert Head(root, path)
        == (if root then ["sudo", "--non-interactive", "--close-from=4"] else []) + [path, "--fd=3"];
    hide *;
    ArgvParts(root, path, c);
    PrintedBeforeEnd(c);
    Positions();
    NetworkSpelled(c);
    OptionSpelled(c, EnableTso, 6);
    OptionSpelled(c, EnableChecksumOffload, 7);
    OptionSpelled(c, EnableIsolation, 8);
    OptionSpelled(c, Network, 9);
    OptionSpelled(c, StatsInterval, 10);
    OptionSpelled(c, Verbose, 11);
  }

  /** What sudo leaves open when it closes everything from n on. */
  function ClosedFrom(t: Table, n: nat): Table {
    map fd | fd in t && fd < n :: t[fd]
  }

  /** Under sudo the helper still has its end of the socket pair, at the descriptor
      that it is told, and nothing above it. */
  lemma SocketSurvivesSudo(path: string, c: Client, t: Table) returns (from: nat, fd: nat)
    requires HELPER_FD in t && t[HELPER_FD] == HelperEnd
    ensures var argv := HelperArgv(true, path, c);
            argv[0] == "sudo" && argv[2] == "--close-from=" + Decimal(from) && argv[4] == "--fd=" + Decimal(fd)
    ensures fd in ClosedFrom(t, from) && ClosedFrom(t, from)[fd] == HelperEnd
    ensures forall other :: other in ClosedFrom(t, from) ==> other <= fd
  {
    from, fd := 4, 3;
    assert Decimal(4) == "4" && Decimal(3) == "3";
  }
}
