/** programs/options.c: the helper's options, parsed from its argument vector and
    then defaulted and validated. */
module HelperOptions {
  import opened Wrappers
  import opened Numbers
  import opened Getopt

  /** operation_mode: Unset is zero. */
  datatype Mode = Unset | Shared | Bridged | Host

  /** uuid_parse() and inet_aton(), of which only agreement matters. */
  datatype Libc = Libc(uuid: string -> Option<nat>, isAddress: string -> bool)

  /** SUDO_UID, SUDO_GID, getuid() and getgid(). */
  datatype Env = Env(sudoUid: Option<string>, sudoGid: Option<string>, uid: int, gid: int)

  /** struct options, and the verbose flag. */
  datatype Options = Options(
    fd: int, socket: Option<string>, mode: Mode, interfaceId: nat,
    startAddress: Option<string>, endAddress: Option<string>, subnetMask: Option<string>,
    sharedInterface: Option<string>, network: Option<string>,
    isolation: bool, tso: bool, checksumOffload: bool,
    uid: int, gid: int, statsInterval: int, verbose: bool)

  const INITIAL := Options(-1, None, Unset, 0, None, None, None, None, None, false, false, false, 0, 0, 0, false)

  /** The outcome of parsing: a value, an exit with an error, or an exit after
      doing what an option like --help asks for. */
  datatype Outcome<+T> = Ok(value: T) | Reject | Quit

  /** The longest path that fits sun_path. */
  const MAX_SOCKET_PATH: nat := 103

  function ParseMode(arg: string): Mode {
    if arg == "shared" then Shared
    else if arg == "bridged" then Bridged
    else if arg == "host" then Host
    else Unset
  }

  function OrReject<T>(o: Option<T>): Outcome<T> {
    if o.Some? then Ok(o.value) else Reject
  }

  /** One case of the switch of parse_options(). */
  function Apply(libc: Libc, item: Item, opts: Options): Outcome<Options> {
    var arg := item.arg;
    match item.opt
    case Fd => if ParseFd(arg).Some? then Ok(opts.(fd := ParseFd(arg).value)) else Reject
    case Socket => if |arg| > MAX_SOCKET_PATH then Reject else Ok(opts.(socket := Some(arg)))
    case InterfaceId => if libc.uuid(arg).Some? then Ok(opts.(interfaceId := libc.uuid(arg).value)) else Reject
    case OperationMode => if ParseMode(arg) != Unset then Ok(opts.(mode := ParseMode(arg))) else Reject
    case SharedInterface => Ok(opts.(sharedInterface := Some(arg)))
    case StartAddress => if libc.isAddress(arg) then Ok(opts.(startAddress := Some(arg))) else Reject
    case EndAddress => if libc.isAddress(arg) then Ok(opts.(endAddress := Some(arg))) else Reject
    case SubnetMask => if libc.isAddress(arg) then Ok(opts.(subnetMask := Some(arg))) else Reject
    case EnableTso => Ok(opts.(tso := true))
    case EnableChecksumOffload => Ok(opts.(checksumOffload := true))
    case EnableIsolation => Ok(opts.(isolation := true))
    case ListSharedInterfaces => Quit
    case Network => Ok(opts.(network := Some(arg)))
    case StatsInterval =>
      if ParseStatsInterval(arg).Some? then Ok(opts.(statsInterval := ParseStatsInterval(arg).value)) else Reject
    case Verbose => Ok(opts.(verbose := true))
    case Version => Quit
    case Help => Quit
  }

  /** The whole getopt loop. */
  function ParseArgs(libc: Libc, tokens: seq<string>, opts: Options): Outcome<Options>
    decreases |tokens|
  {
    match NextOption(HELPER_OPTIONS, tokens)
    case Finished(_) => Ok(opts)
    case Invalid => Reject
    case Found(opt, arg, rest) =>
      match Apply(libc, Item(opt, arg), opts)
      case Ok(next) => ParseArgs(libc, rest, next)
      case Reject => Reject
      case Quit => Quit
  }

  function Present(o: Option<string>): nat { if o.Some? then 1 else 0 }

  /** Conflicts with --network, the default mode, and what each mode demands. */
  function Validate(opts: Options): Outcome<Options> {
    if opts.network.Some? then
      if opts.mode != Unset || opts.sharedInterface.Some? || opts.startAddress.Some?
         || opts.endAddress.Some? || opts.subnetMask.Some?
      then Reject else Ok(opts)
    else
      var o := if opts.mode == Unset then opts.(mode := Shared) else opts;
      if o.mode == Bridged then
        if o.sharedInterface.None? || o.isolation then Reject else Ok(o)
      else
        var given := Present(o.startAddress) + Present(o.endAddress) + Present(o.subnetMask);
        if given != 0 && given != 3 then Reject else Ok(o)
  }

  function IdFrom(sudo: Option<string>, actual: int): Outcome<int> {
    if sudo.Some? then OrReject(ParseId(sudo.value)) else Ok(actual)
  }

  /** What follows validation: exactly one of --fd and --socket, and the ids. */
  function Complete(env: Env, opts: Options): Outcome<Options> {
    if opts.fd == -1 && opts.socket.None? then Reject
    else if opts.fd != -1 && opts.socket.Some? then Reject
    else
      var uid := if opts.uid == 0 then IdFrom(env.sudoUid, env.uid) else Ok(opts.uid);
      var gid := if opts.gid == 0 then IdFrom(env.sudoGid, env.gid) else Ok(opts.gid);
      if uid.Ok? && gid.Ok? then Ok(opts.(uid := uid.value, gid := gid.value)) else Reject
  }

  function ParseOptions(libc: Libc, env: Env, tokens: seq<string>): Outcome<Options> {
    var parsed := ParseArgs(libc, tokens, INITIAL);
    if !parsed.Ok? then parsed
    else
      var valid := Validate(parsed.value);
      if !valid.Ok? then valid else Complete(env, valid.value)
  }

  /** parse_options(): the loop fills the options one by one. */
  method ParseOptionsLoop(libc: Libc, env: Env, argv: seq<string>) returns (r: Outcome<Options>)
    ensures r == ParseOptions(libc, env, argv)
  {
    var opts, optind := INITIAL, argv;
    while true
      invariant ParseArgs(libc, argv, INITIAL) == ParseArgs(libc, optind, opts)
      decreases |optind|
    {
      var scan := NextOption(HELPER_OPTIONS, optind);
      if scan.Finished? {
        break;
      }
      if scan.Invalid? {
        return Reject;
      }
      var applied := Apply(libc, Item(scan.opt, scan.arg), opts);
      if !applied.Ok? {
        return applied;
      }
      opts, optind := applied.value, scan.rest;
    }
    var valid := Validate(opts);
    if !valid.Ok? {
      return valid;
    }
    return Complete(env, valid.value);
  }

  /** Applying a list of options directly, without spelling them out. */
  function ApplyAll(libc: Libc, items: seq<Item>, opts: Options): Outcome<Options> {
    if items == [] then Ok(opts)
    else
      match Apply(libc, items[0], opts)
      case Ok(next) => ApplyAll(libc, items[1..], next)
      case Reject => Reject
      case Quit => Quit
  }

  ghost predicate Printable(items: seq<Item>, table: seq<Opt>) {
    forall item :: item in items ==> item.opt in table && (!TakesArgument(item.opt) ==> item.arg == "")
  }

  /** Printing options and parsing the tokens is the same as applying them. */
  lemma {:induction false} ParseOfPrint(libc: Libc, items: seq<Item>, opts: Options)
    requires Printable(items, HELPER_OPTIONS)
    ensures ParseArgs(libc, Print(items), opts) == ApplyAll(libc, items, opts)
    decreases |items|
  {
    hide Apply, NextOption;
    if items != [] {
      PrintedOptionIsFound(HELPER_OPTIONS, items[0], Print(items[1..]));
      assert items[0] == Item(items[0].opt, items[0].arg);
      var applied := Apply(libc, items[0], opts);
      if applied.Ok? {
        ParseOfPrint(libc, items[1..], applied.value);
      }
    } else {
      EmptyIsFinished();
    }
  }

  lemma EmptyIsFinished()
    ensures NextOption(HELPER_OPTIONS, []) == Finished([])
  {
  }

  lemma {:induction false} ApplyAllConcat(libc: Libc, a: seq<Item>, b: seq<Item>, opts: Options)
    ensures ApplyAll(libc, a + b, opts) ==
            match ApplyAll(libc, a, opts)
            case Ok(next) => ApplyAll(libc, b, next)
            case Reject => Reject
            case Quit => Quit
    decreases |a|
  {
    if a == [] {
      assert a + b == b;
    } else {
      assert (a + b)[1..] == a[1..] + b;
      var applied := Apply(libc, a[0], opts);
      if applied.Ok? {
        ApplyAllConcat(libc, a[1..], b, applied.value);
      }
    }
  }

  /** What every option leaves true of the settings, before they are validated. */
  ghost predicate FieldsValid(libc: Libc, o: Options) {
    && -1 <= o.fd <= 0x7fff_ffff && 0 <= o.statsInterval <= 0x7fff_ffff
    && (o.socket.Some? ==> |o.socket.value| <= 103)
    && (o.startAddress.Some? ==> libc.isAddress(o.startAddress.value))
    && (o.endAddress.Some? ==> libc.isAddress(o.endAddress.value))
    && (o.subnetMask.Some? ==> libc.isAddress(o.subnetMask.value))
    && o.uid == o.gid == 0
  }

  lemma ApplyKeepsFields(libc: Libc, item: Item, opts: Options)
    requires FieldsValid(libc, opts)
    ensures var r := Apply(libc, item, opts); r.Ok? ==> FieldsValid(libc, r.value)
  {
    hide ParseMode;
    if item.opt == Fd {
      NumbersAreInRange(item.arg);
    } else if item.opt == StatsInterval {
      NumbersAreInRange(item.arg);
    }
    hide ParseFd, ParseStatsInterval;
  }

  lemma NumbersAreInRange(arg: string)
    ensures ParseFd(arg).Some? ==> 0 <= ParseFd(arg).value <= 0x7fff_ffff
    ensures ParseStatsInterval(arg).Some? ==> 1 <= ParseStatsInterval(arg).value <= 0x7fff_ffff
  {
    hide Strtol10;
  }

  lemma {:induction false} ParseArgsKeepsFields(libc: Libc, tokens: seq<string>, opts: Options)
    requires FieldsValid(libc, opts)
    ensures var r := ParseArgs(libc, tokens, opts); r.Ok? ==> FieldsValid(libc, r.value)
    decreases |tokens|
  {
    hide Apply, NextOption, FieldsValid;
    var scan := NextOption(HELPER_OPTIONS, tokens);
    if scan.Found? {
      ApplyKeepsFields(libc, Item(scan.opt, scan.arg), opts);
      var applied := Apply(libc, Item(scan.opt, scan.arg), opts);
      if applied.Ok? {
        ParseArgsKeepsFields(libc, scan.rest, applied.value);
      }
    }
  }

  /** Settings a helper can run with: one way to reach the vm, and what the mode or
      the network demands. */
  ghost predicate Sound(libc: Libc, o: Options) {
    && -1 <= o.fd <= 0x7fff_ffff && 0 <= o.statsInterval <= 0x7fff_ffff
    && (o.fd == -1 <==> o.socket.Some?) && (o.socket.Some? ==> |o.socket.value| <= 103)
    && (o.startAddress.Some? ==> libc.isAddress(o.startAddress.value))
    && (o.endAddress.Some? ==> libc.isAddress(o.endAddress.value))
    && (o.subnetMask.Some? ==> libc.isAddress(o.subnetMask.value))
    && (o.network.Some? ==>
          o.mode.Unset? && o.sharedInterface.None? && o.startAddress.None? && o.endAddress.None? && o.subnetMask.None?)
    && (o.network.None? ==> !o.mode.Unset?)
    && (o.mode.Bridged? ==> o.sharedInterface.Some? && !o.isolation)
    && (o.mode.Shared? || o.mode.Host? ==>
          (o.startAddress.Some? <==> o.endAddress.Some?) && (o.endAddress.Some? <==> o.subnetMask.Some?))
  }

  lemma ValidSettingsAreSound(libc: Libc, env: Env, o: Options)
    requires FieldsValid(libc, o)
    ensures var v := Validate(o); v.Ok? && Complete(env, v.value).Ok? ==> Sound(libc, Complete(env, v.value).value)
  {
    hide IdFrom;
  }

  /** Whatever the arguments, settings that the helper accepts are sound. */
  lemma AcceptedSettingsAreSound(libc: Libc, env: Env, tokens: seq<string>)
    ensures var r := ParseOptions(libc, env, tokens); r.Ok? ==> Sound(libc, r.value)
  {
    hide ParseArgs, ParseId;
    ParseArgsKeepsFields(libc, tokens, INITIAL);
    var parsed := ParseArgs(libc, tokens, INITIAL);
    if parsed.Ok? {
      ValidSettingsAreSound(libc, env, parsed.value);
    }
  }

  /** The other way to reach the vm: a socket's path is kept, up to 103 characters. */
  lemma SocketIsKept(libc: Libc, env: Env, path: string)
    requires env.sudoUid.None? && env.sudoGid.None?
    ensures ParseOptions(libc, env, ["--socket", path])
         == if |path| <= 103 then Ok(INITIAL.(socket := Some(path), mode := Shared, uid := env.uid, gid := env.gid))
            else Reject
  {
    SocketIsFound(path);
    EmptyIsFinished();
    hide NextOption;
    if |path| <= 103 {
      assert ParseArgs(libc, [], INITIAL.(socket := Some(path))) == Ok(INITIAL.(socket := Some(path)));
    }
  }

  lemma SocketIsFound(path: string)
    ensures NextOption(HELPER_OPTIONS, ["--socket", path]) == Found(Socket, path, [])
  {
    hide NextOption;
    var item := Item(Socket, path);
    assert "--" + Name(Socket) == "--socket";
    assert PrintItem(item) + [] == ["--socket", path];
    PrintedOptionIsFound(HELPER_OPTIONS, item, []);
  }

  /** Asking for the help, the version or the interfaces ends the parse, whatever
      follows. */
  lemma AskingQuits(libc: Libc, env: Env, word: string, rest: seq<string>)
    requires word in {"--help", "--version", "--list-shared-interfaces"}
    ensures ParseOptions(libc, env, [word] + rest) == Quit
  {
    var o := if word == "--help" then Help else if word == "--version" then Version else ListSharedInterfaces;
    AskingWords();
    hide NextOption, Name;
    PrintedOptionIsFound(HELPER_OPTIONS, Item(o, ""), rest);
    assert PrintItem(Item(o, "")) == [word];
  }

  lemma AskingWords()
    ensures "--" + Name(Help) == "--help" && "--" + Name(Version) == "--version"
    ensures "--" + Name(ListSharedInterfaces) == "--list-shared-interfaces"
  {
  }
}
