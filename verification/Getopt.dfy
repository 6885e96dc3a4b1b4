/** The part of getopt_long() that vmnet-run and vmnet-helper share: long options
    spelled `--name value`, `--name=value` or `--name`, and `--`. */
module Getopt {
  import opened Wrappers

  datatype Opt =
    | Fd | Socket | InterfaceId | OperationMode | SharedInterface
    | StartAddress | EndAddress | SubnetMask
    | EnableTso | EnableChecksumOffload | EnableIsolation | ListSharedInterfaces
    | Network | StatsInterval | Verbose | Version | Help

  function Name(o: Opt): string {
    match o
    case Fd => "fd"
    case Socket => "socket"
    case InterfaceId => "interface-id"
    case OperationMode => "operation-mode"
    case SharedInterface => "shared-interface"
    case StartAddress => "start-address"
    case EndAddress => "end-address"
    case SubnetMask => "subnet-mask"
    case EnableTso => "enable-tso"
    case EnableChecksumOffload => "enable-checksum-offload"
    case EnableIsolation => "enable-isolation"
    case ListSharedInterfaces => "list-shared-interfaces"
    case Network => "network"
    case StatsInterval => "stats-interval"
    case Verbose => "verbose"
    case Version => "version"
    case Help => "help"
  }

  predicate TakesArgument(o: Opt) {
    o in {Fd, Socket, InterfaceId, OperationMode, SharedInterface,
          StartAddress, EndAddress, SubnetMask, Network, StatsInterval}
  }

  const HELPER_OPTIONS: seq<Opt> := [
    Fd, Socket, InterfaceId, OperationMode, SharedInterface, StartAddress, EndAddress, SubnetMask, EnableTso,
    EnableChecksumOffload, EnableIsolation, ListSharedInterfaces, Network, StatsInterval, Verbose, Version, Help]

  const RUNNER_OPTIONS: seq<Opt> := [
    InterfaceId, OperationMode, SharedInterface, StartAddress, EndAddress, SubnetMask, EnableTso,
    EnableChecksumOffload, EnableIsolation, Network, StatsInterval, Verbose, Version, Help]

  /** The option of the table with this name. */
  function Lookup(table: seq<Opt>, name: string): (r: Option<Opt>)
    ensures r.Some? ==> r.value in table && Name(r.value) == name
    ensures r.None? ==> forall o :: o in table ==> Name(o) != name
  {
    if table == [] then None
    else if Name(table[0]) == name then Some(table[0])
    else Lookup(table[1..], name)
  }

  function NameEnd(body: string): (i: nat)
    ensures i <= |body| && '=' !in body[..i] && (i < |body| ==> body[i] == '=')
  {
    if body == "" || body[0] == '=' then 0
    else
      var i := NameEnd(body[1..]);
      assert body[..i + 1] == [body[0]] + body[1..][..i];
      i + 1
  }

  /** One call of getopt_long(): the end of the options, an option with its
      argument, or an error. */
  datatype Scan = Finished(rest: seq<string>) | Found(opt: Opt, arg: string, rest: seq<string>) | Invalid

  function NextOption(table: seq<Opt>, tokens: seq<string>): (r: Scan)
    ensures r.Found? ==> |r.rest| < |tokens|
  {
    if tokens == [] then Finished([])
    else if tokens[0] == "--" then Finished(tokens[1..])
    else if !("--" <= tokens[0]) then Finished(tokens)
    else
      var body := tokens[0][2..];
      var i := NameEnd(body);
      var opt := Lookup(table, body[..i]);
      if opt.None? then Invalid
      else if !TakesArgument(opt.value) then
        if i < |body| then Invalid else Found(opt.value, "", tokens[1..])
      else if i < |body| then Found(opt.value, body[i + 1..], tokens[1..])
      else if |tokens| == 1 then Invalid
      else Found(opt.value, tokens[1], tokens[2..])
  }

  /** An option to print: the argument is empty for a flag. */
  datatype Item = Item(opt: Opt, arg: string)

  function PrintItem(item: Item): seq<string> {
    if TakesArgument(item.opt) then ["--" + Name(item.opt), item.arg] else ["--" + Name(item.opt)]
  }

  function Print(items: seq<Item>): seq<string> {
    if items == [] then [] else PrintItem(items[0]) + Print(items[1..])
  }

  lemma {:induction false} PrintConcat(a: seq<Item>, b: seq<Item>)
    ensures Print(a + b) == Print(a) + Print(b)
  {
    if a == [] {
      assert a + b == b;
    } else {
      assert (a + b)[1..] == a[1..] + b;
      PrintConcat(a[1..], b);
    }
  }

  lemma NamesDiffer(a: Opt, b: Opt)
    requires Name(a) == Name(b)
    ensures a == b
  {
    assert Name(a)[0] == Name(b)[0] && |Name(a)| == |Name(b)|;
    assert |Name(a)| == 7 ==> Name(a)[3] == Name(b)[3];
  }

  lemma NamesHaveNoEquals(o: Opt)
    ensures '=' !in Name(o) && Name(o) != ""
  {
  }

  lemma NameEndIs(body: string, i: nat)
    requires i <= |body| && '=' !in body[..i] && (i < |body| ==> body[i] == '=')
    ensures NameEnd(body) == i
  {
    var j := NameEnd(body);
    assert forall k :: 0 <= k < i ==> body[..i][k] == body[k];
    assert forall k :: 0 <= k < j ==> body[..j][k] == body[k];
  }

  /** A printed option is read back, whatever its argument looks like: one that
      starts with dashes is still the argument. */
  lemma PrintedOptionIsFound(table: seq<Opt>, item: Item, rest: seq<string>)
    requires item.opt in table && (!TakesArgument(item.opt) ==> item.arg == "")
    ensures NextOption(table, PrintItem(item) + rest) == Found(item.opt, item.arg, rest)
  {
    var tokens := PrintItem(item) + rest;
    var name := Name(item.opt);
    hide Name, TakesArgument;
    NamesHaveNoEquals(item.opt);
    assert tokens[0] == "--" + name && tokens[0][2..] == name && |tokens[0]| > 2;
    assert name[..|name|] == name;
    NameEndIs(name, |name|);
    NamesDiffer(item.opt, Lookup(table, name).value);
    if TakesArgument(item.opt) {
      assert tokens[1] == item.arg && tokens[2..] == rest;
    } else {
      assert tokens[1..] == rest;
    }
  }

  lemma NameEndAt(name: string, rest: string)
    requires '=' !in name
    ensures NameEnd(name + "=" + rest) == |name|
  {
    var body := name + "=" + rest;
    assert body[..|name|] == name && body[|name|] == '=';
    NameEndIs(body, |name|);
  }

  /** The other spelling of an argument is read alike, and refused for a flag. */
  lemma ArgumentAfterEquals(table: seq<Opt>, o: Opt, arg: string, rest: seq<string>)
    requires o in table
    ensures NextOption(table, ["--" + Name(o) + "=" + arg] + rest)
         == if TakesArgument(o) then Found(o, arg, rest) else Invalid
  {
    var tokens := ["--" + Name(o) + "=" + arg] + rest;
    var name := Name(o);
    hide Name, TakesArgument;
    NamesHaveNoEquals(o);
    var body := name + "=" + arg;
    assert tokens[0][2..] == body && tokens[0] != "--" && tokens[1..] == rest;
    NameEndAt(name, arg);
    assert body[..|name|] == name && body[|name| + 1..] == arg;
    NamesDiffer(o, Lookup(table, name).value);
  }

  /** An option without the argument it needs is refused, and so is a name that is
      neither an option nor the start of one. */
  lemma MalformedIsRefused(table: seq<Opt>, o: Opt, name: string, rest: seq<string>)
    requires name != "" && '=' !in name && forall p :: p in table ==> !(name <= Name(p))
    ensures NextOption(table, ["--" + name] + rest) == Invalid
    ensures o in table && TakesArgument(o) ==> NextOption(table, ["--" + Name(o)]) == Invalid
  {
    hide Name, TakesArgument;
    assert (["--" + name] + rest)[0][2..] == name && "--" + name != "--";
    assert name[..|name|] == name;
    NameEndIs(name, |name|);
    if o in table && TakesArgument(o) {
      var own := Name(o);
      NamesHaveNoEquals(o);
      assert ("--" + own)[2..] == own && "--" + own != "--" && own[..|own|] == own;
      NameEndIs(own, |own|);
      NamesDiffer(o, Lookup(table, own).value);
    }
  }
}
