/**
 * The command-line and time helpers of the demo's entry point: comma-separated
 * parameter names, looking a parameter up in the argument array, choosing the
 * connection mode, the human-readable duration and the overdue check.
 */
module MainHelper {
  import opened Wrappers
  import opened Text
  import opened JavaInt

  // ---------------------------------------------------------------------------
  // String.split(",")
  // ---------------------------------------------------------------------------

  /** The pieces between the commas of `s`, empty pieces included. */
  function SplitAll(s: string): (parts: seq<string>)
    ensures |parts| >= 1
    decreases |s|
  {
    if s == [] then [[]]
    else
      var rest := SplitAll(s[1..]);
      if s[0] == ',' then [[]] + rest else [[s[0]] + rest[0]] + rest[1..]
  }

  /** The pieces put back together with a comma between each two. */
  function Join(parts: seq<string>): string
    requires |parts| >= 1
    decreases |parts|
  {
    if |parts| == 1 then parts[0] else parts[0] + "," + Join(parts[1..])
  }

  /** Splitting at every comma loses nothing: joining the pieces gives `s` back. */
  lemma {:induction false} JoinSplitAll(s: string)
    ensures Join(SplitAll(s)) == s
    decreases |s|
  {
    if s != [] {
      JoinSplitAll(s[1..]);
      var rest := SplitAll(s[1..]);
      if s[0] == ',' {
        assert SplitAll(s) == [[]] + rest;
        assert s == [] + "," + s[1..];
      } else if |rest| == 1 {
        assert SplitAll(s) == [[s[0]] + rest[0]];
        assert s == [s[0]] + s[1..];
      } else {
        var parts := SplitAll(s);
        assert parts == [[s[0]] + rest[0]] + rest[1..];
        assert parts[1..] == rest[1..];
        assert Join(rest) == rest[0] + "," + Join(rest[1..]);
        assert s == [s[0]] + s[1..];
      }
    }
  }

  /** No piece contains a comma. */
  lemma {:induction false} SplitAllNoComma(s: string)
    ensures forall k :: 0 <= k < |SplitAll(s)| ==> ',' !in SplitAll(s)[k]
    decreases |s|
  {
    if s != [] {
      SplitAllNoComma(s[1..]);
      var rest := SplitAll(s[1..]);
      var parts := SplitAll(s);
      if s[0] != ',' {
        forall k | 0 <= k < |parts| ensures ',' !in parts[k] {
          if k > 0 {
            assert parts[k] == rest[k];
          } else {
            assert parts[0] == [s[0]] + rest[0];
          }
        }
      } else {
        forall k | 0 <= k < |parts| ensures ',' !in parts[k] {
          if k > 0 {
            assert parts[k] == rest[k - 1];
          }
        }
      }
    }
  }

  /** The list without its trailing empty strings. */
  function DropTrailingEmpty(parts: seq<string>): (r: seq<string>)
    ensures |r| <= |parts| && r == parts[..|r|]
    ensures r != [] ==> r[|r| - 1] != ""
    ensures forall k :: |r| <= k < |parts| ==> parts[k] == ""
    decreases |parts|
  {
    if parts == [] then []
    else if parts[|parts| - 1] == "" then DropTrailingEmpty(parts[..|parts| - 1])
    else parts
  }

  /**
   * Java's `s.split(",")`: the string itself when it has no comma, otherwise its
   * pieces without the trailing empty ones.
   */
  function Split(s: string): seq<string> {
    if ',' !in s then [s] else DropTrailingEmpty(SplitAll(s))
  }

  /** The names listed in `s` are exactly its non-empty pieces, plus `s` itself if it has no comma. */
  lemma SplitPieces(s: string, name: string)
    ensures name in Split(s) ==> name in SplitAll(s)
    ensures name != "" && name in SplitAll(s) ==> name in Split(s)
    ensures ',' !in s ==> Split(s) == [s]
  {
    SplitAllNoComma(s);
    if ',' !in s {
      NoCommaSplitAll(s);
    } else {
      var all := SplitAll(s);
      var r := DropTrailingEmpty(all);
      if name in r {
        var k :| 0 <= k < |r| && r[k] == name;
        assert all[k] == name;
      }
      if name != "" && name in all {
        var k :| 0 <= k < |all| && all[k] == name;
        assert k < |r|;
        assert r[k] == name;
      }
    }
  }

  /** A string without a comma is one piece. */
  lemma {:induction false} NoCommaSplitAll(s: string)
    requires ',' !in s
    ensures SplitAll(s) == [s]
    decreases |s|
  {
    if s != [] {
      assert ',' !in s[1..] by {
        forall c | c in s[1..] ensures c != ',' { assert c in s; }
      }
      NoCommaSplitAll(s[1..]);
      assert s == [s[0]] + s[1..];
    }
  }

  /** The two parameter spellings the demo uses split the way they read. */
  lemma SplitExamples()
    ensures Split("-t,--time") == ["-t", "--time"]
    ensures Split("--ip") == ["--ip"]
    ensures Split("a,,") == ["a"]
    ensures Split("") == [""]
  {
    SplitTwoNames();
    SplitTrailingCommas();
    assert ',' !in "--ip";
  }

  lemma SplitTwoNames()
    ensures Split("-t,--time") == ["-t", "--time"]
  {
    var t := "-t,--time";
    assert SplitAll(t[3..]) == ["--time"] by {
      assert t[3..] == "--time";
      NoCommaSplitAll("--time");
    }
    assert t[2..][1..] == t[3..] && t[1..][1..] == t[2..] && t[2] == ',';
    assert SplitAll(t[2..]) == [[], "--time"];
    assert t[1..][0] == 't' && ['t'] + [] == "t";
    assert SplitAll(t[1..]) == ["t", "--time"];
    assert ['-'] + "t" == "-t";
    assert SplitAll(t) == ["-t", "--time"];
  }

  lemma SplitTrailingCommas()
    ensures Split("a,,") == ["a"]
  {
    var u := "a,,";
    assert u[1..] == ",," && u[2..] == ",";
    assert ","[1..] == [] && ",,"[1..] == ",";
    assert SplitAll(",") == [[], []];
    assert SplitAll(",,") == [[], [], []];
    assert ['a'] + [] == "a";
    assert SplitAll(u) == ["a", [], []];
    assert u[1] == ',';
    assert DropTrailingEmpty(["a", [], []]) == ["a"] by {
      assert ["a", [], []][..2] == ["a", []];
      assert ["a", []][..1] == ["a"];
    }
  }

  // ---------------------------------------------------------------------------
  // existsParameter
  // ---------------------------------------------------------------------------

  /** Some listed name is one of the arguments. */
  predicate ParameterExists(args: seq<string>, parameterNames: string) {
    exists name :: name in Split(parameterNames) && name in args
  }

  /** `existsParameter`: the names in list order, each looked for among all the arguments. */
  method ExistsParameter(args: seq<string>, parameterNames: string) returns (found: bool)
    ensures found <==> ParameterExists(args, parameterNames)
  {
    var names := Split(parameterNames);
    var k := 0;
    while k < |names|
      invariant 0 <= k <= |names|
      invariant forall j :: 0 <= j < k ==> names[j] !in args
    {
      if names[k] in args {
        return true;
      }
      k := k + 1;
    }
    return false;
  }

  // ---------------------------------------------------------------------------
  // getParameterValue
  // ---------------------------------------------------------------------------

  /** The first position `i >= from` holding `name` and followed by another argument. */
  function FirstValueAt(name: string, args: seq<string>, from: nat): (r: Option<nat>)
    ensures r.Some? ==> from <= r.value && r.value + 1 < |args| && args[r.value] == name
    ensures r.Some? ==> forall j :: from <= j < r.value ==> args[j] != name
    ensures r.None? ==> forall j :: from <= j && j + 1 < |args| ==> args[j] != name
    decreases |args| - from
  {
    if from + 1 >= |args| then None
    else if args[from] == name then Some(from)
    else FirstValueAt(name, args, from + 1)
  }

  /** The position of the value's key: the first name in list order that has one. */
  function FirstValueOf(names: seq<string>, args: seq<string>): (r: Option<(nat, nat)>)
    ensures r.Some? ==> r.value.0 < |names| && FirstValueAt(names[r.value.0], args, 0) == Some(r.value.1)
    ensures r.Some? ==> forall k :: 0 <= k < r.value.0 ==> FirstValueAt(names[k], args, 0).None?
    ensures r.None? ==> forall k :: 0 <= k < |names| ==> FirstValueAt(names[k], args, 0).None?
    decreases |names|
  {
    if names == [] then None
    else match FirstValueAt(names[0], args, 0)
      case Some(i) => Some((0, i))
      case None =>
        match FirstValueOf(names[1..], args)
        case None => None
        case Some(hit) => Some((hit.0 + 1, hit.1))
  }

  /**
   * What `getParameterValue` returns: the converted value after the first hit, the
   * default when no name has a value after it, and the default when conversion throws
   * (`convert` gives None).
   */
  function ParameterValue<T>(args: seq<string>, parameterNames: string,
                             convert: string -> Option<T>, defaultValue: T): T
  {
    match FirstValueOf(Split(parameterNames), args)
    case None => defaultValue
    case Some(hit) => convert(args[hit.1 + 1]).GetOr(defaultValue)
  }

  /**
   * `getParameterValue`: names in list order, positions in array order; the first
   * name at a position with a following argument ends the search, whether or not its
   * value converts.
   */
  method GetParameterValue<T>(args: seq<string>, parameterNames: string,
                              convert: string -> Option<T>, defaultValue: T) returns (r: T)
    ensures r == ParameterValue(args, parameterNames, convert, defaultValue)
  {
    var names := Split(parameterNames);
    var k := 0;
    while k < |names|
      invariant 0 <= k <= |names|
      invariant forall j :: 0 <= j < k ==> FirstValueAt(names[j], args, 0).None?
    {
      var name := names[k];
      var i := 0;
      while i < |args|
        invariant 0 <= i <= |args|
        invariant forall j :: 0 <= j < i && j + 1 < |args| ==> args[j] != name
      {
        if name == args[i] {
          if i + 1 < |args| {
            FirstValueAtFrom(name, args, i);
            FirstValueAtSkips(name, args, 0, i);
            FirstValueOfAt(names, args, k);
            var converted := convert(args[i + 1]);
            if converted.None? {
              return defaultValue;
            }
            return converted.value;
          }
        }
        i := i + 1;
      }
      FirstValueAtNone(name, args);
      k := k + 1;
    }
    FirstValueOfNone(names, args);
    return defaultValue;
  }

  /** A hit at `i` is found from `i`. */
  lemma FirstValueAtFrom(name: string, args: seq<string>, i: nat)
    requires i + 1 < |args| && args[i] == name
    ensures FirstValueAt(name, args, i) == Some(i)
  {
  }

  /** Positions before `i` without a hit change nothing. */
  lemma {:induction false} FirstValueAtSkips(name: string, args: seq<string>, from: nat, i: nat)
    requires from <= i
    requires forall j :: from <= j < i && j + 1 < |args| ==> args[j] != name
    ensures FirstValueAt(name, args, from) == FirstValueAt(name, args, i)
    decreases i - from
  {
    if from < i && from + 1 < |args| {
      FirstValueAtSkips(name, args, from + 1, i);
    }
  }

  /** No position with a following argument holds the name: no hit. */
  lemma FirstValueAtNone(name: string, args: seq<string>)
    requires forall j :: 0 <= j < |args| && j + 1 < |args| ==> args[j] != name
    ensures FirstValueAt(name, args, 0).None?
  {
  }

  /** When the first names have no hit, the k-th name's hit is the hit. */
  lemma {:induction false} FirstValueOfAt(names: seq<string>, args: seq<string>, k: nat)
    requires k < |names|
    requires forall j :: 0 <= j < k ==> FirstValueAt(names[j], args, 0).None?
    requires FirstValueAt(names[k], args, 0).Some?
    ensures FirstValueOf(names, args) == Some((k, FirstValueAt(names[k], args, 0).value))
    decreases k
  {
    if k > 0 {
      var tail := names[1..];
      assert forall j :: 0 <= j < k - 1 ==> FirstValueAt(tail[j], args, 0).None? by {
        forall j | 0 <= j < k - 1 ensures FirstValueAt(tail[j], args, 0).None? {
          assert tail[j] == names[j + 1];
        }
      }
      assert tail[k - 1] == names[k];
      assert FirstValueAt(names[0], args, 0).None?;
      FirstValueOfAt(tail, args, k - 1);
    }
  }

  /** No name has a hit: nothing is found. */
  lemma FirstValueOfNone(names: seq<string>, args: seq<string>)
    requires forall j :: 0 <= j < |names| ==> FirstValueAt(names[j], args, 0).None?
    ensures FirstValueOf(names, args).None?
  {
  }

  /**
   * The value found: the argument after the earliest position of the first listed
   * name that has a following argument, converted; the default if that conversion throws.
   */
  lemma ParameterValueFound<T>(args: seq<string>, parameterNames: string,
                               convert: string -> Option<T>, defaultValue: T, k: nat, i: nat)
    requires k < |Split(parameterNames)|
    requires forall j :: 0 <= j < k ==> FirstValueAt(Split(parameterNames)[j], args, 0).None?
    requires i + 1 < |args| && args[i] == Split(parameterNames)[k]
    requires forall j :: 0 <= j < i ==> args[j] != Split(parameterNames)[k]
    ensures convert(args[i + 1]).Some? ==>
      ParameterValue(args, parameterNames, convert, defaultValue) == convert(args[i + 1]).value
    ensures convert(args[i + 1]).None? ==>
      ParameterValue(args, parameterNames, convert, defaultValue) == defaultValue
  {
    var names := Split(parameterNames);
    FirstValueAtFrom(names[k], args, i);
    FirstValueAtSkips(names[k], args, 0, i);
    FirstValueOfAt(names, args, k);
  }

  /** Without any listed name followed by another argument, the default comes back. */
  lemma ParameterValueMissing<T>(args: seq<string>, parameterNames: string,
                                 convert: string -> Option<T>, defaultValue: T)
    requires forall name, j :: name in Split(parameterNames) && 0 <= j && j + 1 < |args|
               ==> args[j] != name
    ensures ParameterValue(args, parameterNames, convert, defaultValue) == defaultValue
  {
    var names := Split(parameterNames);
    forall k | 0 <= k < |names| ensures FirstValueAt(names[k], args, 0).None? {
      assert names[k] in names;
      FirstValueAtNone(names[k], args);
    }
    FirstValueOfNone(names, args);
  }

  /** A name in the last position has no value and is passed over. */
  lemma LastPositionSkipped<T>(args: seq<string>, name: string,
                               convert: string -> Option<T>, defaultValue: T)
    requires |args| >= 1 && args[|args| - 1] == name && ',' !in name
    requires forall j :: 0 <= j < |args| - 1 ==> args[j] != name
    ensures ParameterValue(args, name, convert, defaultValue) == defaultValue
  {
    SplitPieces(name, name);
    ParameterValueMissing(args, name, convert, defaultValue);
  }

  // ---------------------------------------------------------------------------
  // parseConfigBuilder
  // ---------------------------------------------------------------------------

  /** The connection the configuration builder is created for. */
  datatype Connection =
    | Endpoint(address: string, natEnabled: bool)   // ConfigBuilder.create(ip).setting(NAT, nat)
    | Routing                                      // ConfigBuilder.routing()
    | Tunneling(natEnabled: bool)                  // ConfigBuilder.tunneling(nat)

  /** A builder, or the message of the IllegalStateException thrown instead. */
  datatype ConfigResult = Ok(connection: Connection) | Failure(message: string)

  const TunnelingAndRouting: string := "You cannot use tunneling and routing at same time!"
  const NatNeedsTunneling: string := "NAT is available for tunneling only!"

  /** The `--ip` value: the identity conversion never throws; null when missing. */
  function IpAddress(args: seq<string>): Option<string> {
    ParameterValue(args, "--ip", (s: string) => Some(Some(s)), None)
  }

  /** `parseConfigBuilder` on the three looked-up values. */
  function ParseConfig(args: seq<string>): ConfigResult {
    var routingEnabled := ParameterExists(args, "--routing");
    var natEnabled := ParameterExists(args, "--nat");
    var ipAddress := IpAddress(args);
    if ipAddress.Some? then
      if routingEnabled then Failure(TunnelingAndRouting) else Ok(Endpoint(ipAddress.value, natEnabled))
    else if routingEnabled then
      if natEnabled then Failure(NatNeedsTunneling) else Ok(Routing)
    else Ok(Tunneling(natEnabled))
  }

  /** `parseConfigBuilder`, calling the two search methods as the source does. */
  method ParseConfigBuilder(args: seq<string>) returns (r: ConfigResult)
    ensures r == ParseConfig(args)
  {
    var routingEnabled := ExistsParameter(args, "--routing");
    var natEnabled := ExistsParameter(args, "--nat");
    var ipAddress := GetParameterValue(args, "--ip", (s: string) => Some(Some(s)), None);
    if ipAddress.Some? {
      if routingEnabled {
        return Failure(TunnelingAndRouting);
      }
      return Ok(Endpoint(ipAddress.value, natEnabled));
    } else if routingEnabled {
      if natEnabled {
        return Failure(NatNeedsTunneling);
      }
      return Ok(Routing);
    } else {
      return Ok(Tunneling(natEnabled));
    }
  }

  /** A flag name without a comma is present exactly when it is one of the arguments. */
  lemma ExistsSingle(args: seq<string>, name: string)
    requires ',' !in name
    ensures ParameterExists(args, name) <==> name in args
  {
    SplitPieces(name, name);
    assert Split(name) == [name];
  }

  /** The five outcomes of choosing a connection, and nothing else. */
  lemma ParseConfigCases(args: seq<string>)
    ensures var r := ParseConfig(args);
      && (IpAddress(args).Some? && "--routing" in args ==> r == Failure(TunnelingAndRouting))
      && (IpAddress(args).None? && "--routing" in args && "--nat" in args ==> r == Failure(NatNeedsTunneling))
      && (IpAddress(args).Some? && "--routing" !in args ==>
            r == Ok(Endpoint(IpAddress(args).value, "--nat" in args)))
      && (IpAddress(args).None? && "--routing" in args && "--nat" !in args ==> r == Ok(Routing))
      && (IpAddress(args).None? && "--routing" !in args ==> r == Ok(Tunneling("--nat" in args)))
  {
    assert ',' !in "--routing" && ',' !in "--nat";
    ExistsSingle(args, "--routing");
    ExistsSingle(args, "--nat");
  }

  /** `--ip` followed by a value gives that value as the endpoint address. */
  lemma IpAddressFound(args: seq<string>, i: nat)
    requires i + 1 < |args| && args[i] == "--ip"
    requires forall j :: 0 <= j < i ==> args[j] != "--ip"
    ensures IpAddress(args) == Some(args[i + 1])
  {
    assert Split("--ip") == ["--ip"] by { SplitPieces("--ip", "--ip"); }
    ParameterValueFound(args, "--ip", (s: string) => Some(Some(s)), None, 0, i);
  }

  /**
   * A `--ip` that only appears last has no value, so no endpoint is chosen: the
   * decision falls to `--routing` and `--nat` as if `--ip` were not given.
   */
  lemma TrailingIp(args: seq<string>)
    requires |args| >= 1 && args[|args| - 1] == "--ip"
    requires forall j :: 0 <= j < |args| - 1 ==> args[j] != "--ip"
    ensures IpAddress(args).None?
    ensures "--routing" !in args ==> ParseConfig(args) == Ok(Tunneling("--nat" in args))
    ensures "--routing" in args && "--nat" !in args ==> ParseConfig(args) == Ok(Routing)
    ensures "--routing" in args && "--nat" in args ==> ParseConfig(args) == Failure(NatNeedsTunneling)
    ensures ParseConfig(["--ip"]) == Ok(Tunneling(false))
  {
    assert ',' !in "--ip";
    LastPositionSkipped(args, "--ip", (s: string) => Some(Some(s)), None);
    ParseConfigCases(args);
    var single := ["--ip"];
    LastPositionSkipped(single, "--ip", (s: string) => Some(Some(s)), None);
    ParseConfigCases(single);
  }

  /** `--ip --routing`: the flag is taken as the address, and routing is on as well. */
  lemma IpSwallowsRouting()
    ensures ParseConfig(["--ip", "--routing"]) == Failure(TunnelingAndRouting)
  {
    IpAddressFound(["--ip", "--routing"], 0);
    ExistsSingle(["--ip", "--routing"], "--routing");
  }

  // ---------------------------------------------------------------------------
  // toHumanTimeFormat and isOverdue
  // ---------------------------------------------------------------------------

  datatype HumanTime = HumanTime(days: int, hours: int, minutes: int, seconds: int)

  /** The four fields `toHumanTimeFormat` computes with Java's truncating `/` and `%`. */
  function HumanTimeOf(seconds: int): (t: HumanTime)
    ensures t.days * 86400 + t.hours * 3600 + t.minutes * 60 + t.seconds == seconds
    ensures seconds >= 0 ==> t.days >= 0 && 0 <= t.hours < 24 && 0 <= t.minutes < 60 && 0 <= t.seconds < 60
    ensures seconds < 0 ==> t.days <= 0 && -24 < t.hours <= 0 && -60 < t.minutes <= 0 && -60 < t.seconds <= 0
  {
    var t := HumanTime(Quot(seconds, 86400), Quot(Rem(seconds, 86400), 3600),
                       Quot(Rem(seconds, 3600), 60), Rem(seconds, 60));
    HumanTimeRecombines(seconds);
    t
  }

  /** The four fields add back up to the number of seconds, for every sign. */
  lemma HumanTimeRecombines(seconds: int)
    ensures Quot(seconds, 86400) * 86400 + Quot(Rem(seconds, 86400), 3600) * 3600
          + Quot(Rem(seconds, 3600), 60) * 60 + Rem(seconds, 60) == seconds
  {
    if seconds < 0 {
      QuotRemNegate(seconds, 86400);
      QuotRemNegate(Rem(-seconds, 86400), 3600);
      QuotRemNegate(seconds, 3600);
      QuotRemNegate(Rem(-seconds, 3600), 60);
      QuotRemNegate(seconds, 60);
      HumanTimeRecombinesNat(-seconds);
    } else {
      HumanTimeRecombinesNat(seconds);
    }
  }

  lemma HumanTimeRecombinesNat(s: nat)
    ensures Quot(s, 86400) * 86400 + Quot(Rem(s, 86400), 3600) * 3600
          + Quot(Rem(s, 3600), 60) * 60 + Rem(s, 60) == s
  {
    var d, r1 := s / 86400, s % 86400;
    var h, r2 := r1 / 3600, r1 % 3600;
    var m, r3 := r2 / 60, r2 % 60;
    assert Quot(s, 86400) == d && Rem(s, 86400) == r1;
    assert Quot(r1, 3600) == h;
    ModOfSum(s, 24 * d + h, r2, 3600);
    assert Rem(s, 3600) == r2;
    assert Quot(r2, 60) == m;
    ModOfSum(s, 1440 * d + 60 * h + m, r3, 60);
    assert Rem(s, 60) == r3;
  }

  /** The remainder of `q * d + r` for `0 <= r < d`. */
  lemma ModOfSum(s: int, q: int, r: int, d: int)
    requires d == 60 || d == 3600
    requires 0 <= r < d && s == q * d + r
    ensures s % d == r
  {
    if d == 60 {
      assert s == q * 60 + r;
    } else {
      assert s == q * 3600 + r;
    }
  }

  /** For a duration that is not negative, the fields are the only such decomposition. */
  lemma HumanTimeUnique(seconds: int, t: HumanTime)
    requires t.days >= 0 && 0 <= t.hours < 24 && 0 <= t.minutes < 60 && 0 <= t.seconds < 60
    requires t.days * 86400 + t.hours * 3600 + t.minutes * 60 + t.seconds == seconds
    ensures HumanTimeOf(seconds) == t
  {
    var u := HumanTimeOf(seconds);
    assert 0 <= t.hours * 3600 + t.minutes * 60 + t.seconds < 86400;
    assert u.days == t.days;
    assert 0 <= t.minutes * 60 + t.seconds < 3600;
    assert u.hours == t.hours;
    assert u.minutes == t.minutes;
  }

  /** `toHumanTimeFormat`: "D days, H hours, M minutes, S seconds". */
  function ToHumanTimeFormat(seconds: int): string {
    var t := HumanTimeOf(seconds);
    IntToString(t.days) + " days, " + IntToString(t.hours) + " hours, "
      + IntToString(t.minutes) + " minutes, " + IntToString(t.seconds) + " seconds"
  }

  /** One day, one hour, one minute and one second. */
  lemma HumanTimeExample()
    ensures HumanTimeOf(90061) == HumanTime(1, 1, 1, 1)
    ensures ToHumanTimeFormat(90061) == "1" + " days, " + "1" + " hours, " + "1" + " minutes, " + "1" + " seconds"
  {
    HumanTimeExampleFields();
    assert IntToString(1) == "1" by { assert NatToString(1) == [Digit(1)]; }
  }

  lemma HumanTimeExampleFields()
    ensures HumanTimeOf(90061) == HumanTime(1, 1, 1, 1)
  {
    assert Quot(90061, 86400) == 1 && Rem(90061, 86400) == 3661;
    assert Quot(3661, 3600) == 1 && Rem(90061, 3600) == 61;
    assert Quot(61, 60) == 1 && Rem(90061, 60) == 1;
  }

  /** `isOverdue`: strictly more elapsed seconds than the monitoring time. */
  function IsOverdue(elapsedSeconds: int, monitorTimeInSeconds: int): bool {
    elapsedSeconds > monitorTimeInSeconds
  }

  /** Reaching the limit exactly is not overdue; once overdue, it stays overdue as time passes. */
  lemma OverdueProperties(elapsed: int, later: int, limit: int)
    requires elapsed <= later
    ensures !IsOverdue(limit, limit)
    ensures IsOverdue(elapsed, limit) ==> IsOverdue(later, limit)
    ensures IsOverdue(elapsed, limit) <==> elapsed >= limit + 1
  {
  }
}
