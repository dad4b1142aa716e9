/**
 The service command line of contrib/windows/install-service.ps1, and the rules by which a
 Microsoft C (or Rust) program takes it apart again: "Parsing C command-line arguments" in
 Microsoft's C documentation, with the rule that a doubled quote inside quotes is a quote.
 */
module ServiceCommandLine {
  import opened Prelude
  import opened Text

  // ----- building

  /** `Replace('"', '\"')`. */
  function Escape(s: string): string {
    if s == "" then "" else (if s[0] == '"' then ['\\', '"'] else [s[0]]) + Escape(s[1..])
  }

  /** `Quote-ServiceArgument`. */
  function Quote(s: string): string {
    "\"" + Escape(s) + "\""
  }

  /** The quoted arguments joined by single spaces. */
  function Join(args: seq<string>): string {
    if args == [] then ""
    else if |args| == 1 then Quote(args[0])
    else Quote(args[0]) + (" " + Join(args[1..]))
  }

  function BinaryPath(executable: string, args: seq<string>): string {
    Quote(executable) + (" " + Join(args))
  }

  datatype Listen = TailscalePort(port: string) | ListenAddress(address: string)

  datatype Settings = Settings(
    listen: Listen, agentExtraSocket: string, clientCaCert: string,
    serverCert: string, serverKey: string, logPath: string, maxConnections: nat)

  /** The values that the caller of the script supplies. */
  function Supplied(s: Settings): seq<string> {
    [if s.listen.TailscalePort? then s.listen.port else s.listen.address,
     s.agentExtraSocket, s.clientCaCert, s.serverCert, s.serverKey, s.logPath]
  }

  /** Each supplied value behind its option, and the connection limit last. */
  function ServiceArguments(s: Settings): seq<string> {
    var v := Supplied(s);
    ["windows-service",
     if s.listen.TailscalePort? then "--tailscale-listen-port" else "--listen-address", v[0],
     "--agent-extra-socket", v[1], "--client-ca-cert", v[2], "--server-cert", v[3],
     "--server-key", v[4], "--log-path", v[5], "--max-connections", Digits(s.maxConnections)]
  }

  /** The argument list as the script assembles it, with repeated `+=`. */
  method BuildArguments(s: Settings) returns (arguments: seq<string>)
    ensures arguments == ServiceArguments(s)
  {
    arguments := ["windows-service"];
    match s.listen {
      case TailscalePort(port) => arguments := arguments + ["--tailscale-listen-port", port];
      case ListenAddress(address) => arguments := arguments + ["--listen-address", address];
    }
    arguments := arguments + [
      "--agent-extra-socket", s.agentExtraSocket,
      "--client-ca-cert", s.clientCaCert,
      "--server-cert", s.serverCert,
      "--server-key", s.serverKey,
      "--log-path", s.logPath,
      "--max-connections", Digits(s.maxConnections)];
  }

  /** The options stand at the odd positions. */
  predicate IsOption(args: seq<string>, k: nat) {
    k < |args| && k % 2 == 1
  }

  ghost predicate IsOnly(args: seq<string>, option: string, k: nat) {
    forall j: nat :: IsOption(args, j) ==> (args[j] == option <==> j == k)
  }

  /** A reader of options and values finds this value behind this option, and no second such option. */
  ghost predicate HasOption(args: seq<string>, option: string, value: string) {
    exists k: nat :: IsOption(args, k) && IsOnly(args, option, k) && k + 1 < |args| && args[k + 1] == value
  }

  /** The options differ in length, but for two that differ in their first letter. */
  lemma OptionShape(s: Settings, k: nat)
    requires k < 15 && k % 2 == 1
    ensures var option := ServiceArguments(s)[k];
            match k
            case 1 => |option| == 23 || (|option| == 16 && option[2] == 'l')
            case 3 => |option| == 20
            case 5 => |option| == 16 && option[2] == 'c'
            case 7 => |option| == 13
            case 9 => |option| == 12
            case 11 => |option| == 10
            case _ => |option| == 17
  {
  }

  lemma OptionsDiffer(s: Settings, j: nat, k: nat)
    requires j < 15 && k < 15 && j % 2 == 1 && k % 2 == 1 && j != k
    ensures var args := ServiceArguments(s);
            |args[j]| > 2 && |args[k]| > 2 && (|args[j]| != |args[k]| || args[j][2] != args[k][2])
  {
    OptionShape(s, j);
    OptionShape(s, k);
  }

  lemma OptionHasValue(s: Settings, k: nat)
    requires k < 15 && k % 2 == 1
    ensures var args := ServiceArguments(s);
            IsOnly(args, args[k], k) && HasOption(args, args[k], args[k + 1])
  {
    var args := ServiceArguments(s);
    forall j: nat | IsOption(args, j)
      ensures args[j] == args[k] <==> j == k
    {
      if j != k {
        OptionsDiffer(s, j, k);
      }
    }
    assert IsOption(args, k) && IsOnly(args, args[k], k);
  }

  /** The service is told each setting behind its own option. */
  lemma SettingsArePassed(s: Settings)
    ensures var args := ServiceArguments(s);
            && args[0] == "windows-service"
            && (s.listen.TailscalePort? ==> HasOption(args, "--tailscale-listen-port", s.listen.port))
            && (s.listen.ListenAddress? ==> HasOption(args, "--listen-address", s.listen.address))
            && HasOption(args, "--agent-extra-socket", s.agentExtraSocket)
            && HasOption(args, "--client-ca-cert", s.clientCaCert)
            && HasOption(args, "--server-cert", s.serverCert)
            && HasOption(args, "--server-key", s.serverKey)
            && HasOption(args, "--log-path", s.logPath)
            && HasOption(args, "--max-connections", Digits(s.maxConnections))
  {
    OptionHasValue(s, 1);
    OptionHasValue(s, 3);
    OptionHasValue(s, 5);
    OptionHasValue(s, 7);
    OptionHasValue(s, 9);
    OptionHasValue(s, 11);
    OptionHasValue(s, 13);
  }

  // ----- taking apart

  function Slashes(n: nat): (s: string)
    ensures |s| == n && forall k :: 0 <= k < n ==> s[k] == '\\'
  {
    seq(n, k => '\\')
  }

  predicate IsSeparator(c: char) {
    c == ' ' || c == '\t'
  }

  /** The program name: quotes only protect separators and are dropped; backslashes mean nothing. */
  function ProgramName(s: string, quoted: bool): (string, string) {
    if s == "" then ("", "")
    else if s[0] == '"' then ProgramName(s[1..], !quoted)
    else if IsSeparator(s[0]) && !quoted then ("", s[1..])
    else
      var (name, rest) := ProgramName(s[1..], quoted);
      ([s[0]] + name, rest)
  }

  /** The argument being read and where the reader is: in quotes or not, after how many backslashes. */
  datatype Reader = Reader(current: Option<string>, quoted: bool, slashes: nat)

  function Current(r: Reader): string {
    if r.current.Some? then r.current.value else ""
  }

  /** The current argument with the pending backslashes, which stand for themselves, and more. */
  function Extended(r: Reader, more: string): string {
    Current(r) + Slashes(r.slashes) + more
  }

  function Arguments(s: string, r: Reader): seq<string>
    decreases |s|
  {
    if s == "" then (if r.current.None? then [] else [Extended(r, "")])
    else if s[0] == '\\' then Arguments(s[1..], Reader(Some(Current(r)), r.quoted, r.slashes + 1))
    else if s[0] == '"' then
      var halved := Current(r) + Slashes(r.slashes / 2);
      if r.slashes % 2 == 1 then Arguments(s[1..], Reader(Some(halved + "\""), r.quoted, 0))
      else if r.quoted && |s| > 1 && s[1] == '"' then Arguments(s[2..], Reader(Some(halved + "\""), true, 0))
      else Arguments(s[1..], Reader(Some(halved), !r.quoted, 0))
    else if IsSeparator(s[0]) && !r.quoted then
      (if r.current.None? then [] else [Extended(r, "")]) + Arguments(s[1..], Reader(None, false, 0))
    else Arguments(s[1..], Reader(Some(Extended(r, [s[0]])), r.quoted, 0))
  }

  function ParseCommandLine(s: string): seq<string> {
    var (name, rest) := ProgramName(s, false);
    [name] + Arguments(rest, Reader(None, false, 0))
  }

  // ----- which arguments survive

  /** No backslash directly precedes a quote or ends the argument. */
  predicate IsGood(a: string) {
    forall k :: 0 <= k < |a| && a[k] == '\\' ==> k + 1 < |a| && a[k + 1] != '"'
  }

  predicate HasFinalQuote(a: string) {
    |a| >= 2 && a[|a| - 2] == '\\' && a[|a| - 1] == '"'
  }

  /** A last argument may also end in one backslash and a quote: the doubled quote is then taken for that quote. */
  predicate IsGoodLast(a: string) {
    IsGood(a) || (HasFinalQuote(a) && IsGood(a[..|a| - 2]))
  }

  predicate Survive(args: seq<string>) {
    && (forall k :: 0 <= k < |args| - 1 ==> IsGood(args[k]))
    && (args != [] ==> IsGoodLast(args[|args| - 1]))
  }

  /** As `IsGood`, for what remains of an argument after `slashes` backslashes. */
  predicate IsGoodAfter(slashes: nat, a: string) {
    IsGood(a) && (slashes > 0 ==> a != "" && a[0] != '"')
  }

  lemma GoodTail(a: string)
    requires a != ""
    ensures IsGood(a) <==> IsGoodAfter(if a[0] == '\\' then 1 else 0, a[1..])
  {
    if IsGood(a) {
      forall k | 0 <= k < |a[1..]| && a[1..][k] == '\\'
        ensures k + 1 < |a[1..]| && a[1..][k + 1] != '"'
      {
        assert a[k + 1] == '\\' && a[k + 2] == a[1..][k + 1];
      }
    }
    if IsGoodAfter(if a[0] == '\\' then 1 else 0, a[1..]) {
      forall k | 0 <= k < |a| && a[k] == '\\'
        ensures k + 1 < |a| && a[k + 1] != '"'
      {
        if k > 0 {
          assert a[1..][k - 1] == '\\';
          assert a[1..][k] == a[k + 1];
        }
      }
    }
  }

  // ----- single steps of the reader over an escaped argument

  lemma ReadSlash(rest: string, r: Reader)
    requires r.current.Some?
    ensures Arguments(['\\', '"'] + rest, r) == Arguments(['"'] + rest, Reader(r.current, r.quoted, r.slashes + 1))
  {
    assert (['\\', '"'] + rest)[1..] == ['"'] + rest;
  }

  /** After no backslash, an escaped quote is a quote. */
  lemma ReadEscapedQuote(rest: string, r: Reader)
    requires r.current.Some? && r.slashes == 0
    ensures Arguments(['\\', '"'] + rest, r) == Arguments(rest, Reader(Some(Current(r) + "\""), r.quoted, 0))
  {
    ReadSlash(rest, r);
    assert (['"'] + rest)[1..] == rest;
    assert Current(r) + Slashes(0) == Current(r);
  }

  /** After one backslash it is one backslash, and a quote that closes or doubles. */
  lemma ReadHalvedQuote(rest: string, r: Reader)
    requires r.current.Some? && r.slashes == 1 && r.quoted
    ensures Arguments(['\\', '"'] + rest, r)
         == if rest != "" && rest[0] == '"'
            then Arguments(rest[1..], Reader(Some(Current(r) + "\\" + "\""), true, 0))
            else Arguments(rest, Reader(Some(Current(r) + "\\"), false, 0))
  {
    ReadSlash(rest, r);
    var s := ['"'] + rest;
    assert s[1..] == rest;
    assert Slashes(1) == "\\";
    if rest != "" {
      assert s[2..] == rest[1..];
    }
  }

  lemma ReadOther(c: char, rest: string, r: Reader)
    requires r.current.Some? && c != '"'
    ensures c == '\\' ==> Arguments([c] + rest, r) == Arguments(rest, Reader(r.current, r.quoted, r.slashes + 1))
    ensures c != '\\' && (r.quoted || !IsSeparator(c)) ==>
              Arguments([c] + rest, r) == Arguments(rest, Reader(Some(Extended(r, [c])), r.quoted, 0))
  {
    assert ([c] + rest)[1..] == rest;
  }

  lemma EscapeStep(a: string, end: string)
    requires a != ""
    ensures Escape(a) + end == (if a[0] == '"' then ['\\', '"'] else [a[0]]) + (Escape(a[1..]) + end)
  {
  }

  lemma OpenQuote(a: string, tail: string)
    ensures Arguments(Quote(a) + tail, Reader(None, false, 0)) == Arguments(Escape(a) + ("\"" + tail), Reader(Some(""), true, 0))
  {
    var s := Quote(a) + tail;
    assert s[1..] == Escape(a) + ("\"" + tail);
    assert Slashes(0) == "";
  }

  /** Reading a good argument from inside its quotes gives it back and leaves the quotes. */
  lemma {:induction false} GoodIsRead(a: string, tail: string, r: Reader)
    requires r.quoted && r.current.Some? && IsGoodAfter(r.slashes, a)
    requires tail == "" || tail[0] == ' '
    ensures Arguments(Escape(a) + ("\"" + tail), r) == Arguments(tail, Reader(Some(Extended(r, a)), false, 0))
    decreases |a|
  {
    if a == "" {
      var s := Escape(a) + ("\"" + tail);
      assert s == "\"" + tail && s[1..] == tail;
      assert Extended(r, "") == Current(r) + Slashes(0);
    } else {
      GoodTail(a);
      EscapeStep(a, "\"" + tail);
      var rest := Escape(a[1..]) + ("\"" + tail);
      if a[0] == '"' {
        ReadEscapedQuote(rest, r);
      } else {
        ReadOther(a[0], rest, r);
      }
      var after := After(r, a[0]);
      GoodIsRead(a[1..], tail, after);
      ExtendedStep(r, a);
    }
  }

  /** The reader inside quotes after one more character of the original argument. */
  function After(r: Reader, c: char): Reader {
    if c == '"' then Reader(Some(Current(r) + "\""), r.quoted, 0)
    else if c == '\\' then Reader(r.current, r.quoted, r.slashes + 1)
    else Reader(Some(Extended(r, [c])), r.quoted, 0)
  }

  lemma ExtendedStep(r: Reader, a: string)
    requires r.current.Some? && a != "" && (a[0] == '"' ==> r.slashes == 0)
    ensures Extended(After(r, a[0]), a[1..]) == Extended(r, a)
  {
    assert Slashes(r.slashes + 1) == Slashes(r.slashes) + "\\";
    assert [a[0]] + a[1..] == a;
    assert Slashes(0) == "";
  }

  /** A quoted good argument is read as one argument, from between arguments. */
  lemma GoodArgumentIsRead(a: string, tail: string)
    requires IsGood(a) && (tail == "" || tail[0] == ' ')
    ensures Arguments(Quote(a) + tail, Reader(None, false, 0)) == Arguments(tail, Reader(Some(a), false, 0))
  {
    OpenQuote(a, tail);
    GoodIsRead(a, tail, Reader(Some(""), true, 0));
    assert Extended(Reader(Some(""), true, 0), a) == a;
  }

  lemma SeparatorEndsArgument(a: string, rest: string)
    ensures Arguments(" " + rest, Reader(Some(a), false, 0)) == [a] + Arguments(rest, Reader(None, false, 0))
  {
    assert (" " + rest)[1..] == rest;
    assert Extended(Reader(Some(a), false, 0), "") == a;
  }

  // ----- the program name

  lemma {:induction false} NameIsRead(name: string, tail: string)
    requires forall k :: 0 <= k < |name| ==> name[k] != '"'
    ensures ProgramName(Escape(name) + ("\"" + (" " + tail)), true) == (name, tail)
  {
    var s := Escape(name) + ("\"" + (" " + tail));
    if name == "" {
      assert s[1..] == " " + tail && s[1..][1..] == tail;
    } else {
      NameIsRead(name[1..], tail);
      assert s[1..] == Escape(name[1..]) + ("\"" + (" " + tail));
      assert [name[0]] + name[1..] == name;
    }
  }

  lemma {:induction false} NameHasNoQuotes(s: string, quoted: bool, k: nat)
    requires k < |ProgramName(s, quoted).0|
    ensures ProgramName(s, quoted).0[k] != '"'
    decreases |s|
  {
    if s[0] == '"' {
      NameHasNoQuotes(s[1..], !quoted, k);
    } else if k > 0 {
      NameHasNoQuotes(s[1..], quoted, k - 1);
    }
  }

  /** The executable comes back exactly if it contains no quote. */
  lemma NameExactly(executable: string, tail: string)
    ensures ProgramName(Quote(executable) + (" " + tail), false).0 == executable
       <==> forall k :: 0 <= k < |executable| ==> executable[k] != '"'
    ensures (forall k :: 0 <= k < |executable| ==> executable[k] != '"') ==>
              ProgramName(Quote(executable) + (" " + tail), false) == (executable, tail)
  {
    var s := Quote(executable) + (" " + tail);
    assert s[1..] == Escape(executable) + ("\"" + (" " + tail));
    if forall k :: 0 <= k < |executable| ==> executable[k] != '"' {
      NameIsRead(executable, tail);
    } else {
      var k :| 0 <= k < |executable| && executable[k] == '"';
      if ProgramName(s, false).0 == executable {
        NameHasNoQuotes(s, false, k);
      }
    }
  }

  // ----- what goes wrong otherwise: backslashes are never invented

  function Count(s: string): nat {
    if s == "" then 0 else (if s[0] == '\\' then 1 else 0) + Count(s[1..])
  }

  function CountAll(args: seq<string>): nat {
    if args == [] then 0 else Count(args[0]) + CountAll(args[1..])
  }

  /** How many backslashes reading leaves, after `slashes` pending ones: runs before a quote are halved. */
  function Left(s: string, slashes: nat): nat {
    if s == "" then slashes
    else if s[0] == '\\' then Left(s[1..], slashes + 1)
    else if s[0] == '"' then slashes / 2 + Left(s[1..], 0)
    else slashes + Left(s[1..], 0)
  }

  lemma {:induction false} CountAppend(s: string, t: string)
    ensures Count(s + t) == Count(s) + Count(t)
  {
    if s == "" {
      assert s + t == t;
    } else {
      assert (s + t)[1..] == s[1..] + t;
      CountAppend(s[1..], t);
    }
  }

  lemma {:induction false} CountSlashes(n: nat)
    ensures Count(Slashes(n)) == n
  {
    if n > 0 {
      CountSlashes(n - 1);
      assert Slashes(n)[1..] == Slashes(n - 1);
    }
  }

  lemma CountExtended(r: Reader, more: string)
    ensures Count(Extended(r, more)) == Count(Current(r)) + r.slashes + Count(more)
  {
    CountAppend(Current(r) + Slashes(r.slashes), more);
    CountAppend(Current(r), Slashes(r.slashes));
    CountSlashes(r.slashes);
  }

  lemma CountHalved(r: Reader)
    ensures var halved := Current(r) + Slashes(r.slashes / 2);
            Count(halved) == Count(Current(r)) + r.slashes / 2 && Count(halved + "\"") == Count(halved)
  {
    CountAppend(Current(r), Slashes(r.slashes / 2));
    CountSlashes(r.slashes / 2);
    CountAppend(Current(r) + Slashes(r.slashes / 2), "\"");
  }

  lemma CountAllCons(arg: string, args: seq<string>)
    ensures CountAll([arg] + args) == Count(arg) + CountAll(args)
  {
    assert ([arg] + args)[1..] == args;
  }

  lemma {:induction false} ReadingCounts(s: string, r: Reader)
    requires r.current.None? ==> r.slashes == 0
    ensures CountAll(Arguments(s, r)) == Count(Current(r)) + Left(s, r.slashes)
    decreases |s|
  {
    CountExtended(r, "");
    if s == "" {
    } else if s[0] == '\\' {
      ReadingCounts(s[1..], Reader(Some(Current(r)), r.quoted, r.slashes + 1));
    } else if s[0] == '"' {
      CountHalved(r);
      var halved := Current(r) + Slashes(r.slashes / 2);
      if r.slashes % 2 == 1 {
        ReadingCounts(s[1..], Reader(Some(halved + "\""), r.quoted, 0));
      } else if r.quoted && |s| > 1 && s[1] == '"' {
        ReadingCounts(s[2..], Reader(Some(halved + "\""), true, 0));
        assert s[1..][1..] == s[2..];
      } else {
        ReadingCounts(s[1..], Reader(Some(halved), !r.quoted, 0));
      }
    } else if IsSeparator(s[0]) && !r.quoted {
      ReadingCounts(s[1..], Reader(None, false, 0));
      if r.current.Some? {
        CountAllCons(Extended(r, ""), Arguments(s[1..], Reader(None, false, 0)));
      } else {
        assert [] + Arguments(s[1..], Reader(None, false, 0)) == Arguments(s[1..], Reader(None, false, 0));
      }
    } else {
      CountExtended(r, [s[0]]);
      ReadingCounts(s[1..], Reader(Some(Extended(r, [s[0]])), r.quoted, 0));
    }
  }

  /** After `slashes` backslashes: at most one backslash before each quote, and none at the end. */
  predicate IsMild(slashes: nat, a: string)
    decreases |a|
  {
    if a == "" then slashes == 0
    else if a[0] == '\\' then IsMild(slashes + 1, a[1..])
    else if a[0] == '"' then slashes <= 1 && IsMild(0, a[1..])
    else IsMild(0, a[1..])
  }

  /** A quoted argument loses backslashes exactly if it is not mild. */
  lemma {:induction false} QuotedLeft(slashes: nat, a: string, tail: string)
    ensures Left(Escape(a) + ("\"" + tail), slashes) <= slashes + Count(a) + Left(tail, 0)
    ensures Left(Escape(a) + ("\"" + tail), slashes) == slashes + Count(a) + Left(tail, 0) <==> IsMild(slashes, a)
    decreases |a|
  {
    var s := Escape(a) + ("\"" + tail);
    if a == "" {
      assert s[1..] == tail;
    } else if a[0] == '"' {
      assert s[1..][1..] == Escape(a[1..]) + ("\"" + tail);
      QuotedLeft(0, a[1..], tail);
    } else {
      assert s[1..] == Escape(a[1..]) + ("\"" + tail);
      QuotedLeft(if a[0] == '\\' then slashes + 1 else 0, a[1..], tail);
    }
  }

  predicate AllMild(args: seq<string>) {
    forall k :: 0 <= k < |args| ==> IsMild(0, args[k])
  }

  lemma AllMildCons(args: seq<string>)
    requires args != []
    ensures AllMild(args) <==> IsMild(0, args[0]) && AllMild(args[1..])
  {
    assert args == [args[0]] + args[1..];
  }

  /** What follows an argument's closing quote. */
  function Following(args: seq<string>): string
    requires args != []
  {
    if |args| == 1 then "" else " " + Join(args[1..])
  }

  lemma JoinedStart(args: seq<string>)
    requires args != []
    ensures Left(Join(args), 0) == Left(Escape(args[0]) + ("\"" + Following(args)), 0)
    ensures Left(Following(args), 0) == Left(Join(args[1..]), 0)
  {
    assert Join(args) == "\"" + (Escape(args[0]) + ("\"" + Following(args)));
    assert Join(args)[1..] == Escape(args[0]) + ("\"" + Following(args));
    if |args| > 1 {
      assert Following(args)[1..] == Join(args[1..]);
    }
  }

  lemma {:induction false} JoinedLeft(args: seq<string>)
    ensures Left(Join(args), 0) <= CountAll(args)
    ensures Left(Join(args), 0) == CountAll(args) <==> AllMild(args)
  {
    if args != [] {
      JoinedStart(args);
      QuotedLeft(0, args[0], Following(args));
      JoinedLeft(args[1..]);
      AllMildCons(args);
    }
  }

  // ----- what goes wrong otherwise: a quote after one backslash is lost

  /** What is already in the current argument stays at its front. */
  lemma {:induction false} FirstKeeps(s: string, r: Reader)
    requires r.current.Some?
    ensures Arguments(s, r) != [] && Current(r) <= Arguments(s, r)[0]
    decreases |s|
  {
    if s != "" && !(IsSeparator(s[0]) && !r.quoted) {
      var halved := Current(r) + Slashes(r.slashes / 2);
      if s[0] == '\\' {
        FirstKeeps(s[1..], Reader(r.current, r.quoted, r.slashes + 1));
      } else if s[0] == '"' {
        if r.slashes % 2 == 1 {
          FirstKeeps(s[1..], Reader(Some(halved + "\""), r.quoted, 0));
        } else if r.quoted && |s| > 1 && s[1] == '"' {
          FirstKeeps(s[2..], Reader(Some(halved + "\""), true, 0));
        } else {
          FirstKeeps(s[1..], Reader(Some(halved), !r.quoted, 0));
        }
      } else {
        FirstKeeps(s[1..], Reader(Some(Extended(r, [s[0]])), r.quoted, 0));
      }
    }
  }

  /** A pending backslash comes out as at least one, unless it ends the argument. */
  lemma {:induction false} SlashComesOut(a: string, tail: string, r: Reader)
    requires r.current.Some? && r.slashes >= 1 && IsMild(r.slashes, a)
    ensures var args := Arguments(Escape(a) + ("\"" + tail), r);
            args != [] && Current(r) + "\\" <= args[0]
    decreases |a|
  {
    var s := Escape(a) + ("\"" + tail);
    var c := a[0];
    if c == '"' {
      SlashesBeforeQuote(s[1..], Reader(r.current, r.quoted, r.slashes + 1));
    } else {
      assert s[1..] == Escape(a[1..]) + ("\"" + tail);
      if c == '\\' {
        SlashComesOut(a[1..], tail, Reader(r.current, r.quoted, r.slashes + 1));
      } else if !(IsSeparator(c) && !r.quoted) {
        FirstKeeps(s[1..], Reader(Some(Extended(r, [c])), r.quoted, 0));
      }
    }
  }

  lemma SlashesBeforeQuote(s: string, r: Reader)
    requires r.current.Some? && r.slashes >= 2 && s != "" && s[0] == '"'
    ensures var args := Arguments(s, r);
            args != [] && Current(r) + "\\" <= args[0]
  {
    var halved := Current(r) + Slashes(r.slashes / 2);
    assert Current(r) + "\\" <= halved <= halved + "\"";
    if r.slashes % 2 == 1 {
      FirstKeeps(s[1..], Reader(Some(halved + "\""), r.quoted, 0));
    } else if r.quoted && |s| > 1 && s[1] == '"' {
      FirstKeeps(s[2..], Reader(Some(halved + "\""), true, 0));
    } else {
      FirstKeeps(s[1..], Reader(Some(halved), !r.quoted, 0));
    }
  }

  /** Once a quote has been taken for the end of the quotes, the argument never gets it back. */
  lemma {:induction false} LostQuote(a: string, tail: string, r: Reader)
    requires r.current.Some? && !r.quoted && r.slashes == 0 && IsMild(0, a)
    requires tail == "" || tail[0] == ' '
    ensures var args := Arguments(Escape(a) + ("\"" + tail), r);
            args != [] && args[0] != Current(r) + "\"" + a
    decreases |a|
  {
    var cur := Current(r);
    assert Slashes(0) == "" && cur + "" == cur;
    assert (cur + "\"" + a)[|cur|] == '"';
    if a == "" {
      var s := Escape(a) + ("\"" + tail);
      assert s == "\"" + tail && s[1..] == tail;
      DoubledQuoteAtEnd(tail, cur);
      if tail != "" {
        var after := Extended(Reader(Some(cur), true, 0), [' ']);
        assert after[|cur|] == ' ';
        FirstKeeps(tail[1..], Reader(Some(after), true, 0));
      }
    } else {
      EscapeStep(a, "\"" + tail);
      var rest := Escape(a[1..]) + ("\"" + tail);
      if a[0] == '"' {
        ReadEscapedQuote(rest, r);
        LostQuote(a[1..], tail, Reader(Some(cur + "\""), false, 0));
        assert ["\""[0]] + a[1..] == a;
        assert cur + "\"" + "\"" + a[1..] == cur + "\"" + a;
      } else if IsSeparator(a[0]) {
        assert ([a[0]] + rest)[1..] == rest;
        assert Extended(r, "") == cur;
      } else {
        ReadOther(a[0], rest, r);
        if a[0] == '\\' {
          SlashComesOut(a[1..], tail, Reader(r.current, false, 1));
        } else {
          assert Extended(r, [a[0]])[|cur|] == a[0];
          FirstKeeps(rest, Reader(Some(Extended(r, [a[0]])), false, 0));
        }
      }
    }
  }

  /** From inside its quotes, a mild argument that is not good comes back only at the very end of the line. */
  lemma {:induction false} MildIsRead(a: string, tail: string, r: Reader)
    requires r.quoted && r.current.Some? && IsMild(r.slashes, a) && !IsGoodAfter(r.slashes, a)
    requires tail == "" || tail[0] == ' '
    ensures var args := Arguments(Escape(a) + ("\"" + tail), r);
            && args != []
            && (args[0] == Extended(r, a) ==> tail == "" && EndsInQuote(r.slashes, a))
            && (tail == "" && EndsInQuote(r.slashes, a) ==> args == [Extended(r, a)])
    decreases |a|
  {
    GoodTail(a);
    if a[0] == '"' && r.slashes == 1 {
      MildQuote(a, tail, r);
    } else {
      EscapeStep(a, "\"" + tail);
      var rest := Escape(a[1..]) + ("\"" + tail);
      if a[0] == '"' {
        ReadEscapedQuote(rest, r);
      } else {
        ReadOther(a[0], rest, r);
      }
      MildIsRead(a[1..], tail, After(r, a[0]));
      ExtendedStep(r, a);
    }
  }

  /** The quote that follows one backslash, read from inside the quotes. */
  lemma MildQuote(a: string, tail: string, r: Reader)
    requires r.quoted && r.current.Some? && r.slashes == 1 && a != "" && a[0] == '"' && IsMild(0, a[1..])
    requires tail == "" || tail[0] == ' '
    ensures var args := Arguments(Escape(a) + ("\"" + tail), r);
            && args != []
            && (args[0] == Extended(r, a) ==> tail == "" && |a| == 1)
            && (tail == "" && |a| == 1 ==> args == [Extended(r, a)])
  {
    EscapeStep(a, "\"" + tail);
    var rest := Escape(a[1..]) + ("\"" + tail);
    ReadHalvedQuote(rest, r);
    var halved := Current(r) + "\\";
    ExtendedQuote(r, a);
    if |a| == 1 {
      assert rest == "\"" + tail && rest[1..] == tail;
      DoubledQuoteAtEnd(tail, halved + "\"");
    } else {
      assert rest[0] != '"';
      LostQuote(a[1..], tail, Reader(Some(halved), false, 0));
    }
  }

  lemma ExtendedQuote(r: Reader, a: string)
    requires r.slashes == 1 && a != "" && a[0] == '"'
    ensures Extended(r, a) == Current(r) + "\\" + "\"" + a[1..]
    ensures |a| == 1 ==> Extended(r, a) == Current(r) + "\\" + "\""
  {
    assert a == "\"" + a[1..];
    assert Slashes(1) == "\\";
  }

  /** Still inside the quotes, the argument ends only with the line. */
  lemma DoubledQuoteAtEnd(tail: string, current: string)
    requires tail == "" || tail[0] == ' '
    ensures var args := Arguments(tail, Reader(Some(current), true, 0));
            && args != [] && (args[0] == current ==> tail == "") && (tail == "" ==> args == [current])
  {
    var r := Reader(Some(current), true, 0);
    assert Slashes(0) == "";
    if tail == "" {
      assert Extended(r, "") == current;
    } else {
      assert |Extended(r, [' '])| > |current|;
      FirstKeeps(tail[1..], Reader(Some(Extended(r, [' '])), true, 0));
    }
  }

  /** After `slashes` backslashes: good up to a final backslash and quote. */
  predicate EndsInQuote(slashes: nat, a: string)
    decreases |a|
  {
    if a == "" then false
    else if a[0] == '\\' then EndsInQuote(slashes + 1, a[1..])
    else if a[0] == '"' then (if slashes == 0 then EndsInQuote(0, a[1..]) else slashes == 1 && |a| == 1)
    else EndsInQuote(0, a[1..])
  }

  /** The same, looked at from the end. */
  predicate EndsSo(slashes: nat, a: string) {
    if |a| == 1 then a[0] == '"' && slashes == 1
    else HasFinalQuote(a) && IsGoodAfter(slashes, a[..|a| - 2])
  }

  lemma {:induction false} EndsInQuoteExactly(slashes: nat, a: string)
    ensures EndsInQuote(slashes, a) <==> EndsSo(slashes, a)
    decreases |a|
  {
    if a != "" {
      var next := if a[0] == '\\' then slashes + 1 else 0;
      EndsInQuoteExactly(next, a[1..]);
      if |a| >= 3 {
        EndsSoStep(slashes, a);
      } else if |a| == 2 {
        assert a[..0] == "" && a[1..][0] == a[1];
      }
    }
  }

  lemma EndsSoStep(slashes: nat, a: string)
    requires |a| >= 3
    ensures EndsSo(slashes, a) <==>
              EndsSo(if a[0] == '\\' then slashes + 1 else 0, a[1..]) && (a[0] == '"' ==> slashes == 0)
  {
    var q := a[..|a| - 2];
    assert a[1..][..|a[1..]| - 2] == q[1..];
    GoodTail(q);
  }

  // ----- the whole line

  lemma OneArgument(a: string, tail: string)
    requires IsMild(0, a) && !IsGood(a) && (tail == "" || tail[0] == ' ')
    ensures var args := Arguments(Quote(a) + tail, Reader(None, false, 0));
            && args != []
            && (args[0] == a ==> tail == "" && IsGoodLast(a))
            && (tail == "" && IsGoodLast(a) ==> args == [a])
  {
    OpenQuote(a, tail);
    MildIsRead(a, tail, Reader(Some(""), true, 0));
    EndsInQuoteExactly(0, a);
    assert Extended(Reader(Some(""), true, 0), a) == a;
  }

  lemma GoodIsMild(a: string, slashes: nat)
    requires IsGoodAfter(slashes, a)
    ensures IsMild(slashes, a)
    decreases |a|
  {
    if a != "" {
      GoodTail(a);
      GoodIsMild(a[1..], if a[0] == '\\' then slashes + 1 else 0);
    }
  }

  lemma GoodLastIsMild(a: string, slashes: nat)
    requires EndsInQuote(slashes, a)
    ensures IsMild(slashes, a)
    decreases |a|
  {
    if a[0] == '"' && slashes == 1 {
      assert a[1..] == "";
    } else {
      GoodLastIsMild(a[1..], if a[0] == '\\' then slashes + 1 else 0);
    }
  }

  /** Lists that survive are read back, and mild lists that are read back survive. */
  lemma {:induction false} MildListExactly(args: seq<string>)
    requires AllMild(args)
    ensures Arguments(Join(args), Reader(None, false, 0)) == args <==> Survive(args)
  {
    if args != [] {
      var a, rest := args[0], args[1..];
      var tail := if |args| == 1 then "" else " " + Join(rest);
      assert Join(args) == Quote(a) + tail;
      assert AllMild(rest) by {
        assert forall k :: 0 <= k < |rest| ==> rest[k] == args[k + 1];
      }
      MildListExactly(rest);
      if IsGood(a) {
        GoodArgumentIsRead(a, tail);
        if |args| > 1 {
          SeparatorEndsArgument(a, Join(rest));
        } else {
          assert Extended(Reader(Some(a), false, 0), "") == a;
        }
        assert args == [a] + rest;
        SurviveTail(args);
      } else {
        OneArgument(a, tail);
        assert |args| == 1 ==> args == [a];
      }
    }
  }

  lemma SurviveTail(args: seq<string>)
    requires args != [] && IsGood(args[0])
    ensures Survive(args) <==> Survive(args[1..])
  {
    if Survive(args[1..]) {
      forall k | 0 <= k < |args| - 1
        ensures IsGood(args[k])
      {
        assert k > 0 ==> args[k] == args[1..][k - 1];
      }
    }
  }

  lemma SurvivorsAreMild(args: seq<string>)
    requires Survive(args)
    ensures AllMild(args)
  {
    forall k | 0 <= k < |args|
      ensures IsMild(0, args[k])
    {
      if IsGood(args[k]) {
        GoodIsMild(args[k], 0);
      } else {
        EndsInQuoteExactly(0, args[k]);
        GoodLastIsMild(args[k], 0);
      }
    }
  }

  lemma OnlyMildListsComeBack(args: seq<string>)
    requires Arguments(Join(args), Reader(None, false, 0)) == args
    ensures AllMild(args)
  {
    ReadingCounts(Join(args), Reader(None, false, 0));
    JoinedLeft(args);
  }

  /** Exactly the surviving lists come back from the joined line. */
  lemma ListExactly(args: seq<string>)
    ensures Arguments(Join(args), Reader(None, false, 0)) == args <==> Survive(args)
  {
    if Survive(args) {
      SurvivorsAreMild(args);
    } else if Arguments(Join(args), Reader(None, false, 0)) == args {
      OnlyMildListsComeBack(args);
    }
    if AllMild(args) {
      MildListExactly(args);
    }
  }

  /**
   The round trip: the program gets its executable and exactly the given arguments if and only if
   the executable holds no quote and the arguments survive.
   */
  lemma RoundTripsExactly(executable: string, args: seq<string>)
    ensures ParseCommandLine(BinaryPath(executable, args)) == [executable] + args
       <==> (forall k :: 0 <= k < |executable| ==> executable[k] != '"') && Survive(args)
  {
    NameExactly(executable, Join(args));
    ListExactly(args);
    var (name, rest) := ProgramName(BinaryPath(executable, args), false);
    var parsed := Arguments(rest, Reader(None, false, 0));
    assert ([name] + parsed)[0] == name && ([name] + parsed)[1..] == parsed;
    assert ([executable] + args)[0] == executable && ([executable] + args)[1..] == args;
  }

  /** The positions of the service's list that hold a supplied value. */
  predicate IsSupplied(k: int) {
    k % 2 == 0 && 2 <= k <= 12
  }

  lemma PlainIsGood(a: string)
    requires '\\' !in a
    ensures IsGood(a)
  {
  }

  lemma OptionsAreGood(s: Settings, k: nat)
    requires k < 15 && !IsSupplied(k)
    ensures IsGood(ServiceArguments(s)[k])
  {
    var a := ServiceArguments(s)[k];
    assert k == 14 ==> forall c :: c in a ==> IsDigit(c);
    assert k == 1 ==> a == "--tailscale-listen-port" || a == "--listen-address";
    PlainIsGood(a);
  }

  lemma ServiceListSurvives(s: Settings)
    ensures Survive(ServiceArguments(s)) <==> forall k :: 0 <= k < 6 ==> IsGood(Supplied(s)[k])
  {
    var args, v := ServiceArguments(s), Supplied(s);
    assert forall k :: 0 <= k < 6 ==> v[k] == args[2 * k + 2];
    forall k | 0 <= k < 15 && !IsSupplied(k)
      ensures IsGood(args[k])
    {
      OptionsAreGood(s, k);
    }
    if forall k :: 0 <= k < 6 ==> IsGood(v[k]) {
      forall k | 0 <= k < 15
        ensures IsGood(args[k])
      {
        if IsSupplied(k) {
          assert args[k] == v[k / 2 - 1];
        }
      }
    }
  }

  /** For the service's own list: it comes back exactly if every supplied value is good. */
  lemma ServiceRoundTripsExactly(executable: string, s: Settings)
    ensures ParseCommandLine(BinaryPath(executable, ServiceArguments(s))) == [executable] + ServiceArguments(s)
       <==> && (forall k :: 0 <= k < |executable| ==> executable[k] != '"')
            && (forall k :: 0 <= k < 6 ==> IsGood(Supplied(s)[k]))
  {
    RoundTripsExactly(executable, ServiceArguments(s));
    ServiceListSurvives(s);
  }
}
