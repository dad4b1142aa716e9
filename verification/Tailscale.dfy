/** The address discovery of src/tailscale.rs: the output of `tailscale ip -4`. */
module Tailscale {
  import opened Prelude
  import opened Text

  datatype Address = Address(a: nat, b: nat, c: nat, d: nat)

  datatype TailscaleError = MissingAddress | MultipleAddresses | InvalidAddress(line: string)

  // ----- `str::lines`

  function StripReturn(line: string): string {
    if line != "" && line[|line| - 1] == '\r' then line[..|line| - 1] else line
  }

  /** The pieces between line feeds; a final line feed opens no further piece. */
  function Lines(s: string): seq<string> {
    LinesFrom(s, "")
  }

  function LinesFrom(s: string, line: string): seq<string>
    decreases |s|
  {
    if s == "" then (if line == "" then [] else [line])
    else if s[0] == '\n' then [StripReturn(line)] + LinesFrom(s[1..], "")
    else LinesFrom(s[1..], line + [s[0]])
  }

  // ----- `Ipv4Addr::from_str`

  /** One octet: one to three digits, no leading zero, at most 255. */
  predicate IsOctet(s: string) {
    1 <= |s| <= 3 && AllDigits(s) && (|s| > 1 ==> s[0] != '0') && Value(s) <= 255
  }

  /** The longest run of digits at the start, as the number parser reads it. */
  function DigitRun(s: string): (n: nat)
    ensures n <= |s| && AllDigits(s[..n])
    ensures n < |s| ==> !IsDigit(s[n])
  {
    if s == "" || !IsDigit(s[0]) then 0
    else
      var n := DigitRun(s[1..]);
      assert s[..1 + n] == [s[0]] + s[1..][..n];
      1 + n
  }

  function ReadOctet(s: string): Option<(nat, string)> {
    var n := DigitRun(s);
    if IsOctet(s[..n]) then Some((Value(s[..n]), s[n..])) else None
  }

  function ReadDotOctet(s: string): Option<(nat, string)> {
    if s != "" && s[0] == '.' then ReadOctet(s[1..]) else None
  }

  /** Four octets with dots between them and nothing behind. */
  function ParseAddress(s: string): Option<Address> {
    if |s| > 15 then None
    else
      match ReadOctet(s)
      case None => None
      case Some((a, s1)) =>
        match ReadDotOctet(s1)
        case None => None
        case Some((b, s2)) =>
          match ReadDotOctet(s2)
          case None => None
          case Some((c, s3)) =>
            match ReadDotOctet(s3)
            case None => None
            case Some((d, s4)) => if s4 == "" then Some(Address(a, b, c, d)) else None
  }

  predicate IsAddress(x: Address) {
    x.a <= 255 && x.b <= 255 && x.c <= 255 && x.d <= 255
  }

  /** The canonical dotted-decimal form, as section 3.1.1 of RFC 6943 calls strict. */
  function Print(x: Address): string {
    Digits(x.a) + "." + Digits(x.b) + "." + Digits(x.c) + "." + Digits(x.d)
  }

  // ----- `parse_ipv4`

  /** `map(str::trim)` and `filter` for the lines that are not blank. */
  function Texts(lines: seq<string>): seq<string> {
    if lines == [] then []
    else (if Trim(lines[0]) == "" then [] else [Trim(lines[0])]) + Texts(lines[1..])
  }

  function ParseLine(text: string): Result<Address, TailscaleError> {
    match ParseAddress(text)
    case Some(address) => Success(address)
    case None => Failure(InvalidAddress(text))
  }

  function ParseLines(texts: seq<string>): seq<Result<Address, TailscaleError>> {
    seq(|texts|, k requires 0 <= k < |texts| => ParseLine(texts[k]))
  }

  /** `collect::<Result<Vec<_>, _>>`: every value in order, or the first error. */
  function Collect<T, E>(results: seq<Result<T, E>>): Result<seq<T>, E> {
    if results == [] then Success([])
    else
      match results[0]
      case Failure(error) => Failure(error)
      case Success(value) =>
        match Collect(results[1..])
        case Failure(error) => Failure(error)
        case Success(rest) => Success([value] + rest)
  }

  function ParseIpv4(output: string): Result<Address, TailscaleError> {
    match Collect(ParseLines(Texts(Lines(output))))
    case Failure(error) => Failure(error)
    case Success(addresses) =>
      if |addresses| == 0 then Failure(MissingAddress)
      else if |addresses| == 1 then Success(addresses[0])
      else Failure(MultipleAddresses)
  }

  // ----- addresses

  /** A number up to 255 has exactly one octet. */
  lemma OctetIsCanonical(s: string)
    ensures IsOctet(s) <==> AllDigits(s) && s != "" && Value(s) <= 255 && s == Digits(Value(s))
  {
    if AllDigits(s) && s != "" && Value(s) <= 255 {
      DigitsLength(Value(s));
      if IsOctet(s) {
        CanonicalDigits(s);
      }
    }
  }

  lemma DigitsLength(n: nat)
    requires n <= 255
    ensures |Digits(n)| == if n < 10 then 1 else if n < 100 then 2 else 3
  {
    assert n >= 10 ==> |Digits(n)| == |Digits(n / 10)| + 1;
    assert n >= 100 ==> |Digits(n / 10)| == |Digits(n / 10 / 10)| + 1;
  }

  lemma {:induction false} CanonicalDigits(s: string)
    requires s != "" && AllDigits(s) && (|s| > 1 ==> s[0] != '0')
    ensures Digits(Value(s)) == s
    ensures |s| > 1 ==> Value(s) >= 10
  {
    var high := s[..|s| - 1];
    if |s| > 1 {
      CanonicalDigits(high);
      assert Value(high) > 0 by {
        if |high| == 1 {
          assert high[..0] == "" && DigitValue(high[0]) > 0;
        }
      }
      assert Value(s) / 10 == Value(high) && Value(s) % 10 == DigitValue(s[|s| - 1]);
      assert s == high + [s[|s| - 1]];
    } else {
      assert high == "" && s == [s[0]];
    }
  }

  lemma {:induction false} DigitRunStops(digits: string, rest: string)
    requires AllDigits(digits) && (rest != "" ==> !IsDigit(rest[0]))
    ensures DigitRun(digits + rest) == |digits|
  {
    if digits == "" {
      assert digits + rest == rest;
    } else {
      DigitRunStops(digits[1..], rest);
      assert (digits + rest)[1..] == digits[1..] + rest;
    }
  }

  lemma ReadsPrinted(n: nat, rest: string)
    requires n <= 255 && (rest != "" ==> !IsDigit(rest[0]))
    ensures ReadOctet(Digits(n) + rest) == Some((n, rest))
  {
    DigitRunStops(Digits(n), rest);
    OctetIsCanonical(Digits(n));
    assert (Digits(n) + rest)[..|Digits(n)|] == Digits(n);
    assert (Digits(n) + rest)[|Digits(n)|..] == rest;
  }

  lemma PrintedWasRead(s: string)
    requires ReadOctet(s).Some?
    ensures ReadOctet(s).value.0 <= 255 && s == Digits(ReadOctet(s).value.0) + ReadOctet(s).value.1
  {
    OctetIsCanonical(s[..DigitRun(s)]);
  }

  lemma PrintedWasReadAfterDot(s: string)
    requires ReadDotOctet(s).Some?
    ensures ReadDotOctet(s).value.0 <= 255 && s == "." + (Digits(ReadDotOctet(s).value.0) + ReadDotOctet(s).value.1)
  {
    PrintedWasRead(s[1..]);
    assert s == "." + s[1..];
  }

  lemma ReadsPrintedAfterDot(n: nat, rest: string)
    requires n <= 255 && (rest != "" ==> !IsDigit(rest[0]))
    ensures ReadDotOctet("." + (Digits(n) + rest)) == Some((n, rest))
  {
    ReadsPrinted(n, rest);
    assert ("." + (Digits(n) + rest))[1..] == Digits(n) + rest;
  }

  lemma PrintAssociates(x: Address)
    ensures Print(x) == Digits(x.a) + ("." + (Digits(x.b) + ("." + (Digits(x.c) + ("." + (Digits(x.d) + ""))))))
  {
  }

  /** Addresses and their printed forms correspond one to one: nothing else is accepted. */
  lemma ParsesExactly(s: string, x: Address)
    ensures ParseAddress(s) == Some(x) <==> IsAddress(x) && s == Print(x)
  {
    PrintAssociates(x);
    if ParseAddress(s) == Some(x) {
      PrintedWasRead(s);
      PrintedWasReadAfterDot(ReadOctet(s).value.1);
      var s2 := ReadDotOctet(ReadOctet(s).value.1).value.1;
      PrintedWasReadAfterDot(s2);
      PrintedWasReadAfterDot(ReadDotOctet(s2).value.1);
    }
    if IsAddress(x) && s == Print(x) {
      DigitsLength(x.a);
      DigitsLength(x.b);
      DigitsLength(x.c);
      DigitsLength(x.d);
      assert |s| <= 15;
      var s3 := "." + (Digits(x.d) + "");
      var s2 := "." + (Digits(x.c) + s3);
      var s1 := "." + (Digits(x.b) + s2);
      ReadsPrinted(x.a, s1);
      ReadsPrintedAfterDot(x.b, s2);
      ReadsPrintedAfterDot(x.c, s3);
      ReadsPrintedAfterDot(x.d, "");
    }
  }

  // ----- outputs

  ghost predicate IsPrinted(text: string) {
    exists x :: IsAddress(x) && text == Print(x)
  }

  lemma ParsesPrinted(text: string)
    ensures ParseAddress(text).Some? <==> IsPrinted(text)
  {
    if ParseAddress(text).Some? {
      ParsesExactly(text, ParseAddress(text).value);
    }
    if x :| IsAddress(x) && text == Print(x) {
      ParsesExactly(text, x);
    }
  }

  /** Collecting succeeds exactly if every result does, and then yields all the values in order. */
  lemma {:induction false} CollectsExactly<T, E>(results: seq<Result<T, E>>)
    ensures Collect(results).Success? <==> forall k :: 0 <= k < |results| ==> results[k].Success?
    ensures Collect(results).Success? ==>
              && |Collect(results).value| == |results|
              && forall k :: 0 <= k < |results| ==> results[k] == Success(Collect(results).value[k])
  {
    if results != [] {
      CollectsExactly(results[1..]);
    }
  }

  /** Otherwise it fails with the first error. */
  lemma {:induction false} CollectFailsAtFirst<T, E>(results: seq<Result<T, E>>) returns (k: nat)
    requires Collect(results).Failure?
    ensures k < |results| && results[k] == Failure(Collect(results).error)
    ensures forall j :: 0 <= j < k ==> results[j].Success?
  {
    if results[0].Failure? {
      k := 0;
    } else {
      k := CollectFailsAtFirst(results[1..]);
      k := k + 1;
    }
  }

  lemma LinesCollect(texts: seq<string>)
    ensures forall k :: 0 <= k < |texts| ==> (ParseLines(texts)[k].Success? <==> IsPrinted(texts[k]))
    ensures Collect(ParseLines(texts)).Success? <==> forall k :: 0 <= k < |texts| ==> IsPrinted(texts[k])
    ensures Collect(ParseLines(texts)).Success? ==> |Collect(ParseLines(texts)).value| == |texts|
  {
    var results := ParseLines(texts);
    forall k | 0 <= k < |texts|
      ensures results[k].Success? <==> IsPrinted(texts[k])
    {
      ParsesPrinted(texts[k]);
    }
    CollectsExactly(results);
  }

  lemma CollectOne<T, E>(result: Result<T, E>, value: T)
    ensures Collect([result]) == Success([value]) <==> result == Success(value)
  {
    assert [result][1..] == [];
    assert result.Success? ==> Collect([result]) == Success([result.value] + []);
    assert result.Success? ==> [result.value] + [] == [result.value];
    assert [value][0] == value;
  }

  lemma ParsesLineExactly(text: string, x: Address)
    ensures ParseLine(text) == Success(x) <==> IsAddress(x) && text == Print(x)
  {
    ParsesExactly(text, x);
  }

  lemma OneLine(text: string, x: Address)
    ensures Collect(ParseLines([text])) == Success([x]) <==> IsAddress(x) && text == Print(x)
  {
    ParsesLineExactly(text, x);
    CollectOne(ParseLine(text), x);
    assert ParseLines([text]) == [ParseLine(text)];
  }

  /**
   The result for every output: the one address, if the one line that is not blank is its strict
   dotted-decimal form; a malformed line is reported before their number is.
   */
  lemma ParsesIpv4Exactly(output: string, x: Address)
    ensures var texts := Texts(Lines(output));
            && (ParseIpv4(output) == Success(x) <==> IsAddress(x) && texts == [Print(x)])
            && (ParseIpv4(output) == Failure(MissingAddress) <==> texts == [])
            && (ParseIpv4(output) == Failure(MultipleAddresses) <==>
                  |texts| >= 2 && forall k :: 0 <= k < |texts| ==> IsPrinted(texts[k]))
  {
    var texts := Texts(Lines(output));
    LinesCollect(texts);
    var collected := Collect(ParseLines(texts));
    if collected.Failure? {
      var k := CollectFailsAtFirst(ParseLines(texts));
      assert collected.error == InvalidAddress(texts[k]);
    }
    if |texts| == 1 {
      OneLine(texts[0], x);
      assert texts == [texts[0]];
      assert collected.Success? ==> collected.value == [collected.value[0]];
    }
  }

  /** A malformed line fails the whole output, whatever else it holds, and the first such line is named. */
  lemma MalformedLineIsNamed(output: string) returns (k: nat)
    requires exists j :: 0 <= j < |Texts(Lines(output))| && !IsPrinted(Texts(Lines(output))[j])
    ensures var texts := Texts(Lines(output));
            && k < |texts| && !IsPrinted(texts[k]) && (forall j :: 0 <= j < k ==> IsPrinted(texts[j]))
            && ParseIpv4(output) == Failure(InvalidAddress(texts[k]))
  {
    var texts := Texts(Lines(output));
    LinesCollect(texts);
    k := CollectFailsAtFirst(ParseLines(texts));
  }

  // ----- padding

  lemma BlankTrimsToNothing(s: string)
    requires IsBlank(s)
    ensures Trim(s) == "" && Trim(StripReturn(s)) == ""
  {
    TrimPadded(s, "", "");
    assert s + "" + "" == s;
    var stripped := StripReturn(s);
    TrimPadded(stripped, "", "");
    assert stripped + "" + "" == stripped;
  }

  lemma PaddedTrims(before: string, text: string, after: string)
    requires IsBlank(before) && IsBlank(after) && IsTrimmed(text) && text != ""
    ensures Trim(before + text + after) == text && Trim(StripReturn(before + text + after)) == text
  {
    TrimPadded(before, text, after);
    var line := before + text + after;
    if after != "" {
      var shorter := after[..|after| - 1];
      TrimPadded(before, text, shorter);
      assert line[..|line| - 1] == before + text + shorter;
    } else {
      assert line[|line| - 1] == text[|text| - 1];
    }
  }

  lemma {:induction false} BlankHasNoTexts(s: string, line: string)
    requires IsBlank(s) && IsBlank(line)
    ensures Texts(LinesFrom(s, line)) == []
    decreases |s|
  {
    BlankTrimsToNothing(line);
    if s != "" {
      BlankHasNoTexts(s[1..], if s[0] == '\n' then "" else line + [s[0]]);
    }
  }

  lemma {:induction false} TextThenBlank(s: string, before: string, text: string, after: string)
    requires IsBlank(s) && IsBlank(before) && IsBlank(after) && IsTrimmed(text) && text != ""
    ensures Texts(LinesFrom(s, before + text + after)) == [text]
    decreases |s|
  {
    var line := before + text + after;
    PaddedTrims(before, text, after);
    if s == "" {
      assert LinesFrom(s, line) == [line];
    } else if s[0] == '\n' {
      BlankHasNoTexts(s[1..], "");
      assert LinesFrom(s, line) == [StripReturn(line)] + LinesFrom(s[1..], "");
    } else {
      TextThenBlank(s[1..], before, text, after + [s[0]]);
      assert line + [s[0]] == before + text + (after + [s[0]]);
    }
  }

  lemma {:induction false} TextJoinsLine(text: string, rest: string, line: string)
    requires forall k :: 0 <= k < |text| ==> text[k] != '\n'
    ensures LinesFrom(text + rest, line) == LinesFrom(rest, line + text)
    decreases |text|
  {
    if text == "" {
      assert text + rest == rest && line + text == line;
    } else {
      TextJoinsLine(text[1..], rest, line + [text[0]]);
      assert (text + rest)[1..] == text[1..] + rest;
      assert line + [text[0]] + text[1..] == line + text;
    }
  }

  lemma {:induction false} BlankTextBlank(pre: string, text: string, post: string, line: string)
    requires IsBlank(pre) && IsBlank(post) && IsBlank(line) && IsTrimmed(text) && text != ""
    requires forall k :: 0 <= k < |text| ==> text[k] != '\n'
    ensures Texts(LinesFrom(pre + (text + post), line)) == [text]
    decreases |pre|
  {
    if pre == "" {
      assert pre + (text + post) == text + post;
      TextJoinsLine(text, post, line);
      TextThenBlank(post, line, text, "");
      assert line + text + "" == line + text;
    } else {
      var s := pre + (text + post);
      assert s[1..] == pre[1..] + (text + post);
      if s[0] == '\n' {
        BlankTrimsToNothing(line);
        BlankTextBlank(pre[1..], text, post, "");
      } else {
        BlankTextBlank(pre[1..], text, post, line + [s[0]]);
      }
    }
  }

  lemma PrintedIsPlain(x: Address)
    requires IsAddress(x)
    ensures Print(x) != "" && IsTrimmed(Print(x))
    ensures forall k :: 0 <= k < |Print(x)| ==> Print(x)[k] != '\n'
  {
    assert Print(x)[0] == Digits(x.a)[0];
    assert Print(x)[|Print(x)| - 1] == Digits(x.d)[|Digits(x.d)| - 1];
    forall k | 0 <= k < |Print(x)|
      ensures IsDigit(Print(x)[k]) || Print(x)[k] == '.'
    {
    }
  }

  /** A printed address with any blank lines and white space around it is read back. */
  lemma PrintParses(pre: string, x: Address, post: string)
    requires IsAddress(x) && IsBlank(pre) && IsBlank(post)
    ensures ParseIpv4(pre + Print(x) + post) == Success(x)
  {
    PrintedIsPlain(x);
    BlankTextBlank(pre, Print(x), post, "");
    assert pre + Print(x) + post == pre + (Print(x) + post);
    ParsesIpv4Exactly(pre + Print(x) + post, x);
  }

  // ----- several lines

  predicate IsLine(line: string) {
    '\n' !in line && (line != "" ==> line[|line| - 1] != '\r')
  }

  /** Lines as a program prints them, each with its line feed, some with a carriage return before it. */
  function PrintLines(lines: seq<string>, crlf: nat -> bool): string {
    if lines == [] then ""
    else PrintLines(lines[..|lines| - 1], crlf) + (lines[|lines| - 1] + (if crlf(|lines| - 1) then "\r\n" else "\n"))
  }

  lemma {:induction false} LinesFromAppend(s: string, t: string, line: string)
    requires s != "" && s[|s| - 1] == '\n'
    ensures LinesFrom(s + t, line) == LinesFrom(s, line) + LinesFrom(t, "")
    decreases |s|
  {
    assert (s + t)[1..] == s[1..] + t;
    if |s| == 1 {
      assert s[1..] + t == t;
      assert LinesFrom(s, line) == [StripReturn(line)] + LinesFrom(s[1..], "") == [StripReturn(line)];
    } else {
      var next := if s[0] == '\n' then "" else line + [s[0]];
      LinesFromAppend(s[1..], t, next);
    }
  }

  lemma OneLineIsRead(line: string, withReturn: bool)
    requires IsLine(line)
    ensures Lines(line + (if withReturn then "\r\n" else "\n")) == [line]
  {
    if withReturn {
      assert line + "\r\n" == (line + "\r") + "\n";
      LineFeedEnds(line + "\r");
      assert (line + "\r")[..|line|] == line;
    } else {
      LineFeedEnds(line);
    }
  }

  lemma LineFeedEnds(line: string)
    requires '\n' !in line
    ensures Lines(line + "\n") == [StripReturn(line)]
  {
    TextJoinsLine(line, "\n", "");
    assert "" + line == line;
    assert LinesFrom("\n", line) == [StripReturn(line)] + LinesFrom("\n"[1..], "");
  }

  /** Every line that was printed is read back, in order, without its line ending, and no other. */
  lemma {:induction false} LinesAreRead(lines: seq<string>, crlf: nat -> bool)
    requires forall k :: 0 <= k < |lines| ==> IsLine(lines[k])
    ensures Lines(PrintLines(lines, crlf)) == lines
    ensures lines != [] ==> PrintLines(lines, crlf) != "" && PrintLines(lines, crlf)[|PrintLines(lines, crlf)| - 1] == '\n'
  {
    if lines != [] {
      var last := |lines| - 1;
      var (before, printed) := (PrintLines(lines[..last], crlf), lines[last] + (if crlf(last) then "\r\n" else "\n"));
      LinesAreRead(lines[..last], crlf);
      OneLineIsRead(lines[last], crlf(last));
      assert lines == lines[..last] + [lines[last]];
      if before == "" {
        assert before + printed == printed;
      } else {
        LinesFromAppend(before, printed, "");
      }
    }
  }

  lemma TextsJoin(a: seq<string>, b: seq<string>, c: seq<string>)
    ensures a + (b + c) == (a + b) + c
  {
  }

  lemma {:induction false} TextsAppend(a: seq<string>, b: seq<string>)
    ensures Texts(a + b) == Texts(a) + Texts(b)
  {
    if a == [] {
      assert a + b == b;
    } else {
      TextsAppend(a[1..], b);
      assert (a + b)[1..] == a[1..] + b && (a + b)[0] == a[0];
      TextsJoin(if Trim(a[0]) == "" then [] else [Trim(a[0])], Texts(a[1..]), Texts(b));
    }
  }

  /** A line with nothing but white space adds no text; any other adds what it holds between its white space. */
  lemma TextOfLine(before: string, text: string, after: string)
    requires IsBlank(before) && IsBlank(after) && (text != "" ==> IsTrimmed(text))
    ensures Texts([before + text + after]) == if text == "" then [] else [text]
  {
    TrimPadded(before, text, after);
    assert Texts([before + text + after][1..]) == [];
  }

  /** Padded lines: white space, an address or nothing, white space. */
  datatype Padded = Padded(before: string, address: Option<Address>, after: string)

  predicate IsPadded(p: Padded) {
    IsBlank(p.before) && IsBlank(p.after) && (p.address.Some? ==> IsAddress(p.address.value))
  }

  function LineOf(p: Padded): string {
    p.before + (if p.address.Some? then Print(p.address.value) else "") + p.after
  }

  function LinesOf(ps: seq<Padded>): seq<string> {
    seq(|ps|, k requires 0 <= k < |ps| => LineOf(ps[k]))
  }

  function Addresses(ps: seq<Padded>): seq<string> {
    if ps == [] then []
    else Addresses(ps[..|ps| - 1]) + (if ps[|ps| - 1].address.Some? then [Print(ps[|ps| - 1].address.value)] else [])
  }

  lemma TextOfPadded(p: Padded)
    requires IsPadded(p)
    ensures Texts([LineOf(p)]) == if p.address.Some? then [Print(p.address.value)] else []
    ensures p.address.Some? ==> IsPrinted(Print(p.address.value))
  {
    if p.address.Some? {
      PrintedIsPlain(p.address.value);
      TextOfLine(p.before, Print(p.address.value), p.after);
    } else {
      TextOfLine(p.before, "", p.after);
    }
  }

  lemma {:induction false} TextsAreAddresses(ps: seq<Padded>)
    requires forall k :: 0 <= k < |ps| ==> IsPadded(ps[k])
    ensures Texts(LinesOf(ps)) == Addresses(ps)
    ensures forall k :: 0 <= k < |Addresses(ps)| ==> IsPrinted(Addresses(ps)[k])
  {
    if ps != [] {
      var last := |ps| - 1;
      var p := ps[last];
      TextsAreAddresses(ps[..last]);
      TextsAppend(LinesOf(ps[..last]), [LineOf(p)]);
      assert LinesOf(ps) == LinesOf(ps[..last]) + [LineOf(p)];
      TextOfPadded(p);
    }
  }

  /**
   Any printed list of lines, blank or with one padded address each, with either line ending: the result
   is the one address, or says that there is none or that there are several.
   */
  lemma PrintedLinesParse(ps: seq<Padded>, crlf: nat -> bool, x: Address)
    requires forall k :: 0 <= k < |ps| ==> IsPadded(ps[k]) && IsLine(LineOf(ps[k]))
    ensures var r := ParseIpv4(PrintLines(LinesOf(ps), crlf));
            && (r == Success(x) <==> IsAddress(x) && Addresses(ps) == [Print(x)])
            && (r == Failure(MissingAddress) <==> |Addresses(ps)| == 0)
            && (r == Failure(MultipleAddresses) <==> |Addresses(ps)| >= 2)
  {
    LinesAreRead(LinesOf(ps), crlf);
    TextsAreAddresses(ps);
    ParsesIpv4Exactly(PrintLines(LinesOf(ps), crlf), x);
  }
}
