/** The Gpg4win redirect file of src/agent.rs: its parser, its bounded read, and the connect loop. */
module Agent {
  import opened Prelude
  import opened Text
  import Utf8

  const MAX_REDIRECT_FILE_SIZE: nat := 128
  const AGENT_STARTUP_WINDOW: Nanos := 15 * SECOND
  const AGENT_CONNECT_TIMEOUT: Nanos := 5 * SECOND
  const AGENT_RETRY_DELAY: Nanos := 200 * MILLISECOND

  const NONCE_LENGTH: nat := 16
  const U16_MAX: nat := 65535

  datatype AgentError =
    | MetadataIo | MetadataTooLarge | MetadataTooShort
    | InvalidPortEncoding | EmptyPort | InvalidPort | ZeroPort
    | Connect | ConnectTimeout
    | StartupWindowExpired(last: AgentError)

  datatype Metadata = Metadata(port: nat, nonce: seq<byte>)

  /** `str::parse::<u16>`: an optional plus sign and decimal digits within the type's range. */
  function ParseU16(text: string): Option<nat> {
    if text == "" || text == "+" || text == "-" then None
    else if text[0] == '+' then Accumulate(text[1..], 0, U16_MAX)
    else Accumulate(text, 0, U16_MAX)
  }

  function ParseMetadata(contents: seq<byte>): Result<Metadata, AgentError> {
    if |contents| < NONCE_LENGTH then Failure(MetadataTooShort)
    else
      var cut := |contents| - NONCE_LENGTH;
      match Utf8.Decode(contents[..cut])
      case None => Failure(InvalidPortEncoding)
      case Some(text) =>
        var portText := Trim(text);
        if portText == "" then Failure(EmptyPort)
        else
          match ParseU16(portText)
          case None => Failure(InvalidPort)
          case Some(port) => if port == 0 then Failure(ZeroPort) else Success(Metadata(port, contents[cut..]))
  }

  // ----- what the parser accepts

  predicate IsSign(sign: string) {
    sign == "" || sign == "+"
  }

  /** The text is a signed or unsigned decimal literal for the port. */
  ghost predicate IsLiteral(text: string, port: nat) {
    exists sign, digits ::
      IsSign(sign) && digits != [] && AllDigits(digits) && Value(digits) == port && text == sign + digits
  }

  /** The bytes are UTF-8 for a literal of the port with white space around it. */
  ghost predicate Denotes(bytes: seq<byte>, port: nat) {
    exists before, text, after ::
      IsBlank(before) && IsBlank(after) && IsLiteral(text, port) && bytes == Utf8.Encode(before + text + after)
  }

  lemma ParsesU16Exactly(text: string, port: nat)
    ensures ParseU16(text) == Some(port) <==> IsLiteral(text, port) && port <= U16_MAX
  {
    if ParseU16(text) == Some(port) {
      var sign := if text[0] == '+' then "+" else "";
      var digits := if text[0] == '+' then text[1..] else text;
      AccumulatesExactly(digits, U16_MAX);
      assert text == sign + digits;
    }
    if IsLiteral(text, port) && port <= U16_MAX {
      var sign, digits :| IsSign(sign) && digits != [] && AllDigits(digits) && Value(digits) == port && text == sign + digits;
      AccumulatesExactly(digits, U16_MAX);
      assert IsDigit(digits[0]);
      if sign == "+" {
        assert text[1..] == digits;
      } else {
        assert text == digits;
      }
    }
  }

  lemma LiteralIsTrimmed(text: string, port: nat)
    requires IsLiteral(text, port)
    ensures text != "" && IsTrimmed(text)
  {
    var sign, digits :| IsSign(sign) && digits != [] && AllDigits(digits) && Value(digits) == port && text == sign + digits;
    assert IsDigit(digits[0]) && IsDigit(digits[|digits| - 1]);
    assert text[|text| - 1] == digits[|digits| - 1];
  }

  /** What the parser makes of the bytes before the nonce. */
  lemma DenotesExactly(bytes: seq<byte>, port: nat)
    ensures Denotes(bytes, port) <==> Utf8.Decode(bytes).Some? && IsLiteral(Trim(Utf8.Decode(bytes).value), port)
  {
    if Denotes(bytes, port) {
      var before, text, after :|
        IsBlank(before) && IsBlank(after) && IsLiteral(text, port) && bytes == Utf8.Encode(before + text + after);
      Utf8.DecodesExactly(bytes, before + text + after);
      LiteralIsTrimmed(text, port);
      TrimPadded(before, text, after);
    }
    if Utf8.Decode(bytes).Some? && IsLiteral(Trim(Utf8.Decode(bytes).value), port) {
      var whole := Utf8.Decode(bytes).value;
      Utf8.DecodesExactly(bytes, whole);
      var before, after := TrimSplits(whole);
      assert bytes == Utf8.Encode(before + Trim(whole) + after);
    }
  }

  /**
   The parser returns a port and a nonce exactly when the nonce is the last sixteen bytes and the
   bytes before it are a decimal literal of the port, 1 to 65535, with any white space around it.
   */
  lemma ParsesExactly(contents: seq<byte>, port: nat, nonce: seq<byte>)
    ensures ParseMetadata(contents) == Success(Metadata(port, nonce))
       <==> && |nonce| == NONCE_LENGTH && 1 <= port <= U16_MAX
            && |contents| >= NONCE_LENGTH && contents[|contents| - NONCE_LENGTH..] == nonce
            && Denotes(contents[..|contents| - NONCE_LENGTH], port)
  {
    if |contents| >= NONCE_LENGTH {
      var bytes := contents[..|contents| - NONCE_LENGTH];
      DenotesExactly(bytes, port);
      if Utf8.Decode(bytes).Some? {
        var text := Trim(Utf8.Decode(bytes).value);
        ParsesU16Exactly(text, port);
        if IsLiteral(text, port) {
          LiteralIsTrimmed(text, port);
        }
      }
    }
  }

  /** What Gpg4win writes: the port in decimal, perhaps with white space behind it, and the nonce. */
  function PrintMetadata(port: nat, padding: string, nonce: seq<byte>): seq<byte> {
    Utf8.Encode(Digits(port) + padding) + nonce
  }

  lemma PrintDenotes(port: nat, padding: string)
    requires IsBlank(padding)
    ensures Denotes(Utf8.Encode(Digits(port) + padding), port)
  {
    var text := Digits(port);
    assert IsSign("") && text == "" + text;
    assert IsLiteral(text, port);
    assert IsBlank("") && "" + text + padding == text + padding;
  }

  /** Every printed file parses back, also when the nonce itself looks like digits. */
  lemma PrintParses(port: nat, padding: string, nonce: seq<byte>)
    requires 1 <= port <= U16_MAX && IsBlank(padding) && |nonce| == NONCE_LENGTH
    ensures ParseMetadata(PrintMetadata(port, padding, nonce)) == Success(Metadata(port, nonce))
  {
    var contents := PrintMetadata(port, padding, nonce);
    var bytes := Utf8.Encode(Digits(port) + padding);
    assert contents[..|contents| - NONCE_LENGTH] == bytes && contents[|contents| - NONCE_LENGTH..] == nonce;
    PrintDenotes(port, padding);
    ParsesExactly(contents, port, nonce);
  }

  /** No file is accepted with two readings. */
  lemma ReadingIsUnique(contents: seq<byte>, port: nat, other: nat)
    requires 1 <= port <= U16_MAX && 1 <= other <= U16_MAX && |contents| >= NONCE_LENGTH
    requires Denotes(contents[..|contents| - NONCE_LENGTH], port)
    requires Denotes(contents[..|contents| - NONCE_LENGTH], other)
    ensures port == other
  {
    ParsesExactly(contents, port, contents[|contents| - NONCE_LENGTH..]);
    ParsesExactly(contents, other, contents[|contents| - NONCE_LENGTH..]);
  }

  ghost predicate IsUtf8(bytes: seq<byte>) {
    exists text :: bytes == Utf8.Encode(text)
  }

  ghost predicate IsBlankUtf8(bytes: seq<byte>) {
    exists text :: IsBlank(text) && bytes == Utf8.Encode(text)
  }

  lemma DecodesUtf8(bytes: seq<byte>)
    ensures Utf8.Decode(bytes).Some? <==> IsUtf8(bytes)
    ensures Utf8.Decode(bytes).Some? && Trim(Utf8.Decode(bytes).value) == "" <==> IsBlankUtf8(bytes)
  {
    if Utf8.Decode(bytes).Some? {
      Utf8.DecodesExactly(bytes, Utf8.Decode(bytes).value);
      BlankExactly(Utf8.Decode(bytes).value);
    }
    if text :| bytes == Utf8.Encode(text) {
      Utf8.DecodesExactly(bytes, text);
    }
    if text :| IsBlank(text) && bytes == Utf8.Encode(text) {
      Utf8.DecodesExactly(bytes, text);
      BlankExactly(text);
    }
  }

  lemma BlankExactly(text: string)
    ensures Trim(text) == "" <==> IsBlank(text)
  {
    var before, after := TrimSplits(text);
    if IsBlank(text) {
      TrimPadded(text, "", "");
      assert text + "" + "" == text;
    }
    if Trim(text) == "" {
      assert text == before + after;
    }
  }

  /** With which error the parser refuses, for every file it refuses. */
  lemma ParseFailsExactly(contents: seq<byte>)
    ensures ParseMetadata(contents) == Failure(MetadataTooShort) <==> |contents| < NONCE_LENGTH
    ensures |contents| >= NONCE_LENGTH ==>
              var bytes := contents[..|contents| - NONCE_LENGTH];
              && (ParseMetadata(contents) == Failure(InvalidPortEncoding) <==> !IsUtf8(bytes))
              && (ParseMetadata(contents) == Failure(EmptyPort) <==> IsBlankUtf8(bytes))
              && (ParseMetadata(contents) == Failure(ZeroPort) <==> Denotes(bytes, 0))
  {
    if |contents| >= NONCE_LENGTH {
      var bytes := contents[..|contents| - NONCE_LENGTH];
      DecodesUtf8(bytes);
      DenotesExactly(bytes, 0);
      if Utf8.Decode(bytes).Some? {
        var text := Trim(Utf8.Decode(bytes).value);
        ParsesU16Exactly(text, 0);
        if IsLiteral(text, 0) {
          LiteralIsTrimmed(text, 0);
        }
      }
    }
  }

  // ----- reading the file

  /**
   What the file system answers during one load: the length that stat reports, whether the file
   opens, what it holds when it is read, in which chunks it arrives, and after how many bytes
   reading fails, if it does.
   */
  datatype File = File(
    stat: Option<nat>,
    opens: bool,
    contents: seq<byte>,
    chunk: nat -> nat,          // how many bytes read number n offers
    readFails: Option<nat>)

  /** The reading of the whole file that the bounded one stands for: nothing here counts or cuts bytes. */
  function Loaded(file: File): Result<Metadata, AgentError> {
    if file.stat.None? then Failure(MetadataIo)
    else if file.stat.value > MAX_REDIRECT_FILE_SIZE then Failure(MetadataTooLarge)
    else if !file.opens then Failure(MetadataIo)
    else if FailsReading(file) then Failure(MetadataIo)
    else if |file.contents| > MAX_REDIRECT_FILE_SIZE then Failure(MetadataTooLarge)
    else ParseMetadata(file.contents)
  }

  /** Reading fails before the end of the file, or at it, and before it is known to be too large. */
  predicate FailsReading(file: File) {
    file.readFails.Some? && file.readFails.value <= |file.contents| && file.readFails.value <= MAX_REDIRECT_FILE_SIZE
  }

  /**
   `load_metadata`.  Whatever length stat reported within the limit and however the bytes arrive,
   the result is the one for the complete contents at reading time, never one for a part of them.
   */
  method LoadMetadata(file: File) returns (r: Result<Metadata, AgentError>)
    requires forall n :: file.chunk(n) > 0
    ensures r == Loaded(file)
    ensures r.Success? ==> |file.contents| <= MAX_REDIRECT_FILE_SIZE && r == ParseMetadata(file.contents)
  {
    if file.stat.None? {
      return Failure(MetadataIo);
    }
    if file.stat.value > MAX_REDIRECT_FILE_SIZE {
      return Failure(MetadataTooLarge);
    }
    if !file.opens {
      return Failure(MetadataIo);
    }
    var contents := [];
    var readCount := 0;
    var remaining := MAX_REDIRECT_FILE_SIZE + 1;
    while remaining > 0
      invariant |contents| + remaining == MAX_REDIRECT_FILE_SIZE + 1
      invariant contents <= file.contents
      invariant file.readFails.Some? ==> |contents| <= file.readFails.value
      decreases remaining
    {
      if file.readFails == Some(|contents|) {
        return Failure(MetadataIo);
      }
      if |contents| == |file.contents| {
        break;
      }
      var n := Min(file.chunk(readCount), Min(remaining, |file.contents| - |contents|));
      if file.readFails.Some? {
        n := Min(n, file.readFails.value - |contents|);
      }
      contents := contents + file.contents[|contents|..|contents| + n];
      remaining := remaining - n;
      readCount := readCount + 1;
    }
    if |contents| > MAX_REDIRECT_FILE_SIZE {
      return Failure(MetadataTooLarge);
    }
    assert contents == file.contents;
    return ParseMetadata(contents);
  }

  /** The file is there, within the limit by its stat, and can be opened and read as far as it has to be. */
  predicate CanBeRead(file: File) {
    && file.stat.Some? && file.stat.value <= MAX_REDIRECT_FILE_SIZE && file.opens
    && (file.readFails.None? || file.readFails.value > |file.contents| || file.readFails.value > MAX_REDIRECT_FILE_SIZE)
  }

  /** When loading succeeds, with what, and when it fails for the file's size or for an error of a call. */
  lemma LoadsExactly(file: File, metadata: Metadata)
    ensures Loaded(file) == Success(metadata) <==>
              CanBeRead(file) && |file.contents| <= MAX_REDIRECT_FILE_SIZE && ParseMetadata(file.contents) == Success(metadata)
    ensures Loaded(file) == Failure(MetadataTooLarge) <==>
              || (file.stat.Some? && file.stat.value > MAX_REDIRECT_FILE_SIZE)
              || (CanBeRead(file) && |file.contents| > MAX_REDIRECT_FILE_SIZE)
    ensures Loaded(file) == Failure(MetadataIo) <==>
              !CanBeRead(file) && (file.stat.None? || file.stat.value <= MAX_REDIRECT_FILE_SIZE)
  {
  }

  // ----- connecting

  datatype Dial = Accepted | RefusedDial

  /** The environment of one turn of the connect loop. */
  datatype Turn = Turn(
    file: File,
    loadTakes: Nanos,
    dial: Dial,
    dialTakes: Nanos,
    writeFails: Option<nat>,    // after how many bytes writing or flushing the nonce fails, if it does
    writeTakes: Nanos,
    late: Nanos)                // by how much the sleep after the turn oversleeps

  /** What reached the agent on a connection to a port. */
  datatype Connection = Connection(port: nat, sent: seq<byte>)

  datatype Attempt =
    | Missed(error: AgentError)
    | Reached(connection: Connection, complete: bool)

  ghost predicate Readable(env: nat -> Turn) {
    forall n, k :: env(n).file.chunk(k) > 0
  }

  function Tried(turn: Turn): Attempt {
    match Loaded(turn.file)
    case Failure(error) => Missed(error)
    case Success(metadata) =>
      if turn.dialTakes > AGENT_CONNECT_TIMEOUT then Missed(ConnectTimeout)
      else if turn.dial != Accepted then Missed(Connect)
      else if turn.writeFails.Some? && turn.writeFails.value <= |metadata.nonce|
      then Reached(Connection(metadata.port, metadata.nonce[..turn.writeFails.value]), false)
      else Reached(Connection(metadata.port, metadata.nonce), true)
  }

  function Takes(turn: Turn): Nanos {
    turn.loadTakes
    + (if Loaded(turn.file).Success? then Min(turn.dialTakes, AGENT_CONNECT_TIMEOUT) else 0)
    + (if Tried(turn).Reached? then turn.writeTakes else 0)
  }

  /** When attempt `n` starts, if none before it has reached the agent. */
  function Start(env: nat -> Turn, n: nat): Nanos {
    if n == 0 then 0 else Start(env, n - 1) + Takes(env(n - 1)) + AGENT_RETRY_DELAY + env(n - 1).late
  }

  /** The attempt failed and left time for another. */
  predicate GoesOn(env: nat -> Turn, window: Nanos, n: nat) {
    Tried(env(n)).Missed? && Start(env, n) + Takes(env(n)) < window
  }

  /** The number of whole retry delays that cover the window, rounded up. */
  function Rounds(window: Nanos): nat {
    (window + AGENT_RETRY_DELAY - 1) / AGENT_RETRY_DELAY
  }

  /**
   The agent is reached by one attempt only, on the port and with the nonce of one and the same
   complete and valid file; with all sixteen bytes unless writing fails.
   */
  lemma ReachedFromOneRead(turn: Turn)
    requires Tried(turn).Reached?
    ensures |turn.file.contents| <= MAX_REDIRECT_FILE_SIZE && ParseMetadata(turn.file.contents).Success?
    ensures var metadata := ParseMetadata(turn.file.contents).value; var connection := Tried(turn).connection;
            && connection.port == metadata.port && 1 <= metadata.port <= U16_MAX
            && connection.sent <= metadata.nonce == turn.file.contents[|turn.file.contents| - NONCE_LENGTH..]
            && (Tried(turn).complete ==> |connection.sent| == NONCE_LENGTH)
            && (turn.writeFails.None? ==> Tried(turn).complete)
  {
    var metadata := ParseMetadata(turn.file.contents).value;
    ParsesExactly(turn.file.contents, metadata.port, metadata.nonce);
  }

  /** Something listens on the port of a valid file and answers in time. */
  predicate Answers(turn: Turn) {
    Loaded(turn.file).Success? && turn.dialTakes <= AGENT_CONNECT_TIMEOUT && turn.dial == Accepted
  }

  /** The whole nonce can be written and flushed. */
  predicate TakesNonce(turn: Turn) {
    turn.writeFails.None? || turn.writeFails.value > NONCE_LENGTH
  }

  /** What an attempt comes to, in terms of the file, the dial and the write; and how long it takes. */
  lemma TriesExactly(turn: Turn)
    ensures Tried(turn).Reached? <==> Answers(turn)
    ensures Tried(turn).Reached? ==> (Tried(turn).complete <==> TakesNonce(turn))
    ensures Tried(turn).Reached? && !TakesNonce(turn) ==> |Tried(turn).connection.sent| == turn.writeFails.value
    ensures Loaded(turn.file).Failure? ==> Tried(turn) == Missed(Loaded(turn.file).error) && Takes(turn) == turn.loadTakes
    ensures Loaded(turn.file).Success? && turn.dialTakes > AGENT_CONNECT_TIMEOUT ==>
              Tried(turn) == Missed(ConnectTimeout) && Takes(turn) == turn.loadTakes + AGENT_CONNECT_TIMEOUT
    ensures Loaded(turn.file).Success? && turn.dialTakes <= AGENT_CONNECT_TIMEOUT && turn.dial == RefusedDial ==>
              Tried(turn) == Missed(Connect) && Takes(turn) == turn.loadTakes + turn.dialTakes
    ensures Answers(turn) ==> Takes(turn) == turn.loadTakes + turn.dialTakes + turn.writeTakes
  {
    if Loaded(turn.file).Success? {
      var metadata := ParseMetadata(turn.file.contents).value;
      ParsesExactly(turn.file.contents, metadata.port, metadata.nonce);
    }
  }

  /** The total of the first `n` terms. */
  function Total(n: nat, terms: nat -> Nanos): Nanos {
    if n == 0 then 0 else Total(n - 1, terms) + terms(n - 1)
  }

  /** An attempt starts after all attempts and sleeps before it. */
  lemma {:induction false} StartIsTotal(env: nat -> Turn, n: nat)
    ensures Start(env, n) == Total(n, k => Takes(env(k))) + n * AGENT_RETRY_DELAY + Total(n, k => env(k).late)
  {
    if n > 0 {
      StartIsTotal(env, n - 1);
    }
  }

  /** However short each attempt, so many of them that go on use up a window. */
  lemma {:induction false} StartsApart(env: nat -> Turn, window: Nanos, n: nat)
    requires forall k :: 0 <= k < n ==> GoesOn(env, window, k)
    ensures Start(env, n) >= n * AGENT_RETRY_DELAY
    ensures n > 0 ==> Start(env, n) < window + AGENT_RETRY_DELAY + env(n - 1).late
    ensures n <= Rounds(window)
  {
    if n > 0 {
      StartsApart(env, window, n - 1);
      assert GoesOn(env, window, n - 1);
    }
  }

  /** The attempt with which the loop ends: the first that reaches the agent or comes to its end after the window. */
  ghost predicate EndsWith(env: nat -> Turn, window: Nanos, n: nat) {
    !GoesOn(env, window, n) && AllGoOn(env, window, n)
  }

  ghost predicate AllGoOn(env: nat -> Turn, window: Nanos, n: nat) {
    forall k :: 0 <= k < n ==> GoesOn(env, window, k)
  }

  lemma AttemptsBounded(env: nat -> Turn, window: Nanos, n: nat)
    requires AllGoOn(env, window, n)
    ensures n <= Rounds(window)
  {
    StartsApart(env, window, n);
  }

  lemma OneMoreGoesOn(env: nat -> Turn, window: Nanos, n: nat)
    requires AllGoOn(env, window, n) && GoesOn(env, window, n)
    ensures AllGoOn(env, window, n + 1)
  {
  }

  /**
   Between one and ceil(window / 200 ms) + 1 attempts, and how late the last one can end: by no more
   than the sleep before it overslept, however late the earlier sleeps woke.
   */
  lemma EndsInTime(env: nat -> Turn, window: Nanos, n: nat)
    requires EndsWith(env, window, n)
    ensures n + 1 <= Rounds(window) + 1
    ensures Start(env, n) + Takes(env(n))
            < window + AGENT_RETRY_DELAY + AGENT_CONNECT_TIMEOUT + env(n).loadTakes + env(n).writeTakes
              + (if n == 0 then 0 else env(n - 1).late)
  {
    StartsApart(env, window, n);
  }

  /** `connect_gpg4win` has a window of 15 s: at most 76 attempts. */
  lemma StartupAttempts(env: nat -> Turn, n: nat)
    requires EndsWith(env, AGENT_STARTUP_WINDOW, n)
    ensures n + 1 <= 76
  {
    EndsInTime(env, AGENT_STARTUP_WINDOW, n);
  }

  lemma {:induction false} StartsTight(env: nat -> Turn, n: nat)
    requires forall k :: Takes(env(k)) == 0 && env(k).late == 0
    ensures Start(env, n) == n * AGENT_RETRY_DELAY
  {
    if n > 0 {
      StartsTight(env, n - 1);
    }
  }

  /** The bound on the attempts is reached when every attempt fails at once and every sleep wakes on time. */
  lemma MostAttempts(env: nat -> Turn, window: Nanos)
    requires forall k :: Takes(env(k)) == 0 && env(k).late == 0 && Tried(env(k)).Missed?
    ensures EndsWith(env, window, Rounds(window))
  {
    forall k | 0 <= k <= Rounds(window)
      ensures GoesOn(env, window, k) <==> k < Rounds(window)
    {
      StartsTight(env, k);
    }
  }

  function Verdict(last: Attempt): Result<Connection, AgentError> {
    match last
    case Missed(error) => Failure(StartupWindowExpired(error))
    case Reached(connection, complete) => if complete then Success(connection) else Failure(Connect)
  }

  /** The result that the last attempt decides, in terms of its file, dial and write. */
  lemma VerdictExactly(turn: Turn)
    ensures Verdict(Tried(turn)).Success? <==> Answers(turn) && TakesNonce(turn)
    ensures Answers(turn) && !TakesNonce(turn) ==> Verdict(Tried(turn)) == Failure(Connect)
    ensures Loaded(turn.file).Failure? ==> Verdict(Tried(turn)) == Failure(StartupWindowExpired(Loaded(turn.file).error))
    ensures Loaded(turn.file).Success? && !Answers(turn) ==>
              Verdict(Tried(turn)) == Failure(StartupWindowExpired(if turn.dialTakes > AGENT_CONNECT_TIMEOUT then ConnectTimeout else Connect))
  {
    TriesExactly(turn);
  }

  /** One turn: load, dial and write the nonce. */
  method Try(turn: Turn) returns (attempt: Attempt, takes: Nanos)
    requires forall n :: turn.file.chunk(n) > 0
    ensures attempt == Tried(turn) && takes == Takes(turn)
    ensures attempt.Reached? <==> Answers(turn)
    ensures attempt.Reached? ==> (attempt.complete <==> TakesNonce(turn))
  {
    TriesExactly(turn);
    var loaded := LoadMetadata(turn.file);
    takes := turn.loadTakes;
    match loaded {
      case Failure(error) => attempt := Missed(error);
      case Success(metadata) =>
        takes := takes + Min(turn.dialTakes, AGENT_CONNECT_TIMEOUT);
        if turn.dialTakes > AGENT_CONNECT_TIMEOUT {
          attempt := Missed(ConnectTimeout);
        } else if turn.dial != Accepted {
          attempt := Missed(Connect);
        } else {
          takes := takes + turn.writeTakes;
          if turn.writeFails.Some? && turn.writeFails.value <= |metadata.nonce| {
            attempt := Reached(Connection(metadata.port, metadata.nonce[..turn.writeFails.value]), false);
          } else {
            attempt := Reached(Connection(metadata.port, metadata.nonce), true);
          }
        }
    }
  }

  /**
   `connect_gpg4win_with_window`: the first attempt that reaches the agent decides; if none does
   before the deadline, the error of the last one is returned.
   */
  method ConnectGpg4win(env: nat -> Turn, window: Nanos)
    returns (r: Result<Connection, AgentError>, attempts: nat, clock: Nanos)
    requires Readable(env)
    ensures attempts >= 1 && EndsWith(env, window, attempts - 1)
    ensures clock == Start(env, attempts - 1) + Takes(env(attempts - 1))
    ensures r == Verdict(Tried(env(attempts - 1)))
    ensures r.Success? <==> Answers(env(attempts - 1)) && TakesNonce(env(attempts - 1))
    ensures r == Failure(Connect) <==> Answers(env(attempts - 1)) && !TakesNonce(env(attempts - 1))
  {
    clock := 0;
    attempts := 0;
    while true
      invariant clock == Start(env, attempts)
      invariant AllGoOn(env, window, attempts)
      decreases Rounds(window) + 1 - attempts
    {
      AttemptsBounded(env, window, attempts);
      var attempt, takes := Try(env(attempts));
      clock := clock + takes;
      attempts := attempts + 1;
      match attempt {
        case Reached(connection, complete) =>
          r := if complete then Success(connection) else Failure(Connect);
          break;
        case Missed(error) =>
          if clock >= window {
            r := Failure(StartupWindowExpired(error));
            break;
          }
          OneMoreGoesOn(env, window, attempts - 1);
          clock := clock + AGENT_RETRY_DELAY + env(attempts - 1).late;
      }
    }
  }
}
