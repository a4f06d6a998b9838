/** The text of commands and replies: what the lines mean to the handler. */
module LannerText {
  import opened LannerModel

  const VERSION_REPLY := "100 VERSION"
  const DIGITAL_OUT_REPLY := "100 DIGITAL_OUT"
  const OK_REPLY := "100 OK"

  predicate IsDigit(c: char) { '0' <= c <= '9' }

  predicate IsSpace(c: char) { c == ' ' || '\t' <= c <= '\r' }

  // ----- numbers -----

  /** `%u` as it is written. */
  function Written(n: nat): (s: string)
    ensures s != "" && forall i | 0 <= i < |s| :: IsDigit(s[i])
  {
    (if n < 10 then "" else Written(n / 10)) + [('0' as int + n % 10) as char]
  }

  /** The digits at the start of a text. */
  function DigitCount(s: string): (n: nat)
    ensures n <= |s| && forall i | 0 <= i < n :: IsDigit(s[i])
    ensures n < |s| ==> !IsDigit(s[n])
  {
    if s == "" || !IsDigit(s[0]) then 0 else 1 + DigitCount(s[1..])
  }

  function DigitOf(c: char): nat
    requires IsDigit(c)
  {
    (c as int) - ('0' as int)
  }

  function Value(s: string): nat
    requires forall i | 0 <= i < |s| :: IsDigit(s[i])
  {
    if s == "" then 0 else Value(s[..|s| - 1]) * 10 + DigitOf(s[|s| - 1])
  }

  /** `%u` as it is read from a text that begins with a digit. */
  function Number(s: string): nat { Value(s[..DigitCount(s)]) }

  lemma {:induction false} ValueOfWritten(n: nat)
    ensures Value(Written(n)) == n
  {
    var s := Written(n);
    if n >= 10 {
      ValueOfWritten(n / 10);
      assert s[..|s| - 1] == Written(n / 10);
    } else {
      assert s[..0] == "";
    }
  }

  lemma {:induction false} CountOf(d: string, rest: string)
    requires (forall i | 0 <= i < |d| :: IsDigit(d[i])) && (rest == "" || !IsDigit(rest[0]))
    ensures DigitCount(d + rest) == |d|
  {
    if d == "" {
      assert d + rest == rest;
    } else {
      assert (d + rest)[1..] == d[1..] + rest;
      CountOf(d[1..], rest);
    }
  }

  /** A number that is written is read back, whatever follows it but a digit. */
  lemma NumberRoundTrip(n: nat, rest: string)
    requires rest == "" || !IsDigit(rest[0])
    ensures Number(Written(n) + rest) == n
  {
    CountOf(Written(n), rest);
    assert (Written(n) + rest)[..|Written(n)|] == Written(n);
    ValueOfWritten(n);
  }

  /** Digits and white space by their codes. */
  lemma CodesExactly(c: char)
    ensures IsDigit(c) <==> 48 <= c as int <= 57
    ensures IsDigit(c) ==> DigitOf(c) == c as int - 48
    ensures IsSpace(c) <==> c as int == 32 || 9 <= c as int <= 13
  {
  }

  // ----- commands -----

  function CommandText(c: Command): string {
    match c
    case GetVersion => "GET VERSION\n"
    case GetDigitalOut => "GET DIGITAL_OUT\n"
    case SetDigitalOut(m) => "SET DIGITAL_OUT " + Written(m as int) + "\n"
  }

  /** The lengths that partial writes are measured against are those of the texts. */
  lemma LengthOfText(c: Command)
    ensures |CommandText(c)| == Length(c)
  {
    if c.SetDigitalOut? {
      var n := c.mask as int;
      assert Written(n) == (if n < 10 then "" else Written(n / 10)) + [('0' as int + n % 10) as char];
      if n >= 10 {
        assert n / 10 < 26;
        WrittenLength(n / 10);
      }
    }
  }

  lemma WrittenLength(n: nat)
    requires n < 100
    ensures |Written(n)| == if n < 10 then 1 else 2
  {
  }

  /** The MCU can read every command back: its name, and the number that follows it. */
  lemma CommandReadsBack(c: Command)
    ensures c == GetVersion ==> CommandText(c) == "GET VERSION\n"
    ensures c == GetDigitalOut ==> CommandText(c) == "GET DIGITAL_OUT\n"
    ensures c.SetDigitalOut? ==>
              && "SET DIGITAL_OUT " <= CommandText(c) && CommandText(c)[|CommandText(c)| - 1] == '\n'
              && Number(CommandText(c)[16..]) == c.mask as int
  {
    hide Number;
    if c.SetDigitalOut? {
      var d := Written(c.mask as int);
      assert CommandText(c) == "SET DIGITAL_OUT " + (d + "\n");
      assert CommandText(c)[16..] == d + "\n";
      NumberRoundTrip(c.mask as int, "\n");
    }
  }

  // ----- replies -----

  /** What comes of a line: the handler goes on, or the program ends. */
  datatype Outcome = Goes(e: Effect) | Exits

  function SkipSpaces(s: string): string {
    if s != "" && IsSpace(s[0]) then SkipSpaces(s[1..]) else s
  }

  /** The status code, of which 16 bits are stored. */
  predicate StatusIsError(line: string) {
    var s := SkipSpaces(line);
    s != "" && IsDigit(s[0]) && Number(s) % 0x1_0000 != 100
  }

  /** A reply counts as an error if and only if it begins with a number other than 100, as far
      as 16 bits can tell. */
  lemma StatusExactly(n: nat, rest: string)
    requires rest == "" || !IsDigit(rest[0])
    ensures StatusIsError(Written(n) + rest) <==> n % 0x1_0000 != 100
    ensures StatusIsError(" " + Written(n) + rest) <==> n % 0x1_0000 != 100
    ensures !StatusIsError(rest) || IsSpace(rest[0])
  {
    hide Number;
    var t := Written(n) + rest;
    NumberRoundTrip(n, rest);
    assert IsDigit(t[0]) && SkipSpaces(t) == t;
    assert " " + Written(n) + rest == " " + t && (" " + t)[1..] == t;
    assert SkipSpaces(" " + t) == SkipSpaces(t);
  }

  /** `lanner_handler_reply`: `sscanf` reports a number, none, or that the line was over before
      one could begin; the last is taken for a number, and the mask stays as it was. */
  function ReadMask(sh: Shared, rest: string, w: WriteResult): Outcome {
    if rest == "" then Goes(SetOut(sh.(state := SET_DIGITAL_OUT), w))
    else if rest[0] != '=' then Exits
    else
      var s := SkipSpaces(rest[1..]);
      if s == "" then Goes(SetOut(sh.(state := SET_DIGITAL_OUT), w))
      else if !IsDigit(s[0]) then Exits
      else Goes(SetOut(sh.(mask := MaskOf(Number(s)), state := SET_DIGITAL_OUT), w))
  }

  /** `lanner_handler_handle_msg` on the line itself. */
  function HandleLine(sh: Shared, line: string, w: WriteResult): Outcome {
    if StatusIsError(line) && sh.progress == 0 then Goes(WriteCmd(sh, w))
    else if sh.state == GET_VERSION && VERSION_REPLY <= line then
      Goes(WriteCmd(sh.(state := GET_DIGITAL_OUT, cmd := GetDigitalOut), w))
    else if sh.state == GET_DIGITAL_OUT && DIGITAL_OUT_REPLY <= line then
      ReadMask(sh, line[|DIGITAL_OUT_REPLY|..], w)
    else if sh.state == SET_DIGITAL_OUT && OK_REPLY <= line then Goes(Quiet(OkReplied(sh)))
    else Goes(Quiet(sh))
  }

  /** The lines that an MCU may write for a reply.  One version of the MCU writes a blank
      behind the equals sign, another one does not. */
  ghost predicate Writes(r: Reply, line: string) {
    match r
    case ErrorReply => StatusIsError(line)
    case VersionReply => VERSION_REPLY <= line
    case OkReply => OK_REPLY <= line
    case MaskReply(m) => exists n: nat, blank: bool, rest: string :: IsMaskLine(line, m, n, blank, rest)
  }

  /** One byte is kept of the number that is read. */
  /** How the lines begin. */
  lemma ReplyTexts(r: Reply, line: string)
    ensures Writes(r, line) && r.VersionReply? ==> "100 VERSION" <= line
    ensures Writes(r, line) && r.MaskReply? ==> "100 DIGITAL_OUT=" <= line
    ensures Writes(r, line) && r.OkReply? ==> "100 OK" <= line
    ensures "100 OK" <= line ==> Writes(OkReply, line)
  {
  }

  function MaskOf(n: nat): Mask { (n % 0x100) as Mask }

  predicate IsMaskLine(line: string, m: Mask, n: nat, blank: bool, rest: string) {
    m == MaskOf(n) && line == MaskLine(n, blank, rest) && (rest == "" || !IsDigit(rest[0]))
  }

  function MaskLine(n: nat, blank: bool, rest: string): string { DIGITAL_OUT_REPLY + "=" + MaskText(n, blank, rest) }

  function MaskText(n: nat, blank: bool, rest: string): string {
    (if blank then [' '] else []) + (Written(n) + rest)
  }

  lemma HundredIsNoError(line: string)
    requires "100 " <= line
    ensures !StatusIsError(line)
  {
    var rest := line[3..];
    assert line == "100" + rest && rest[0] == ' ';
    CountOf("100", rest);
    assert line[..3] == "100";
    assert "100"[..2] == "10" && "10"[..1] == "1" && "1"[..0] == "";
    assert Value("") == 0 && Value("1") == 1 && Value("10") == 10 && Value("100") == 100;
  }

  lemma MaskRead(n: nat, blank: bool, rest: string)
    requires rest == "" || !IsDigit(rest[0])
    ensures var s := SkipSpaces(MaskText(n, blank, rest));
            s != "" && IsDigit(s[0]) && Number(s) == n
  {
    hide Number;
    var t := Written(n) + rest;
    assert IsDigit(t[0]) && SkipSpaces(t) == t;
    if blank {
      assert MaskText(n, blank, rest)[1..] == t;
    } else {
      assert MaskText(n, blank, rest) == t;
    }
    NumberRoundTrip(n, rest);
  }

  lemma MaskLineRead(sh: Shared, n: nat, blank: bool, rest: string, w: WriteResult)
    requires rest == "" || !IsDigit(rest[0])
    ensures var line := MaskLine(n, blank, rest);
            && "100 " <= line && DIGITAL_OUT_REPLY <= line
            && ReadMask(sh, line[|DIGITAL_OUT_REPLY|..], w) == Goes(SetOut(sh.(mask := MaskOf(n), state := SET_DIGITAL_OUT), w))
  {
    hide SetOut, Number, MaskText, SkipSpaces, MaskOf;
    var t := MaskText(n, blank, rest);
    MaskRead(n, blank, rest);
    assert MaskLine(n, blank, rest)[|DIGITAL_OUT_REPLY|..] == "=" + t && ("=" + t)[1..] == t;
    assert "100 " <= DIGITAL_OUT_REPLY;
  }

  /** Every line that stands for a reply has the effect of that reply. */
  lemma LineMeansReply(sh: Shared, r: Reply, line: string, w: WriteResult)
    requires Writes(r, line)
    ensures HandleLine(sh, line, w) == Goes(HandleMsg(sh, r, w))
  {
    hide WriteCmd, SetOut, OkReplied, MaskLine, MaskOf, ReadMask, StatusIsError;
    Prefixes(line);
    if "100 " <= line {
      HundredIsNoError(line);
    }
    if r.MaskReply? {
      var n: nat, blank: bool, rest: string :| IsMaskLine(line, r.mask, n, blank, rest);
      MaskLineRead(sh, n, blank, rest, w);
    }
  }

  /** The three replies are told apart by their beginnings. */
  lemma Prefixes(line: string)
    ensures VERSION_REPLY <= line || DIGITAL_OUT_REPLY <= line || OK_REPLY <= line ==> "100 " <= line
    ensures VERSION_REPLY <= line ==> !(DIGITAL_OUT_REPLY <= line) && !(OK_REPLY <= line)
    ensures DIGITAL_OUT_REPLY <= line ==> !(OK_REPLY <= line)
  {
    assert VERSION_REPLY[4] == 'V' && DIGITAL_OUT_REPLY[4] == 'D' && OK_REPLY[4] == 'O';
    assert VERSION_REPLY <= line ==> line[4] == 'V';
    assert DIGITAL_OUT_REPLY <= line ==> line[4] == 'D';
    assert OK_REPLY <= line ==> line[4] == 'O';
  }

  // ----- a reply that breaks off -----

  /** Behind the name there is nothing, or an equals sign and blanks: no number, but no other
      text either. */
  predicate BreaksOff(rest: string) {
    rest == "" || (rest[0] == '=' && forall i | 1 <= i < |rest| :: IsSpace(rest[i]))
  }

  lemma {:induction false} SkipAll(s: string)
    ensures SkipSpaces(s) == "" <==> forall i | 0 <= i < |s| :: IsSpace(s[i])
  {
    if s != "" && IsSpace(s[0]) {
      SkipAll(s[1..]);
      assert forall i | 1 <= i < |s| :: s[i] == s[1..][i - 1];
    }
  }

  /** The handler goes on with the mask of the transaction before. */
  ghost predicate KeepsMask(rest: string, w: WriteResult) {
    forall sh: Shared | sh.state == GET_DIGITAL_OUT ::
      HandleLine(sh, DIGITAL_OUT_REPLY + rest, w) == Goes(HandleMsg(sh, MaskReply(sh.mask), w))
  }

  lemma NamedLine(sh: Shared, rest: string, w: WriteResult)
    requires sh.state == GET_DIGITAL_OUT
    ensures HandleLine(sh, DIGITAL_OUT_REPLY + rest, w) == ReadMask(sh, rest, w)
  {
    hide ReadMask, StatusIsError, WriteCmd;
    var line := DIGITAL_OUT_REPLY + rest;
    Prefixes(line);
    assert DIGITAL_OUT_REPLY <= line && line[|DIGITAL_OUT_REPLY|..] == rest;
    HundredIsNoError(line);
  }

  lemma MaskShows(sh: Shared, w: WriteResult)
    ensures SetOut(sh, w).sh.mask == sh.mask
  {
    hide CreateMask, Length;
  }

  /** A state whose mask is not `m`. */
  function OtherMask(m: Mask): Shared {
    Shared([], GET_DIGITAL_OUT, 0, GetDigitalOut, 0, if m == 0 then 1 else 0, 0, false, false, true, false)
  }

  /** A DIGITAL_OUT reply without a number is taken for one, with the mask of the transaction
      before, if and only if it breaks off; any other one without a number ends the program. */
  lemma BrokenExactly(rest: string, w: WriteResult)
    ensures KeepsMask(rest, w) <==> BreaksOff(rest)
  {
    hide SetOut, Number, SkipSpaces, HandleLine;
    if rest != "" {
      SkipAll(rest[1..]);
      assert forall i | 1 <= i < |rest| :: rest[i] == rest[1..][i - 1];
      assert forall i | 0 <= i < |rest| - 1 :: rest[1..][i] == rest[i + 1];
    }
    if BreaksOff(rest) {
      forall sh: Shared | sh.state == GET_DIGITAL_OUT
        ensures HandleLine(sh, DIGITAL_OUT_REPLY + rest, w) == Goes(HandleMsg(sh, MaskReply(sh.mask), w)) {
        NamedLine(sh, rest, w);
        assert sh.(mask := sh.mask, state := SET_DIGITAL_OUT) == sh.(state := SET_DIGITAL_OUT);
      }
    } else {
      var m := MaskOf(Number(SkipSpaces(rest[1..])));
      var sh := OtherMask(m);
      NamedLine(sh, rest, w);
      MaskShows(sh.(mask := m, state := SET_DIGITAL_OUT), w);
      MaskShows(sh.(state := SET_DIGITAL_OUT), w);
      assert HandleLine(sh, DIGITAL_OUT_REPLY + rest, w) != Goes(HandleMsg(sh, MaskReply(sh.mask), w));
    }
  }
}
