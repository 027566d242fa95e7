// SvtLogger: the verbosity settings, the severity filter in front of every
// message, the routing of a message to the log file and the console, and the
// number formatters used in log messages. What is written, the time stamps
// and the rotation of the log file are left out; the environment and the
// outcome of opening the file are parameters.
module Logging {
  import opened Wrappers
  import opened Text

  /** The verbosity modes. */
  const STANDARD: nat := 0
  const VERBOSE: nat := 1
  const ALL: nat := 2

  /** The default severities of logError, logWarning and logInfo. */
  const ErrorSeverity: nat := STANDARD
  const WarningSeverity: nat := VERBOSE
  const InfoSeverity: nat := ALL

  /**
   * The console verbosity SVT_DB_AGENT_LOG_VERBOSITY selects: the first of
   * STANDARD, VERBOSE and ALL its value contains, STANDARD when it is unset or
   * contains none of them.
   */
  function VerbosityFromEnvironment(env: Option<string>): (r: nat)
    ensures r <= ALL
    ensures env.None? ==> r == STANDARD
    ensures r == VERBOSE <==> env.Some? && Contains(env.value, "VERBOSE") && !Contains(env.value, "STANDARD")
    ensures r == ALL <==> env.Some? && Contains(env.value, "ALL")
                          && !Contains(env.value, "STANDARD") && !Contains(env.value, "VERBOSE")
  {
    match env
    case None => STANDARD
    case Some(v) =>
      if Contains(v, "STANDARD") then STANDARD
      else if Contains(v, "VERBOSE") then VERBOSE
      else if Contains(v, "ALL") then ALL
      else STANDARD
  }

  /** The filter of logError, logWarning and logInfo: a message goes on when either verbosity admits it. */
  predicate Admitted(severity: nat, console: nat, file: nat)
  {
    severity <= console || severity <= file
  }

  /** A higher verbosity admits every message a lower one admits. */
  lemma AdmittedMonotone(severity: nat, console: nat, file: nat, console': nat, file': nat)
    requires console <= console' && file <= file'
    ensures Admitted(severity, console, file) ==> Admitted(severity, console', file')
  {
  }

  /**
   * With both verbosities at STANDARD only errors go on; with either at ALL
   * every message with its default severity does.
   */
  lemma DefaultSeverities(console: nat, file: nat)
    ensures Admitted(ErrorSeverity, console, file)
    ensures console == STANDARD && file == STANDARD ==>
              !Admitted(WarningSeverity, console, file) && !Admitted(InfoSeverity, console, file)
    ensures console == ALL || file == ALL ==>
              Admitted(WarningSeverity, console, file) && Admitted(InfoSeverity, console, file)
  {
  }

  /** Message ids are 32-bit unsigned integers. */
  const MsgIdLimit := 0x1_0000_0000
  type MsgId = n: nat | n < MsgIdLimit

  /** The id after `id`: one more, wrapping to 0 past the largest 32-bit value. */
  function NextMsgId(id: MsgId): (r: MsgId)
    ensures id < MsgIdLimit - 1 ==> r == id + 1
    ensures id == MsgIdLimit - 1 ==> r == 0
  {
    (id + 1) % MsgIdLimit
  }

  class SvtLogger {
    /** The console verbosity. */
    var logVerbosity: nat
    /** The log file verbosity. */
    var logVerbosityFile: nat
    /** The id the next message gets. */
    var msgId: MsgId

    /** The constructor: both verbosities from the environment, message ids from 0. */
    constructor(env: Option<string>)
      ensures logVerbosity == VerbosityFromEnvironment(env)
      ensures logVerbosityFile == logVerbosity
      ensures msgId == 0
    {
      logVerbosity := VerbosityFromEnvironment(env);
      logVerbosityFile := logVerbosity;
      msgId := 0;
    }

    /** setLogVerbosityFile: a verbosity above ALL is refused and nothing changes. */
    method SetLogVerbosityFile(verbosity: nat) returns (ok: bool)
      modifies this
      ensures ok <==> verbosity <= ALL
      ensures logVerbosityFile == if ok then verbosity else old(logVerbosityFile)
      ensures logVerbosity == old(logVerbosity) && msgId == old(msgId)
    {
      if verbosity > ALL {
        return false;
      }
      logVerbosityFile := verbosity;
      ok := true;
    }

    /**
     * log: the message takes the next id; it goes to the file when its
     * severity is within the file verbosity, and to the console when it is
     * within the console verbosity, unless the file was needed and could not
     * be opened, in which case it goes nowhere.
     */
    method Log(severity: nat, fileOpens: bool) returns (toFile: bool, toConsole: bool)
      modifies this
      ensures msgId == NextMsgId(old(msgId))
      ensures logVerbosity == old(logVerbosity) && logVerbosityFile == old(logVerbosityFile)
      ensures toFile == (severity <= logVerbosityFile && fileOpens)
      ensures toConsole == (severity <= logVerbosity && (fileOpens || logVerbosityFile < severity))
    {
      msgId := NextMsgId(msgId);
      toFile := false;
      if severity <= logVerbosityFile {
        if !fileOpens {
          return false, false;
        }
        toFile := true;
      }
      toConsole := severity <= logVerbosity;
    }

    /**
     * logError, logWarning and logInfo (they differ only in the label and the
     * default severity): the filter in front of log lets through every
     * message log would write somewhere and nothing else.
     */
    method Report(severity: nat, fileOpens: bool) returns (toFile: bool, toConsole: bool)
      modifies this
      ensures logVerbosity == old(logVerbosity) && logVerbosityFile == old(logVerbosityFile)
      ensures msgId == if Admitted(severity, logVerbosity, logVerbosityFile) then NextMsgId(old(msgId)) else old(msgId)
      ensures toFile == (severity <= logVerbosityFile && fileOpens)
      ensures toConsole == (severity <= logVerbosity && (fileOpens || logVerbosityFile < severity))
    {
      toFile, toConsole := false, false;
      if severity <= logVerbosity || severity <= logVerbosityFile {
        toFile, toConsole := Log(severity, fileOpens);
      }
    }
  }

  // ---------------------------------------------------------------------
  // Number formatters

  type UInt32 = x: nat | x < 0x1_0000_0000

  const HexChars := "0123456789ABCDEF"

  /** The value of an upper-case hex digit (0 for any other character). */
  function HexDigitValue(c: char): (d: nat)
    ensures d < 16
  {
    if '0' <= c <= '9' then c as int - '0' as int
    else if 'A' <= c <= 'F' then c as int - 'A' as int + 10
    else 0
  }

  /** The value of a string of hex digits, most significant first. */
  function HexValue(s: string): nat
  {
    if |s| == 0 then 0 else HexValue(s[..|s| - 1]) * 16 + HexDigitValue(s[|s| - 1])
  }

  function Pow16(n: nat): (r: nat)
    ensures r > 0
  {
    if n == 0 then 1 else 16 * Pow16(n - 1)
  }

  /** The last n hex digits of x, upper case, most significant first, padded with '0'. */
  function Hex(x: nat, n: nat): (r: string)
    ensures |r| == n
    ensures forall c :: c in r ==> c in HexChars
  {
    if n == 0 then "" else Hex(x / 16, n - 1) + [HexChars[x % 16]]
  }

  /** n hex digits hold every value below 16^n and read back as it. */
  lemma {:induction false} HexValueOfHex(x: nat, n: nat)
    requires x < Pow16(n)
    ensures HexValue(Hex(x, n)) == x
  {
    if n > 0 {
      HexValueOfHex(x / 16, n - 1);
      var h := Hex(x, n);
      assert h[..|h| - 1] == Hex(x / 16, n - 1);
      assert HexDigitValue(HexChars[x % 16]) == x % 16;
    }
  }

  /** to_hex(uint32_t): "0x" and eight upper-case hex digits, zero-padded. */
  function ToHex(x: UInt32): (r: string)
    ensures |r| == 10 && r[..2] == "0x"
    ensures forall k :: 2 <= k < |r| ==> r[k] in HexChars
  {
    var digits := Hex(x, 8);
    assert forall k :: 2 <= k < 10 ==> ("0x" + digits)[k] == digits[k - 2];
    "0x" + digits
  }

  /** The digits of to_hex read back as the value, so different values print differently. */
  lemma ToHexRoundTrip(x: UInt32, y: UInt32)
    ensures HexValue(ToHex(x)[2..]) == x
    ensures ToHex(x) == ToHex(y) ==> x == y
  {
    assert Pow16(8) == 0x1_0000_0000;
    assert ToHex(x)[2..] == Hex(x, 8);
    assert ToHex(y)[2..] == Hex(y, 8);
    HexValueOfHex(x, 8);
    HexValueOfHex(y, 8);
  }

  /** A run of '0' characters reads as 0. */
  lemma {:induction false} ZerosValue(z: string)
    requires forall i :: 0 <= i < |z| ==> z[i] == '0'
    ensures DigitsValue(z) == 0
  {
    if |z| > 0 {
      ZerosValue(z[..|z| - 1]);
    }
  }

  /** Leading zeros do not change the value of a digit string. */
  lemma {:induction false} LeadingZerosValue(z: string, d: string)
    requires forall i :: 0 <= i < |z| ==> z[i] == '0'
    ensures DigitsValue(z + d) == DigitsValue(d)
  {
    if |d| == 0 {
      assert z + d == z;
      ZerosValue(z);
    } else {
      assert (z + d)[..|z + d| - 1] == z + d[..|d| - 1];
      LeadingZerosValue(z, d[..|d| - 1]);
    }
  }

  /**
   * to_dec(uint32_t): the decimal digits of the value, zero-padded to at
   * least eight; a value of nine or ten digits is printed in full.
   */
  function ToDec(x: UInt32): (r: string)
    ensures AllDigits(r) && DigitsValue(r) == x
    ensures |r| == if |NatToString(x)| < 8 then 8 else |NatToString(x)|
    ensures NatToString(x) <= r || r[|r| - |NatToString(x)|..] == NatToString(x)
  {
    var d := NatToString(x);
    NatToStringValue(x);
    if |d| < 8 then
      var z := seq(8 - |d|, _ => '0');
      LeadingZerosValue(z, d);
      assert (z + d)[|z|..] == d;
      z + d
    else d
  }

  // ---------------------------------------------------------------------
  // The vector forms

  /** A leading space, then every part followed by a space. */
  function Spaced(parts: seq<string>): string
  {
    if |parts| == 0 then " " else Spaced(parts[..|parts| - 1]) + parts[|parts| - 1] + " "
  }

  /** The spaced form is the parts joined by spaces between an empty first and last part. */
  lemma {:induction false} SpacedIsJoin(parts: seq<string>)
    ensures Spaced(parts) == Join([""] + parts + [""], " ")
  {
    if |parts| == 0 {
      assert [""] + parts + [""] == ["", ""];
    } else {
      var init, last := parts[..|parts| - 1], parts[|parts| - 1];
      SpacedIsJoin(init);
      var j := Join([""] + init, " ");
      JoinSnoc([""] + init, "", " ");
      assert Spaced(init) == j + " ";
      JoinSnoc([""] + init, last, " ");
      assert [""] + parts == [""] + init + [last];
      assert Join([""] + parts, " ") == j + " " + last;
      JoinSnoc([""] + parts, "", " ");
      assert Join([""] + parts + [""], " ") == j + " " + last + " ";
    }
  }

  /** Splitting a spaced form at the spaces gives back its parts when none holds a space. */
  lemma SpacedSplits(parts: seq<string>)
    requires forall k :: 0 <= k < |parts| ==> ' ' !in parts[k]
    ensures Split(Spaced(parts), ' ') == [""] + parts + [""]
  {
    SpacedIsJoin(parts);
    var all := [""] + parts + [""];
    assert forall k :: 0 <= k < |all| ==> ' ' !in all[k] by {
      forall k | 0 <= k < |all|
        ensures ' ' !in all[k]
      {
        if 0 < k < |all| - 1 {
          assert all[k] == parts[k - 1];
        }
      }
    }
    SplitJoin(all, ' ');
  }

  /** to_hex of every element. */
  function HexParts(v: seq<UInt32>): (r: seq<string>)
    ensures |r| == |v| && forall k :: 0 <= k < |v| ==> r[k] == ToHex(v[k])
  {
    seq(|v|, k requires 0 <= k < |v| => ToHex(v[k]))
  }

  /** to_dec of every element. */
  function DecParts(v: seq<UInt32>): (r: seq<string>)
    ensures |r| == |v| && forall k :: 0 <= k < |v| ==> r[k] == ToDec(v[k])
  {
    seq(|v|, k requires 0 <= k < |v| => ToDec(v[k]))
  }

  /** An int converted to uint32_t: its two's-complement bit pattern. */
  function AsUInt32(x: int): (r: UInt32)
    requires InInt32(x)
    ensures x >= 0 ==> r == x
    ensures x < 0 ==> r == x + 0x1_0000_0000
  {
    x % 0x1_0000_0000
  }

  /** The ints of a vector<int> as uint32_t values. */
  function AsUInt32s(v: seq<int>): (r: seq<UInt32>)
    requires forall k :: 0 <= k < |v| ==> InInt32(v[k])
    ensures |r| == |v| && forall k :: 0 <= k < |v| ==> r[k] == AsUInt32(v[k])
  {
    seq(|v|, k requires 0 <= k < |v| && InInt32(v[k]) => AsUInt32(v[k]))
  }

  /** to_hex(vector<uint32_t>): a space, then each value in hex followed by a space. */
  method ToHexVector(v: seq<UInt32>) returns (s: string)
    ensures s == Spaced(HexParts(v))
  {
    s := " ";
    for i := 0 to |v|
      invariant s == Spaced(HexParts(v[..i]))
    {
      assert HexParts(v[..i + 1])[..i] == HexParts(v[..i]);
      s := s + ToHex(v[i]) + " ";
    }
    assert v[..|v|] == v;
  }

  /** to_hex(vector<int>): each int is printed as its uint32_t value. */
  method ToHexIntVector(v: seq<int>) returns (s: string)
    requires forall k :: 0 <= k < |v| ==> InInt32(v[k])
    ensures s == Spaced(HexParts(AsUInt32s(v)))
  {
    s := " ";
    for i := 0 to |v|
      invariant s == Spaced(HexParts(AsUInt32s(v[..i])))
    {
      assert HexParts(AsUInt32s(v[..i + 1]))[..i] == HexParts(AsUInt32s(v[..i]));
      s := s + ToHex(AsUInt32(v[i])) + " ";
    }
    assert v[..|v|] == v;
  }

  /** to_dec(vector<uint32_t>): a space, then each value in decimal followed by a space. */
  method ToDecVector(v: seq<UInt32>) returns (s: string)
    ensures s == Spaced(DecParts(v))
  {
    s := " ";
    for i := 0 to |v|
      invariant s == Spaced(DecParts(v[..i]))
    {
      assert DecParts(v[..i + 1])[..i] == DecParts(v[..i]);
      s := s + ToDec(v[i]) + " ";
    }
    assert v[..|v|] == v;
  }

  /** No hex rendering holds a space. */
  lemma NoSpaceInHex(x: UInt32)
    ensures ' ' !in ToHex(x)
  {
    var h := ToHex(x);
    forall j | 0 <= j < |h|
      ensures h[j] != ' '
    {
      if j < 2 {
        assert h[j] == "0x"[j];
      } else {
        assert h[j] in HexChars;
      }
    }
  }

  /** A hex vector form is 11 characters per value plus the leading space, and splits back into the renderings. */
  lemma HexVectorSplits(v: seq<UInt32>)
    ensures |Spaced(HexParts(v))| == 1 + 11 * |v|
    ensures Split(Spaced(HexParts(v)), ' ') == [""] + HexParts(v) + [""]
  {
    HexSpacedLength(v);
    var hs := HexParts(v);
    forall k | 0 <= k < |hs|
      ensures ' ' !in hs[k]
    {
      NoSpaceInHex(v[k]);
    }
    SpacedSplits(hs);
  }

  lemma {:induction false} HexSpacedLength(v: seq<UInt32>)
    ensures |Spaced(HexParts(v))| == 1 + 11 * |v|
  {
    if |v| > 0 {
      var init := v[..|v| - 1];
      assert HexParts(v)[..|v| - 1] == HexParts(init);
      HexSpacedLength(init);
    }
  }

  /** A decimal vector form splits back into the renderings, each of which reads back as its value. */
  lemma DecVectorSplits(v: seq<UInt32>)
    ensures Split(Spaced(DecParts(v)), ' ') == [""] + DecParts(v) + [""]
  {
    var ds := DecParts(v);
    forall k | 0 <= k < |ds|
      ensures ' ' !in ds[k]
    {
      var d := ds[k];
      assert AllDigits(d);
      forall j | 0 <= j < |d|
        ensures d[j] != ' '
      {
        assert IsDigit(d[j]);
      }
    }
    SpacedSplits(ds);
  }
}
