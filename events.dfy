/**
  Values a bot option can hold, the log messages of the Woodcutter example bot,
  and the events its methods emit towards the user interface (log lines,
  progress updates, status changes and the status checks it asks for).
 */
module Events {

  /** A value the options form hands to the bot: Python's None, an int (slider),
      a str (dropdown) or a list of str (checkboxes). */
  datatype OptionValue =
    | NoValue
    | Int(i: int)
    | Str(s: string)
    | StrList(items: seq<string>)

  /** The lines the bot logs, one constructor per log call of the source. */
  datatype Message =
    | RunningTimeSet(value: OptionValue)
    | MultiSelectSet(value: OptionValue)
    | MenuSet(value: OptionValue)
    | UnknownOption(key: string)
    | OptionsSaved
    | OptionsFailed
    | AtPointA
    | WalkingToB
    | StillWalking
    | VeryCloseToB
    | AtPointB
    | Walked(times: nat)
    | TeleportingToA
    | Completed

  /** The bot states of the controller; only Stopped is ever set by this bot. */
  datatype BotStatus = Configuring | Running | Paused | Stopped

  /** A progress update: the elapsed fraction of the running time (its
      floating-point value is not modelled), or the final 1. */
  datatype Progress = Fraction | Full

  /** One call the bot makes into the inherited bot machinery. */
  datatype Event =
    | Logged(msg: Message)
    | ProgressUpdated(progress: Progress)
    | StatusSet(status: BotStatus)
    | StatusChecked(passed: bool)

  function DigitChar(d: nat): (c: char)
    requires d < 10
    ensures '0' <= c <= '9' && c as int - '0' as int == d
  {
    "0123456789"[d]
  }

  /** The decimal digits of a natural number, as Python's str prints them:
      only digits, and a leading 0 only for 0 itself. */
  function NatToString(n: nat): (r: string)
    ensures |r| > 0
    ensures forall i :: 0 <= i < |r| ==> '0' <= r[i] <= '9'
    ensures r[0] == '0' <==> n == 0
    decreases n
  {
    if n < 10 then [DigitChar(n)] else NatToString(n / 10) + [DigitChar(n % 10)]
  }

  /** The number a string of decimal digits denotes. */
  function DecimalValue(s: string): nat
    requires forall i :: 0 <= i < |s| ==> '0' <= s[i] <= '9'
    decreases |s|
  {
    if |s| == 0 then 0
    else DecimalValue(s[..|s| - 1]) * 10 + (s[|s| - 1] as int - '0' as int)
  }

  /** Reading the printed digits back gives the number. */
  lemma {:induction false} DecimalRoundTrip(n: nat)
    ensures DecimalValue(NatToString(n)) == n
    decreases n
  {
    if n >= 10 {
      DecimalRoundTrip(n / 10);
      var s := NatToString(n);
      assert s[..|s| - 1] == NatToString(n / 10);
    }
  }

  function IntToString(i: int): string {
    if i < 0 then "-" + NatToString(-i) else NatToString(i)
  }

  /** The items of a list of strings, each in single quotes, separated by ", ". */
  function QuotedItems(items: seq<string>): string
    decreases |items|
  {
    if |items| == 0 then ""
    else if |items| == 1 then "'" + items[0] + "'"
    else "'" + items[0] + "', " + QuotedItems(items[1..])
  }

  /** How an f-string shows an option value. */
  function Show(v: OptionValue): string {
    match v
    case NoValue => "None"
    case Int(i) => IntToString(i)
    case Str(s) => s
    case StrList(items) => "[" + QuotedItems(items) + "]"
  }

  /** The exact line the bot hands to log_msg for each message. */
  function Text(m: Message): (r: string)
    ensures m.Walked? ==> r == WalkedLine(m.times)
  {
    match m
    case RunningTimeSet(v) => "Bot will run for " + Show(v) + " minutes."
    case MultiSelectSet(v) => "Multi-select example set to: " + Show(v)
    case MenuSet(v) => "Menu example set to: " + Show(v)
    case UnknownOption(key) => "Unknown option: " + key
    case OptionsSaved => "Options set successfully."
    case OptionsFailed => "Failed to set options."
    case AtPointA => "Character is at point A"
    case WalkingToB => "Character is walking to point B..."
    case StillWalking => "Character is still walking..."
    case VeryCloseToB => "Character is very close to B..."
    case AtPointB => "Character is at point B"
    case Walked(n) => WalkedLine(n)
    case TeleportingToA => "Character is teleporting back to point A..."
    case Completed => "Bot has completed all of its iterations."
  }

  /** The walk report: the walk count, between its fixed text with two spaces
      on each side, and the count reads back from the line. */
  function WalkedLine(n: nat): (r: string)
    ensures |r| >= 42 && r[..31] == "Player has walked from A to B  " && r[|r| - 10..] == "  time(s)."
    ensures forall i :: 31 <= i < |r| - 10 ==> '0' <= r[i] <= '9'
    ensures DecimalValue(r[31..|r| - 10]) == n
    ensures r[31..|r| - 10] == NatToString(n)
  {
    var digits := NatToString(n);
    var r := "Player has walked from A to B  " + digits + "  time(s).";
    assert r[31..|r| - 10] == digits;
    DecimalRoundTrip(n);
    r
  }

  /** The line for a stored running time shows the int in decimal. */
  lemma RunningTimeLineText()
    ensures Text(RunningTimeSet(Int(30))) == "Bot will run for 30 minutes."
  {
    assert DigitChar(3) == '3' && DigitChar(0) == '0';
    assert NatToString(30) == NatToString(3) + [DigitChar(0)] == "30";
    assert Show(Int(30)) == "30";
  }

  /** The line for stored checkboxes shows the list as Python prints it. */
  lemma MultiSelectLineText()
    ensures Text(MultiSelectSet(StrList(["A", "C"]))) == "Multi-select example set to: ['A', 'C']"
  {
    assert ["A", "C"][1..] == ["C"];
    assert QuotedItems(["A", "C"]) == "'A', 'C'";
  }

  /** The dropdown line shows the string itself, or None when nothing was chosen. */
  lemma MenuLineTexts()
    ensures Text(MenuSet(Str("B"))) == "Menu example set to: B"
    ensures Text(MenuSet(NoValue)) == "Menu example set to: None"
  {
  }

  /** An unknown key's line names the key. */
  lemma UnknownOptionLineText()
    ensures Text(UnknownOption("speed")) == "Unknown option: speed"
  {
  }
}
