/** The countdown label (Assets/Scripts/GameManager1.cs, UpdateTimeUI): the remaining
 *  time as "M:SS" in whole seconds, and whether it is drawn in the warning colour.
 *  ParseTimeText reads such a text back and is the partner the round trip is proved
 *  against.
 */
module TimeDisplay {

  datatype Option<T> = None | Some(value: T)

  /** The text of the time display and whether it is red (otherwise white). */
  datatype TimeLabel = TimeLabel(text: string, red: bool)

  /** At or below this many seconds the time is shown in red. */
  const RedThreshold: real := 10.0

  predicate IsDigit(c: char) {
    '0' <= c <= '9'
  }

  predicate AllDigits(s: string) {
    forall k :: 0 <= k < |s| ==> IsDigit(s[k])
  }

  function DigitValue(c: char): (d: int)
    requires IsDigit(c)
    ensures 0 <= d < 10
  {
    c as int - '0' as int
  }

  function Digit(d: int): (c: char)
    requires 0 <= d < 10
    ensures IsDigit(c) && DigitValue(c) == d
  {
    (d + '0' as int) as char
  }

  /** The decimal digits of `n`, without leading zeros. */
  function DecimalText(n: nat): (s: string)
    ensures |s| >= 1 && AllDigits(s)
    ensures |s| > 1 ==> s[0] != '0'
    decreases n
  {
    if n < 10 then [Digit(n)] else DecimalText(n / 10) + [Digit(n % 10)]
  }

  /** The value of a string of decimal digits. */
  function ParseDecimal(s: string): (n: nat)
    requires AllDigits(s)
    ensures s == [] ==> n == 0
    decreases |s|
  {
    if s == [] then 0 else ParseDecimal(s[..|s| - 1]) * 10 + DigitValue(s[|s| - 1])
  }

  lemma {:induction false} DecimalRoundTrip(n: nat)
    ensures ParseDecimal(DecimalText(n)) == n
    decreases n
  {
    var s := DecimalText(n);
    if n >= 10 {
      DecimalRoundTrip(n / 10);
      assert s[..|s| - 1] == DecimalText(n / 10);
    }
  }

  /** Whole seconds of a non-negative time: the integer cast truncates toward zero,
      which for a non-negative value is the floor. */
  function WholeSeconds(t: real): (n: nat)
    requires t >= 0.0
    ensures n as real <= t < n as real + 1.0
  {
    t.Floor
  }

  /** Minutes, a colon, and the seconds within the minute padded to two digits. */
  function TimeText(t: real): (s: string)
    requires t >= 0.0
    ensures |s| >= 4 && s[|s| - 3] == ':'
    ensures AllDigits(s[..|s| - 3]) && AllDigits(s[|s| - 2..])
    // the seconds field lies in 0 .. 59
    ensures DigitValue(s[|s| - 2]) * 10 + DigitValue(s[|s| - 1]) < 60
  {
    var n := WholeSeconds(t);
    var s := DecimalText(n / 60) + ":" + [Digit(n % 60 / 10), Digit(n % 60 % 10)];
    assert s[..|s| - 3] == DecimalText(n / 60);
    s
  }

  /** Reads "M:SS" back as a number of seconds; None for any other text. */
  function ParseTimeText(s: string): (r: Option<int>)
    ensures r.Some? ==> r.value >= 0
  {
    if |s| >= 4 && s[|s| - 3] == ':' && AllDigits(s[..|s| - 3]) && AllDigits(s[|s| - 2..]) then
      var minutes := ParseDecimal(s[..|s| - 3]);
      var seconds := ParseDecimal(s[|s| - 2..]);
      if seconds < 60 then Some(minutes * 60 + seconds) else None
    else None
  }

  /** The text shows exactly the whole seconds remaining: reading it back gives them. */
  lemma TimeTextRoundTrip(t: real)
    requires t >= 0.0
    ensures ParseTimeText(TimeText(t)) == Some(WholeSeconds(t))
  {
    var n := WholeSeconds(t);
    var s := TimeText(t);
    var secs := [Digit(n % 60 / 10), Digit(n % 60 % 10)];
    assert s == DecimalText(n / 60) + ":" + secs;
    assert s[..|s| - 3] == DecimalText(n / 60);
    assert s[|s| - 2..] == secs;
    DecimalRoundTrip(n / 60);
    var m := n % 60;
    assert secs[..1] == [secs[0]] && [secs[0]][..0] == [];
    assert ParseDecimal([secs[0]]) == m / 10;
    assert ParseDecimal(secs) == (m / 10) * 10 + m % 10;
    assert (m / 10) * 10 + m % 10 == m;
    assert (n / 60) * 60 + m == n;
  }

  /** Two times show the same text exactly when they have the same whole seconds. */
  lemma TimeTextSameIff(t1: real, t2: real)
    requires t1 >= 0.0 && t2 >= 0.0
    ensures TimeText(t1) == TimeText(t2) <==> WholeSeconds(t1) == WholeSeconds(t2)
  {
    TimeTextRoundTrip(t1);
    TimeTextRoundTrip(t2);
  }

  /** Within the first minute (a whole session starts at 30 seconds) the text is "0:SS". */
  lemma TimeTextUnderAMinute(t: real)
    requires 0.0 <= t < 60.0
    ensures |TimeText(t)| == 4 && TimeText(t)[0] == '0'
  {
  }

  /** The label: the text, red at or below ten seconds and white above. */
  function Label(t: real): (l: TimeLabel)
    requires t >= 0.0
    ensures l.red <==> t <= RedThreshold
    ensures ParseTimeText(l.text) == Some(WholeSeconds(t))
  {
    TimeTextRoundTrip(t);
    TimeLabel(TimeText(t), t <= RedThreshold)
  }
}
