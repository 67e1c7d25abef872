/** `formatDuration`, the helper that both the user controller and the
    activity controller use to render a duration given in milliseconds as
    text such as "1h 3m 45s". The two copies in the source are identical,
    so one definition serves both. */
module Duration {
  import opened Common
  import opened Text

  /** A whole number of seconds split into hours, minutes and seconds. */
  datatype Clock = Clock(hours: nat, minutes: nat, seconds: nat)

  const MillisPerSecond: nat := 1000

  /** Hours, minutes and seconds of the whole seconds in `ms`. */
  function Split(ms: nat): (c: Clock)
    ensures c.minutes < 60 && c.seconds < 60
    ensures c.hours * 3600 + c.minutes * 60 + c.seconds == ms / MillisPerSecond
  {
    var totalSeconds := ms / MillisPerSecond;
    HoursOfSeconds(totalSeconds);
    Clock(totalSeconds / 3600, (totalSeconds / 60) % 60, totalSeconds % 60)
  }

  lemma HoursOfSeconds(t: nat)
    ensures t / 3600 == (t / 60) / 60
    ensures (t / 3600) * 3600 + ((t / 60) % 60) * 60 + t % 60 == t
  {
    var q := t / 60;
    var h := q / 60;
    assert t == 60 * q + t % 60;
    assert q == 60 * h + q % 60;
    assert t == 3600 * h + (60 * (q % 60) + t % 60);
    assert 0 <= 60 * (q % 60) + t % 60 < 3600;
  }

  /** The words printed for a duration of at least one second: zero hours
      and zero minutes are left out, and the seconds are printed when they
      are not zero or when nothing else was printed. */
  function Words(c: Clock): seq<string> {
    HourWords(c) + MinuteWords(c) + SecondWords(c)
  }

  function HourWords(c: Clock): seq<string> {
    if c.hours > 0 then [NatToString(c.hours) + "h"] else []
  }

  function MinuteWords(c: Clock): seq<string> {
    if c.minutes > 0 then [NatToString(c.minutes) + "m"] else []
  }

  function SecondWords(c: Clock): seq<string> {
    if c.seconds > 0 || (c.hours == 0 && c.minutes == 0) then [NatToString(c.seconds) + "s"] else []
  }

  /** The first decimal of `ms / 1000` as `toFixed(1)` rounds it, for whole
      milliseconds below one second: to the nearest tenth, with halves going
      up except at 150, 350, 850 and 950, whose binary quotients lie just
      below the half. */
  function Tenths(ms: nat): (n: nat)
    requires ms < MillisPerSecond
    ensures n <= 10
    ensures n * 100 <= ms + 50 && ms <= n * 100 + 50
  {
    if ms == 150 || ms == 350 || ms == 850 || ms == 950 then ms / 100 else (ms + 50) / 100
  }

  /** The text for a duration below one second, such as "0.4s" or "1.0s". */
  function SubSecondText(ms: nat): string
    requires ms < MillisPerSecond
  {
    var n := Tenths(ms);
    (if n == 10 then "1.0" else "0." + [DigitChar(n)]) + "s"
  }

  /** What `formatDuration(ms)` returns, `None` standing for an undefined or
      null argument. */
  function DurationText(ms: Option<int>): string {
    match ms
    case None => "0s"
    case Some(v) =>
      if v < 0 then "0s"
      else if v < MillisPerSecond then SubSecondText(v)
      else Join(Words(Split(v)), ' ')
  }

  /** `formatDuration`: builds the text word by word, each followed by a
      blank except the seconds, and trims the result. */
  method FormatDuration(ms: Option<int>) returns (text: string)
    ensures text == DurationText(ms)
    ensures (ms.None? || ms.value < 0) ==> text == "0s"
    ensures ms.Some? && ms.value >= MillisPerSecond ==> ParseDuration(text) == Some(ms.value / MillisPerSecond)
  {
    if ms.None? || ms.value < 0 {
      return "0s";
    }
    var v: nat := ms.value;
    if v < MillisPerSecond {
      return SubSecondText(v);
    }
    var totalSeconds := v / MillisPerSecond;
    var seconds := totalSeconds % 60;
    var minutes := (totalSeconds / 60) % 60;
    var hours := totalSeconds / 3600;
    ghost var c := Split(v);
    assert c == Clock(hours, minutes, seconds);

    var timeString := "";
    if hours > 0 {
      timeString := timeString + NatToString(hours) + "h ";
    }
    assert timeString == if hours > 0 then NatToString(hours) + "h " else "";
    if minutes > 0 {
      timeString := timeString + NatToString(minutes) + "m ";
    }
    assert timeString == FrontText(c);
    assert (timeString == "") == (hours == 0 && minutes == 0);
    if seconds > 0 || timeString == "" {
      timeString := timeString + NatToString(seconds) + "s";
    }
    AccumulatedText(c, timeString);
    text := Trim(timeString);
    assert text == DurationText(ms);
    DurationRoundTrip(v);
  }

  /** The hours and minutes parts the loop appends, each with its blank. */
  function FrontText(c: Clock): string {
    (if c.hours > 0 then NatToString(c.hours) + "h " else "")
    + (if c.minutes > 0 then NatToString(c.minutes) + "m " else "")
  }

  /** The string built word by word, each word but the seconds followed by
      a blank, trims to the blank-separated join of the words. */
  lemma AccumulatedText(c: Clock, acc: string)
    requires acc == FrontText(c)
                  + (if c.seconds > 0 || (c.hours == 0 && c.minutes == 0) then NatToString(c.seconds) + "s" else "")
    ensures Trim(acc) == Join(Words(c), ' ')
  {
    var front := HourWords(c) + MinuteWords(c);
    var sw := SecondWords(c);
    var j := Join(Words(c), ' ');
    WordsEdges(c);
    assert Words(c) == front + sw;
    if front == [] {
      assert acc == j;
      TrimFixed(j);
    } else {
      FrontJoin(c);
      if sw != [] {
        JoinSnoc(front, sw[0]);
        assert acc == j;
        TrimFixed(j);
      } else {
        assert acc == j + " ";
        TrimTrailingBlank(j);
      }
    }
  }

  /** The front parts are the join of the hour and minute words and one
      trailing blank. */
  lemma FrontJoin(c: Clock)
    requires c.hours > 0 || c.minutes > 0
    ensures FrontText(c) == Join(HourWords(c) + MinuteWords(c), ' ') + " "
  {
    var hw, mw := HourWords(c), MinuteWords(c);
    if hw != [] && mw != [] {
      JoinSnoc(hw, mw[0]);
      assert hw + [mw[0]] == hw + mw;
    } else if hw != [] {
      assert hw + mw == hw;
    } else {
      assert hw + mw == mw;
    }
  }

  lemma {:induction false} JoinSnoc(ws: seq<string>, w: string)
    requires ws != []
    ensures Join(ws + [w], ' ') == Join(ws, ' ') + " " + w
  {
    if |ws| > 1 {
      JoinSnoc(ws[1..], w);
      assert (ws + [w])[1..] == ws[1..] + [w];
    }
  }

  /** The joined words start with a digit and end with a unit letter. */
  lemma WordsEdges(c: Clock)
    ensures Words(c) != []
    ensures var t := Join(Words(c), ' '); t != [] && IsDigit(t[0]) && t[|t| - 1] in "hms"
  {
    var ws := Words(c);
    JoinEdges(ws);
  }

  lemma {:induction false} JoinEdges(ws: seq<string>)
    requires ws != []
    requires forall k :: 0 <= k < |ws| ==> |ws[k]| >= 1
    ensures var t := Join(ws, ' '); |t| >= 1 && t[0] == ws[0][0] && t[|t| - 1] == ws[|ws| - 1][|ws[|ws| - 1]| - 1]
  {
    if |ws| > 1 {
      JoinEdges(ws[1..]);
    }
  }

  /** Reads a duration text back into whole seconds: blank-separated words,
      each a decimal number followed by `h`, `m` or `s`. */
  function ParseDuration(text: string): Option<nat> {
    ParseWords(SplitOn(text, ' '))
  }

  function ParseWords(ws: seq<string>): Option<nat> {
    if ws == [] then Some(0)
    else match (ParseWord(ws[0]), ParseWords(ws[1..]))
      case (Some(a), Some(b)) => Some(a + b)
      case _ => None
  }

  function ParseWord(w: string): Option<nat> {
    if |w| < 2 || !AllDigits(w[..|w| - 1]) then None
    else
      var n := DigitsValue(w[..|w| - 1]);
      match w[|w| - 1]
      case 'h' => Some(n * 3600)
      case 'm' => Some(n * 60)
      case 's' => Some(n)
      case _ => None
  }

  lemma ParseUnitWord(n: nat, unit: char)
    requires unit in "hms"
    ensures ParseWord(NatToString(n) + [unit])
         == Some(n * (if unit == 'h' then 3600 else if unit == 'm' then 60 else 1))
  {
    var w := NatToString(n) + [unit];
    assert w[..|w| - 1] == NatToString(n);
    NatToStringRoundTrip(n);
  }

  lemma {:induction false} ParseWordsAppend(xs: seq<string>, ys: seq<string>)
    ensures ParseWords(xs + ys) ==
      match (ParseWords(xs), ParseWords(ys))
      case (Some(a), Some(b)) => Some(a + b)
      case _ => None
  {
    if xs == [] {
      assert xs + ys == ys;
    } else {
      ParseWordsAppend(xs[1..], ys);
      assert (xs + ys)[1..] == xs[1..] + ys;
    }
  }

  /** For a duration of at least one second, reading the text back gives
      the whole number of seconds: the words carry exactly
      `floor(ms / 1000)`. */
  lemma DurationRoundTrip(ms: nat)
    requires ms >= MillisPerSecond
    ensures ParseDuration(DurationText(Some(ms))) == Some(ms / MillisPerSecond)
  {
    var c := Split(ms);
    calc {
      ParseDuration(DurationText(Some(ms)));
      ParseWords(SplitOn(Join(Words(c), ' '), ' '));
      { WordsHaveNoBlank(c); SplitJoin(Words(c), ' '); }
      ParseWords(Words(c));
      { ParseClockWords(c); }
      Some(c.hours * 3600 + c.minutes * 60 + c.seconds);
    }
  }

  /** The words of a clock read back as its total number of seconds. */
  lemma ParseClockWords(c: Clock)
    ensures ParseWords(Words(c)) == Some(c.hours * 3600 + c.minutes * 60 + c.seconds)
  {
    var hw, mw, sw := HourWords(c), MinuteWords(c), SecondWords(c);
    assert ParseWords(hw) == Some(c.hours * 3600) by {
      if hw != [] { ParseUnitWord(c.hours, 'h'); ParseSingle(hw[0]); }
    }
    assert ParseWords(mw) == Some(c.minutes * 60) by {
      if mw != [] { ParseUnitWord(c.minutes, 'm'); ParseSingle(mw[0]); }
    }
    assert ParseWords(sw) == Some(c.seconds) by {
      if sw != [] { ParseUnitWord(c.seconds, 's'); ParseSingle(sw[0]); }
    }
    ParseWordsAppend(hw, mw);
    ParseWordsAppend(hw + mw, sw);
  }

  lemma ParseSingle(w: string)
    ensures ParseWords([w]) == ParseWord(w)
  {
    assert [w][1..] == [];
  }

  /** A number followed by a unit letter holds no blank. */
  lemma UnitWordHasNoBlank(n: nat, u: char)
    requires u != ' '
    ensures ' ' !in NatToString(n) + [u]
  {
    var w := NatToString(n) + [u];
    forall i | 0 <= i < |w| ensures w[i] != ' ' {
      if i < |w| - 1 {
        assert w[i] == NatToString(n)[i];
      }
    }
  }

  lemma WordsHaveNoBlank(c: Clock)
    ensures |Words(c)| >= 1
    ensures forall k :: 0 <= k < |Words(c)| ==> ' ' !in Words(c)[k]
  {
    UnitWordHasNoBlank(c.hours, 'h');
    UnitWordHasNoBlank(c.minutes, 'm');
    UnitWordHasNoBlank(c.seconds, 's');
  }
}
