/**
 * `TimeStrFormatter.format`: a millisecond count rendered as days, hours, minutes,
 * seconds and milliseconds, e.g. "1分10秒10毫秒".
 */
module TimeFormat {
  import opened Wrappers
  import opened JavaText

  const Day: String := "天"
  const Hour: String := "小时"
  const Minute: String := "分"
  const Second: String := "秒"
  const Milli: String := "毫秒"

  /** The five units `format` prints, largest first. */
  datatype TimeUnit = Days | Hours | Minutes | Seconds | Millis

  function Symbol(u: TimeUnit): (r: String)
    ensures r != []
  {
    match u
    case Days => Day
    case Hours => Hour
    case Minutes => Minute
    case Seconds => Second
    case Millis => Milli
  }

  /**
   * `n` of unit `u` in milliseconds: 1000 per second, 60 seconds per minute, 60 minutes per
   * hour and 24 hours per day, written out so that every product is by a literal.
   */
  function Times(n: nat, u: TimeUnit): nat
  {
    match u
    case Days => n * 86400000
    case Hours => n * 3600000
    case Minutes => n * 60000
    case Seconds => n * 1000
    case Millis => n
  }

  lemma UnitSizesNest()
    ensures Times(1, Days) == 24 * Times(1, Hours) && Times(1, Hours) == 60 * Times(1, Minutes)
    ensures Times(1, Minutes) == 60 * Times(1, Seconds) && Times(1, Seconds) == 1000 * Times(1, Millis)
  {
  }

  datatype Components = Components(days: nat, hours: nat, minutes: nat, seconds: nat, millis: nat)

  function Total(c: Components): nat
  {
    c.days * 86400000 + c.hours * 3600000 + c.minutes * 60000 + c.seconds * 1000 + c.millis
  }

  /** The five quantities `format` computes before printing. */
  function Decompose(ms: nat): (c: Components)
    ensures c.hours < 24 && c.minutes < 60 && c.seconds < 60 && c.millis < 1000
    ensures Total(c) == ms
  {
    var c := Components(ms / 86400000, (ms % 86400000) / 3600000, (ms % 3600000) / 60000,
                        (ms % 60000) / 1000, ms % 1000);
    DecomposeSums(ms);
    c
  }

  lemma DecomposeSums(ms: nat)
    ensures (ms % 86400000) / 3600000 < 24
    ensures ms / 86400000 * 86400000 + (ms % 86400000) / 3600000 * 3600000 +
            (ms % 3600000) / 60000 * 60000 + (ms % 60000) / 1000 * 1000 + ms % 1000 == ms
  {
    HoursWithinDay(ms);
    MinutesWithinHour(ms);
    SecondsWithinMinute(ms);
  }

  lemma HoursWithinDay(ms: nat)
    ensures (ms % 86400000) / 3600000 * 3600000 + ms % 3600000 == ms % 86400000
  {
    assert (ms % 86400000) % 3600000 == ms % 3600000;
  }

  lemma MinutesWithinHour(ms: nat)
    ensures (ms % 3600000) / 60000 * 60000 + ms % 60000 == ms % 3600000
  {
    assert (ms % 3600000) % 60000 == ms % 60000;
  }

  lemma SecondsWithinMinute(ms: nat)
    ensures (ms % 60000) / 1000 * 1000 + ms % 1000 == ms % 60000
  {
    assert (ms % 60000) % 1000 == ms % 1000;
  }

  /** A component is printed with its unit only when it is positive. */
  function Piece(n: nat, u: TimeUnit): String
  {
    if n > 0 then NatToString(n) + Symbol(u) else []
  }

  /** The milliseconds are always printed, even when they are zero. */
  function LastPiece(millis: nat): String { NatToString(millis) + Milli }

  function SecondsOn(c: Components): String { Piece(c.seconds, Seconds) + LastPiece(c.millis) }
  function MinutesOn(c: Components): String { Piece(c.minutes, Minutes) + SecondsOn(c) }
  function HoursOn(c: Components): String { Piece(c.hours, Hours) + MinutesOn(c) }

  /** The printed form of the five components. */
  function Render(c: Components): String
  {
    Piece(c.days, Days) + HoursOn(c)
  }

  /** `TimeStrFormatter.format(ms)` */
  function Format(ms: int): (r: String)
    ensures ms < 0 ==> r == "0毫秒"
    ensures ms >= 0 ==> EndsWith(r, NatToString(ms % 1000) + Milli)
  {
    if ms < 0 then "0毫秒" else Render(Decompose(ms))
  }

  // ---------------------------------------------------------------- reading a duration back

  /**
   * The state of a left-to-right reader of printed durations: the milliseconds read so far,
   * the digits of the piece being read, the two-character unit whose second character is
   * awaited, and whether the text has already been rejected.
   */
  datatype Reader = Reader(total: nat, number: nat, inNumber: bool, pending: Option<TimeUnit>, failed: bool)

  /** Between pieces, `total` milliseconds read. */
  function Idle(total: nat): Reader { Reader(total, 0, false, None, false) }

  /** The current number closed by unit `u`. */
  function Close(r: Reader, u: TimeUnit): Reader { Idle(r.total + Times(r.number, u)) }

  function Step(r: Reader, c: char): Reader
  {
    if r.failed then r
    else if r.pending == Some(Hours) then (if c == '时' then Close(r, Hours) else r.(failed := true))
    else if r.pending == Some(Millis) then (if c == '秒' then Close(r, Millis) else r.(failed := true))
    else if IsDigit(c) then r.(number := r.number * 10 + (c as int - '0' as int), inNumber := true)
    else if !r.inNumber then r.(failed := true)
    else if c == '天' then Close(r, Days)
    else if c == '分' then Close(r, Minutes)
    else if c == '秒' then Close(r, Seconds)
    else if c == '小' then r.(pending := Some(Hours))
    else if c == '毫' then r.(pending := Some(Millis))
    else r.(failed := true)
  }

  /** The reader after the characters of `s`, from `r`. */
  function Run(s: String, r: Reader): Reader
  {
    if s == [] then r else Step(Run(s[..|s| - 1], r), s[|s| - 1])
  }

  /** Reads a sequence of "number unit" pieces back into milliseconds. */
  function ParseDuration(s: String): (r: Option<nat>)
    ensures s == [] ==> r == Some(0)
  {
    var end := Run(s, Idle(0));
    if !end.failed && !end.inNumber && end.pending == None then Some(end.total) else None
  }

  /** Reading `a + b` is reading `a`, then `b`. */
  lemma {:induction false} RunConcat(a: String, b: String, r: Reader)
    ensures Run(a + b, r) == Run(b, Run(a, r))
    decreases |b|
  {
    if b == [] {
      RightUnit(a);
    } else {
      var p := b[..|b| - 1];
      RunConcat(a, p, r);
      InitOfConcat(a, b);
    }
  }

  lemma RightUnit(s: String)
    ensures s + [] == s
  {
  }

  lemma InitOfConcat(a: String, b: String)
    requires b != []
    ensures var s := a + b; s != [] && s[..|s| - 1] == a + b[..|b| - 1] && s[|s| - 1] == b[|b| - 1]
  {
    var s := a + b;
    assert s[..|s| - 1] == a + b[..|b| - 1];
  }

  /** A run of digits read between pieces leaves its decimal value as the current number. */
  lemma {:induction false} DigitsRun(d: String, t: nat)
    requires AllDigits(d)
    ensures Run(d, Idle(t)) == Reader(t, DigitsValue(d), d != [], None, false)
  {
    if d != [] {
      var p := d[..|d| - 1];
      assert AllDigits(p) by {
        forall i | 0 <= i < |p| ensures IsDigit(p[i]) { assert p[i] == d[i]; }
      }
      DigitsRun(p, t);
    }
  }

  /** A unit's symbol after a number adds that many units to the total. */
  lemma SymbolRun(u: TimeUnit, t: nat, n: nat)
    ensures Run(Symbol(u), Reader(t, n, true, None, false)) == Idle(t + Times(n, u))
  {
    var r := Reader(t, n, true, None, false);
    var s := Symbol(u);
    if |s| == 2 {
      assert s[..1] == [s[0]];
      assert Run([s[0]], r) == Step(r, s[0]);
    } else {
      assert Run(s, r) == Step(r, s[0]);
    }
  }

  /** A printed number and a unit between pieces add that many units to the total. */
  lemma PrintedRun(n: nat, u: TimeUnit, t: nat)
    ensures Run(NatToString(n) + Symbol(u), Idle(t)) == Idle(t + Times(n, u))
  {
    RunConcat(NatToString(n), Symbol(u), Idle(t));
    DigitsRun(NatToString(n), t);
    NatToStringValue(n);
    SymbolRun(u, t, n);
  }

  /** A printed component adds its own value, whether it is printed or left out. */
  lemma PieceRun(n: nat, u: TimeUnit, t: nat)
    ensures Run(Piece(n, u), Idle(t)) == Idle(t + Times(n, u))
  {
    if n > 0 {
      PrintedRun(n, u, t);
    }
  }

  lemma SecondsOnRun(c: Components, t: nat)
    ensures Run(SecondsOn(c), Idle(t)) == Idle(t + Times(c.seconds, Seconds) + c.millis)
  {
    RunConcat(Piece(c.seconds, Seconds), LastPiece(c.millis), Idle(t));
    PieceRun(c.seconds, Seconds, t);
    PrintedRun(c.millis, Millis, t + Times(c.seconds, Seconds));
  }

  lemma MinutesOnRun(c: Components, t: nat)
    ensures Run(MinutesOn(c), Idle(t)) ==
              Idle(t + Times(c.minutes, Minutes) + Times(c.seconds, Seconds) + c.millis)
  {
    RunConcat(Piece(c.minutes, Minutes), SecondsOn(c), Idle(t));
    PieceRun(c.minutes, Minutes, t);
    SecondsOnRun(c, t + Times(c.minutes, Minutes));
  }

  lemma HoursOnRun(c: Components, t: nat)
    ensures Run(HoursOn(c), Idle(t)) ==
              Idle(t + Times(c.hours, Hours) + Times(c.minutes, Minutes) + Times(c.seconds, Seconds) + c.millis)
  {
    RunConcat(Piece(c.hours, Hours), MinutesOn(c), Idle(t));
    PieceRun(c.hours, Hours, t);
    MinutesOnRun(c, t + Times(c.hours, Hours));
  }

  /** Reading the printed components back gives the duration they stand for. */
  lemma RenderRoundTrip(c: Components)
    ensures ParseDuration(Render(c)) == Some(Total(c))
  {
    RunConcat(Piece(c.days, Days), HoursOn(c), Idle(0));
    PieceRun(c.days, Days, 0);
    HoursOnRun(c, Times(c.days, Days));
  }

  /** Digits without a unit, or a unit without digits, are not a duration. */
  lemma ParseRejects()
    ensures ParseDuration("12") == None && ParseDuration("秒") == None
  {
    DigitsRun("12", 0);
    assert Run("秒", Idle(0)) == Step(Idle(0), '秒');
  }

  /** The formatted text determines the duration: reading it back gives the input. */
  lemma FormatRoundTrip(ms: nat)
    ensures ParseDuration(Format(ms)) == Some(ms)
  {
    RenderRoundTrip(Decompose(ms));
  }

  /** Two durations print the same text only when they are equal. */
  lemma FormatInjective(a: nat, b: nat)
    requires Format(a) == Format(b)
    ensures a == b
  {
    FormatRoundTrip(a);
    FormatRoundTrip(b);
  }

  /** Below one second only the milliseconds are printed. */
  lemma FormatBelowOneSecond(ms: nat)
    requires ms < 1000
    ensures Format(ms) == NatToString(ms) + Milli
  {
    var c := Decompose(ms);
    assert c == Components(0, 0, 0, 0, ms);
    assert SecondsOn(c) == NatToString(ms) + Milli;
  }

  lemma InPiece(x: char, n: nat, u: TimeUnit)
    requires !IsDigit(x)
    ensures x in Piece(n, u) <==> n > 0 && x in Symbol(u)
  {
    var d := NatToString(n);
    forall i | 0 <= i < |d| ensures d[i] != x { assert IsDigit(d[i]); }
  }

  lemma InLast(x: char, millis: nat)
    requires !IsDigit(x)
    ensures x in LastPiece(millis) <==> x in Milli
  {
    var d := NatToString(millis);
    forall i | 0 <= i < |d| ensures d[i] != x { assert IsDigit(d[i]); }
  }

  lemma FormatShowsPositiveComponents(ms: nat)
    ensures var c := Decompose(ms);
            ('天' in Format(ms) <==> c.days > 0) &&
            ('时' in Format(ms) <==> c.hours > 0) &&
            ('分' in Format(ms) <==> c.minutes > 0)
  {
    var c := Decompose(ms);
    forall x: char | x in {'天', '时', '分'}
      ensures x in Format(ms) <==>
                (x in Piece(c.days, Days) || x in Piece(c.hours, Hours) || x in Piece(c.minutes, Minutes)
                 || x in Piece(c.seconds, Seconds) || x in Milli)
    {
      InLast(x, c.millis);
      assert x in SecondsOn(c) <==> x in Piece(c.seconds, Seconds) || x in LastPiece(c.millis);
      assert x in MinutesOn(c) <==> x in Piece(c.minutes, Minutes) || x in SecondsOn(c);
      assert x in HoursOn(c) <==> x in Piece(c.hours, Hours) || x in MinutesOn(c);
      assert x in Render(c) <==> x in Piece(c.days, Days) || x in HoursOn(c);
    }
    InPiece('天', c.days, Days);
    InPiece('天', c.hours, Hours);
    InPiece('天', c.minutes, Minutes);
    InPiece('天', c.seconds, Seconds);
    InPiece('时', c.days, Days);
    InPiece('时', c.hours, Hours);
    InPiece('时', c.minutes, Minutes);
    InPiece('时', c.seconds, Seconds);
    InPiece('分', c.days, Days);
    InPiece('分', c.hours, Hours);
    InPiece('分', c.minutes, Minutes);
    InPiece('分', c.seconds, Seconds);
  }

  /** A negative count prints as zero milliseconds. */
  lemma FormatNegativeExample()
    ensures Format(-3) == "0毫秒"
  {
  }

  lemma FormatExample500()
    ensures Format(500) == "500毫秒"
  {
    FormatBelowOneSecond(500);
    Printed500();
  }

  lemma Printed500()
    ensures NatToString(500) == "500"
  {
    assert NatToString(5) == "5";
    assert NatToString(50) == NatToString(5) + ['0'];
    assert NatToString(500) == NatToString(50) + ['0'];
  }

  lemma FormatExample70010()
    ensures Format(70010) == "1分10秒10毫秒"
  {
    assert Decompose(70010) == Components(0, 0, 1, 10, 10);
    Printed10();
  }

  lemma Printed10()
    ensures NatToString(1) == "1" && NatToString(10) == "10"
  {
    assert NatToString(10) == NatToString(1) + ['0'];
  }
}
