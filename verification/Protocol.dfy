/** SMP 1.0 in its own words and numbers: type names, thresholds, new records and timestamps. */
module Protocol {
  import opened Records
  import opened Text

  /** The type a word of the protocol names. */
  predicate Names(name: string, kind: SensorType) {
    (name == "TEMP" && kind.Temp?) || (name == "VIB" && kind.Vib?) || (name == "POWER" && kind.Power?)
  }

  /** The threshold that a value of a sensor of type `name` is beyond; a NaN is beyond none. */
  function Crossed(name: string, v: Value): Option<real> {
    if name == "TEMP" && (v.PosInf? || (v.Fin? && v.r > 70.0)) then Some(70.0)
    else if name == "VIB" && (v.PosInf? || (v.Fin? && v.r > 50.0)) then Some(50.0)
    else if name == "POWER" && (v.NegInf? || (v.Fin? && v.r < 10.0)) then Some(10.0)
    else if name == "POWER" && (v.PosInf? || (v.Fin? && v.r > 100.0)) then Some(100.0)
    else None
  }

  /** What is kept of an id. */
  function KeptId(id: string): string {
    if |id| < 64 then id else id[..63]
  }

  /** What is kept of a timestamp. */
  function KeptStamp(ts: string): string {
    if |ts| < 32 then ts else ts[..31]
  }

  /** The alerts that one value of a sensor of type `name` gives rise to. */
  function AlertsFor(name: string, id: string, v: Value, ts: string): seq<AlertRecord> {
    match Crossed(name, v)
    case None => []
    case Some(bound) => [AlertRecord(id, v, bound, ts, name)]
  }

  function LevelIn(name: string, v: Value): Level {
    if Crossed(name, v).Some? then Alert else Normal
  }

  /** The record of a sensor that registers for the first time. */
  predicate Newcomer(s: Sensor, id: string, name: string) {
    && s.id == KeptId(id) && Names(name, s.kind)
    && s.status.Active? && s.level.Normal? && s.lastValue == Fin(0.0) && s.lastTimestamp == "N/A" && s.occupied
  }

  lemma NameIs(name: string)
    ensures TypeFromName(name) == Invalid <==> name != "TEMP" && name != "VIB" && name != "POWER"
    ensures TypeFromName(name) != Invalid ==> Names(name, TypeFromName(name))
    ensures forall kind :: Names(name, kind) ==> kind == TypeFromName(name) && TypeName(kind) == name
  {
  }

  lemma RuleIs(name: string, kind: SensorType, v: Value)
    requires Names(name, kind)
    ensures Anomalous(kind, v) <==> Crossed(name, v).Some?
    ensures Anomalous(kind, v) ==> Crossed(name, v) == Some(CrossedBound(kind, v))
    ensures LevelFor(kind, v) == LevelIn(name, v)
  {
  }

  lemma FreshIs(id: string, name: string)
    requires TypeFromName(name) != Invalid
    ensures Newcomer(Fresh(Cut(id, MAX_ID_LEN), TypeFromName(name)), id, name)
    ensures Cut(id, MAX_ID_LEN) == KeptId(id)
  {
  }

  // Timestamps

  /** The last `width` decimal digits of `n`. */
  function Padded(n: nat, width: nat): (s: string)
    ensures |s| == width
  {
    if width == 0 then "" else Padded(n / 10, width - 1) + ["0123456789"[n % 10]]
  }

  function Printed(year: nat, month: nat, day: nat, hour: nat, minute: nat, second: nat): string {
    Padded(year, 4) + "-" + Padded(month, 2) + "-" + Padded(day, 2) + "T"
    + Padded(hour, 2) + ":" + Padded(minute, 2) + ":" + Padded(second, 2) + "Z"
  }

  /** `YYYY-MM-DDTHH:MM:SSZ` with any numbers of these widths. */
  ghost predicate IsStamp(ts: string) {
    exists year: nat, month: nat, day: nat, hour: nat, minute: nat, second: nat ::
      && year < 10000 && month < 100 && day < 100 && hour < 100 && minute < 100 && second < 100
      && ts == Printed(year, month, day, hour, minute, second)
  }

  lemma DigitPrinted(n: nat)
    ensures Digits(["0123456789"[n % 10]], 1)
  {
  }

  lemma {:induction false} PaddedDigits(n: nat, width: nat)
    ensures Digits(Padded(n, width), width)
    decreases width
  {
    if width > 0 {
      PaddedDigits(n / 10, width - 1);
      DigitPrinted(n);
    }
  }

  function Power10(width: nat): nat {
    if width == 0 then 1 else 10 * Power10(width - 1)
  }

  lemma DigitRead(c: char) returns (d: nat)
    requires IsDigit(c)
    ensures d < 10 && "0123456789"[d] == c
  {
    d := (c as int) - ('0' as int);
    assert '0' as int <= c as int <= '9' as int;
  }

  lemma {:induction false} NumberOf(s: string) returns (n: nat)
    requires Digits(s, |s|)
    ensures n < Power10(|s|) && s == Padded(n, |s|)
    decreases |s|
  {
    if s == "" {
      n := 0;
    } else {
      var w := |s| - 1;
      var m := NumberOf(s[..w]);
      var d := DigitRead(s[w]);
      n := 10 * m + d;
      assert n / 10 == m && n % 10 == d;
      assert s == s[..w] + [s[w]];
    }
  }

  /** What is printed is accepted, with every digit from 0 to 9. */
  lemma PrintedIsValid(year: nat, month: nat, day: nat, hour: nat, minute: nat, second: nat)
    ensures ValidTimestamp(Printed(year, month, day, hour, minute, second))
  {
    PaddedDigits(year, 4);
    PaddedDigits(month, 2);
    PaddedDigits(day, 2);
    PaddedDigits(hour, 2);
    PaddedDigits(minute, 2);
    PaddedDigits(second, 2);
    hide Padded, ValidTimestamp, Digits;
    StampIsValid(Padded(year, 4), Padded(month, 2), Padded(day, 2), Padded(hour, 2), Padded(minute, 2),
      Padded(second, 2));
  }

  /** What is accepted was printed. */
  lemma ValidWasPrinted(ts: string) returns (year: nat, month: nat, day: nat, hour: nat, minute: nat, second: nat)
    requires ValidTimestamp(ts)
    ensures year < 10000 && month < 100 && day < 100 && hour < 100 && minute < 100 && second < 100
    ensures ts == Printed(year, month, day, hour, minute, second)
  {
    ValidIsStamp(ts);
    assert |ts| == 20;
    assert Power10(4) == 10000 && Power10(2) == 100;
    hide Padded, ValidTimestamp, Digits, Power10;
    year := NumberOf(ts[..4]);
    month := NumberOf(ts[5..7]);
    day := NumberOf(ts[8..10]);
    hour := NumberOf(ts[11..13]);
    minute := NumberOf(ts[14..16]);
    second := NumberOf(ts[17..19]);
  }

  /** Accepted are exactly the printings of numbers. */
  lemma ValidIsPrinted(ts: string)
    ensures ValidTimestamp(ts) <==> IsStamp(ts)
  {
    hide ValidTimestamp, Printed;
    if IsStamp(ts) {
      var y: nat, mo: nat, d: nat, h: nat, mi: nat, s: nat :| ts == Printed(y, mo, d, h, mi, s);
      PrintedIsValid(y, mo, d, h, mi, s);
    }
    if ValidTimestamp(ts) {
      var y, mo, d, h, mi, s := ValidWasPrinted(ts);
    }
  }
}
