/**
 * The telemetry text of the clock face (`str_line!` and the readings in `gui`,
 * src/gui.rs): each reading of the graphics card is shown as a line
 * `<identifier with spaces>: <value><unit>`; memory is shown in MiB, power in
 * watts, and a reading that fails is shown as 0.
 */
module GuiText {
  import opened Wrappers

  /** Values below this are printed as plain decimals. */
  const PlainLimit: nat := 100000
  /** `1024u64.pow(2)` */
  const BytesPerMiB: nat := 1024 * 1024
  const MilliwattsPerWatt: nat := 1000

  /** `s.split(sep)`: the pieces between separators, empty pieces included. */
  function Split(s: string, sep: char): (parts: seq<string>)
    ensures |parts| >= 1
    ensures forall i :: 0 <= i < |parts| ==> sep !in parts[i]
    decreases |s|
  {
    if s == [] then [""]
    else if s[0] == sep then [""] + Split(s[1..], sep)
    else
      var rest := Split(s[1..], sep);
      [[s[0]] + rest[0]] + rest[1..]
  }

  /** `parts.join(glue)` */
  function Join(parts: seq<string>, glue: string): string
    decreases |parts|
  {
    if parts == [] then ""
    else if |parts| == 1 then parts[0]
    else parts[0] + glue + Join(parts[1..], glue)
  }

  /** `s` with every `from` turned into `to`, character by character. */
  function Replace(s: string, from: char, to: char): (r: string)
    ensures |r| == |s|
    ensures forall i :: 0 <= i < |s| ==> r[i] == if s[i] == from then to else s[i]
  {
    seq(|s|, i requires 0 <= i < |s| => if s[i] == from then to else s[i])
  }

  /**
   * The label of a line: the variable's name split at each underscore and
   * joined again with a space, which turns every underscore into one space.
   */
  function Label(ident: string): (r: string)
    ensures r == Replace(ident, '_', ' ')
    ensures |r| == |ident| && '_' !in r
  {
    JoinSplitReplaces(ident, '_', ' ');
    Join(Split(ident, '_'), " ")
  }

  /** Splitting at a character and joining with another replaces the one with the other. */
  lemma {:induction false} JoinSplitReplaces(s: string, sep: char, glue: char)
    ensures Join(Split(s, sep), [glue]) == Replace(s, sep, glue)
    decreases |s|
  {
    if s != [] {
      JoinSplitReplaces(s[1..], sep, glue);
      var rest := Split(s[1..], sep);
      assert Join(rest, [glue]) == Replace(s[1..], sep, glue);
      if s[0] == sep {
        assert Split(s, sep) == [""] + rest;
        assert Join([""] + rest, [glue]) == [glue] + Join(rest, [glue]) by {
          assert ([""] + rest)[1..] == rest;
        }
      } else {
        var parts := [[s[0]] + rest[0]] + rest[1..];
        assert Split(s, sep) == parts;
        if |rest| > 1 {
          assert parts[1..] == rest[1..];
          assert Join(rest, [glue]) == rest[0] + [glue] + Join(rest[1..], [glue]);
        }
      }
      assert Replace(s, sep, glue) == [if s[0] == sep then glue else s[0]] + Replace(s[1..], sep, glue);
    }
  }

  /** Splitting and joining with the same separator gives the string back. */
  lemma SplitJoinRoundTrip(s: string, sep: char)
    ensures Join(Split(s, sep), [sep]) == s
  {
    JoinSplitReplaces(s, sep, sep);
    assert Replace(s, sep, sep) == s;
  }

  function DigitChar(d: nat): (c: char)
    requires d < 10
    ensures '0' <= c <= '9' && c as int - '0' as int == d
  {
    (d + '0' as int) as char
  }

  predicate AllDigits(s: string) {
    forall i :: 0 <= i < |s| ==> '0' <= s[i] <= '9'
  }

  /** Rust's `{}` for an unsigned integer: decimal digits, no leading zero. */
  function Decimal(n: nat): (r: string)
    ensures |r| >= 1 && AllDigits(r)
    ensures |r| > 1 ==> r[0] != '0'
    decreases n
  {
    if n < 10 then [DigitChar(n)] else Decimal(n / 10) + [DigitChar(n % 10)]
  }

  /** The value of a string of decimal digits. */
  function DecimalValue(s: string): nat
    requires AllDigits(s)
    decreases |s|
  {
    if s == [] then 0 else DecimalValue(s[..|s| - 1]) * 10 + (s[|s| - 1] as int - '0' as int)
  }

  /** Reading the printed digits back gives the number. */
  lemma {:induction false} DecimalRoundTrip(n: nat)
    ensures DecimalValue(Decimal(n)) == n
    decreases n
  {
    if n >= 10 {
      DecimalRoundTrip(n / 10);
      var r := Decimal(n);
      assert r[..|r| - 1] == Decimal(n / 10);
    }
  }

  /** Below the plain limit a value takes at most five digits. */
  lemma {:induction false} DecimalWidth(n: nat, bound: nat, width: nat)
    requires n < bound && bound <= Pow10(width) && width >= 1
    ensures |Decimal(n)| <= width
    decreases width
  {
    if n >= 10 {
      assert n / 10 < Pow10(width - 1) by {
        assert n < 10 * Pow10(width - 1);
      }
      DecimalWidth(n / 10, Pow10(width - 1), width - 1);
    }
  }

  function Pow10(k: nat): (p: nat)
    ensures p >= 1
  {
    if k == 0 then 1 else 10 * Pow10(k - 1)
  }

  /** A line of text, or a value whose scientific-notation text is not modelled. */
  datatype Line = Plain(text: string) | Scientific(caption: string, value: nat, unit: string)

  /** `str_line!($k, $u)` for an integer `$k` named `ident`. */
  function StrLine(ident: string, k: nat, unit: string): (r: Line)
    ensures r.Plain? <==> k < PlainLimit
    ensures r.Scientific? ==> r == Scientific(Replace(ident, '_', ' '), k, unit)
  {
    if k < PlainLimit then Plain(Label(ident) + ": " + Decimal(k) + unit)
    else Scientific(Label(ident), k, unit)
  }

  /**
   * Below 100000 the line is the identifier with spaces for underscores, then
   * ": ", then at most five digits that read back as the value, then the unit;
   * from 100000 on it is the scientific form.
   */
  lemma StrLineShape(ident: string, k: nat, unit: string)
    ensures StrLine(ident, k, unit).Plain? <==> k < PlainLimit
    ensures k < PlainLimit ==>
      var t, n := StrLine(ident, k, unit).text, |ident|;
      && |t| == n + 2 + |Decimal(k)| + |unit|
      && t[..n] == Replace(ident, '_', ' ')
      && t[n..n + 2] == ": "
      && var digits := t[n + 2..|t| - |unit|];
      && 1 <= |digits| <= 5 && AllDigits(digits) && DecimalValue(digits) == k
      && t[|t| - |unit|..] == unit
  {
    if k < PlainLimit {
      var t := StrLine(ident, k, unit).text;
      var n := |ident|;
      assert t == Label(ident) + ": " + Decimal(k) + unit;
      assert t[n + 2..|t| - |unit|] == Decimal(k);
      DecimalRoundTrip(k);
      DecimalWidth(k, PlainLimit, 5);
    }
  }

  /** `bytes / 1024u64.pow(2)`: whole MiB, rounded down. */
  function Mebibytes(bytes: nat): (m: nat)
    ensures m * BytesPerMiB <= bytes < (m + 1) * BytesPerMiB
  {
    bytes / BytesPerMiB
  }

  /** `milliwatts / 1000`: whole watts, rounded down. */
  function Watts(milliwatts: nat): (w: nat)
    ensures w * MilliwattsPerWatt <= milliwatts < (w + 1) * MilliwattsPerWatt
  {
    milliwatts / MilliwattsPerWatt
  }

  datatype MemoryInfo = MemoryInfo(free: nat, total: nat, used: nat)
  datatype Utilization = Utilization(memory: nat, gpu: nat)

  /** The answers of the card's queries; `None` is a query that failed. */
  datatype Readings = Readings(
    memoryClock: Option<nat>,
    graphicsClock: Option<nat>,
    videoClock: Option<nat>,
    temperature: Option<nat>,
    fanSpeed: Option<nat>,
    memoryInfo: Option<MemoryInfo>,
    utilization: Option<Utilization>,
    powerUsage: Option<nat>)

  /** One telemetry line before formatting: identifier, value, unit. */
  datatype Field = Field(ident: string, value: nat, unit: string)

  /** The identifiers and units of the lines, in the order `gui` sets them. */
  const Idents: seq<string> := ["memory_used", "memory_free", "memory_total",
    "memory_clock", "graphics_clock", "video_clock",
    "temperature", "fan_speed", "power_usage", "memory_utilization", "gpu_utilization"]
  const Units: seq<string> := [" MB", " MB", " MB", " MHz", " MHz", " MHz",
    " \U{00B0}C", "%", " W", "%", "%"]

  /** What each line shows for the given readings, failed readings counting as 0. */
  function Fields(r: Readings): (fs: seq<Field>)
    ensures |fs| == |Idents| == |Units|
    ensures forall i :: 0 <= i < |fs| ==> fs[i].ident == Idents[i] && fs[i].unit == Units[i]
  {
    var mem := UnwrapOr(r.memoryInfo, MemoryInfo(0, 0, 0));
    var util := UnwrapOr(r.utilization, Utilization(0, 0));
    [Field("memory_used", Mebibytes(mem.used), " MB"),
     Field("memory_free", Mebibytes(mem.free), " MB"),
     Field("memory_total", Mebibytes(mem.total), " MB"),
     Field("memory_clock", UnwrapOr(r.memoryClock, 0), " MHz"),
     Field("graphics_clock", UnwrapOr(r.graphicsClock, 0), " MHz"),
     Field("video_clock", UnwrapOr(r.videoClock, 0), " MHz"),
     Field("temperature", UnwrapOr(r.temperature, 0), " \U{00B0}C"),
     Field("fan_speed", UnwrapOr(r.fanSpeed, 0), "%"),
     Field("power_usage", Watts(UnwrapOr(r.powerUsage, 0)), " W"),
     Field("memory_utilization", util.memory, "%"),
     Field("gpu_utilization", util.gpu, "%")]
  }

  /** Every field formatted by `str_line!`, in order. */
  function Shown(fs: seq<Field>): (lines: seq<Line>)
    ensures |lines| == |fs|
  {
    seq(|fs|, i requires 0 <= i < |fs| => StrLine(fs[i].ident, fs[i].value, fs[i].unit))
  }

  /** The readings when every query fails. */
  function AllFailed(): Readings {
    Readings(None, None, None, None, None, None, None, None)
  }

  /** A zero value is printed as the single digit 0. */
  lemma ZeroLine(ident: string, unit: string)
    ensures StrLine(ident, 0, unit) == Plain(Label(ident) + ": 0" + unit)
  {
    assert Decimal(0) == "0";
  }

  /** When every query fails, every line shows the value 0. */
  lemma AllFailedShowZero()
    ensures forall i :: 0 <= i < |Idents| ==> Fields(AllFailed())[i] == Field(Idents[i], 0, Units[i])
  {
  }

  /**
   * Memory lines show whole MiB and the power line whole watts of what the card
   * reported, and each reading that fails shows 0 while the others are unaffected.
   */
  lemma FieldsFromReadings(r: Readings)
    ensures var fs := Fields(r);
      && (r.memoryInfo.Some? ==>
            && fs[0].value * BytesPerMiB <= r.memoryInfo.value.used < (fs[0].value + 1) * BytesPerMiB
            && fs[1].value * BytesPerMiB <= r.memoryInfo.value.free < (fs[1].value + 1) * BytesPerMiB
            && fs[2].value * BytesPerMiB <= r.memoryInfo.value.total < (fs[2].value + 1) * BytesPerMiB)
      && (r.memoryInfo.None? ==> fs[0].value == fs[1].value == fs[2].value == 0)
      && (r.powerUsage.Some? ==>
            fs[8].value * MilliwattsPerWatt <= r.powerUsage.value < (fs[8].value + 1) * MilliwattsPerWatt)
      && (r.powerUsage.None? ==> fs[8].value == 0)
      && fs[3].value == UnwrapOr(r.memoryClock, 0) && fs[4].value == UnwrapOr(r.graphicsClock, 0)
      && fs[5].value == UnwrapOr(r.videoClock, 0) && fs[6].value == UnwrapOr(r.temperature, 0)
      && fs[7].value == UnwrapOr(r.fanSpeed, 0)
      && (r.utilization.None? ==> fs[9].value == fs[10].value == 0)
      && (r.utilization.Some? ==> fs[9].value == r.utilization.value.memory && fs[10].value == r.utilization.value.gpu)
  {
  }

  /**
   * The telemetry part of `gui`: query the card, fall back to 0 on failure,
   * convert memory to MiB and power to watts in place, and build the lines.
   */
  method TelemetryLines(card: Readings) returns (lines: seq<Line>)
    ensures lines == Shown(Fields(card))
  {
    var memoryClock := UnwrapOr(card.memoryClock, 0);
    var graphicsClock := UnwrapOr(card.graphicsClock, 0);
    var videoClock := UnwrapOr(card.videoClock, 0);
    var temperature := UnwrapOr(card.temperature, 0);
    var fanSpeed := UnwrapOr(card.fanSpeed, 0);
    var mem := UnwrapOr(card.memoryInfo, MemoryInfo(0, 0, 0));
    var memoryUsed, memoryFree, memoryTotal := mem.used, mem.free, mem.total;
    memoryUsed := memoryUsed / BytesPerMiB;
    memoryFree := memoryFree / BytesPerMiB;
    memoryTotal := memoryTotal / BytesPerMiB;
    var util := UnwrapOr(card.utilization, Utilization(0, 0));
    var powerUsage := UnwrapOr(card.powerUsage, 0) / MilliwattsPerWatt;
    var fields := [
      Field("memory_used", memoryUsed, " MB"),
      Field("memory_free", memoryFree, " MB"),
      Field("memory_total", memoryTotal, " MB"),
      Field("memory_clock", memoryClock, " MHz"),
      Field("graphics_clock", graphicsClock, " MHz"),
      Field("video_clock", videoClock, " MHz"),
      Field("temperature", temperature, " \U{00B0}C"),
      Field("fan_speed", fanSpeed, "%"),
      Field("power_usage", powerUsage, " W"),
      Field("memory_utilization", util.memory, "%"),
      Field("gpu_utilization", util.gpu, "%")];
    assert fields == Fields(card);
    // one `str_line!` per field
    lines := Shown(fields);
  }
}
