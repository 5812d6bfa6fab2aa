/** Splitting a number of seconds into units, and printing the first few of them. */
module Durations {
  import opened Common
  import opened Texts

  const YEAR := 31_536_000
  const MONTH := 2_629_757
  const DAY := 86_400
  const HOUR := 3_600
  const MINUTE := 60

  /** `~~x` of a quotient: truncation of a non-negative number in the 32-bit range. */
  const LIMIT := 0x8000_0000

  /** The keys of the conversion, in the order of its fields. */
  datatype Unit = FY | Y | Mo | D | H | M | S

  function Size(u: Unit): nat {
    match u
    case FY | Y => YEAR
    case Mo => MONTH
    case D => DAY
    case H => HOUR
    case M => MINUTE
    case S => 1
  }

  datatype Part = Part(value: nat, unit: Unit)

  lemma Seconds(input: int, y: int, mo: int, d: int, h: int, m: int, rest: int)
    requires input == y * YEAR + mo * MONTH + d * DAY + h * HOUR + m * MINUTE + rest
    ensures input % 60 == (rest + 17 * mo) % 60
  {
  }

  /** The shared object `secondsConverter` writes its result to. */
  class SecondsConversions {
    var fy: int
    var y: int
    var mo: int
    var d: int
    var h: int
    var m: int
    var s: int

    constructor ()
    {
      fy, y, mo, d, h, m, s := 0, 0, 0, 0, 0, 0, 0;
    }

    /** `rest` is what the five larger units leave. The seconds are taken from the input, not from `rest`, and a
        month is no whole number of minutes. */
    method Convert(input: int) returns (ghost rest: int)
      requires 0 <= input < LIMIT
      modifies this
      ensures 0 <= y && 0 <= mo <= 11 && 0 <= d <= 30 && 0 <= h <= 23 && 0 <= m <= 59 && 0 <= s <= 59 && fy > 0
      ensures input == y * YEAR + mo * MONTH + d * DAY + h * HOUR + m * MINUTE + rest && 0 <= rest < 60
      ensures mo * MONTH + d * DAY + h * HOUR + m * MINUTE + rest < YEAR
      ensures d * DAY + h * HOUR + m * MINUTE + rest < MONTH
      ensures s == (rest + 17 * mo) % 60
      ensures s == rest <==> mo == 0
      ensures s == rest <==> input % YEAR < MONTH
    {
      fy := (input + 62_125_938_000) / YEAR + 1;
      y := input / YEAR;
      var remainder := input - YEAR * y;
      mo := remainder / MONTH;
      remainder := remainder - MONTH * mo;
      d := remainder / DAY;
      remainder := remainder - DAY * d;
      h := remainder / HOUR;
      remainder := remainder - HOUR * h;
      m := remainder / MINUTE;
      s := input % MINUTE;
      rest := remainder - MINUTE * m;
      Seconds(input, y, mo, d, h, m, rest);
    }
  }

  // --- Printing ---------------------------------------------------------------------------------

  /** `filter((t) => t[1])`. */
  function NonZero(parts: seq<Part>): seq<Part> {
    if parts == [] then [] else (if parts[0].value == 0 then [] else [parts[0]]) + NonZero(parts[1..])
  }

  function Take<T>(s: seq<T>, limit: nat): seq<T> {
    if limit < |s| then s[..limit] else s
  }

  function Total(parts: seq<Part>): nat {
    if parts == [] then 0 else parts[0].value * Size(parts[0].unit) + Total(parts[1..])
  }

  /** Each part but the last leaves less than its unit, and the last one, the seconds, is off by less than 60. */
  ghost predicate Splits(parts: seq<Part>, total: int) {
    parts != [] &&
    if |parts| == 1 then parts[0].unit == S && 0 <= total < 60 && parts[0].value < 60
    else
      var left := total - parts[0].value * Size(parts[0].unit);
      parts[0].unit != S && 0 <= left < Size(parts[0].unit) && Splits(parts[1..], left)
  }

  function Precision(u: Unit): int {
    if u == S then 60 else Size(u)
  }

  /** The parts shown stand for `total` up to the precision of the last one, and never for more unless it is the
      seconds. */
  ghost predicate Approximates(shown: seq<Part>, total: int) {
    if shown == [] then 0 <= total < 60
    else
      var last := shown[|shown| - 1].unit;
      && -Precision(last) < Total(shown) - total < Precision(last)
      && (last != S ==> Total(shown) <= total)
  }

  /** Showing one more unit in front of an approximation of what it leaves. */
  lemma ApproximatesBehind(part: Part, rest: seq<Part>, total: int)
    requires part.unit != S
    requires
      var left := total - part.value * Size(part.unit);
      0 <= left < Size(part.unit) && Approximates(rest, left)
    ensures Approximates([part] + rest, total)
  {
  }

  lemma ApproximatesAlone(part: Part, total: int)
    requires part.unit != S && 0 <= total - part.value * Size(part.unit) < Size(part.unit)
    ensures Approximates([part], total)
  {
  }

  lemma {:induction false} ShownApproximates(parts: seq<Part>, total: int, limit: nat)
    requires Splits(parts, total) && limit >= 1
    ensures Approximates(Take(NonZero(parts), limit), total)
  {
    var shown := Take(NonZero(parts), limit);
    if |parts| == 1 {
      assert parts[1..] == [];
      assert NonZero(parts) == if parts[0].value == 0 then [] else [parts[0]];
      assert shown != [] ==> shown[1..] == [];
    } else {
      var first := parts[0];
      var left := total - first.value * Size(first.unit);
      if first.value == 0 {
        assert left == total;
        ShownApproximates(parts[1..], total, limit);
        assert NonZero(parts) == NonZero(parts[1..]);
      } else if limit == 1 {
        assert shown == [first];
        ApproximatesAlone(first, total);
      } else {
        ShownApproximates(parts[1..], left, limit - 1);
        ApproximatesBehind(first, Take(NonZero(parts[1..]), limit - 1), total);
        assert shown == [first] + Take(NonZero(parts[1..]), limit - 1);
      }
    }
  }

  function Name(u: Unit): string {
    match u
    case FY => "fy"
    case Y => "y"
    case Mo => "mo"
    case D => "d"
    case H => "h"
    case M => "m"
    case S => "s"
  }

  function Label(p: Part): string {
    Decimal(p.value) + Name(p.unit)
  }

  function Printed(parts: seq<Part>, join: string): string {
    if parts == [] then ""
    else if |parts| == 1 then Label(parts[0])
    else Label(parts[0]) + join + Printed(parts[1..], join)
  }

  lemma NameIsLetters(u: Unit)
    ensures Name(u) != "" && forall k :: 0 <= k < |Name(u)| ==> 'a' <= Name(u)[k] <= 'z'
  {
  }

  lemma LabelDecides(p: Part, q: Part)
    ensures Label(p) == Label(q) ==> p == q
  {
    if Label(p) == Label(q) {
      DecimalIsDigits(p.value);
      DecimalIsDigits(q.value);
      NameIsLetters(p.unit);
      NameIsLetters(q.unit);
      CutOnce(Decimal(p.value), Name(p.unit), Decimal(q.value), Name(q.unit), c => '0' <= c <= '9');
      DecimalInjective(p.value, q.value);
    }
  }

  lemma LabelHasNoComma(p: Part)
    ensures Label(p) != "" && ',' !in Label(p)
  {
    DecimalIsDigits(p.value);
    NameIsLetters(p.unit);
  }

  /** What is printed behind the first part. */
  function Rest(parts: seq<Part>): string {
    if |parts| <= 1 then "" else ", " + Printed(parts[1..], ", ")
  }

  lemma PrintedFirst(parts: seq<Part>)
    requires parts != []
    ensures Printed(parts, ", ") == Label(parts[0]) + Rest(parts)
    ensures Rest(parts) == "" || Rest(parts)[0] == ','
  {
    if |parts| > 1 {
      Associative(Label(parts[0]), ", ", Printed(parts[1..], ", "));
    }
  }

  lemma FirstLabel(a: seq<Part>, b: seq<Part>)
    requires a != [] && b != [] && Printed(a, ", ") == Printed(b, ", ")
    ensures a[0] == b[0] && Rest(a) == Rest(b)
  {
    LabelHasNoComma(a[0]);
    LabelHasNoComma(b[0]);
    PrintedFirst(a);
    PrintedFirst(b);
    CutOnce(Label(a[0]), Rest(a), Label(b[0]), Rest(b), c => c != ',');
    LabelDecides(a[0], b[0]);
  }

  lemma PrintedSomething(parts: seq<Part>)
    ensures Printed(parts, ", ") == "" <==> parts == []
  {
    if parts != [] {
      LabelHasNoComma(parts[0]);
    }
  }

  /** Joined in the default way, the text tells which parts were printed. */
  lemma {:induction false} TextDecidesParts(a: seq<Part>, b: seq<Part>)
    requires Printed(a, ", ") == Printed(b, ", ")
    ensures a == b
  {
    PrintedSomething(a);
    PrintedSomething(b);
    if a != [] && b != [] {
      FirstLabel(a, b);
      if |a| > 1 && |b| > 1 {
        assert Rest(a)[2..] == Printed(a[1..], ", ") && Rest(b)[2..] == Printed(b[1..], ", ");
        TextDecidesParts(a[1..], b[1..]);
      }
      assert a == [a[0]] + a[1..] && b == [b[0]] + b[1..];
    }
  }

  // --- Reading the text back ---------------------------------------------------------------------

  predicate IsDigit(c: char) {
    '0' <= c <= '9'
  }

  /** The number of seconds a text like "2d, 3h, 4s" stands for; `number` is what was read of the number so far. */
  function Read(text: string, number: nat): nat {
    if text == "" then 0
    else if IsDigit(text[0]) then Read(text[1..], number * 10 + (text[0] as int - '0' as int))
    else if text[0] == 'm' && |text| > 1 && text[1] == 'o' then number * 2_629_757 + Read(text[2..], 0)
    else
      match text[0]
      case 'y' => number * 31_536_000 + Read(text[1..], 0)
      case 'd' => number * 86_400 + Read(text[1..], 0)
      case 'h' => number * 3_600 + Read(text[1..], 0)
      case 'm' => number * 60 + Read(text[1..], 0)
      case 's' => number + Read(text[1..], 0)
      case _ => Read(text[1..], 0)
  }

  lemma ReadDigit(c: char, rest: string, number: nat)
    requires IsDigit(c)
    ensures Read([c] + rest, number) == Read(rest, number * 10 + (c as int - '0' as int))
  {
    HeadTail(c, rest);
  }

  /** Reading the decimal digits of a number. */
  lemma {:induction false} ReadDecimal(n: nat, rest: string)
    ensures Read(Decimal(n) + rest, 0) == Read(rest, n)
  {
    var last := "0123456789"[n % 10];
    if n < 10 {
      assert "0123456789"[n] as int - '0' as int == n;
      ReadDigit("0123456789"[n], rest, 0);
    } else {
      ReadDecimal(n / 10, [last] + rest);
      Associative(Decimal(n / 10), [last], rest);
      assert last as int - '0' as int == n % 10;
      ReadDigit(last, rest, n / 10);
    }
  }

  lemma ReadUnit(u: Unit, rest: string, number: nat)
    requires u != FY && (rest == "" || rest[0] == ',')
    ensures Read(Name(u) + rest, number) == number * Size(u) + Read(rest, 0)
  {
    var text := Name(u) + rest;
    if u == Mo {
      assert text[2..] == rest;
    } else {
      assert text[1..] == rest;
    }
  }

  lemma ReadSeparator(rest: string)
    ensures Read(", " + rest, 0) == Read(rest, 0)
  {
    assert (", " + rest)[1..] == " " + rest && (" " + rest)[1..] == rest;
  }

  lemma ReadLabel(p: Part, rest: string)
    requires p.unit != FY && (rest == "" || rest[0] == ',')
    ensures Read(Label(p) + rest, 0) == p.value * Size(p.unit) + Read(rest, 0)
  {
    Associative(Decimal(p.value), Name(p.unit), rest);
    ReadDecimal(p.value, Name(p.unit) + rest);
    ReadUnit(p.unit, rest, p.value);
  }

  /** The text, joined in the default way, stands for the total of its parts. */
  lemma {:induction false} TextReadsBack(parts: seq<Part>)
    requires forall k :: 0 <= k < |parts| ==> parts[k].unit != FY
    ensures Read(Printed(parts, ", "), 0) == Total(parts)
  {
    if parts != [] {
      TextReadsBack(parts[1..]);
      PrintedFirst(parts);
      ReadLabel(parts[0], Rest(parts));
      if |parts| > 1 {
        ReadSeparator(Printed(parts[1..], ", "));
      }
    }
  }

  lemma TotalFirst(p: Part, rest: seq<Part>)
    ensures Total([p] + rest) == p.value * Size(p.unit) + Total(rest)
    ensures p.value == 0 ==> Total([p] + rest) == Total(rest)
  {
    HeadTail(p, rest);
    assert p.value == 0 ==> p.value * Size(p.unit) == 0;
  }

  lemma {:induction false} TotalNonZero(parts: seq<Part>)
    ensures Total(NonZero(parts)) == Total(parts) && |NonZero(parts)| <= |parts|
    ensures forall k :: 0 <= k < |NonZero(parts)| ==> NonZero(parts)[k] in parts
  {
    if parts != [] {
      TotalNonZero(parts[1..]);
      TotalFirst(parts[0], parts[1..]);
      TotalFirst(parts[0], NonZero(parts[1..]));
      assert [] + NonZero(parts[1..]) == NonZero(parts[1..]);
      assert parts == [parts[0]] + parts[1..];
    }
  }

  lemma TotalOfSix(a: Part, b: Part, c: Part, d: Part, e: Part, f: Part)
    ensures Total([a, b, c, d, e, f]) == a.value * Size(a.unit) + b.value * Size(b.unit) + c.value * Size(c.unit)
                                         + d.value * Size(d.unit) + e.value * Size(e.unit) + f.value * Size(f.unit)
  {
    TotalFirst(f, []);
    TotalFirst(e, [f]);
    TotalFirst(d, [e] + [f]);
    TotalFirst(c, [d] + ([e] + [f]));
    TotalFirst(b, [c] + ([d] + ([e] + [f])));
    TotalFirst(a, [b] + ([c] + ([d] + ([e] + [f]))));
    assert [f] + [] == [f] && [a, b, c, d, e, f] == [a] + ([b] + ([c] + ([d] + ([e] + [f]))));
  }

  /** With room for all six units the text stands for the input exactly when the seconds are right. */
  lemma AllShown(y: nat, mo: nat, d: nat, h: nat, m: nat, s: nat, input: int, rest: int, limit: nat)
    requires input == y * YEAR + mo * MONTH + d * DAY + h * HOUR + m * MINUTE + rest && limit >= 6
    ensures
      var parts := [Part(y, Y), Part(mo, Mo), Part(d, D), Part(h, H), Part(m, M), Part(s, S)];
      Read(Printed(Take(NonZero(parts), limit), ", "), 0) == input - rest + s
  {
    var parts := [Part(y, Y), Part(mo, Mo), Part(d, D), Part(h, H), Part(m, M), Part(s, S)];
    TotalNonZero(parts);
    TotalOfSix(parts[0], parts[1], parts[2], parts[3], parts[4], parts[5]);
    TextReadsBack(NonZero(parts));
  }

  /** Whatever it is, what joins the parts stands between them and nowhere else. */
  lemma {:induction false} PrintedConcat(a: seq<Part>, b: seq<Part>, join: string)
    requires a != [] && b != []
    ensures Printed(a + b, join) == Printed(a, join) + join + Printed(b, join)
  {
    var all := a + b;
    assert all[0] == a[0] && all[1..] == a[1..] + b;
    if |a| == 1 {
      assert a[1..] + b == b;
    } else {
      PrintedConcat(a[1..], b, join);
      Associative(Label(a[0]) + join, Printed(a[1..], join) + join, Printed(b, join));
      Associative(Label(a[0]) + join, Printed(a[1..], join), join);
    }
  }

  // --- What SecondsFmt prints --------------------------------------------------------------------

  lemma {:induction false} NonZeroPositive(parts: seq<Part>)
    ensures forall k :: 0 <= k < |NonZero(parts)| ==> NonZero(parts)[k].value > 0
    ensures NonZero(parts) == [] <==> forall k :: 0 <= k < |parts| ==> parts[k].value == 0
  {
    if parts != [] {
      NonZeroPositive(parts[1..]);
      assert forall k :: 0 < k < |parts| ==> parts[k] == parts[1..][k - 1];
      assert NonZero(parts) == [] ==> parts[0].value == 0 && NonZero(parts[1..]) == [];
    }
  }

  lemma PartsSplit(y: nat, mo: nat, d: nat, h: nat, m: nat, s: nat, input: int, rest: int)
    requires input == y * YEAR + mo * MONTH + d * DAY + h * HOUR + m * MINUTE + rest && 0 <= rest < 60 && s < 60
    requires mo * MONTH + d * DAY + h * HOUR + m * MINUTE + rest < YEAR
    requires d * DAY + h * HOUR + m * MINUTE + rest < MONTH
    requires h * HOUR + m * MINUTE + rest < DAY && m * MINUTE + rest < HOUR
    ensures Splits([Part(y, Y), Part(mo, Mo), Part(d, D), Part(h, H), Part(m, M), Part(s, S)], input)
  {
    var p5 := [Part(s, S)];
    var p4 := [Part(m, M)] + p5;
    var p3 := [Part(h, H)] + p4;
    var p2 := [Part(d, D)] + p3;
    var p1 := [Part(mo, Mo)] + p2;
    assert Splits(p5, rest);
    assert p4[1..] == p5 && Splits(p4, m * MINUTE + rest);
    assert p3[1..] == p4 && Splits(p3, h * HOUR + m * MINUTE + rest);
    assert p2[1..] == p3 && Splits(p2, d * DAY + h * HOUR + m * MINUTE + rest);
    assert p1[1..] == p2 && Splits(p1, mo * MONTH + d * DAY + h * HOUR + m * MINUTE + rest);
    assert ([Part(y, Y)] + p1)[1..] == p1;
    assert [Part(y, Y)] + p1 == [Part(y, Y), Part(mo, Mo), Part(d, D), Part(h, H), Part(m, M), Part(s, S)];
  }

  lemma ZeroParts(y: nat, mo: nat, d: nat, h: nat, m: nat, s: nat, input: int, rest: int)
    requires input == y * YEAR + mo * MONTH + d * DAY + h * HOUR + m * MINUTE + rest && 0 <= rest < 60
    requires s == rest <==> mo == 0
    ensures
      var parts := [Part(y, Y), Part(mo, Mo), Part(d, D), Part(h, H), Part(m, M), Part(s, S)];
      NonZero(parts) == [] <==> input == 0
  {
    var parts := [Part(y, Y), Part(mo, Mo), Part(d, D), Part(h, H), Part(m, M), Part(s, S)];
    NonZeroPositive(parts);
    assert parts[0].value == y && parts[1].value == mo && parts[2].value == d;
    assert parts[3].value == h && parts[4].value == m && parts[5].value == s;
  }

  /** What is printed of the units: at most `limit` of them, with their precision, and all of them if there is room. */
  ghost predicate Prints(shown: seq<Part>, input: int, rest: int, s: int, limit: nat) {
    && |shown| <= limit
    && (limit >= 1 ==> Approximates(shown, input) && (shown == [] <==> input == 0))
    && (forall k :: 0 <= k < |shown| ==> shown[k].value > 0)
    && Read(Printed(shown, ", "), 0) == Total(shown)
    && (limit >= 6 ==> Read(Printed(shown, ", "), 0) == input - rest + s)
  }

  lemma ShownPrints(y: nat, mo: nat, d: nat, h: nat, m: nat, s: nat, input: int, rest: int, limit: nat)
    requires input == y * YEAR + mo * MONTH + d * DAY + h * HOUR + m * MINUTE + rest && 0 <= rest < 60 && s < 60
    requires mo * MONTH + d * DAY + h * HOUR + m * MINUTE + rest < YEAR
    requires d * DAY + h * HOUR + m * MINUTE + rest < MONTH
    requires h * HOUR + m * MINUTE + rest < DAY && m * MINUTE + rest < HOUR
    requires s == rest <==> mo == 0
    ensures
      var parts := [Part(y, Y), Part(mo, Mo), Part(d, D), Part(h, H), Part(m, M), Part(s, S)];
      Prints(Take(NonZero(parts), limit), input, rest, s, limit)
  {
    var parts := [Part(y, Y), Part(mo, Mo), Part(d, D), Part(h, H), Part(m, M), Part(s, S)];
    NonZeroPositive(parts);
    TotalNonZero(parts);
    TextReadsBack(Take(NonZero(parts), limit));
    if limit >= 6 {
      AllShown(y, mo, d, h, m, s, input, rest, limit);
    }
    if limit >= 1 {
      PartsSplit(y, mo, d, h, m, s, input, rest);
      ShownApproximates(parts, input, limit);
      ZeroParts(y, mo, d, h, m, s, input, rest);
    }
  }

  /** The parts `SecondsFmt` prints. The first non-zero entry, the calendar year, is dropped. */
  method SecondsFmt(conversions: SecondsConversions, input: int, join: string, limit: nat)
    returns (text: string, ghost shown: seq<Part>)
    requires 0 <= input < LIMIT
    modifies conversions
    ensures text == Printed(shown, join) && |shown| <= limit
    ensures limit >= 1 ==> Approximates(shown, input)
    ensures limit >= 1 ==> (shown == [] <==> input == 0)
    ensures forall k :: 0 <= k < |shown| ==> shown[k].value > 0
    ensures join == ", " ==> Read(text, 0) == Total(shown)
    ensures join == ", " && limit >= 6 ==> -60 < Read(text, 0) - input < 60
    ensures join == ", " && limit >= 6 ==> (Read(text, 0) == input <==> input % YEAR < MONTH)
  {
    ghost var rest := conversions.Convert(input);
    var c := conversions;
    var parts := [Part(c.y, Y), Part(c.mo, Mo), Part(c.d, D), Part(c.h, H), Part(c.m, M), Part(c.s, S)];
    var entries := [Part(c.fy, FY)] + parts;
    assert entries[1..] == parts;
    var kept := Take(NonZero(entries)[1..], limit);
    text, shown := Printed(kept, join), kept;
    assert NonZero(entries)[1..] == NonZero(parts);
    ShownPrints(c.y, c.mo, c.d, c.h, c.m, c.s, input, rest, limit);
  }
}
