/** The uptime display of the web page, and the parser that undoes it. */
module Uptime {
  import opened Options

  // ---------- decimal numbers ----------

  predicate IsDigit(c: char) {
    '0' <= c <= '9'
  }

  function DigitValue(c: char): nat
    requires IsDigit(c)
  {
    (c - '0') as nat
  }

  /** `${n}` for a natural number. */
  function Decimal(n: nat): (s: string)
    ensures s != []
  {
    if n < 10 then ['0' + n as char] else Decimal(n / 10) + ['0' + (n % 10) as char]
  }

  // ---------- the printer ----------

  datatype Unit = Unit(name: string, value: nat)

  function Units(s: nat): seq<Unit> {
    [Unit("d", s / 86400),
     Unit("h", s % 86400 / 3600),
     Unit("min", s % 86400 % 3600 / 60),
     Unit("s", s % 86400 % 3600 % 60)]
  }

  /** Index of the first unit that is not zero, or the length. */
  function FirstNonZero(us: seq<Unit>): (i: nat)
    ensures i <= |us|
  {
    if us == [] || us[0].value > 0 then 0 else 1 + FirstNonZero(us[1..])
  }

  function FilterPositive(us: seq<Unit>): seq<Unit> {
    if us == [] then []
    else if us[0].value > 0 then [us[0]] + FilterPositive(us[1..])
    else FilterPositive(us[1..])
  }

  function Show(u: Unit): string {
    Decimal(u.value) + u.name
  }

  /** `map` and `join(" ")`. */
  function Join(us: seq<Unit>): string {
    if us == [] then ""
    else if |us| == 1 then Show(us[0])
    else Show(us[0]) + ([' '] + Join(us[1..]))
  }

  function FormatUptime(s: nat): string {
    var us := Units(s);
    var first := FirstNonZero(us);
    if first == |us| then "0s" else Join(FilterPositive(us[first..]))
  }

  /** The display as the page computes it, peeling the units off a shrinking remainder. */
  method Display(uptime: nat) returns (text: string)
    ensures text == FormatUptime(uptime)
    ensures Parse(text) == Some(uptime)
  {
    var s := uptime;
    var days := s / 86400;
    s := s % 86400;
    var hours := s / 3600;
    s := s % 3600;
    var mins := s / 60;
    s := s % 60;
    var secs := s;
    var units := [Unit("d", days), Unit("h", hours), Unit("min", mins), Unit("s", secs)];
    RoundTrip(uptime);
    var firstNonZero := FirstNonZero(units);
    if firstNonZero == |units| {
      return "0s";
    }
    text := Join(FilterPositive(units[firstNonZero..]));
  }

  // ---------- the parser ----------

  /** Reads decimal digits, continuing from acc; returns the number and the rest. */
  function ReadNumber(text: string, acc: nat): (nat, string)
    decreases |text|
  {
    if text != [] && IsDigit(text[0]) then ReadNumber(text[1..], 10 * acc + DigitValue(text[0])) else (acc, text)
  }

  /** The unit name at the start of the text, up to a blank or the end, and what follows the blank. */
  function ReadName(text: string): (r: (string, string))
    ensures text != [] ==> |r.1| < |text|
    ensures text == [] ==> r.1 == []
  {
    if text == [] then ("", "")
    else if text[0] == ' ' then ("", text[1..])
    else var (name, rest) := ReadName(text[1..]); ([text[0]] + name, rest)
  }

  function Seconds(name: string): Option<nat> {
    if name == "d" then Some(86400)
    else if name == "h" then Some(3600)
    else if name == "min" then Some(60)
    else if name == "s" then Some(1)
    else None
  }

  /** n of the named unit, and what the items after it come to. */
  function Plus(n: nat, name: string, others: Option<nat>): Option<nat> {
    if Seconds(name).None? || others.None? then None else Some(n * Seconds(name).value + others.value)
  }

  /** A sequence of number-and-unit items separated by blanks, as a number of seconds. */
  function Parse(text: string): Option<nat>
    decreases |text|
  {
    if text == [] then Some(0)
    else
      var (n, afterNumber) := ReadNumber(text, 0);
      var (name, rest) := ReadName(afterNumber);
      if |rest| >= |text| then None else Plus(n, name, Parse(rest))
  }

  // ---------- round trip ----------

  predicate Known(us: seq<Unit>) {
    forall i :: 0 <= i < |us| ==> Seconds(us[i].name).Some?
  }

  function Total(us: seq<Unit>): nat
    requires Known(us)
  {
    if us == [] then 0 else us[0].value * Seconds(us[0].name).value + Total(us[1..])
  }

  lemma {:induction false} ReadsDecimal(n: nat, rest: string)
    ensures ReadNumber(Decimal(n) + rest, 0) == ReadNumber(rest, n)
  {
    if n < 10 {
      assert (Decimal(n) + rest)[1..] == rest;
    } else {
      var d := '0' + (n % 10) as char;
      assert Decimal(n) + rest == Decimal(n / 10) + ([d] + rest);
      ReadsDecimal(n / 10, [d] + rest);
      assert ([d] + rest)[1..] == rest;
    }
  }

  lemma {:induction false} ReadsName(name: string, rest: string)
    requires ' ' !in name && (rest == [] || rest[0] == ' ')
    ensures ReadName(name + rest) == (name, if rest == [] then [] else rest[1..])
  {
    if name == [] {
      assert name + rest == rest;
    } else {
      assert (name + rest)[1..] == name[1..] + rest && name[0] in name;
      ReadsName(name[1..], rest);
      assert [name[0]] + name[1..] == name;
    }
  }

  /** A name that a reader of numbers stops before and a reader of names reads whole. */
  predicate Separable(name: string) {
    name != [] && ' ' !in name && !IsDigit(name[0])
  }

  lemma UnitNamesSeparable(name: string)
    requires Seconds(name).Some?
    ensures Separable(name)
  {}

  /** What remains after the blank that ends an item. */
  function Next(rest: string): string {
    if rest == [] then [] else rest[1..]
  }

  lemma ReadsItem(u: Unit, rest: string)
    requires Separable(u.name) && (rest == [] || rest[0] == ' ')
    ensures ReadNumber(Show(u) + rest, 0) == (u.value, u.name + rest)
    ensures ReadName(u.name + rest) == (u.name, Next(rest))
  {
    var tail := u.name + rest;
    assert Show(u) + rest == Decimal(u.value) + tail;
    ReadsDecimal(u.value, tail);
    assert tail[0] == u.name[0];
    ReadsName(u.name, rest);
  }

  /** One printed item followed by the end or by a blank and more. */
  lemma ParsesItem(u: Unit, rest: string)
    requires Seconds(u.name).Some? && (rest == [] || rest[0] == ' ')
    ensures Parse(Show(u) + rest) == Plus(u.value, u.name, Parse(Next(rest)))
  {
    UnitNamesSeparable(u.name);
    ReadsItem(u, rest);
    ParseUnfolds(Show(u) + rest, u.value, u.name + rest, u.name, Next(rest));
  }

  lemma ParseUnfolds(text: string, n: nat, afterNumber: string, name: string, rest: string)
    requires ReadNumber(text, 0) == (n, afterNumber) && ReadName(afterNumber) == (name, rest)
    requires |rest| < |text|
    ensures Parse(text) == Plus(n, name, Parse(rest))
  {}

  lemma ParsesLast(u: Unit)
    requires Seconds(u.name).Some?
    ensures Parse(Show(u)) == Plus(u.value, u.name, Some(0))
  {
    ParsesItem(u, []);
    assert Show(u) + [] == Show(u);
  }

  lemma ParsesBefore(u: Unit, rest: string)
    requires Seconds(u.name).Some?
    ensures Parse(Show(u) + ([' '] + rest)) == Plus(u.value, u.name, Parse(rest))
  {
    ParsesItem(u, [' '] + rest);
    assert Next([' '] + rest) == rest;
  }

  lemma {:induction false} ParsesJoin(us: seq<Unit>)
    requires Known(us)
    ensures Parse(Join(us)) == Some(Total(us))
  {
    if us != [] {
      ParsesJoin(us[1..]);
      if |us| == 1 {
        ParsesLast(us[0]);
      } else {
        ParsesBefore(us[0], Join(us[1..]));
      }
    }
  }

  lemma {:induction false} DroppingZeros(us: seq<Unit>)
    requires Known(us)
    ensures Known(FilterPositive(us)) && Total(FilterPositive(us)) == Total(us)
    ensures Known(us[FirstNonZero(us)..]) && Total(us[FirstNonZero(us)..]) == Total(us)
  {
    if us != [] {
      DroppingZeros(us[1..]);
      if us[0].value > 0 {
        var fs := FilterPositive(us[1..]);
        assert ([us[0]] + fs)[1..] == fs;
        assert us[0..] == us;
      } else {
        assert us[FirstNonZero(us)..] == us[1..][FirstNonZero(us[1..])..];
      }
    }
  }

  /** The displayed text gives back the number of seconds, although zero units are left out. */
  lemma RoundTrip(s: nat)
    ensures Parse(FormatUptime(s)) == Some(s)
  {
    var us := Units(s);
    var shown := us[FirstNonZero(us)..];
    UnitsAddUp(s);
    DroppingZeros(us);
    DroppingZeros(shown);
    if FirstNonZero(us) == |us| {
      assert shown == [];
      ParsesLast(Unit("s", 0));
    } else {
      ParsesJoin(FilterPositive(shown));
    }
  }

  lemma UnitsAddUp(s: nat)
    ensures Known(Units(s)) && Total(Units(s)) == s
  {
    var us := Units(s);
    assert us[1..][1..][1..] == [us[3]] && us[1..][1..] == [us[2], us[3]] && us[1..] == [us[1], us[2], us[3]];
    assert Total([us[3]]) == us[3].value;
    assert Total([us[2], us[3]]) == us[2].value * 60 + us[3].value;
  }

  // ---------- what is displayed ----------

  /** Hours stay below 24, minutes and seconds below 60. */
  predicate InRange(u: Unit) {
    (u.name == "h" ==> u.value < 24) && (u.name == "min" || u.name == "s" ==> u.value < 60)
  }

  /** Known units in range, the greatest first, none twice. */
  predicate Falling(us: seq<Unit>) {
    && Known(us) && (forall i :: 0 <= i < |us| ==> InRange(us[i]))
    && forall i, j :: 0 <= i < j < |us| ==> Seconds(us[i].name).value > Seconds(us[j].name).value
  }

  predicate AllPositive(us: seq<Unit>) {
    forall i :: 0 <= i < |us| ==> us[i].value > 0
  }

  lemma UnitsFall(s: nat)
    ensures Falling(Units(s))
  {}

  lemma {:induction false} FilterFalls(us: seq<Unit>)
    requires Falling(us)
    ensures Falling(FilterPositive(us)) && AllPositive(FilterPositive(us))
    ensures forall u :: u in FilterPositive(us) ==> u in us
  {
    if us != [] {
      var rest, fs := us[1..], FilterPositive(us[1..]);
      FilterFalls(rest);
      forall j | 0 <= j < |fs|
        ensures Seconds(us[0].name).value > Seconds(fs[j].name).value
      {
        assert fs[j] in rest;
        var i :| 0 <= i < |rest| && rest[i] == fs[j];
        assert us[i + 1] == fs[j];
      }
    }
  }

  /**
   * A positive uptime is shown as positive values of units in range, the greatest first, and zero as "0s". With RoundTrip, which
   * says that they add up to the uptime, this leaves one text.
   */
  lemma DisplayIsCanonical(s: nat)
    ensures s == 0 ==> FormatUptime(s) == "0s"
    ensures s > 0 ==> exists us :: us != [] && Falling(us) && AllPositive(us) && Total(us) == s && FormatUptime(s) == Join(us)
  {
    var us := Units(s);
    var first := FirstNonZero(us);
    UnitsAddUp(s);
    DroppingZeros(us);
    if s > 0 {
      DroppingZeros(us[first..]);
      UnitsFall(s);
      DropFalls(us, first);
      FilterFalls(us[first..]);
      var shown := FilterPositive(us[first..]);
      assert Total(shown) == s;
    } else {
      assert us[0].value == us[1].value == us[2].value == us[3].value == 0;
      NoUnits(us);
    }
  }

  lemma DropFalls(us: seq<Unit>, n: nat)
    requires Falling(us) && n <= |us|
    ensures Falling(us[n..])
  {}

  lemma {:induction false} NoUnits(us: seq<Unit>)
    requires forall i :: 0 <= i < |us| ==> us[i].value == 0
    ensures FirstNonZero(us) == |us|
  {
    if us != [] {
      NoUnits(us[1..]);
    }
  }

  /** Different uptimes are displayed differently. */
  lemma Injective(s: nat, t: nat)
    requires FormatUptime(s) == FormatUptime(t)
    ensures s == t
  {
    RoundTrip(s);
    RoundTrip(t);
  }
}
