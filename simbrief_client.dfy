/**
 * The pure helpers of the SimBrief client (backend/simbrief_client.py):
 * the METAR QNH parser, thousands-separated fuel and weight formatting and
 * the unit selection of the OFP parser.
 */
module SimBrief {
  import opened Wrappers
  import opened Strings

  /** FlightPlan: the parsed OFP. */
  datatype FlightPlan = FlightPlan(
    origin: string,
    destination: string,
    alternate: string,
    route: string,
    flightNumber: string,
    fuelBlock: int,
    fuelTakeoff: int,
    fuelLanding: int,
    fuelUnits: string,
    payload: int,
    zfw: int,
    tow: int,
    ldw: int,
    weightUnits: string,
    cruiseAltitude: string,
    costIndex: int,
    originMetar: string,
    destMetar: string,
    originQnh: int,
    destQnh: int,
    trimPercent: real)
  {
    /** `format_fuel`: the grouped number, a space, the fuel units. */
    function FormatFuel(value: int): (r: string)
      ensures WithUnits(r, value, fuelUnits)
    {
      GroupedWithUnitsOk(value, fuelUnits);
      IntGrouped(value) + " " + fuelUnits
    }

    /** `format_weight`: the grouped number, a space, the weight units. */
    function FormatWeight(value: int): (r: string)
      ensures WithUnits(r, value, weightUnits)
    {
      GroupedWithUnitsOk(value, weightUnits);
      IntGrouped(value) + " " + weightUnits
    }
  }

  /**
   * `r` is a comma-grouped rendering of `value`, a space and `units`: without
   * its commas the number part is `str(value)`; its first digit group has one
   * to three digits and every later group exactly three.
   */
  ghost predicate WithUnits(r: string, value: int, units: string) {
    |r| > |units| &&
    var num := r[..|r| - |units| - 1];
    r[|num|..] == " " + units &&
    RemoveCommas(num) == IntToString(value) &&
    SignedGrouped(num)
  }

  lemma GroupedWithUnitsOk(value: int, units: string)
    ensures WithUnits(IntGrouped(value) + " " + units, value, units)
  {
    var g := IntGrouped(value);
    var r := g + " " + units;
    assert r[..|r| - |units| - 1] == g;
    assert r[|g|..] == " " + units;
    IntGroupedUngroups(value);
    IntGroupedShape(value);
  }

  /** Without its commas, the grouped number is `str(value)`. */
  lemma IntGroupedUngroups(value: int)
    ensures RemoveCommas(IntGrouped(value)) == IntToString(value)
  {
    if value < 0 {
      GroupThousandsDigits(-value);
      RemoveCommasAppend("-", GroupThousands(-value));
    } else {
      GroupThousandsDigits(value);
    }
  }

  /** The grouped number is a grouped run of digits, after a minus sign when negative. */
  lemma IntGroupedShape(value: int)
    ensures SignedGrouped(IntGrouped(value))
  {
    if value < 0 {
      GroupThousandsShape(-value);
      assert IntGrouped(value)[1..] == GroupThousands(-value);
    } else {
      GroupThousandsShape(value);
    }
  }

  /** `WithUnits` admits one text only: the grouped number, a space and the units. */
  lemma WithUnitsUnique(r: string, value: int, units: string)
    requires WithUnits(r, value, units)
    ensures r == IntGrouped(value) + " " + units
  {
    var num := r[..|r| - |units| - 1];
    assert r == num + r[|num|..];
    IntGroupedUngroups(value);
    IntGroupedShape(value);
    SignedGroupedUnique(num, IntGrouped(value));
  }

  /** 1234567 kilograms read "1,234,567 KG". */
  lemma FormatFuelExample(plan: FlightPlan)
    requires plan.fuelUnits == "KG"
    ensures plan.FormatFuel(1234567) == "1,234,567 KG"
  {
    GroupThousandsExample();
    assert IntGrouped(1234567) == "1,234,567";
  }

  /** Unit selection in `_parse_ofp`: `params.get("units", "kgs").upper()`. */
  function SelectUnits(units: Option<string>): (r: (string, string))
    ensures r.0 == r.1
    ensures r.0 == "KG" <==> Upper(units.GetOr("kgs")) == "KGS"
    ensures r.0 == "KG" || r.0 == "LBS"
  {
    if Upper(units.GetOr("kgs")) == "KGS" then ("KG", "KG") else ("LBS", "LBS")
  }

  /** Without a `units` parameter the OFP is read in kilograms. */
  lemma DefaultUnitsAreKilograms()
    ensures SelectUnits(None) == ("KG", "KG")
    ensures SelectUnits(Some("lbs")) == ("LBS", "LBS")
  {
  }

  /** `tag` followed by four ASCII digits starts at position `i`. */
  predicate TaggedAt(s: string, tag: char, i: int) {
    0 <= i && i + 5 <= |s| && s[i] == tag && AllDigits(s[i + 1..i + 5])
  }

  /** `re.search(tag + r"(\d{4})", s)` from position `from`: the leftmost match. */
  function SearchTagged(s: string, tag: char, from: nat): (r: Option<nat>)
    requires from <= |s|
    ensures r.Some? ==> from <= r.value && TaggedAt(s, tag, r.value)
    ensures r.Some? ==> forall j :: from <= j < r.value ==> !TaggedAt(s, tag, j)
    ensures r.None? ==> forall j :: from <= j ==> !TaggedAt(s, tag, j)
    decreases |s| - from
  {
    if from + 5 > |s| then None
    else if TaggedAt(s, tag, from) then Some(from)
    else SearchTagged(s, tag, from + 1)
  }

  /** The four digits after a tag found at `i`. */
  function TaggedValue(s: string, i: nat): (n: nat)
    requires i + 5 <= |s| && AllDigits(s[i + 1..i + 5])
    ensures n <= 9999
  {
    DigitsValueBelow(s[i + 1..i + 5]);
    assert Pow10(4) == 10000;
    DigitsValue(s[i + 1..i + 5])
  }

  /** inHg in hundredths to hPa, truncated: `int(n / 100.0 * 33.8639)`. */
  function InHgToHpa(n: nat): (r: nat)
    requires n <= 9999
    ensures r <= 3386
  {
    n * 338639 / 1000000
  }

  /** `_parse_qnh`: QNH in hPa from a METAR, `Q####` first, then `A####`, else 0. */
  function ParseQnh(metar: string): (r: nat)
    ensures metar == "" ==> r == 0
    ensures forall i :: TaggedAt(metar, 'Q', i) && (forall j :: 0 <= j < i ==> !TaggedAt(metar, 'Q', j)) ==>
      r == TaggedValue(metar, i)
    ensures (forall i :: !TaggedAt(metar, 'Q', i)) ==>
      forall i :: TaggedAt(metar, 'A', i) && (forall j :: 0 <= j < i ==> !TaggedAt(metar, 'A', j)) ==>
        r == InHgToHpa(TaggedValue(metar, i))
    ensures (forall i :: !TaggedAt(metar, 'Q', i) && !TaggedAt(metar, 'A', i)) ==> r == 0
    ensures r <= 9999
  {
    if metar == "" then 0
    else match SearchTagged(metar, 'Q', 0)
      case Some(i) => TaggedValue(metar, i)
      case None =>
        match SearchTagged(metar, 'A', 0)
        case Some(i) => InHgToHpa(TaggedValue(metar, i))
        case None => 0
  }

  /** Without a `Q####` group the result comes from `A####` and is at most 3386 hPa. */
  lemma ParseQnhInHgBound(metar: string)
    requires forall i :: !TaggedAt(metar, 'Q', i)
    ensures ParseQnh(metar) <= 3386
  {
  }

  /** A `Q` group wins over an `A` group that comes before it. */
  lemma ParseQnhPrefersQ()
    ensures ParseQnh("A2992 Q1013") == 1013
  {
    var m := "A2992 Q1013";
    assert TaggedAt(m, 'Q', 6) && m[7..11] == "1013";
    assert "1013"[..3] == "101" && "101"[..2] == "10" && "10"[..1] == "1" && "1"[..0] == "";
    assert DigitsValue("1013") == 1013;
    forall j | 0 <= j < 6
      ensures !TaggedAt(m, 'Q', j)
    {
      assert m[j] != 'Q';
    }
  }

  /** A2992 (29.92 inHg) reads as 1013 hPa. */
  lemma ParseQnhInHgExample()
    ensures ParseQnh("KJFK A2992") == 1013
  {
    var m := "KJFK A2992";
    assert TaggedAt(m, 'A', 5) && m[6..10] == "2992";
    assert "2992"[..3] == "299" && "299"[..2] == "29" && "29"[..1] == "2" && "2"[..0] == "";
    assert DigitsValue("2992") == 2992;
    forall j | 0 <= j
      ensures !TaggedAt(m, 'Q', j)
    {
      if j < |m| {
        assert m[j] != 'Q';
      }
    }
    forall j | 0 <= j < 5
      ensures !TaggedAt(m, 'A', j)
    {
      assert m[j] != 'A';
    }
  }
}
