/** The measurement standard deviation derived from a raw instrument reading
    (gama/utils.py, getStdDev). Readings are exact reals here. */
module GamaUtils {
  import opened Common
  import opened Builtins

  /** Unit standard deviations of a direction, a distance (constant and
      per-1000 scale) and a zenith angle. */
  const StdDevDir: real := 60.0
  const StdDevDistBase: real := 15.0
  const StdDevDistScale: real := 2.0
  const StdDevZ: real := 60.0

  /** The observation types getStdDev has a branch for. */
  predicate IsKnownKind(kind: string) {
    kind == "direction" || kind == "s-distance" || kind == "distance" || kind == "z-angle"
  }

  /** float(data[1]): the only field of the record that is read. */
  function Reading(data: seq<string>): (r: Result<real>)
    ensures |data| < 2 ==> r == Err(IndexError)
    ensures |data| >= 2 ==> (r.Ok? <==> ParseFloat(data[1]).Some?)
    ensures r.Err? ==> r.error == IndexError || r.error == ValueError
  {
    if |data| < 2 then Err(IndexError)
    else match ParseFloat(data[1])
      case None => Err(ValueError)
      case Some(v) => Ok(v)
  }

  /** round(unit / (reading / 100)) for an angle; a zero reading divides by zero. */
  function AngleStdDev(unit: real, reading: real): (r: Result<int>)
    ensures r.Err? <==> reading == 0.0
    ensures r.Err? ==> r.error == ZeroDivisionError
  {
    if reading / 100.0 == 0.0 then Err(ZeroDivisionError)
    else Ok(Round(unit / (reading / 100.0)))
  }

  /** round(15 + 2 * reading / 1000) for a distance. */
  function DistanceStdDev(reading: real): int {
    Round(StdDevDistBase + StdDevDistScale * reading / 1000.0)
  }

  function AngleStdDevText(unit: real, data: seq<string>): Result<string> {
    match Reading(data)
    case Err(e) => Err(e)
    case Ok(v) =>
      match AngleStdDev(unit, v)
      case Err(e) => Err(e)
      case Ok(n) => Ok(IntStr(n))
  }

  function DistanceStdDevText(data: seq<string>): Result<string> {
    match Reading(data)
    case Err(e) => Err(e)
    case Ok(v) => Ok(IntStr(DistanceStdDev(v)))
  }

  /** getStdDev(type, data): the stdev as the string str(round(...)) gives.
      An unknown type leaves the result variable unbound. */
  function GetStdDev(kind: string, data: seq<string>): (r: Result<string>)
    ensures r == Err(UnboundLocalError) <==> !IsKnownKind(kind)
    ensures IsKnownKind(kind) && |data| < 2 ==> r == Err(IndexError)
    ensures IsKnownKind(kind) && |data| >= 2 && ParseFloat(data[1]).None? ==> r == Err(ValueError)
  {
    if kind == "direction" then AngleStdDevText(StdDevDir, data)
    else if kind == "s-distance" || kind == "distance" then DistanceStdDevText(data)
    else if kind == "z-angle" then AngleStdDevText(StdDevZ, data)
    else Err(UnboundLocalError)
  }

  /** A direction and a zenith angle get the same stdev from the same record,
      and so do a horizontal and a slope distance. */
  lemma SameFormulaPairs(data: seq<string>)
    ensures GetStdDev("direction", data) == GetStdDev("z-angle", data)
    ensures GetStdDev("distance", data) == GetStdDev("s-distance", data)
  {
  }

  /** Only data[1] is read: two records that agree there get the same stdev. */
  lemma OnlySecondFieldRead(kind: string, d1: seq<string>, d2: seq<string>)
    requires |d1| >= 2 && |d2| >= 2 && d1[1] == d2[1]
    ensures GetStdDev(kind, d1) == GetStdDev(kind, d2)
  {
  }

  /** The angle stdev is round(6000 / reading), so 60 per unit of reading / 100. */
  lemma AngleStdDevClosedForm(reading: real)
    requires reading != 0.0
    ensures AngleStdDev(StdDevDir, reading) == Ok(Round(6000.0 / reading))
  {
    assert StdDevDir / (reading / 100.0) == 6000.0 / reading;
  }

  lemma ReciprocalAntitone(a: real, b: real)
    requires 0.0 < a <= b
    ensures 6000.0 / b <= 6000.0 / a
  {
    var p, q := 6000.0 / a, 6000.0 / b;
    assert p * a == 6000.0 && q * b == 6000.0;
    assert q * a <= q * b;
    assert (q - p) * a <= 0.0;
  }

  /** For positive readings the angle stdev never increases as the reading grows. */
  lemma AngleStdDevAntitone(a: real, b: real)
    requires 0.0 < a <= b
    ensures AngleStdDev(StdDevDir, a).Ok? && AngleStdDev(StdDevDir, b).Ok?
    ensures AngleStdDev(StdDevDir, b).value <= AngleStdDev(StdDevDir, a).value
  {
    AngleStdDevClosedForm(a);
    AngleStdDevClosedForm(b);
    ReciprocalAntitone(a, b);
    RoundMonotone(6000.0 / b, 6000.0 / a);
  }

  /** For non-negative readings the distance stdev is at least its constant 15. */
  lemma DistanceStdDevAtLeastBase(reading: real)
    requires reading >= 0.0
    ensures DistanceStdDev(reading) >= 15
  {
    RoundMonotone(15.0, StdDevDistBase + StdDevDistScale * reading / 1000.0);
    RoundOfInt(15);
  }

  /** The distance stdev grows with the reading. */
  lemma DistanceStdDevMonotone(a: real, b: real)
    requires a <= b
    ensures DistanceStdDev(a) <= DistanceStdDev(b)
  {
    RoundMonotone(StdDevDistBase + StdDevDistScale * a / 1000.0, StdDevDistBase + StdDevDistScale * b / 1000.0);
  }

  lemma ParseFloatOfInt(n: int, s: string)
    requires s == IntStr(n)
    ensures ParseFloat(s) == Some(n as real)
  {
    IntStrRoundTrip(n);
  }

  /** A record whose second field is str(n) has the reading n. */
  lemma ReadingOfInt(data: seq<string>, n: int)
    requires |data| >= 2 && data[1] == IntStr(n)
    ensures Reading(data) == Ok(n as real)
  {
    ParseFloatOfInt(n, data[1]);
  }

  lemma DirectionOfTwoHundred()
    ensures AngleStdDev(StdDevDir, 200.0) == Ok(30) && IntStr(30) == "30"
  {
    RoundOfInt(30);
    assert 60.0 / (200.0 / 100.0) == 30.0;
  }

  lemma DistanceOfFiveHundred()
    ensures DistanceStdDev(500.0) == 16 && IntStr(16) == "16"
  {
    RoundOfInt(16);
    assert 15.0 + 2.0 * 500.0 / 1000.0 == 16.0;
  }

  /** A reading of 200 gives a direction stdev of "30". */
  lemma {:induction false} DirectionExample(data: seq<string>)
    requires |data| >= 2 && data[1] == "200"
    ensures GetStdDev("direction", data) == Ok("30")
  {
    assert IntStr(200) == "200";
    ReadingOfInt(data, 200);
    DirectionOfTwoHundred();
  }

  /** A reading of 500 gives a distance stdev of "16". */
  lemma {:induction false} DistanceExample(data: seq<string>)
    requires |data| >= 2 && data[1] == "500"
    ensures GetStdDev("distance", data) == Ok("16")
  {
    assert IntStr(500) == "500";
    ReadingOfInt(data, 500);
    DistanceOfFiveHundred();
  }

  /** A zero direction reading divides by zero. */
  lemma ZeroReadingDivides()
    ensures GetStdDev("direction", ["5001", "0"]) == Err(ZeroDivisionError)
  {
    assert IntStr(0) == "0";
    ParseFloatOfInt(0, "0");
  }

  /** The returned text reads back, through float(), as the rounded value. */
  lemma StdDevTextReadsBack(kind: string, data: seq<string>)
    requires GetStdDev(kind, data).Ok?
    ensures ParseFloat(GetStdDev(kind, data).value).Some?
    ensures exists n: int :: GetStdDev(kind, data).value == IntStr(n)
  {
    var v := Reading(data).value;
    var n := if kind == "s-distance" || kind == "distance" then DistanceStdDev(v)
             else AngleStdDev(if kind == "direction" then StdDevDir else StdDevZ, v).value;
    assert GetStdDev(kind, data).value == IntStr(n);
    IntStrRoundTrip(n);
  }
}
