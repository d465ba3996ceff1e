/** The zone resolver of projtools: the range checks of latlon_to_utm and the
    zone-string normalisation and EPSG lookup of utm_to_epsg. */
module Zones {
  import opened Wrappers

  datatype ZoneError =
    | LongitudeOutOfRange   // ValueError: longitude outside [-180, 180[
    | LatitudeOutOfRange    // ValueError: latitude outside [-90, 90[
    | NoUtmCrsFound         // the database query returned no CRS (indexing an empty list)
    | NotAnInteger          // ValueError from int() on the zone number
    | UnknownCrs            // CRSError: the CRS database has no such UTM zone

  // ---------------------------------------------------------------------------
  // latlon_to_utm

  /** The last field of `s.split(" ")`: what follows the last space, or all of `s`. */
  function LastField(s: string): (r: string)
    ensures |r| <= |s| && r == s[|s| - |r|..]
    ensures ' ' !in r
    ensures |r| < |s| ==> s[|s| - |r| - 1] == ' '
  {
    if |s| == 0 || s[|s| - 1] == ' ' then ""
    else LastField(s[..|s| - 1]) + [s[|s| - 1]]
  }

  predicate LongitudeInRange(lon: real) { -180.0 <= lon < 180.0 }
  predicate LatitudeInRange(lat: real) { -90.0 <= lat < 90.0 }

  /** latlon_to_utm: the longitude is checked first, then the latitude; then the CRS database
      is asked for the WGS 84 UTM CRSs whose area of use contains the point (`queryUtmNames`,
      given the area of interest's west/east longitude and south/north latitude) and the zone is
      the last word of the first CRS's name. */
  function LatLonToUtm(lat: real, lon: real, queryUtmNames: (real, real) -> seq<string>): (r: Result<string, ZoneError>)
    ensures r == Failure(LongitudeOutOfRange) <==> !LongitudeInRange(lon)
    ensures r == Failure(LatitudeOutOfRange) <==> LongitudeInRange(lon) && !LatitudeInRange(lat)
    ensures r.Success? <==> LongitudeInRange(lon) && LatitudeInRange(lat) && |queryUtmNames(lon, lat)| > 0
    ensures r == Failure(NoUtmCrsFound) <==>
      LongitudeInRange(lon) && LatitudeInRange(lat) && |queryUtmNames(lon, lat)| == 0
    ensures r.Success? ==> ' ' !in r.value && r.value == LastField(queryUtmNames(lon, lat)[0])
  {
    if !LongitudeInRange(lon) then Failure(LongitudeOutOfRange)
    else if !LatitudeInRange(lat) then Failure(LatitudeOutOfRange)
    else
      var names := queryUtmNames(lon, lat);
      if |names| == 0 then Failure(NoUtmCrsFound)
      else Success(LastField(names[0]))
  }

  // ---------------------------------------------------------------------------
  // Decimal integers: Python's int(str) and str(int)

  predicate IsDigit(c: char) { '0' <= c <= '9' }

  predicate AllDigits(s: string) { forall i | 0 <= i < |s| :: IsDigit(s[i]) }

  function DigitValue(c: char): nat
    requires IsDigit(c)
  {
    c as int - '0' as int
  }

  function DigitChar(d: nat): (c: char)
    requires d < 10
    ensures IsDigit(c) && DigitValue(c) == d
  {
    ('0' as int + d) as char
  }

  /** The value of a non-empty string of decimal digits. */
  function DigitsValue(s: string): nat
    requires |s| > 0 && AllDigits(s)
  {
    if |s| == 1 then DigitValue(s[0])
    else DigitsValue(s[..|s| - 1]) * 10 + DigitValue(s[|s| - 1])
  }

  /** Python's int(s) on a string: an optional sign followed by one or more decimal digits. */
  function ParseInt(s: string): Option<int> {
    if |s| > 0 && (s[0] == '+' || s[0] == '-') then
      var digits := s[1..];
      if |digits| > 0 && AllDigits(digits) then
        var n: int := DigitsValue(digits);
        Some(if s[0] == '-' then -n else n)
      else None
    else if |s| > 0 && AllDigits(s) then Some(DigitsValue(s))
    else None
  }

  /** The decimal digits of `n`, without leading zeros. */
  function ShowNat(n: nat): (s: string)
    ensures |s| > 0 && AllDigits(s)
    ensures |s| > 1 ==> s[0] != '0'
  {
    if n < 10 then [DigitChar(n)]
    else ShowNat(n / 10) + [DigitChar(n % 10)]
  }

  /** Python's str(n) for an integer. */
  function ShowInt(n: int): (s: string)
    ensures |s| > 0
    ensures s[0] == '-' <==> n < 0
    ensures n >= 0 ==> AllDigits(s)
    ensures n < 0 ==> AllDigits(s[1..])
    ensures |s| > 1 ==> s[0] != '0'
    ensures n < 0 ==> s[1..] == ShowNat(-n)
  {
    if n < 0 then "-" + ShowNat(-n) else ShowNat(n)
  }

  lemma {:induction false} DigitsValueOfShowNat(n: nat)
    ensures DigitsValue(ShowNat(n)) == n
  {
    if n >= 10 {
      var s := ShowNat(n);
      assert s[..|s| - 1] == ShowNat(n / 10);
      DigitsValueOfShowNat(n / 10);
    }
  }

  /** int(str(n)) == n. */
  lemma ParseShowInt(n: int)
    ensures ParseInt(ShowInt(n)) == Some(n)
  {
    if n < 0 {
      DigitsValueOfShowNat(-n);
      assert ShowInt(n)[1..] == ShowNat(-n);
    } else {
      DigitsValueOfShowNat(n);
    }
  }

  /** str is injective on integers. */
  lemma ShowIntInjective(m: int, n: int)
    requires ShowInt(m) == ShowInt(n)
    ensures m == n
  {
    ParseShowInt(m);
    ParseShowInt(n);
  }

  /** A leading zero does not change the value of a digit string. */
  lemma {:induction false} LeadingZero(s: string)
    requires |s| > 0 && AllDigits(s)
    ensures AllDigits("0" + s) && DigitsValue("0" + s) == DigitsValue(s)
  {
    var z := "0" + s;
    if |s| > 1 {
      assert z[..|z| - 1] == "0" + s[..|s| - 1];
      LeadingZero(s[..|s| - 1]);
    }
  }

  // ---------------------------------------------------------------------------
  // utm_to_epsg

  /** str.upper() on one character: ASCII lower-case letters become upper-case. */
  function Upper(c: char): (r: char)
    ensures !('a' <= r <= 'z')
    ensures !('a' <= c <= 'z') ==> r == c
    ensures 'a' <= c <= 'z' ==> 'A' <= r <= 'Z' && r as int - 'A' as int == c as int - 'a' as int
  {
    if 'a' <= c <= 'z' then (c as int - 32) as char else c
  }

  /** The first EPSG code of the WGS 84 / UTM northern (32601..32660) and southern
      (32701..32760) series. */
  const NorthBase := 32600
  const SouthBase := 32700

  /** The CRS database's lookup of "WGS 84 / UTM Zone <zone>": the registry holds one entry for
      each zone number 1..60 and hemisphere N or S, named by the number's decimal form without
      leading zeros followed by the letter. Entries from zone `from` on are searched. */
  function RegistryFrom(zone: string, from: nat): (r: Option<int>)
    ensures r.Some? ==>
      (NorthBase + from <= r.value <= NorthBase + 60) || (SouthBase + from <= r.value <= SouthBase + 60)
    decreases 61 - from
  {
    if from > 60 then None
    else if zone == ShowInt(from) + "N" then Some(NorthBase + from)
    else if zone == ShowInt(from) + "S" then Some(SouthBase + from)
    else RegistryFrom(zone, from + 1)
  }

  function UtmZoneEpsg(zone: string): (r: Option<int>)
    ensures r.Some? ==> 32601 <= r.value <= 32660 || 32701 <= r.value <= 32760
  {
    RegistryFrom(zone, 1)
  }

  /** The zone string as utm_to_epsg normalises it: str(int(utm[:-1])) + utm[-1].upper(). */
  function NormaliseZone(utm: string): (r: Result<string, ZoneError>)
    ensures r.Failure? <==> |utm| == 0 || ParseInt(utm[..|utm| - 1]).None?
    ensures r.Failure? ==> r.error == NotAnInteger
    ensures r.Success? ==>
      && |r.value| >= 2
      && ParseInt(r.value[..|r.value| - 1]) == ParseInt(utm[..|utm| - 1])
      && r.value[|r.value| - 1] == Upper(utm[|utm| - 1])
      && !('a' <= r.value[|r.value| - 1] <= 'z')
    ensures r.Success? ==> r.value[..|r.value| - 1] == ShowInt(ParseInt(utm[..|utm| - 1]).value)
    ensures r.Success? && |r.value| > 2 ==> r.value[0] != '0'
    ensures r.Success? && r.value[0] == '-' && |r.value| > 3 ==> r.value[1] != '0'
  {
    if |utm| == 0 then Failure(NotAnInteger)
    else match ParseInt(utm[..|utm| - 1])
      case None => Failure(NotAnInteger)
      case Some(n) =>
      var zone := ShowInt(n) + [Upper(utm[|utm| - 1])];
      assert zone[..|zone| - 1] == ShowInt(n);
      ParseShowInt(n);
      Success(zone)
  }

  /** Normalisation forgets how the zone was written: two strings whose number parts read as
      the same integer and whose last characters upper-case alike normalise to the same zone. */
  lemma NormaliseZoneCanonical(u: string, v: string)
    requires |u| > 0 && |v| > 0
    requires ParseInt(u[..|u| - 1]).Some? && ParseInt(u[..|u| - 1]) == ParseInt(v[..|v| - 1])
    requires Upper(u[|u| - 1]) == Upper(v[|v| - 1])
    ensures NormaliseZone(u).Success? && NormaliseZone(u) == NormaliseZone(v)
  {
    var zu, zv := NormaliseZone(u).value, NormaliseZone(v).value;
    assert zu == zu[..|zu| - 1] + [zu[|zu| - 1]];
    assert zv == zv[..|zv| - 1] + [zv[|zv| - 1]];
  }

  /** utm_to_epsg. */
  function UtmToEpsg(utm: string): (r: Result<int, ZoneError>)
    ensures r.Success? ==> 32601 <= r.value <= 32660 || 32701 <= r.value <= 32760
    ensures r == Failure(NotAnInteger) <==> |utm| == 0 || ParseInt(utm[..|utm| - 1]).None?
  {
    match NormaliseZone(utm)
    case Failure(e) => Failure(e)
    case Success(zone) =>
      match UtmZoneEpsg(zone)
      case None => Failure(UnknownCrs)
      case Some(code) => Success(code)
  }

  /** The reference reading of utm_to_epsg: the zone number is the integer value of everything
      but the last character, the hemisphere the upper-cased last character; zones 1..60 in
      hemisphere N give 32600 + zone, in hemisphere S 32700 + zone, and anything else fails. */
  function ZoneCode(zone: int, hemisphere: char): Option<int> {
    if 1 <= zone <= 60 && hemisphere == 'N' then Some(NorthBase + zone)
    else if 1 <= zone <= 60 && hemisphere == 'S' then Some(SouthBase + zone)
    else None
  }

  lemma {:induction false} RegistryFromCanonical(zone: int, h: char, from: nat)
    requires from >= 1
    ensures RegistryFrom(ShowInt(zone) + [h], from)
         == if zone >= from then ZoneCode(zone, h) else None
    decreases 61 - from
  {
    if from <= 60 {
      var name := ShowInt(zone) + [h];
      if name == ShowInt(from) + "N" || name == ShowInt(from) + "S" {
        assert name[..|name| - 1] == ShowInt(from) by {
          var other := if name == ShowInt(from) + "N" then ShowInt(from) + "N" else ShowInt(from) + "S";
          assert other[..|other| - 1] == ShowInt(from);
        }
        assert name[..|name| - 1] == ShowInt(zone);
        ShowIntInjective(zone, from);
      } else {
        assert zone != from || (h != 'N' && h != 'S');
      }
      RegistryFromCanonical(zone, h, from + 1);
    }
  }

  /** utm_to_epsg agrees with the reference reading on every string. */
  lemma UtmToEpsgMeaning(utm: string)
    ensures UtmToEpsg(utm) ==
      if |utm| == 0 || ParseInt(utm[..|utm| - 1]).None? then Failure(NotAnInteger)
      else match ZoneCode(ParseInt(utm[..|utm| - 1]).value, Upper(utm[|utm| - 1]))
        case None => Failure(UnknownCrs)
        case Some(code) => Success(code)
  {
    if |utm| > 0 && ParseInt(utm[..|utm| - 1]).Some? {
      var n := ParseInt(utm[..|utm| - 1]).value;
      RegistryFromCanonical(n, Upper(utm[|utm| - 1]), 1);
    }
  }

  /** int() of a plain string of digits is its value. */
  lemma ParseDigits(s: string)
    requires |s| > 0 && AllDigits(s)
    ensures ParseInt(s) == Some(DigitsValue(s))
  {
    assert IsDigit(s[0]);
  }

  /** Leading zeros in the zone number are ignored: "01N" is "1N". */
  lemma UtmIgnoresLeadingZero(utm: string)
    requires |utm| >= 2 && AllDigits(utm[..|utm| - 1])
    ensures UtmToEpsg("0" + utm) == UtmToEpsg(utm)
  {
    var z := "0" + utm;
    var digits := utm[..|utm| - 1];
    assert z[..|z| - 1] == "0" + digits;
    assert z[|z| - 1] == utm[|utm| - 1];
    LeadingZero(digits);
    ParseDigits(digits);
    ParseDigits("0" + digits);
    UtmToEpsgMeaning(utm);
    UtmToEpsgMeaning(z);
  }

  /** The case of the hemisphere letter is ignored: "1n" is "1N". */
  lemma UtmIgnoresLetterCase(zone: string, c: char)
    ensures UtmToEpsg(zone + [c]) == UtmToEpsg(zone + [Upper(c)])
  {
    var a, b := zone + [c], zone + [Upper(c)];
    assert a[..|a| - 1] == zone && b[..|b| - 1] == zone;
    UtmToEpsgMeaning(a);
    UtmToEpsgMeaning(b);
  }

  lemma ParseOneDigit(c: char)
    requires IsDigit(c)
    ensures ParseInt([c]) == Some(DigitValue(c))
  {
  }

  lemma ParseTwoDigits(c: char, d: char)
    requires IsDigit(c) && IsDigit(d)
    ensures ParseInt([c, d]) == Some(10 * DigitValue(c) + DigitValue(d))
  {
    var s := [c, d];
    assert AllDigits(s);
    assert s[..1] == [c];
    assert DigitsValue(s) == DigitsValue([c]) * 10 + DigitValue(d);
  }

  lemma ParseThreeDigits(c: char, d: char, e: char)
    requires IsDigit(c) && IsDigit(d) && IsDigit(e)
    ensures ParseInt([c, d, e]) == Some(100 * DigitValue(c) + 10 * DigitValue(d) + DigitValue(e))
  {
    var s := [c, d, e];
    assert AllDigits(s);
    assert s[..2] == [c, d] && s[..2][..1] == [c];
    assert DigitsValue(s) == DigitsValue([c, d]) * 10 + DigitValue(e);
    assert DigitsValue([c, d]) == DigitsValue([c]) * 10 + DigitValue(d);
  }

  /** The zone of a string made of a number and a letter, through the reference reading. */
  lemma UtmOfNumberAndLetter(number: string, letter: char, n: int)
    requires ParseInt(number) == Some(n)
    ensures UtmToEpsg(number + [letter]) == match ZoneCode(n, Upper(letter))
        case None => Failure(UnknownCrs)
        case Some(code) => Success(code)
  {
    var u := number + [letter];
    assert u[..|u| - 1] == number;
    UtmToEpsgMeaning(u);
  }

  /** Zone 1: "1N", "01n" and "1S". */
  lemma UtmZoneOneExamples()
    ensures UtmToEpsg("1N") == Success(32601) && UtmToEpsg("01n") == Success(32601)
    ensures UtmToEpsg("1S") == Success(32701)
  {
    ParseOneDigit('1');
    UtmOfNumberAndLetter("1", 'N', 1);
    assert "1" + ['N'] == "1N";
    UtmOfNumberAndLetter("1", 'S', 1);
    assert "1" + ['S'] == "1S";
    ParseTwoDigits('0', '1');
    UtmOfNumberAndLetter("01", 'n', 1);
    assert "01" + ['n'] == "01n";
  }

  /** Zone 60, the last one: "60N" and "60S". */
  lemma UtmZoneSixtyExamples()
    ensures UtmToEpsg("60N") == Success(32660) && UtmToEpsg("60S") == Success(32760)
  {
    ParseTwoDigits('6', '0');
    UtmOfNumberAndLetter("60", 'N', 60);
    assert "60" + ['N'] == "60N";
    UtmOfNumberAndLetter("60", 'S', 60);
    assert "60" + ['S'] == "60S";
  }

  /** Zone 8 south: "08s" and "8S". */
  lemma UtmZoneEightExamples()
    ensures UtmToEpsg("08s") == Success(32708) && UtmToEpsg("8S") == Success(32708)
  {
    ParseTwoDigits('0', '8');
    UtmOfNumberAndLetter("08", 's', 8);
    assert "08" + ['s'] == "08s";
    ParseOneDigit('8');
    UtmOfNumberAndLetter("8", 'S', 8);
    assert "8" + ['S'] == "8S";
  }

  /** Zone numbers outside 1..60 and hemisphere letters other than N and S are unknown CRSs. */
  lemma UtmUnknownZoneExamples()
    ensures UtmToEpsg("61N") == Failure(UnknownCrs) && UtmToEpsg("61E") == Failure(UnknownCrs)
    ensures UtmToEpsg("100N") == Failure(UnknownCrs) && UtmToEpsg("0N") == Failure(UnknownCrs)
  {
    ParseTwoDigits('6', '1');
    UtmOfNumberAndLetter("61", 'N', 61);
    assert "61" + ['N'] == "61N";
    UtmOfNumberAndLetter("61", 'E', 61);
    assert "61" + ['E'] == "61E";
    ParseThreeDigits('1', '0', '0');
    UtmOfNumberAndLetter("100", 'N', 100);
    assert "100" + ['N'] == "100N";
    ParseOneDigit('0');
    UtmOfNumberAndLetter("0", 'N', 0);
    assert "0" + ['N'] == "0N";
  }

  /** A zone number that int() cannot read fails before the lookup. */
  lemma UtmNotANumberExamples()
    ensures UtmToEpsg("N") == Failure(NotAnInteger) && UtmToEpsg("xN") == Failure(NotAnInteger)
  {
    UtmToEpsgMeaning("N");
    assert "xN"[..1] == "x";
    UtmToEpsgMeaning("xN");
  }
}
