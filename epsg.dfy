/**
 * The WGS 84 / UTM coordinate-system code that `get_epsg_code`
 * (src/utils.py:65-67) derives from a point, and the two neighbouring codes
 * `fetch_image` falls back on (src/utils.py:50-53).
 *
 * Latitude and longitude are exact reals here; Python's float `%` and `//`
 * are written out with `Floor` (floored, as Python's are).
 */
module Epsg {
  import opened Decimal

  /** Python's `x % 360` on a real: floored, so the result is never negative. */
  function Mod360(x: real): (r: real)
    ensures 0.0 <= r < 360.0
    ensures (x - r) / 360.0 == ((x - r) / 360.0).Floor as real
  {
    var q := (x / 360.0).Floor;
    assert q as real <= x / 360.0 < q as real + 1.0;
    x - 360.0 * q as real
  }

  /** `int(((lon + 180) % 360) // 6) + 1`: the 6-degree UTM zone of a longitude. */
  function UtmZone(lon: real): (zone: int)
    ensures 1 <= zone <= 60
    ensures (zone - 1) as real * 6.0 <= Mod360(lon + 180.0) < zone as real * 6.0
  {
    var shifted := Mod360(lon + 180.0);
    var z := (shifted / 6.0).Floor;
    assert z as real <= shifted / 6.0 < z as real + 1.0;
    z + 1
  }

  /** The hemisphere digit `d`: 6 on or north of the equator, 7 south of it. */
  function HemisphereDigit(lat: real): (d: nat)
    ensures d == 6 || d == 7
  {
    if lat >= 0.0 then 6 else 7
  }

  /** The text `f"32{d}{zone:02d}"` that `get_epsg_code` hands to `int`. */
  function EpsgText(lat: real, lon: real): (s: string)
    ensures |s| == 5 && AllDigits(s)
  {
    "32" + NatToString(HemisphereDigit(lat)) + Pad2(UtmZone(lon))
  }

  /**
   * `get_epsg_code(lat, lon)`: 326zz north of the equator (lat >= 0) and
   * 327zz south of it, zz being the UTM zone of the longitude.
   */
  function EpsgCode(lat: real, lon: real): (code: nat)
    ensures lat >= 0.0 ==> code == 32600 + UtmZone(lon)
    ensures lat < 0.0 ==> code == 32700 + UtmZone(lon)
    ensures lat >= 0.0 ==> 32601 <= code <= 32660
    ensures lat < 0.0 ==> 32701 <= code <= 32760
  {
    var s := EpsgText(lat, lon);
    EpsgTextValue(lat, lon);
    Value(s)
  }

  lemma EpsgTextValue(lat: real, lon: real)
    ensures Value(EpsgText(lat, lon)) == 32000 + 100 * HemisphereDigit(lat) + UtmZone(lon)
  {
    var d := HemisphereDigit(lat);
    var zone := UtmZone(lon);
    var head := "32" + NatToString(d);
    HeadValue(d);
    Pad2RoundTrip(zone);
    ValueConcat(head, Pad2(zone));
    assert Pow10(|Pad2(zone)|) == 100;
  }

  /** `"32"` followed by the hemisphere digit reads back as 320 + d. */
  lemma HeadValue(d: nat)
    requires d < 10
    ensures AllDigits("32" + NatToString(d))
    ensures Value("32" + NatToString(d)) == 320 + d
  {
    assert Value("32") == 32 by {
      assert "32"[..1] == "3";
      assert "3"[..0] == [];
      DigitRoundTrip(3);
      DigitRoundTrip(2);
    }
    NatToStringRoundTrip(d);
    ValueConcat("32", NatToString(d));
  }

  /** The neighbouring codes `epsg_code - 1` and `epsg_code + 1` used for geom_l and geom_r. */
  function LowerCode(code: int): (c: int)
    ensures c + 1 == code
  {
    code - 1
  }

  function UpperCode(code: int): (c: int)
    ensures c - 1 == code
  {
    code + 1
  }

  predicate IsUtmCode(code: int) {
    32601 <= code <= 32660 || 32701 <= code <= 32760
  }

  /**
   * The fallbacks are UTM codes of the neighbouring zones, in the same
   * hemisphere, except at the ends of the zone range: below zone 1 and above
   * zone 60 they leave the UTM range (there is no wrap-around across the
   * antimeridian).
   */
  lemma FallbackCodesAreNeighbourZones(lat: real, lon: real)
    ensures IsUtmCode(EpsgCode(lat, lon))
    ensures IsUtmCode(LowerCode(EpsgCode(lat, lon))) <==> UtmZone(lon) > 1
    ensures IsUtmCode(UpperCode(EpsgCode(lat, lon))) <==> UtmZone(lon) < 60
    ensures IsUtmCode(LowerCode(EpsgCode(lat, lon))) ==>
              LowerCode(EpsgCode(lat, lon)) == EpsgCode(lat, lon - 6.0)
    ensures IsUtmCode(UpperCode(EpsgCode(lat, lon))) ==>
              UpperCode(EpsgCode(lat, lon)) == EpsgCode(lat, lon + 6.0)
  {
    var zone := UtmZone(lon);
    if zone < 60 {
      ZoneOfEasternNeighbour(lon);
    }
    if zone > 1 {
      var m := Mod360(lon + 180.0);
      var m' := Mod360(lon - 6.0 + 180.0);
      // m' == m - 6, because both differ from lon + 180 by whole turns
      var k := (lon + 180.0 - m) / 360.0;
      var k' := (lon - 6.0 + 180.0 - m') / 360.0;
      assert k == k.Floor as real && k' == k'.Floor as real;
      assert m - 6.0 - m' == 360.0 * (k' - k);
      assert -1.0 < k' - k < 1.0;
      assert k'.Floor - k.Floor == 0;
      assert m' == m - 6.0;
      assert UtmZone(lon - 6.0) == zone - 1;
    }
  }

  /** Below zone 60, the point 6 degrees to the east lies in the next zone. */
  lemma ZoneOfEasternNeighbour(lon: real)
    requires UtmZone(lon) < 60
    ensures UtmZone(lon + 6.0) == UtmZone(lon) + 1
  {
    var m := Mod360(lon + 180.0);
    var m' := Mod360(lon + 6.0 + 180.0);
    var k := (lon + 180.0 - m) / 360.0;
    var k' := (lon + 6.0 + 180.0 - m') / 360.0;
    assert k == k.Floor as real && k' == k'.Floor as real;
    assert m + 6.0 - m' == 360.0 * (k' - k);
    assert -1.0 < k' - k < 1.0;
    assert k'.Floor - k.Floor == 0;
    assert m' == m + 6.0;
  }
}
