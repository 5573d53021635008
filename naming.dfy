/**
 * The names under which `fetch_image` looks up and writes each band
 * (src/utils.py:57-58, 112) and the names `rgbplot` reads back
 * (src/utils.py:125). An item is represented by its text `str(item)`, which
 * is also what an f-string prints for it.
 */
module Naming {
  import opened Decimal

  /** `f"B{b:02}"`: the key of band b among the item's assets. */
  function AssetKey(b: int): string {
    "B" + Pad2(b)
  }

  /** `f"{item}_B{b:02}"`: the output name of band b. */
  function BandName(item: string, b: int): string {
    item + "_B" + Pad2(b)
  }

  /** `f"{out_name}.tif"`: the file `fetch_and_write` writes. */
  function TifFile(name: string): (file: string)
    ensures |file| == |name| + 4 && file[..|name|] == name
  {
    name + ".tif"
  }

  /** `f"{image_base_name}_B0{bandnum}.tif"`: the file `rgbplot` opens for a band, as written. */
  function RgbplotFile(base: string, b: int): string {
    base + "_B0" + IntToString(b) + ".tif"
  }

  /** The file `rgbplot` evidently means to open: the band padded as `fetch_image` pads it. */
  function RgbplotFileCorrected(base: string, b: int): string {
    base + "_B" + Pad2(b) + ".tif"
  }

  /**
   * The output name of a band is the item, an underscore and the band's
   * asset key; the key is `B` followed by the padded band number, which
   * reads back as the band for 0..99.
   */
  lemma NameCarriesKey(item: string, b: int)
    ensures BandName(item, b) == item + "_" + AssetKey(b)
    ensures AssetKey(b)[0] == 'B' && AssetKey(b)[1..] == Pad2(b)
    ensures 0 <= b < 100 ==> AllDigits(AssetKey(b)[1..]) && Value(AssetKey(b)[1..]) == b
  {
    assert AssetKey(b)[1..] == Pad2(b);
    if 0 <= b < 100 {
      Pad2RoundTrip(b);
    }
  }

  /** Different bands are looked up under different asset keys. */
  lemma AssetKeysDistinct(a: int, b: int)
    requires a != b
    ensures AssetKey(a) != AssetKey(b)
  {
    if AssetKey(a) == AssetKey(b) {
      assert AssetKey(a)[1..] == Pad2(a) && AssetKey(b)[1..] == Pad2(b);
      Pad2Injective(a, b);
    }
  }

  /** Equal decimal texts of non-negative ints are texts of equal numbers. */
  lemma NatToStringInjective(m: nat, n: nat)
    requires NatToString(m) == NatToString(n)
    ensures m == n
  {
    NatToStringRoundTrip(m);
    NatToStringRoundTrip(n);
  }

  /** The padded text reads back as the band: `int(f"{b:02}") == b` for b >= 0. */
  lemma Pad2Value(b: nat)
    ensures AllDigits(Pad2(b)) && Value(Pad2(b)) == b
  {
    NatToStringRoundTrip(b);
    if b < 10 {
      ValueConcat("0", NatToString(b));
      assert Value("0") == 0 by { assert "0"[..0] == []; DigitRoundTrip(0); }
    }
  }

  lemma Pad2Injective(a: int, b: int)
    requires Pad2(a) == Pad2(b)
    ensures a == b
  {
    if a >= 0 && b >= 0 {
      Pad2Value(a);
      Pad2Value(b);
    } else if a < 0 && b < 0 {
      assert Pad2(a)[1..] == NatToString(-a);
      assert Pad2(b)[1..] == NatToString(-b);
      NatToStringInjective(-a, -b);
    }
  }

  /** Different bands of one item are written to different files. */
  lemma BandNamesDistinct(item: string, a: int, b: int)
    requires a != b
    ensures BandName(item, a) != BandName(item, b)
    ensures TifFile(BandName(item, a)) != TifFile(BandName(item, b))
  {
    var prefix := item + "_B";
    if TifFile(BandName(item, a)) == TifFile(BandName(item, b)) {
      var fa, fb := TifFile(BandName(item, a)), TifFile(BandName(item, b));
      assert |Pad2(a)| == |Pad2(b)|;
      assert Pad2(a) == fa[|prefix|..|prefix| + |Pad2(a)|];
      assert Pad2(b) == fb[|prefix|..|prefix| + |Pad2(b)|];
      Pad2Injective(a, b);
    }
  }

  /**
   * `rgbplot` opens the file `fetch_image` wrote for the same band exactly
   * when the band is a single digit, 0..9.
   */
  lemma RgbplotMatchesIffSingleDigit(item: string, b: int)
    ensures RgbplotFile(item, b) == TifFile(BandName(item, b)) <==> 0 <= b <= 9
  {
    if b >= 10 || b < 0 {
      // the reader's name is one character longer than the writer's
      assert |RgbplotFile(item, b)| == |TifFile(BandName(item, b))| + 1;
    }
  }

  /**
   * For a band outside 0..9 the file `rgbplot` opens is not the file
   * `fetch_image` wrote for ANY band of the item: the reader's text after
   * `_B` starts with a zero followed by two or more characters, which no
   * padded band number does.
   */
  lemma RgbplotMissesOtherBands(item: string, b: int, c: int)
    requires b >= 10 || b < 0
    ensures RgbplotFile(item, b) != TifFile(BandName(item, c))
  {
    PaddedNeverZeroLed(b, c);
    FileShapes(item, b, c);
    if RgbplotFile(item, b) == TifFile(BandName(item, c)) {
      MiddlesEqual(item + "_B", "0" + IntToString(b), Pad2(c), ".tif");
    }
  }

  /** Both names are `<item>_B`, a middle part and `.tif`. */
  lemma FileShapes(item: string, b: int, c: int)
    ensures RgbplotFile(item, b) == (item + "_B") + ("0" + IntToString(b)) + ".tif"
    ensures TifFile(BandName(item, c)) == (item + "_B") + Pad2(c) + ".tif"
  {
  }

  /** No padded band reads as a zero followed by the text of a band outside 0..9. */
  lemma PaddedNeverZeroLed(b: int, c: int)
    requires b >= 10 || b < 0
    ensures Pad2(c) != "0" + IntToString(b)
  {
    if 0 <= c < 10 {
      assert |Pad2(c)| == 2 < |"0" + IntToString(b)|;
    } else if c >= 10 {
      assert Pad2(c)[0] != '0';
    } else {
      assert Pad2(c)[0] == '-';
    }
  }

  lemma MiddlesEqual(p: string, x: string, y: string, q: string)
    requires p + x + q == p + y + q
    ensures x == y
  {
    var s, t := p + x + q, p + y + q;
    assert |x| == |y|;
    assert x == s[|p|..|p| + |x|];
    assert y == t[|p|..|p| + |y|];
  }

  /** The corrected reader opens the file written for the band, whatever the band. */
  lemma RgbplotCorrectedMatches(item: string, b: int)
    ensures RgbplotFileCorrected(item, b) == TifFile(BandName(item, b))
    ensures b == 11 ==> RgbplotFile(item, b) != RgbplotFileCorrected(item, b)
  {
    RgbplotMatchesIffSingleDigit(item, b);
  }
}
