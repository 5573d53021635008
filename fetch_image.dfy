/**
 * `fetch_image` (src/utils.py:34-62): fetch every requested band of one
 * satellite item with `retry_fetch_write`, and report whether all of them
 * succeeded.
 *
 * The centroid of the bounding box is a parameter (computing it is shapely's
 * work); reprojecting the box to the three coordinate systems is left to the
 * geometry library, so a geometry is named by its code. `fetch(j)` is the
 * oracle for the retry loop of the j-th band.
 */
module FetchImage {
  import opened Retry
  import opened Naming
  import Epsg

  /** One call `retry_fetch_write(out_name, url, geom, geom_l, geom_r)`. */
  datatype BandCall = BandCall(outName: string, url: string)

  /**
   * How `fetch_image` ends: it returns `str(item)` after printing "success"
   * or "failure", or the lookup of a band's asset raises `KeyError`.
   */
  datatype ImageResult = Fetched(baseName: string, allSucceeded: bool) | MissingAsset(key: string)

  /** The EPSG code a geometry is expressed in: `epsg_code`, `epsg_code - 1` or `epsg_code + 1`. */
  function CodeOf(g: Crs, code: int): (c: int)
    ensures c == code <==> g == Primary
    ensures g == Lower ==> c == code - 1
    ensures g == Upper ==> c == code + 1
  {
    match g
    case Primary => code
    case Lower => Epsg.LowerCode(code)
    case Upper => Epsg.UpperCode(code)
  }

  /**
   * The code each call of one run is made in: `epsg_code` until the first
   * ValueError, `epsg_code - 1` after it and `epsg_code + 1` after the second.
   */
  lemma RunCodes(fetch: nat -> Outcome, t: Trace, code: int)
    requires Characterizes(fetch, t)
    ensures forall i :: 0 <= i < |t.tried| ==>
              CodeOf(t.tried[i], code)
              == (if Count(fetch, ValueErr, i) == 0 then code
                  else if Count(fetch, ValueErr, i) == 1 then code - 1
                  else code + 1)
  {
    forall i | 0 <= i < |t.tried|
      ensures CodeOf(t.tried[i], code)
              == (if Count(fetch, ValueErr, i) == 0 then code
                  else if Count(fetch, ValueErr, i) == 1 then code - 1
                  else code + 1)
    {
      ValueErrorsBefore(fetch, t, i);
    }
  }

  /** The calls `retry_fetch_write(out_name, url, ...)` for the bands `bs`, in order; every key is present. */
  function CallsOf(item: string, assets: map<string, string>, bs: seq<int>): (calls: seq<BandCall>)
    requires forall j :: 0 <= j < |bs| ==> AssetKey(bs[j]) in assets
    ensures |calls| == |bs|
  {
    if bs == [] then []
    else
      var b := bs[|bs| - 1];
      CallsOf(item, assets, bs[..|bs| - 1]) + [BandCall(BandName(item, b), assets[AssetKey(b)])]
  }

  /** The j-th call writes `<item>_Bjj` from the URL of the j-th band's asset. */
  lemma {:induction false} CallsOfAt(item: string, assets: map<string, string>, bs: seq<int>, j: nat)
    requires forall j :: 0 <= j < |bs| ==> AssetKey(bs[j]) in assets
    requires j < |bs|
    ensures CallsOf(item, assets, bs)[j] == BandCall(BandName(item, bs[j]), assets[AssetKey(bs[j])])
  {
    if j < |bs| - 1 {
      CallsOfAt(item, assets, bs[..|bs| - 1], j);
    }
  }

  /** One more band whose key is present adds its call at the end. */
  lemma CallsOfExtend(item: string, assets: map<string, string>, bands: seq<int>, i: nat)
    requires i < |bands| && forall j :: 0 <= j <= i ==> AssetKey(bands[j]) in assets
    ensures CallsOf(item, assets, bands[..i + 1])
         == CallsOf(item, assets, bands[..i]) + [BandCall(BandName(item, bands[i]), assets[AssetKey(bands[i])])]
  {
    assert bands[..i + 1][..i] == bands[..i];
  }

  /** `results[j]` is what the retry loop of the j-th band returned. */
  predicate ResultsFor(fetch: nat -> nat -> Outcome, results: seq<bool>) {
    forall j :: 0 <= j < |results| ==> results[j] == Run(fetch(j)).success
  }

  /** Every band's retry loop returned true: the aggregate `fetch_image` prints as "success". */
  predicate AllSucceeded(results: seq<bool>) {
    forall j :: 0 <= j < |results| ==> results[j]
  }

  lemma AllSucceededExtend(results: seq<bool>, ok: bool)
    ensures AllSucceeded(results + [ok]) == (AllSucceeded(results) && ok)
  {
    if AllSucceeded(results) && ok {
      forall j | 0 <= j < |results + [ok]|
        ensures (results + [ok])[j]
      {
        if j < |results| {
          assert (results + [ok])[j] == results[j];
        }
      }
    }
    if AllSucceeded(results + [ok]) {
      assert (results + [ok])[|results|] == ok;
      forall j | 0 <= j < |results|
        ensures results[j]
      {
        assert (results + [ok])[j] == results[j];
      }
    }
  }

  /** Whether the asset key of each band is present: `f"B{b:02}" in item.assets`. */
  function KeysPresent(assets: map<string, string>, bands: seq<int>): (present: seq<bool>)
    ensures |present| == |bands|
    ensures forall j :: 0 <= j < |bands| ==> present[j] == (AssetKey(bands[j]) in assets)
  {
    seq(|bands|, j requires 0 <= j < |bands| => AssetKey(bands[j]) in assets)
  }

  /** The position of the first false flag, or the number of flags. */
  function FirstFalse(flags: seq<bool>): (m: nat)
    ensures m <= |flags|
    ensures forall j :: 0 <= j < m ==> flags[j]
    ensures m < |flags| ==> !flags[m]
  {
    if flags == [] then 0
    else if !flags[0] then 0
    else 1 + FirstFalse(flags[1..])
  }

  /** The position of the first band whose asset is missing, or the number of bands. */
  function FirstMissing(assets: map<string, string>, bands: seq<int>): (m: nat)
    ensures m <= |bands|
    ensures forall j :: 0 <= j < m ==> AssetKey(bands[j]) in assets
    ensures m < |bands| ==> AssetKey(bands[m]) !in assets
  {
    FirstFalse(KeysPresent(assets, bands))
  }

  /** A position before which every key is present, and at which one is missing or the bands end, is `FirstMissing`. */
  lemma FirstMissingAt(assets: map<string, string>, bands: seq<int>, i: nat)
    requires i <= |bands| && forall j :: 0 <= j < i ==> AssetKey(bands[j]) in assets
    requires i < |bands| ==> AssetKey(bands[i]) !in assets
    ensures FirstMissing(assets, bands) == i
  {
  }

  /** The files written: `<out_name>.tif` for each call whose retry loop succeeded, in call order. */
  function WrittenFiles(calls: seq<BandCall>, results: seq<bool>): (files: seq<string>)
    requires |calls| == |results|
    ensures |files| <= |calls|
    ensures forall j :: 0 <= j < |calls| && results[j] ==> TifFile(calls[j].outName) in files
    ensures forall f :: f in files ==> exists j :: 0 <= j < |calls| && results[j] && f == TifFile(calls[j].outName)
  {
    if calls == [] then []
    else
      var rest := WrittenFiles(calls[1..], results[1..]);
      assert forall j :: 1 <= j < |calls| ==> calls[j] == calls[1..][j - 1] && results[j] == results[1..][j - 1];
      if results[0] then [TifFile(calls[0].outName)] + rest else rest
  }

  lemma ResultsExtend(fetch: nat -> nat -> Outcome, results: seq<bool>, ok: bool)
    requires ResultsFor(fetch, results) && ok == Run(fetch(|results|)).success
    ensures ResultsFor(fetch, results + [ok])
  {
  }

  /**
   * The band loop of src/utils.py:55-61: for each band in order, look up its
   * asset and run the retry loop, folding the results with a `&` that does
   * not short-circuit. A missing asset key stops the loop (`KeyError`).
   */
  method FetchBands(item: string, assets: map<string, string>, bands: seq<int>, fetch: nat -> nat -> Outcome)
    returns (success: bool, calls: seq<BandCall>, results: seq<bool>)
    ensures |calls| == |results| == FirstMissing(assets, bands)
    ensures calls == CallsOf(item, assets, bands[..|calls|]) && ResultsFor(fetch, results)
    ensures success == AllSucceeded(results)
  {
    success := true;
    calls, results := [], [];
    var i := 0;
    while i < |bands|
      invariant i <= |bands| && |calls| == |results| == i
      invariant forall j :: 0 <= j < i ==> AssetKey(bands[j]) in assets
      invariant calls == CallsOf(item, assets, bands[..i]) && ResultsFor(fetch, results)
      invariant success == AllSucceeded(results)
    {
      var b := bands[i];
      var outName := BandName(item, b);
      var key := AssetKey(b);
      if key !in assets {
        FirstMissingAt(assets, bands, i);
        return;
      }
      var url := assets[key];
      var ok, tried, delays := RetryFetchWrite(fetch(i));
      // `success & retry_fetch_write(...)`: the call is made whatever `success` already is
      success := success && ok;
      CallsOfExtend(item, assets, bands, i);
      ResultsExtend(fetch, results, ok);
      AllSucceededExtend(results, ok);
      calls := calls + [BandCall(outName, url)];
      results := results + [ok];
      i := i + 1;
    }
    FirstMissingAt(assets, bands, i);
  }

  /**
   * `fetch_image` (src/utils.py:45-62): the code of the box's centroid, then
   * the band loop; it returns `str(item)` whatever the bands' outcome, unless
   * an asset key is missing.
   */
  method FetchImage(item: string, assets: map<string, string>, bands: seq<int>,
                    lat: real, lon: real, fetch: nat -> nat -> Outcome)
    returns (result: ImageResult, epsg: int, calls: seq<BandCall>, results: seq<bool>)
    ensures epsg == Epsg.EpsgCode(lat, lon)
    ensures |calls| == |results| == FirstMissing(assets, bands)
    ensures calls == CallsOf(item, assets, bands[..|calls|]) && ResultsFor(fetch, results)
    ensures |calls| < |bands| ==> result == MissingAsset(AssetKey(bands[|calls|]))
    ensures |calls| == |bands| ==>
              result == Fetched(item, AllSucceeded(results))
  {
    epsg := Epsg.EpsgCode(lat, lon);
    var success;
    success, calls, results := FetchBands(item, assets, bands, fetch);
    if |calls| < |bands| {
      result := MissingAsset(AssetKey(bands[|calls|]));
    } else {
      result := Fetched(item, success);
    }
  }

  /**
   * Every band of a complete fetch has had its retry loop run, and the image
   * is reported as "success" exactly when every band's loop returned true.
   */
  lemma AllBandsTried(fetch: nat -> nat -> Outcome, results: seq<bool>)
    requires ResultsFor(fetch, results)
    ensures forall j :: 0 <= j < |results| ==>
              (results[j] <==> exists i :: 0 <= i < |Run(fetch(j)).tried| && fetch(j)(i) == Written)
    ensures forall j :: 0 <= j < |results| ==> 1 <= |Run(fetch(j)).tried| <= 6
  {
    forall j | 0 <= j < |results|
      ensures results[j] <==> exists i :: 0 <= i < |Run(fetch(j)).tried| && fetch(j)(i) == Written
      ensures 1 <= |Run(fetch(j)).tried| <= 6
    {
      RunCharacterized(fetch(j));
      SucceedsIffSomeCallWrote(fetch(j), Run(fetch(j)));
      CallBounds(fetch(j), Run(fetch(j)));
    }
  }

  /**
   * After a fetch in which every band succeeded, `rgbplot` on the returned
   * name finds the file of every single-digit band, and the file of no
   * band outside 0..9.
   */
  lemma RgbplotAfterFetch(item: string, bands: seq<int>, calls: seq<BandCall>, runs: seq<bool>)
    requires |calls| == |runs| == |bands|
    requires forall j :: 0 <= j < |calls| ==> calls[j].outName == BandName(item, bands[j])
    requires forall j :: 0 <= j < |runs| ==> runs[j]
    ensures forall b :: b in bands && 0 <= b <= 9 ==> RgbplotFile(item, b) in WrittenFiles(calls, runs)
    ensures forall b :: b in bands ==> RgbplotFileCorrected(item, b) in WrittenFiles(calls, runs)
    ensures forall b :: (b < 0 || b >= 10) ==> RgbplotFile(item, b) !in WrittenFiles(calls, runs)
  {
    var files := WrittenFiles(calls, runs);
    forall b | b in bands
      ensures RgbplotFileCorrected(item, b) in files
      ensures 0 <= b <= 9 ==> RgbplotFile(item, b) in files
    {
      var j :| 0 <= j < |bands| && bands[j] == b;
      RgbplotCorrectedMatches(item, b);
      RgbplotMatchesIffSingleDigit(item, b);
    }
    forall b | b < 0 || b >= 10
      ensures RgbplotFile(item, b) !in files
    {
      if RgbplotFile(item, b) in files {
        var j :| 0 <= j < |calls| && runs[j] && RgbplotFile(item, b) == TifFile(calls[j].outName);
        RgbplotMissesOtherBands(item, b, bands[j]);
      }
    }
  }
}
