# Sentinel-2 band fetching: a verified model

This project models the core of `src/utils.py`, which fetches Sentinel-2
imagery for a bounding box:

- `retry_fetch_write` fetches one band. It falls back from the box's primary
  WGS 84 / UTM coordinate system to the two neighbouring zones when the
  masking raises `ValueError`. It backs off exponentially on any other
  failure.
- `get_epsg_code` derives the EPSG code of the UTM zone of a point.
- `fetch_image` runs the retry loop for every requested band and reports
  whether all of them succeeded.
- The band file names are shared between the writer (`fetch_image`) and the
  reader (`rgbplot`).

Modules:

- `Decimal` (decimal.dfy): Python's `str(n)`, the `:02` format spec and
  `int(s)` on decimal digits, with the round trips between them.
- `Epsg` (epsg.dfy): `get_epsg_code` and the fallback codes `code - 1` and
  `code + 1`.
- `Retry` (retry.dfy): `retry_fetch_write`, written as an imperative loop over
  the source's four loop variables. The loop is proved against a recursive
  reference `Run`. `Run` is in turn proved equal to an independent
  description, `Characterizes`, stated in terms of the outcomes of the calls
  alone. The properties of a run are proved from that description.
- `Naming` (naming.dfy): the asset keys and output names `fetch_image`
  builds, and the file name `rgbplot` opens.
- `FetchImage` (fetch_image.dfy): the band loop of `fetch_image` and its
  result.

`fetch_and_write` is an oracle. For one run of the retry loop, `fetch(n)`
says how the n-th call ends: `Written`, `ValueErr` or `OtherErr`. The loop
is deterministic, so every environment is described by such a stream,
including one that reacts to the geometry it is handed. `fetch_image` takes
one stream per band position. A geometry is named by the coordinate system
it is expressed in (`Primary`, `Lower`, `Upper`, standing for `geom`,
`geom_l` and `geom_r`). `time.sleep(2 ** retries)` is recorded as the list
of waits.

`rgbplot` (src/utils.py:125) opens `<base>_B0<band>.tif`. The model's
written files follow the writer: `f"{item}_B{b:02}"` (src/utils.py:57) with
`.tif` appended (src/utils.py:112).

## Model

| member | source | states |
|---|---|---|
| Decimal.NatToString | src/utils.py:67 | the decimal text of n is all digits and non-empty, one character exactly when n < 10, and starts with '0' only for 0 |
| Decimal.IntToString | src/utils.py:125 | `str(n)` starts with '-' exactly when n is negative; it reads back as n when n >= 0, and the digits after the '-' read back as -n otherwise |
| Decimal.Pad2 | src/utils.py:57 | `f"{n:02}"`: a zero before the digit of 0..9, the plain `str(n)` otherwise, so two digits for every n in 0..99 |
| Decimal.Value | src/utils.py:67 | `int(s)` of a digit string is below 10 to the power of its length |
| Decimal.NatToStringRoundTrip | src/utils.py:67 | `int(str(n)) == n` for every n >= 0 |
| Decimal.ValueConcat | src/utils.py:67 | the value of a concatenation of digit strings is the value of the head shifted by the length of the tail, plus the tail's value |
| Decimal.Pad2RoundTrip | src/utils.py:67 | `int(f"{n:02}") == n` for 0 <= n < 100 |
| Epsg.Mod360 | src/utils.py:67 | Python's floored `x % 360` lies in [0, 360) and differs from x by a whole number of turns |
| Epsg.UtmZone | src/utils.py:67 | the zone `((lon + 180) % 360) // 6 + 1` is in 1..60, and the shifted longitude lies in its 6-degree band |
| Epsg.HemisphereDigit | src/utils.py:66 | the hemisphere digit is 6 or 7 |
| Epsg.EpsgText | src/utils.py:67 | the text handed to `int` is five decimal digits |
| Epsg.EpsgCode | src/utils.py:65-67 | the code is 32600 + zone when lat >= 0 and 32700 + zone otherwise, so it lies in 32601..32660 or 32701..32760 |
| Epsg.EpsgTextValue | src/utils.py:67 | the formatted text reads back as 32000 + 100 * d + zone |
| Epsg.LowerCode | src/utils.py:51 | the code of `geom_l` is one below the primary code |
| Epsg.UpperCode | src/utils.py:52 | the code of `geom_r` is one above the primary code |
| Epsg.FallbackCodesAreNeighbourZones | src/utils.py:50-53 | the primary code is a UTM code; code - 1 is one exactly when the zone is above 1, and code + 1 exactly when it is below 60; a UTM code - 1 is the code of the point 6 degrees to the west, and a UTM code + 1 that of the point 6 degrees to the east |
| Epsg.ZoneOfEasternNeighbour | src/utils.py:67 | below zone 60 the point 6 degrees to the east lies in the next zone |
| Retry.Step | src/utils.py:75-92 | one pass of the loop body after the call ended with the given outcome; its properties are in `Retry.CountersIndependent` and `Retry.StepShrinksBudget` |
| Retry.Run | src/utils.py:70-93 | the reference meaning of one `retry_fetch_write` call, the loop run from its initial variables; `Retry.RunCharacterized` describes it |
| Retry.StepShrinksBudget | src/utils.py:74-92 | every pass through the loop body that leaves the loop running shrinks a natural-number measure, so the loop terminates |
| Retry.RetryFetchWrite | src/utils.py:70-93 | the loop returns, and records, exactly what the reference `Run` says about the oracle |
| Retry.LoopStep | src/utils.py:74-92 | one pass of the loop is one step of the reference `Loop` |
| Retry.Count | src/utils.py:78-91 | the number of calls among the first n that ended a given way is at most n |
| Retry.Geometries | src/utils.py:80-85 | there is one geometry for each call |
| Retry.GeometryOfCall | src/utils.py:80-85 | call i uses the fallback chosen by the number of ValueErrors before it |
| Retry.Backoff | src/utils.py:91-92 | there is one wait for each transient failure |
| Retry.StepKeepsConsistent | src/utils.py:74-92 | a pass that does not end the loop keeps the counters equal to the counts of each outcome, and the call it made does not stop the loop |
| Retry.LastStepCharacterized | src/utils.py:74-93 | the pass that ends the loop leaves a run described by `Characterizes` |
| Retry.LoopCharacterized | src/utils.py:74-93 | from any state consistent with the outcomes so far, the loop's result is described by `Characterizes` |
| Retry.RunCharacterized | src/utils.py:70-93 | every run: calls continue up to the first stopping call and no further; success exactly when that call wrote; the geometries follow the fallback chain; one wait per transient failure |
| Retry.CountMonotone | src/utils.py:78-91 | outcome counts never decrease as calls are added |
| Retry.CountsAddUp | src/utils.py:75-91 | every call ends in exactly one of the three ways |
| Retry.CountsWhileRunning | src/utils.py:74 | while the loop runs, no call has written, at most two were ValueErrors and at most three were other failures |
| Retry.SucceedsIffSomeCallWrote | src/utils.py:71-93 | the result is true exactly when some call completed, and no call follows that one |
| Retry.CountsAtStop | src/utils.py:74-91 | the first stopping call is at most the sixth, after at most three ValueErrors and four other failures |
| Retry.CallBounds | src/utils.py:74-92 | a run makes 1 to 6 calls, with at most 3 ValueErrors, at most 4 other failures, and one wait per other failure |
| Retry.ValueErrorsBefore | src/utils.py:80-88 | before any call of a run at most two ValueErrors have happened, and the call uses the geometry they select |
| Retry.FallbackOrder | src/utils.py:80-88 | the first call uses `geom`; a ValueError on `geom` moves to `geom_l`, one on `geom_l` moves to `geom_r`; any other outcome keeps the geometry |
| Retry.ThirdValueErrorGivesUp | src/utils.py:86-88 | a ValueError on `geom_r` is the third, the last call of the run, and the run returns false |
| Retry.NeverBackToPrimary | src/utils.py:80-85 | once a fallback geometry is used, no later call uses the primary one |
| Retry.Pow2Increasing | src/utils.py:92 | 2^i < 2^j when i < j |
| Retry.BackoffDoubles | src/utils.py:91-92 | the k-th transient failure is followed by a wait of 2^k seconds, and the waits strictly increase |
| Retry.RunWaits | src/utils.py:89-92 | a run waits at most four times, 2, 4, 8, 16 seconds in order, the last wait included |
| Retry.CountersIndependent | src/utils.py:78-91 | a ValueError that does not end the loop leaves `retries` alone; the third ends the loop; a transient failure leaves `epsg_tries` and the geometry alone |
| Retry.CharacterizationUnique | src/utils.py:70-93 | `Characterizes` admits exactly one trace for an oracle |
| Retry.TransientFailuresExhaustRetries | src/utils.py:89-93 | five transient failures in a row: four calls on `geom`, waits of 2, 4, 8, 16 seconds, result false |
| Retry.SecondFallbackSucceeds | src/utils.py:78-85 | two ValueErrors and then success: calls on `geom`, `geom_l`, `geom_r`, no waits, result true |
| Retry.SixCallsReached | src/utils.py:74-92 | two ValueErrors followed by other failures make six calls, so the bound of six is tight |
| Naming.AssetKey | src/utils.py:58 | the asset key `f"B{b:02}"`; its properties are in `Naming.NameCarriesKey` and `Naming.AssetKeysDistinct` |
| Naming.BandName | src/utils.py:57 | the output name `f"{item}_B{b:02}"`; its properties are in `Naming.NameCarriesKey` and `Naming.BandNamesDistinct` |
| Naming.TifFile | src/utils.py:112 | the written file is the output name followed by four more characters, `.tif` |
| Naming.RgbplotFile | src/utils.py:125 | the name `rgbplot` opens, as written; `Naming.RgbplotMatchesIffSingleDigit` and `Naming.RgbplotMissesOtherBands` compare it with the written files |
| Naming.NameCarriesKey | src/utils.py:57-58 | the output name is the item, '_' and the asset key; the key is 'B' and the padded band, which reads back as the band for 0..99 |
| Naming.AssetKeysDistinct | src/utils.py:58 | different bands are looked up under different asset keys |
| Naming.NatToStringInjective | src/utils.py:57 | equal decimal texts come from equal numbers |
| Naming.Pad2Value | src/utils.py:57 | `int(f"{b:02}") == b` for every b >= 0 |
| Naming.Pad2Injective | src/utils.py:57 | different bands have different padded texts |
| Naming.BandNamesDistinct | src/utils.py:57-59 | different bands of one item are written to different files |
| Naming.RgbplotMatchesIffSingleDigit | src/utils.py:125 | `rgbplot` opens the file `fetch_image` wrote (src/utils.py:57) for the same band exactly when the band is 0..9 |
| Naming.RgbplotMissesOtherBands | src/utils.py:125 | for a band outside 0..9 the file `rgbplot` opens was written for no band at all |
| Naming.PaddedNeverZeroLed | src/utils.py:125 | no padded band text equals a zero followed by the text of a band outside 0..9 |
| Naming.RgbplotFileCorrected | src/utils.py:125 | the name `rgbplot` evidently means to open, with the band padded as the writer pads it; `Naming.RgbplotCorrectedMatches` proves it is the written file for every band |
| Naming.RgbplotCorrectedMatches | src/utils.py:125 | the corrected reader name is the written file for every band, and differs from the as-written reader name for band 11 |
| FetchImage.CodeOf | src/utils.py:49-53 | `geom` is in the primary code, `geom_l` in code - 1 and `geom_r` in code + 1 |
| FetchImage.RunCodes | src/utils.py:80-85 | each call of a run is made in `epsg_code` until the first ValueError, in `epsg_code - 1` after it and in `epsg_code + 1` after the second |
| FetchImage.CallsOf | src/utils.py:56-59 | one call for each band |
| FetchImage.CallsOfAt | src/utils.py:57-59 | the j-th call writes `<item>_B<jj>` from the URL of the j-th band's asset |
| FetchImage.FirstMissing | src/utils.py:58 | every band before the position has its asset; the band at the position, if any, does not |
| FetchImage.FirstMissingAt | src/utils.py:58 | a position with every earlier key present and its own missing (or at the end) is `FirstMissing` |
| FetchImage.WrittenFiles | src/utils.py:59 | the written files are exactly the `.tif` files of the calls whose loop succeeded |
| FetchImage.AllSucceededExtend | src/utils.py:59 | folding one more band's result with `&` gives "all succeeded so far" |
| FetchImage.FetchBands | src/utils.py:55-61 | the loop calls `retry_fetch_write` once per band in order, stopping only at the first missing key; each band's result is its own run's result, whatever the earlier bands did; the aggregate is true exactly when all results are |
| FetchImage.FetchImage | src/utils.py:45-62 | the code is `get_epsg_code` of the centroid; a missing asset key ends the call with `KeyError` for that key; otherwise it returns `str(item)`, flagged "success" exactly when every band succeeded |
| FetchImage.AllBandsTried | src/utils.py:70-93 | each band's result is true exactly when some call for it wrote the file, after 1 to 6 calls |
| FetchImage.RgbplotAfterFetch | src/utils.py:125 | after a fetch in which every band succeeded, `rgbplot` finds the files of the single-digit bands, and the file of no band outside 0..9, while the corrected reader finds every band |

## Left out

- `find_urls` (src/utils.py:14-31): a network search through the satsearch client.
- `read_imagery` and `fetch_and_write` (src/utils.py:96-114): raster I/O and masking. Each call is an outcome from the oracle.
- `time.sleep` does not wait: each wait is recorded as its length in seconds.
- The `print` calls (src/utils.py:48, 60, 88, 90) are not modelled. The aggregate that selects "success" or "failure" is returned as `allSucceeded`.
- Geometry work: the box's centroid is a parameter (latitude, longitude). The `gdf.to_crs` reprojections are not modelled; a geometry is named by its coordinate system.
- Floating point: latitude and longitude are exact reals. A float `%` that rounds up to `360.0` (and so yields zone 61) is not modelled.
- `rgbplot`'s pixel work (src/utils.py:126-135), numpy normalisation and matplotlib output: only the file name it opens is modelled.
- src/script.py and src/largest_body.py are not part of this model. They are notebook cells and map helpers over pandas, geopandas, shapely and folium.
- Exceptions raised outside `fetch_and_write` are not modelled, except the `KeyError` of a missing asset key. In zone 1, `gdf.to_crs(epsg=epsg_code - 1)` (src/utils.py:51) is asked for 32600 or 32700, and in zone 60, `epsg_code + 1` (src/utils.py:52) is 32661 or 32761. None of these is a UTM code (`Epsg.FallbackCodesAreNeighbourZones`). The model's `FetchImage` returns normally there, whatever the reprojection library does with those codes.
- FetchImage.FetchImage: an item is represented by its text `str(item)` and its assets by a map from key to `href`.

## Findings

| source | as written | input that shows it | evidently intended | confidence | as-written member | corrected member |
|---|---|---|---|---|---|---|
| src/utils.py:125 | `rgbplot` opens `f"{image_base_name}_B0{bandnum}.tif"`, while `fetch_image` writes `f"{item}_B{b:02}.tif"` (src/utils.py:57) | band 11 or 12 (Sentinel-2 B11, B12): `rgbplot` opens `<item>_B011.tif`, but `<item>_B11.tif` was written; no band's file is ever named `<item>_B011.tif` | open `f"{image_base_name}_B{bandnum:02}.tif"`, the name the writer uses | high, not executed | Naming.RgbplotMissesOtherBands | Naming.RgbplotCorrectedMatches |
