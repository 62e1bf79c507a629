/** The GeoJSON map point shared by the points admin page and the points API
    (`MapPoint` / `PointsCollection` in src/app/api/points/route.ts). The
    collection is read from remote JSON, so the nested objects may be absent;
    coordinates are kept opaque (two reals, no floating-point behaviour). */
module MapPoints {
  import opened Base

  datatype Coords = Coords(latitude: real, longitude: real)

  /** `properties`: balloon header, body, footer, hint and the address field
      (spelled `adress` in the data). */
  datatype PointProperties = PointProperties(
    header: string,
    content: string,
    footer: string,
    hint: string,
    adress: string)

  /** A feature; `preset` is `options.preset`, `None` when `options` is absent. */
  datatype MapPoint = MapPoint(
    id: int,
    geometry: Option<Coords>,
    properties: Option<PointProperties>,
    preset: Option<string>)

  const GrayDot := "islands#grayDotIcon"
  const RedDot := "islands#redDotIcon"
  const BlueDot := "islands#blueDotIcon"

  /** `features.findIndex(f => f.id === id)`, `None` for -1. */
  function FindById(features: seq<MapPoint>, id: int): (r: Option<nat>)
    ensures r.None? <==> forall k :: 0 <= k < |features| ==> features[k].id != id
    ensures r.Some? ==> r.value < |features| && features[r.value].id == id
    ensures r.Some? ==> forall k :: 0 <= k < r.value ==> features[k].id != id
  {
    if |features| == 0 then None
    else if features[0].id == id then Some(0)
    else match FindById(features[1..], id)
      case None => None
      case Some(k) => Some(k + 1)
  }

  /** The feature at the first index carrying `id` replaced by `updated`;
      without such a feature the list is returned as it is. */
  function ReplaceFirstById(features: seq<MapPoint>, id: int, updated: MapPoint): (r: seq<MapPoint>)
    ensures |r| == |features|
    ensures FindById(features, id).None? ==> r == features
    ensures FindById(features, id).Some? ==> var i := FindById(features, id).value;
      r[i] == updated && forall k :: 0 <= k < |r| && k != i ==> r[k] == features[k]
  {
    match FindById(features, id)
    case None => features
    case Some(i) => features[i := updated]
  }

  /** `features.splice(findIndex(f => f.id === id), 1)` once the index is known. */
  function RemoveFirstById(features: seq<MapPoint>, id: int): (r: seq<MapPoint>)
    ensures FindById(features, id).None? ==> r == features
    ensures FindById(features, id).Some? ==> var i := FindById(features, id).value;
      |r| == |features| - 1 && r == features[..i] + features[i + 1..]
  {
    match FindById(features, id)
    case None => features
    case Some(i) => RemoveAt(features, i)
  }

  /** Only the first feature with the id goes: any later duplicate stays. */
  lemma RemoveFirstKeepsLaterDuplicates(features: seq<MapPoint>, id: int, j: nat)
    requires FindById(features, id).Some? && FindById(features, id).value < j < |features|
    ensures features[j] in RemoveFirstById(features, id)
  {
    var i := FindById(features, id).value;
    assert RemoveFirstById(features, id)[j - 1] == features[j];
  }
}
