/** The points admin page (src/app/admin/points/page.tsx): point-type labels,
    the relevance ranker behind the search box, save validation and the
    updates applied to the loaded collection after a successful request. */
module PointsPage {
  import opened Base
  import opened MapPoints

  // ---------------------------------------------------------------------------
  // Point types (`POINT_TYPES`, `getPointTypeLabel`, `getPointTypeColor`).

  const UnknownLabel := "Неизвестный тип"
  const DefaultColor := "#9DA1A8"

  datatype PointType = PointType(title: string, color: string)

  function PointTypeOf(preset: Option<string>): Option<PointType> {
    if preset == Some(GrayDot) then Some(PointType("Точка продаж", "#9DA1A8"))
    else if preset == Some(RedDot) then Some(PointType("Официальная точка продаж", "#dc3545"))
    else if preset == Some(BlueDot) then Some(PointType("Дилер", "#007bff"))
    else None
  }

  predicate KnownPreset(preset: Option<string>) {
    preset == Some(GrayDot) || preset == Some(RedDot) || preset == Some(BlueDot)
  }

  function PointTypeLabel(preset: Option<string>): (r: string)
    ensures !KnownPreset(preset) ==> r == UnknownLabel
    ensures KnownPreset(preset) ==> r != UnknownLabel
  {
    match PointTypeOf(preset)
    case Some(t) => t.title
    case None => UnknownLabel
  }

  function PointTypeColor(preset: Option<string>): (r: string)
    ensures !KnownPreset(preset) ==> r == DefaultColor
  {
    match PointTypeOf(preset)
    case Some(t) => t.color
    case None => DefaultColor
  }

  /** The label tells the known presets apart. */
  lemma LabelIdentifiesPreset(a: Option<string>, b: Option<string>)
    requires KnownPreset(a) && KnownPreset(b)
    requires PointTypeLabel(a) == PointTypeLabel(b)
    ensures a == b
  {
  }

  /** A missing or unknown preset is drawn like an ordinary point of sale. */
  lemma UnknownPresetLooksGray(preset: Option<string>)
    requires !KnownPreset(preset)
    ensures PointTypeColor(preset) == PointTypeColor(Some(GrayDot))
    ensures PointTypeLabel(preset) != PointTypeLabel(Some(GrayDot))
  {
  }

  // ---------------------------------------------------------------------------
  // The ranker (`searchFilteredPoints`).

  /** `p && p.id != null && p.properties && p.geometry`. */
  predicate IsValidPoint(p: MapPoint) {
    p.properties.Some? && p.geometry.Some?
  }

  function Header(p: MapPoint): string {
    if p.properties.Some? then Lower(p.properties.value.header) else ""
  }

  function Adress(p: MapPoint): string {
    if p.properties.Some? then Lower(p.properties.value.adress) else ""
  }

  function Footer(p: MapPoint): string {
    if p.properties.Some? then Lower(p.properties.value.footer) else ""
  }

  /** The relevance ladder; the first rule that applies decides. */
  function Score(p: MapPoint, query: string): (r: int)
    ensures r == 0 || r == 10 || r == 20 || r == 40 || r == 60 || r == 80 || r == 100
  {
    if Header(p) == query then 100
    else if StartsWith(Header(p), query) then 80
    else if Contains(Header(p), query) then 60
    else if StartsWith(Adress(p), query) then 40
    else if Contains(Adress(p), query) || Contains(Footer(p), query) then 20
    else if Contains(IntToString(p.id), query) then 10
    else 0
  }

  /** A point scores zero exactly when the query occurs in none of the four fields. */
  lemma ScoreZeroIff(p: MapPoint, query: string)
    ensures Score(p, query) == 0 <==>
      && !Contains(Header(p), query)
      && !Contains(Adress(p), query)
      && !Contains(Footer(p), query)
      && !Contains(IntToString(p.id), query)
  {
    if Header(p) == query {
      ContainsSelf(query);
    } else if StartsWith(Header(p), query) {
      StartsWithContains(Header(p), query);
    } else if StartsWith(Adress(p), query) {
      StartsWithContains(Adress(p), query);
    }
  }

  /** Each rung of the ladder in isolation. */
  lemma ScoreLadder(p: MapPoint, query: string)
    ensures Score(p, query) == 100 <==> Header(p) == query
    ensures Score(p, query) == 80 <==> Header(p) != query && StartsWith(Header(p), query)
    ensures Score(p, query) == 60 <==> !StartsWith(Header(p), query) && Contains(Header(p), query)
    ensures Score(p, query) == 40 <==> !Contains(Header(p), query) && StartsWith(Adress(p), query)
    ensures Score(p, query) == 20 <==>
      !Contains(Header(p), query) && !StartsWith(Adress(p), query) && (Contains(Adress(p), query) || Contains(Footer(p), query))
    ensures Score(p, query) == 10 <==>
      !Contains(Header(p), query) && !Contains(Adress(p), query) && !Contains(Footer(p), query) && Contains(IntToString(p.id), query)
  {
    if Header(p) == query {
      assert StartsWith(Header(p), query);
      ContainsSelf(query);
    } else if StartsWith(Header(p), query) {
      StartsWithContains(Header(p), query);
    } else if StartsWith(Adress(p), query) {
      StartsWithContains(Adress(p), query);
    }
  }

  /** The comparator `b.score - a.score || a.id - b.id` for a given score. */
  predicate RankBefore(score: MapPoint -> int, a: MapPoint, b: MapPoint) {
    score(a) > score(b) || (score(a) == score(b) && a.id <= b.id)
  }

  predicate RankSorted(score: MapPoint -> int, xs: seq<MapPoint>) {
    forall i, j :: 0 <= i < j < |xs| ==> RankBefore(score, xs[i], xs[j])
  }

  lemma RankBeforeTotal(score: MapPoint -> int, a: MapPoint, b: MapPoint)
    ensures RankBefore(score, a, b) || RankBefore(score, b, a)
  {
  }

  lemma RankBeforeTransitive(score: MapPoint -> int, a: MapPoint, b: MapPoint, c: MapPoint)
    requires RankBefore(score, a, b) && RankBefore(score, b, c)
    ensures RankBefore(score, a, c)
  {
  }

  /** Insertion of one point into a ranked list, before the first point it precedes. */
  function Insert(score: MapPoint -> int, x: MapPoint, xs: seq<MapPoint>): (r: seq<MapPoint>)
    requires RankSorted(score, xs)
    ensures RankSorted(score, r)
    ensures multiset(r) == multiset(xs) + multiset{x}
  {
    if xs == [] then [x]
    else if RankBefore(score, x, xs[0]) then
      assert forall j :: 0 < j < |xs| ==> RankBefore(score, x, xs[j]) by {
        forall j | 0 < j < |xs| ensures RankBefore(score, x, xs[j]) {
          RankBeforeTransitive(score, x, xs[0], xs[j]);
        }
      }
      assert xs == [xs[0]] + xs[1..];
      [x] + xs
    else
      var rest := Insert(score, x, xs[1..]);
      RankBeforeTotal(score, x, xs[0]);
      assert xs == [xs[0]] + xs[1..];
      HeadBeforeTail(score, xs);
      assert forall k :: 0 <= k < |rest| ==> RankBefore(score, xs[0], rest[k]) by {
        forall k | 0 <= k < |rest| ensures RankBefore(score, xs[0], rest[k]) {
          assert rest[k] in multiset(rest);
        }
      }
      [xs[0]] + rest
  }

  lemma HeadBeforeTail(score: MapPoint -> int, xs: seq<MapPoint>)
    requires RankSorted(score, xs) && xs != []
    ensures forall y :: y in multiset(xs[1..]) ==> RankBefore(score, xs[0], y)
  {
    forall y | y in multiset(xs[1..]) ensures RankBefore(score, xs[0], y) {
      var j :| 0 <= j < |xs[1..]| && xs[1..][j] == y;
      assert xs[j + 1] == y;
    }
  }

  /** The page's stable sort, as an insertion sort. */
  function Sort(score: MapPoint -> int, xs: seq<MapPoint>): (r: seq<MapPoint>)
    ensures RankSorted(score, r)
    ensures multiset(r) == multiset(xs)
  {
    if xs == [] then []
    else
      assert xs == [xs[0]] + xs[1..];
      Insert(score, xs[0], Sort(score, xs[1..]))
  }

  function ValidPoints(features: seq<MapPoint>): seq<MapPoint> {
    FilterSeq(features, IsValidPoint)
  }

  function PointQuery(searchQuery: string): string { Trim(Lower(searchQuery)) }

  /** The sort key: the relevance score, or nothing but the id without a query. */
  function ScoreFor(query: string): MapPoint -> int {
    if query == [] then (p: MapPoint) => 0 else (p: MapPoint) => Score(p, query)
  }

  function Positive(query: string): MapPoint -> bool {
    (p: MapPoint) => Score(p, query) > 0
  }

  /** `searchFilteredPoints` for the loaded `features` and the raw search box text. */
  function Ranked(features: seq<MapPoint>, searchQuery: string): seq<MapPoint> {
    var query := PointQuery(searchQuery);
    var valid := ValidPoints(features);
    if query == [] then Sort(ScoreFor(query), valid)
    else Sort(ScoreFor(query), FilterSeq(valid, Positive(query)))
  }

  /** No query: every valid point, each exactly as often as in the data, by ascending id. */
  lemma RankedWithoutQuery(features: seq<MapPoint>, searchQuery: string)
    requires PointQuery(searchQuery) == []
    ensures multiset(Ranked(features, searchQuery)) == multiset(FilterSeq(features, IsValidPoint))
    ensures var r := Ranked(features, searchQuery);
      forall i, j :: 0 <= i < j < |r| ==> r[i].id <= r[j].id
  {
  }

  /** With a query: a permutation of the valid points that score above zero,
      by descending score and then ascending id. */
  lemma RankedWithQuery(features: seq<MapPoint>, searchQuery: string)
    requires PointQuery(searchQuery) != []
    ensures var query := PointQuery(searchQuery);
      multiset(Ranked(features, searchQuery))
        == multiset(FilterSeq(FilterSeq(features, IsValidPoint), Positive(query)))
    ensures var query, r := PointQuery(searchQuery), Ranked(features, searchQuery);
      forall i, j :: 0 <= i < j < |r| ==>
        Score(r[i], query) > Score(r[j], query) || (Score(r[i], query) == Score(r[j], query) && r[i].id <= r[j].id)
  {
    var query, r := PointQuery(searchQuery), Ranked(features, searchQuery);
    assert RankSorted(ScoreFor(query), r);
  }

  /** Membership: exactly the valid points, and with a query only those scoring above zero. */
  lemma {:induction false} RankedMembers(features: seq<MapPoint>, searchQuery: string, p: MapPoint)
    ensures var query := PointQuery(searchQuery);
      p in Ranked(features, searchQuery) <==> p in features && IsValidPoint(p) && (query == [] || Score(p, query) > 0)
  {
    var query := PointQuery(searchQuery);
    var valid := FilterSeq(features, IsValidPoint);
    FilterSeqSpec(features, IsValidPoint);
    var keep := Positive(query);
    FilterSeqSpec(valid, keep);
    var input := if query == [] then valid else FilterSeq(valid, keep);
    var r := Sort(ScoreFor(query), input);
    assert r == Ranked(features, searchQuery);
    assert p in r <==> p in multiset(input);
    assert p in r <==> p in input;
    if query != [] {
      assert p in input <==> p in valid && keep(p);
    }
    assert keep(p) == (Score(p, query) > 0);
  }

  // ---------------------------------------------------------------------------
  // Save validation (`handleSaveEdit`, `handleAddNew`, `parseCoordinates`).

  const NameMissing := "Заполните название"
  const AddressMissing := "Заполните адрес"
  const BadCoordinates := "Неверный формат координат. Пример: 59.924668, 30.288937"

  /** `coordString.split(',').map(s => s.trim())`, two parts, both parsed by
      `parseFloat` (given as `parseNumber`, `None` for NaN). */
  function ParseCoordinates(coordString: string, parseNumber: string -> Option<real>): (r: Option<Coords>)
    ensures r.Some? ==> |Split(coordString, ',')| == 2
    ensures r.Some? ==> var parts := Split(coordString, ',');
      parseNumber(Trim(parts[0])) == Some(r.value.latitude) && parseNumber(Trim(parts[1])) == Some(r.value.longitude)
  {
    var parts := Split(coordString, ',');
    if |parts| != 2 then None
    else match (parseNumber(Trim(parts[0])), parseNumber(Trim(parts[1])))
      case (Some(lat), Some(lng)) => Some(Coords(lat, lng))
      case _ => None
  }

  /** Accepted coordinates hold exactly one comma. */
  lemma ParseCoordinatesOneComma(coordString: string, parseNumber: string -> Option<real>)
    requires ParseCoordinates(coordString, parseNumber).Some?
    ensures exists i :: 0 <= i < |coordString| && coordString[i] == ',' && ',' !in coordString[..i] && ',' !in coordString[i + 1..]
  {
    var parts := Split(coordString, ',');
    JoinSplit(coordString, ',');
    assert coordString == parts[0] + [','] + parts[1];
    var i := |parts[0]|;
    assert coordString[..i] == parts[0];
    assert coordString[i + 1..] == parts[1];
  }

  datatype SaveCheck = Rejected(message: string) | Accepted(coords: Coords)

  /** The checks before a PATCH or POST is sent, in the page's order. */
  function CheckForm(name: string, address: string, coordinates: string, parseNumber: string -> Option<real>): (r: SaveCheck)
    ensures r.Accepted? <==> Trim(name) != [] && Trim(address) != [] && ParseCoordinates(coordinates, parseNumber).Some?
    ensures r.Accepted? ==> Some(r.coords) == ParseCoordinates(coordinates, parseNumber)
  {
    if Trim(name) == [] then Rejected(NameMissing)
    else if Trim(address) == [] then Rejected(AddressMissing)
    else match ParseCoordinates(coordinates, parseNumber)
      case None => Rejected(BadCoordinates)
      case Some(c) => Accepted(c)
  }

  /** The first failing check decides the message, whatever the later fields hold. */
  lemma CheckFormOrder(name: string, address: string, coordinates: string, parseNumber: string -> Option<real>)
    ensures Trim(name) == [] ==> CheckForm(name, address, coordinates, parseNumber) == Rejected(NameMissing)
    ensures Trim(name) != [] && Trim(address) == [] ==>
      CheckForm(name, address, coordinates, parseNumber) == Rejected(AddressMissing)
    ensures Trim(name) != [] && Trim(address) != [] && ParseCoordinates(coordinates, parseNumber).None? ==>
      CheckForm(name, address, coordinates, parseNumber) == Rejected(BadCoordinates)
  {
  }

  // ---------------------------------------------------------------------------
  // The loaded collection and the `setPoints` updates after a request succeeds.

  /** Every feature except those carrying `id`, in order (`features.filter(f => f.id !== id)`). */
  function WithoutId(features: seq<MapPoint>, id: int): (r: seq<MapPoint>)
    ensures forall k :: 0 <= k < |r| ==> r[k].id != id
    ensures forall f :: f in r <==> f in features && f.id != id
    ensures IsSubsequence(r, features)
    ensures forall f :: multiset(r)[f] == if f.id != id then multiset(features)[f] else 0
  {
    FilterSeqSpec(features, (f: MapPoint) => f.id != id);
    FilterSeq(features, (f: MapPoint) => f.id != id)
  }

  lemma WithoutAbsentId(features: seq<MapPoint>, id: int)
    requires forall k :: 0 <= k < |features| ==> features[k].id != id
    ensures WithoutId(features, id) == features
  {
    FilterSeqAll(features, (f: MapPoint) => f.id != id);
  }

  class PointsView {
    /** `points?.features`; `None` until the collection is loaded. */
    var points: Option<seq<MapPoint>>

    constructor(points: Option<seq<MapPoint>>)
      ensures this.points == points
    {
      this.points := points;
    }

    /** After a successful PATCH: the feature with the edited id becomes the returned point. */
    method ApplyEdit(id: int, updated: MapPoint)
      modifies this
      ensures old(points).None? ==> points == old(points)
      ensures old(points).Some? ==> points == Some(ReplaceFirstById(old(points).value, id, updated))
    {
      if points.Some? {
        points := Some(ReplaceFirstById(points.value, id, updated));
      }
    }

    /** After a successful POST: the returned point is appended. */
    method ApplyAdd(created: MapPoint)
      modifies this
      ensures old(points).None? ==> points == old(points)
      ensures old(points).Some? ==> points == Some(old(points).value + [created])
    {
      if points.Some? {
        points := Some(points.value + [created]);
      }
    }

    /** After a successful DELETE: every feature with that id is dropped. */
    method ApplyDelete(id: int)
      modifies this
      ensures old(points).None? ==> points == old(points)
      ensures old(points).Some? ==> points == Some(WithoutId(old(points).value, id))
    {
      if points.Some? {
        points := Some(WithoutId(points.value, id));
      }
    }
  }
}
