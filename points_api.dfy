/** The map-points collection handlers of src/app/api/points/route.ts: POST
    (new id, defaults, contact block), PATCH (field-wise update, contact
    rebuild from the old block) and DELETE, over the cached feature list.
    The remote JSON read and the FTP write are outcomes given by the caller. */
module PointsApi {
  import opened Base
  import opened MapPoints

  // ---------------------------------------------------------------------------
  // The contact block kept in `balloonContent`.

  /** The HTML block `Телефон: …<br>Email: …<br>Сайт: …`; an empty website
      prints as `нет`, any other as a link. */
  function ContactContent(phone: string, email: string, website: string): (r: string)
    ensures StartsWith(r, "Телефон: " + phone + "<br>Email: " + email + "<br>Сайт: ")
  {
    "Телефон: " + phone + "<br>Email: " + email + "<br>Сайт: "
      + (if website != "" then "<a target='_blank' href='" + website + "'>" + website + "</a>" else "нет")
  }

  /** The characters of `s` before the first `stop` (the `[^<]*` / `[^']*` runs). */
  function TakeUntil(s: string, stop: char): (r: string)
    ensures stop !in r
    ensures |r| <= |s| && r == s[..|r|]
    ensures |r| < |s| ==> s[|r|] == stop
  {
    if s == [] || s[0] == stop then [] else [s[0]] + TakeUntil(s[1..], stop)
  }

  /** The group of the leftmost match of `/<marker>([^<]*)/`. */
  function LabelCapture(s: string, marker: string): (r: Option<string>)
    ensures r.None? <==> !Contains(s, marker)
    decreases |s|
  {
    if StartsWith(s, marker) then
      StartsWithContains(s, marker);
      Some(TakeUntil(s[|marker|..], '<'))
    else if s == [] then
      None
    else
      ContainsTail(s, marker);
      LabelCapture(s[1..], marker)
  }

  const HrefOpen := "href='"

  /** `/href='([^']+)'/` matches at the start of `s`. */
  predicate HrefAt(s: string) {
    StartsWith(s, HrefOpen)
    && var run := TakeUntil(s[|HrefOpen|..], '\'');
       |run| >= 1 && |run| < |s| - |HrefOpen|
  }

  /** The group of the leftmost match of `/href='([^']+)'/`. */
  function HrefCapture(s: string): (r: Option<string>)
    ensures r.Some? ==> |r.value| >= 1 && '\'' !in r.value
    decreases |s|
  {
    if HrefAt(s) then Some(TakeUntil(s[|HrefOpen|..], '\''))
    else if s == [] then None
    else HrefCapture(s[1..])
  }

  // The captures read back what `ContactContent` wrote.

  lemma {:induction false} TakeUntilStops(a: string, b: string, stop: char)
    requires stop !in a
    requires b == [] || b[0] == stop
    ensures TakeUntil(a + b, stop) == a
  {
    if a != [] {
      assert (a + b)[1..] == a[1..] + b;
      TakeUntilStops(a[1..], b, stop);
    } else {
      assert a + b == b;
    }
  }

  lemma {:induction false} LabelCaptureSkip(p: string, q: string, marker: string)
    requires forall i :: 0 <= i < |p| ==> !StartsWith((p + q)[i..], marker)
    ensures LabelCapture(p + q, marker) == LabelCapture(q, marker)
  {
    if p == [] {
      assert p + q == q;
    } else {
      assert (p + q)[0..] == p + q;
      assert (p + q)[1..] == p[1..] + q;
      forall i | 0 <= i < |p[1..]| ensures !StartsWith((p[1..] + q)[i..], marker) {
        assert (p[1..] + q)[i..] == (p + q)[i + 1..];
      }
      LabelCaptureSkip(p[1..], q, marker);
    }
  }

  lemma {:induction false} HrefCaptureSkip(p: string, q: string)
    requires forall i :: 0 <= i < |p| ==> !HrefAt((p + q)[i..])
    ensures HrefCapture(p + q) == HrefCapture(q)
  {
    if p == [] {
      assert p + q == q;
    } else {
      assert (p + q)[0..] == p + q;
      assert (p + q)[1..] == p[1..] + q;
      forall i | 0 <= i < |p[1..]| ensures !HrefAt((p[1..] + q)[i..]) {
        assert (p[1..] + q)[i..] == (p + q)[i + 1..];
      }
      HrefCaptureSkip(p[1..], q);
    }
  }

  /** Without a quote there is no `href='…'` to capture. */
  lemma {:induction false} HrefCaptureNoQuote(s: string)
    requires '\'' !in s
    ensures HrefCapture(s) == None
  {
    if s != [] {
      HrefCaptureNoQuote(s[1..]);
    }
  }

  /** A contact field that the captures read back intact: no `<` ends it
      early, and no `:` or quote can start a false match. */
  predicate PlainField(s: string) {
    forall k :: 0 <= k < |s| ==> s[k] != '<' && s[k] != ':' && s[k] != '\''
  }

  lemma PhoneReadBack(phone: string, tail: string)
    requires PlainField(phone)
    ensures LabelCapture("Телефон: " + phone + "<br>" + tail, "Телефон: ") == Some(phone)
  {
    var s := "Телефон: " + phone + "<br>" + tail;
    assert s[..9] == "Телефон: ";
    assert s[9..] == phone + ("<br>" + tail);
    TakeUntilStops(phone, "<br>" + tail, '<');
  }

  /** No `Email: ` starts inside the phone part of the block. */
  lemma NoEmailMarkerBefore(phone: string, q: string, i: nat)
    requires PlainField(phone) && StartsWith(q, "Email")
    requires i < 9 + |phone| + 4
    ensures !StartsWith(("Телефон: " + phone + "<br>" + q)[i..], "Email: ")
  {
    var s := "Телефон: " + phone + "<br>" + q;
    assert s[i] != 'E' || s[i + 5] != ':';
  }

  lemma EmailAtFront(email: string, rest: string)
    requires PlainField(email) && StartsWith(rest, "<")
    ensures LabelCapture("Email: " + email + rest, "Email: ") == Some(email)
  {
    var q := "Email: " + email + rest;
    assert q[..7] == "Email: ";
    assert q[7..] == email + rest;
    TakeUntilStops(email, rest, '<');
  }

  lemma EmailReadBack(phone: string, email: string, tail: string)
    requires PlainField(phone) && PlainField(email)
    ensures LabelCapture("Телефон: " + phone + "<br>" + ("Email: " + email + "<br>" + tail), "Email: ") == Some(email)
  {
    var p := "Телефон: " + phone + "<br>";
    var q := "Email: " + email + ("<br>" + tail);
    assert "Email: " + email + "<br>" + tail == q;
    assert StartsWith(q, "Email");
    forall i | 0 <= i < |p| ensures !StartsWith((p + q)[i..], "Email: ") {
      NoEmailMarkerBefore(phone, q, i);
    }
    LabelCaptureSkip(p, q, "Email: ");
    EmailAtFront(email, "<br>" + tail);
  }

  /** No `href='` starts before the link of the block. */
  lemma NoHrefBefore(phone: string, email: string, q: string, i: nat)
    requires PlainField(phone) && PlainField(email) && StartsWith(q, HrefOpen)
    requires i < |"Телефон: " + phone + "<br>Email: " + email + "<br>Сайт: <a target='_blank' "|
    ensures !HrefAt(("Телефон: " + phone + "<br>Email: " + email + "<br>Сайт: <a target='_blank' " + q)[i..])
  {
    var s := "Телефон: " + phone + "<br>Email: " + email + "<br>Сайт: <a target='_blank' " + q;
    assert s[i] != 'h' || s[i + 5] != '\'';
  }

  lemma WebsiteReadBack(phone: string, email: string, website: string)
    requires PlainField(phone) && PlainField(email) && website != [] && '\'' !in website
    ensures HrefCapture("Телефон: " + phone + "<br>Email: " + email + "<br>Сайт: <a target='_blank' "
      + (HrefOpen + website + "'>" + website + "</a>")) == Some(website)
  {
    var p := "Телефон: " + phone + "<br>Email: " + email + "<br>Сайт: <a target='_blank' ";
    var rest := "'>" + website + "</a>";
    var q := HrefOpen + website + "'>" + website + "</a>";
    assert q == HrefOpen + (website + rest);
    forall i | 0 <= i < |p| ensures !HrefAt((p + q)[i..]) {
      NoHrefBefore(phone, email, q, i);
    }
    HrefCaptureSkip(p, q);
    assert q[|HrefOpen|..] == website + rest;
    TakeUntilStops(website, rest, '\'');
    assert HrefAt(q);
  }

  lemma ContactShape(phone: string, email: string, link: string)
    ensures "Телефон: " + phone + "<br>Email: " + email + "<br>Сайт: " + link
      == "Телефон: " + phone + "<br>" + ("Email: " + email + "<br>" + ("Сайт: " + link))
  {
  }

  lemma LinkShape(phone: string, email: string, w: string)
    ensures "Телефон: " + phone + "<br>Email: " + email + "<br>Сайт: " + ("<a target='_blank' " + w)
      == "Телефон: " + phone + "<br>Email: " + email + "<br>Сайт: <a target='_blank' " + w
  {
  }

  /** The three captures of PATCH read back the fields that POST or an
      earlier PATCH wrote, for fields free of `<`, `:` and quotes. */
  lemma ContactRoundTrip(phone: string, email: string, website: string)
    requires PlainField(phone) && PlainField(email) && '\'' !in website
    ensures var content := ContactContent(phone, email, website);
      && LabelCapture(content, "Телефон: ") == Some(phone)
      && LabelCapture(content, "Email: ") == Some(email)
      && HrefCapture(content).GetOr("") == website
  {
    var w := HrefOpen + website + "'>" + website + "</a>";
    var link := if website != "" then "<a target='_blank' " + w else "нет";
    var content := "Телефон: " + phone + "<br>Email: " + email + "<br>Сайт: " + link;
    assert content == ContactContent(phone, email, website);
    ContactShape(phone, email, link);
    PhoneReadBack(phone, "Email: " + email + "<br>" + ("Сайт: " + link));
    EmailReadBack(phone, email, "Сайт: " + link);
    if website != "" {
      LinkShape(phone, email, w);
      WebsiteReadBack(phone, email, website);
    } else {
      QuoteFree(phone, email);
      HrefCaptureNoQuote(content);
    }
  }

  lemma QuoteFree(phone: string, email: string)
    requires PlainField(phone) && PlainField(email)
    ensures '\'' !in "Телефон: " + phone + "<br>Email: " + email + "<br>Сайт: " + "нет"
  {
    assert '\'' !in phone && '\'' !in email;
  }

  /** A PATCH that supplies only some contact fields keeps the others: the
      block is rebuilt from the supplied values and the old ones. */
  lemma RebuildKeepsOtherFields(phone: string, email: string, website: string, u: PointUpdates)
    requires PlainField(phone) && PlainField(email) && '\'' !in website
    ensures RebuiltContent(ContactContent(phone, email, website), u)
      == ContactContent(Coalesce(u.phone, phone), Coalesce(u.email, email), Coalesce(u.website, website))
  {
    ContactRoundTrip(phone, email, website);
  }

  // ---------------------------------------------------------------------------
  // Responses and request bodies.

  datatype Response =
    | Success(point: Option<MapPoint>)
    | Failure(status: nat, error: string)

  const IdRequired := "ID is required"
  const NotFound := "Point not found"
  const AddFailed := "Failed to add point: "
  const UpdateFailed := "Failed to update point: "
  const DeleteFailed := "Failed to delete point: "
  const FetchFailed := "Failed to fetch points data"

  /** The JSON body of POST; absent members are `None`. */
  datatype NewPointBody = NewPointBody(
    name: Option<string>,
    address: Option<string>,
    phone: Option<string>,
    email: Option<string>,
    website: Option<string>,
    latitude: Option<real>,
    longitude: Option<real>,
    preset: Option<string>)

  /** The JSON body of PATCH without its `id`. */
  datatype PointUpdates = PointUpdates(
    name: Option<string>,
    address: Option<string>,
    phone: Option<string>,
    email: Option<string>,
    website: Option<string>,
    latitude: Option<real>,
    longitude: Option<real>,
    preset: Option<string>)

  // ---------------------------------------------------------------------------
  // POST.

  /** `Math.max(...features.map(f => f.id), 0)`. */
  function MaxId(features: seq<MapPoint>): (r: int)
    ensures r >= 0
    ensures forall k :: 0 <= k < |features| ==> features[k].id <= r
    ensures r == 0 || exists k :: 0 <= k < |features| && features[k].id == r
  {
    if features == [] then 0
    else
      var m := MaxId(features[1..]);
      if features[0].id > m then features[0].id else m
  }

  /** `value || fallback` on a number: a missing value and 0 both fall back. */
  function RealOr(value: Option<real>, fallback: real): real {
    if value.Some? && value.value != 0.0 then value.value else fallback
  }

  /** The point POST appends. */
  function NewPoint(features: seq<MapPoint>, body: NewPointBody): (r: MapPoint)
    ensures forall k :: 0 <= k < |features| ==> features[k].id < r.id
    ensures r.id >= 1
    ensures r.properties.Some? && r.geometry.Some? && r.preset.Some?
    ensures r.geometry == Some(Coords(RealOr(body.latitude, 53.9), RealOr(body.longitude, 27.5667)))
    ensures body.latitude.Some? && body.latitude.value != 0.0 ==> r.geometry.value.latitude == body.latitude.value
    ensures body.latitude.None? || body.latitude == Some(0.0) ==> r.geometry.value.latitude == 53.9
    ensures body.longitude.Some? && body.longitude.value != 0.0 ==> r.geometry.value.longitude == body.longitude.value
    ensures body.longitude.None? || body.longitude == Some(0.0) ==> r.geometry.value.longitude == 27.5667
    ensures r.properties.value.header == r.properties.value.hint == OrElse(body.name, "")
    ensures r.properties.value.footer == r.properties.value.adress == OrElse(body.address, "")
    ensures r.preset.value == OrElse(body.preset, GrayDot)
    ensures r.properties.value.content
      == ContactContent(OrElse(body.phone, "нет"), OrElse(body.email, "нет"), OrElse(body.website, ""))
  {
    var name := OrElse(body.name, "");
    var address := OrElse(body.address, "");
    MapPoint(
      MaxId(features) + 1,
      Some(Coords(RealOr(body.latitude, 53.9), RealOr(body.longitude, 27.5667))),
      Some(PointProperties(
        name,
        ContactContent(OrElse(body.phone, "нет"), OrElse(body.email, "нет"), OrElse(body.website, "")),
        address,
        name,
        address)),
      Some(OrElse(body.preset, GrayDot)))
  }

  /** The new id is fresh, so ids that were unique stay unique. */
  lemma NewPointKeepsIdsUnique(features: seq<MapPoint>, body: NewPointBody)
    requires forall i, j :: 0 <= i < j < |features| ==> features[i].id != features[j].id
    ensures var all := features + [NewPoint(features, body)];
      forall i, j :: 0 <= i < j < |all| ==> all[i].id != all[j].id
  {
  }

  // ---------------------------------------------------------------------------
  // PATCH.

  /** The point after the field updates; `crashed` when the handler would
      dereference a missing `geometry` or `properties` (a 500 response), with
      the updates done before that point already applied in place. */
  datatype PatchOutcome = PatchOutcome(point: MapPoint, crashed: bool)

  function ApplyCoordinates(p: MapPoint, u: PointUpdates): (r: PatchOutcome)
    ensures u.latitude.None? && u.longitude.None? ==> r == PatchOutcome(p, false)
    ensures (u.latitude.Some? || u.longitude.Some?) && p.geometry.None? ==> r == PatchOutcome(p, true)
    ensures (u.latitude.Some? || u.longitude.Some?) && p.geometry.Some? ==>
      var c := p.geometry.value;
      r == PatchOutcome(p.(geometry := Some(Coords(Coalesce(u.latitude, c.latitude), Coalesce(u.longitude, c.longitude)))), false)
  {
    if u.latitude.None? && u.longitude.None? then PatchOutcome(p, false)
    else if p.geometry.None? then PatchOutcome(p, true)
    else
      var c := p.geometry.value;
      PatchOutcome(p.(geometry := Some(Coords(Coalesce(u.latitude, c.latitude), Coalesce(u.longitude, c.longitude)))), false)
  }

  function ApplyName(p: MapPoint, u: PointUpdates): (r: PatchOutcome)
    ensures u.name.None? ==> r == PatchOutcome(p, false)
  {
    if u.name.None? then PatchOutcome(p, false)
    else if p.properties.None? then PatchOutcome(p, true)
    else PatchOutcome(p.(properties := Some(p.properties.value.(header := u.name.value, hint := u.name.value))), false)
  }

  function ApplyAddress(p: MapPoint, u: PointUpdates): (r: PatchOutcome)
    ensures u.address.None? ==> r == PatchOutcome(p, false)
  {
    if u.address.None? then PatchOutcome(p, false)
    else if p.properties.None? then PatchOutcome(p, true)
    else PatchOutcome(p.(properties := Some(p.properties.value.(footer := u.address.value, adress := u.address.value))), false)
  }

  /** `point.options = point.options || {preset: gray}; point.options.preset = preset`. */
  function ApplyPreset(p: MapPoint, u: PointUpdates): MapPoint {
    if u.preset.None? then p else p.(preset := u.preset)
  }

  /** The contact block rebuilt from the supplied parts and, for the others,
      the values captured from the old block. */
  function RebuiltContent(previous: string, u: PointUpdates): string {
    ContactContent(
      Coalesce(u.phone, LabelCapture(previous, "Телефон: ").GetOr("нет")),
      Coalesce(u.email, LabelCapture(previous, "Email: ").GetOr("нет")),
      Coalesce(u.website, HrefCapture(previous).GetOr("")))
  }

  predicate ContactSupplied(u: PointUpdates) {
    u.phone.Some? || u.email.Some? || u.website.Some?
  }

  function ApplyContact(p: MapPoint, u: PointUpdates): (r: PatchOutcome)
    ensures !ContactSupplied(u) ==> r == PatchOutcome(p, false)
  {
    if !ContactSupplied(u) then PatchOutcome(p, false)
    else if p.properties.None? then PatchOutcome(p, true)
    else
      var props := p.properties.value;
      PatchOutcome(p.(properties := Some(props.(content := RebuiltContent(props.content, u)))), false)
  }

  /** The five update steps of PATCH in the handler's order, stopping at the first crash. */
  function ApplyUpdates(p: MapPoint, u: PointUpdates): (r: PatchOutcome)
    ensures r.point.id == p.id
    ensures r.point.properties.Some? == p.properties.Some? && r.point.geometry.Some? == p.geometry.Some?
    ensures !r.crashed && u.name.Some? ==>
      r.point.properties.Some? && r.point.properties.value.header == r.point.properties.value.hint == u.name.value
    ensures !r.crashed && u.address.Some? ==>
      r.point.properties.Some? && r.point.properties.value.footer == r.point.properties.value.adress == u.address.value
    ensures !r.crashed && u.preset.Some? ==> r.point.preset == u.preset
    ensures !r.crashed && u.preset.None? ==> r.point.preset == p.preset
    ensures !r.crashed && u.latitude.None? && u.longitude.None? ==> r.point.geometry == p.geometry
    ensures !r.crashed && (u.latitude.Some? || u.longitude.Some?) ==>
      && p.geometry.Some?
      && r.point.geometry == Some(Coords(Coalesce(u.latitude, p.geometry.value.latitude), Coalesce(u.longitude, p.geometry.value.longitude)))
    ensures !r.crashed && u.name.None? && u.address.None? && !ContactSupplied(u) ==> r.point.properties == p.properties
    ensures !r.crashed && p.properties.Some? ==> var a, b := p.properties.value, r.point.properties.value;
      && (u.name.None? ==> b.header == a.header && b.hint == a.hint)
      && (u.address.None? ==> b.footer == a.footer && b.adress == a.adress)
      && (ContactSupplied(u) ==> b.content == RebuiltContent(a.content, u))
      && (!ContactSupplied(u) ==> b.content == a.content)
    ensures r.crashed <==>
      ((u.latitude.Some? || u.longitude.Some?) && p.geometry.None?)
      || ((u.name.Some? || u.address.Some? || ContactSupplied(u)) && p.properties.None?)
  {
    var c := ApplyCoordinates(p, u);
    if c.crashed then c
    else
      var n := ApplyName(c.point, u);
      if n.crashed then n
      else
        var a := ApplyAddress(n.point, u);
        if a.crashed then a
        else ApplyContact(ApplyPreset(a.point, u), u)
  }

  /** An update carrying no field leaves the point as it was. */
  lemma EmptyUpdateIsIdentity(p: MapPoint)
    ensures ApplyUpdates(p, PointUpdates(None, None, None, None, None, None, None, None)) == PatchOutcome(p, false)
  {
  }

  // ---------------------------------------------------------------------------
  // The handlers over the cached collection.

  class PointsStore {
    /** `cachedData.features`; `None` until the first successful read. */
    var cached: Option<seq<MapPoint>>

    constructor()
      ensures cached.None?
    {
      cached := None;
    }

    /** `fetchPoints`: the cache, or else the remote read (`None` when it fails). */
    method FetchPoints(remote: Option<seq<MapPoint>>) returns (data: Option<seq<MapPoint>>)
      modifies this
      ensures old(cached).Some? ==> data == old(cached) && cached == old(cached)
      ensures old(cached).None? ==> data == remote && cached == remote
    {
      if cached.Some? {
        return cached;
      }
      cached := remote;
      return remote;
    }

    /** POST. The point is added to the cache before the remote write, so a
        failed write (`saveError`) still leaves it there. */
    method Post(body: NewPointBody, remote: Option<seq<MapPoint>>, saveError: Option<string>) returns (resp: Response)
      modifies this
      ensures var data := if old(cached).Some? then old(cached) else remote;
        && (data.None? ==> cached == data && resp == Failure(500, AddFailed + FetchFailed))
        && (data.Some? ==> cached == Some(data.value + [NewPoint(data.value, body)]))
        && (data.Some? && saveError.None? ==> resp == Success(Some(NewPoint(data.value, body))))
        && (data.Some? && saveError.Some? ==> resp == Failure(500, AddFailed + saveError.value))
    {
      var data := FetchPoints(remote);
      if data.None? {
        return Failure(500, AddFailed + FetchFailed);
      }
      var created := NewPoint(data.value, body);
      cached := Some(data.value + [created]);
      if saveError.Some? {
        return Failure(500, AddFailed + saveError.value);
      }
      return Success(Some(created));
    }

    /** PATCH. A missing or zero id is refused before the collection is read. */
    method Patch(id: Option<int>, updates: PointUpdates, remote: Option<seq<MapPoint>>, saveError: Option<string>)
      returns (resp: Response)
      modifies this
      ensures (id.None? || id == Some(0)) ==> resp == Failure(400, IdRequired) && cached == old(cached)
      ensures id.Some? && id.value != 0 ==> var data := if old(cached).Some? then old(cached) else remote;
        && (data.None? ==> cached == data && resp == Failure(500, UpdateFailed + FetchFailed))
        && (data.Some? && FindById(data.value, id.value).None? ==> cached == data && resp == Failure(404, NotFound))
        && (data.Some? && FindById(data.value, id.value).Some? ==>
              var i := FindById(data.value, id.value).value;
              var outcome := ApplyUpdates(data.value[i], updates);
              && cached == Some(data.value[i := outcome.point])
              && resp == (if outcome.crashed then Failure(500, UpdateFailed)
                          else if saveError.Some? then Failure(500, UpdateFailed + saveError.value)
                          else Success(Some(outcome.point))))
    {
      if id.None? || id.value == 0 {
        return Failure(400, IdRequired);
      }
      var data := FetchPoints(remote);
      if data.None? {
        return Failure(500, UpdateFailed + FetchFailed);
      }
      var index := FindById(data.value, id.value);
      if index.None? {
        return Failure(404, NotFound);
      }
      var i := index.value;
      var outcome := ApplyUpdates(data.value[i], updates);
      cached := Some(data.value[i := outcome.point]);
      if outcome.crashed {
        return Failure(500, UpdateFailed);
      }
      if saveError.Some? {
        return Failure(500, UpdateFailed + saveError.value);
      }
      return Success(Some(outcome.point));
    }

    /** DELETE with the `id` query parameter after `parseInt` (`None` for NaN). */
    method Delete(id: Option<int>, remote: Option<seq<MapPoint>>, saveError: Option<string>) returns (resp: Response)
      modifies this
      ensures (id.None? || id == Some(0)) ==> resp == Failure(400, IdRequired) && cached == old(cached)
      ensures id.Some? && id.value != 0 ==> var data := if old(cached).Some? then old(cached) else remote;
        && (data.None? ==> cached == data && resp == Failure(500, DeleteFailed + FetchFailed))
        && (data.Some? && FindById(data.value, id.value).None? ==> cached == data && resp == Failure(404, NotFound))
        && (data.Some? && FindById(data.value, id.value).Some? ==>
              && cached == Some(RemoveFirstById(data.value, id.value))
              && resp == (if saveError.Some? then Failure(500, DeleteFailed + saveError.value) else Success(None)))
    {
      if id.None? || id.value == 0 {
        return Failure(400, IdRequired);
      }
      var data := FetchPoints(remote);
      if data.None? {
        return Failure(500, DeleteFailed + FetchFailed);
      }
      if FindById(data.value, id.value).None? {
        return Failure(404, NotFound);
      }
      cached := Some(RemoveFirstById(data.value, id.value));
      if saveError.Some? {
        return Failure(500, DeleteFailed + saveError.value);
      }
      return Success(None);
    }
  }
}
