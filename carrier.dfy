/** The carrier client `fetchFedEx` (server.js:19-98) from the point where the reply of the
    tracking endpoint is in hand: the HTTP status check, the search for the first package
    and the normalisation of that package into a tracking record (server.js:63-97).
    Building and sending the request is not part of this model; its outcome is an input. */
module Carrier {
  import opened Wrappers
  import opened Text

  /** A JSON value read where the carrier sends text: missing (`undefined`), `null` or a string. */
  datatype Field = Undefined | Null | Text(s: string)

  /** JavaScript truthiness of such a value: only a non-empty string is truthy. */
  predicate Truthy(f: Field) {
    f.Text? && f.s != ""
  }

  /** What a template string `${f}` makes of the value. */
  function Shown(f: Field): string {
    match f
    case Undefined => "undefined"
    case Null => "null"
    case Text(s) => s
  }

  /** The package's `isDelivered`: missing or `null`, or a boolean. */
  datatype Flag = Unset | Set(b: bool)

  /** One scan event of the package's history; the first one is the most recent. */
  datatype ScanEvent = ScanEvent(status: Field, date: Field, time: Field, scanLocation: Field)

  /** `scanEventList`: anything that is not an array, or an array whose entries are
      event objects or `null`/missing (`None`). */
  datatype EventList = NotAnArray | Events(entries: seq<Option<ScanEvent>>)

  datatype Localization = Localization(message: Field)

  /** The fields of a package that the normalisation reads. */
  datatype Package = Package(
    scanEventList: EventList,
    keyStatus: Field,
    localization: Option<Localization>,
    displayActDeliveryDt: Field,
    displayEstDeliveryDt: Field,
    scanLocationCity: Field,
    scanLocationStateOrProvinceCode: Field,
    scanLocationCountryCode: Field,
    isDelivered: Flag,
    serviceTypeDesc: Field,
    serviceCommitMessage: Field)

  /** `TrackPackagesResponse`: its `packageList` is missing or an array whose entries are
      packages or `null`/missing (`None`). */
  datatype TrackPackagesResponse = TrackPackagesResponse(packageList: Option<seq<Option<Package>>>)

  /** The parsed body; its `TrackPackagesResponse` may be missing. */
  datatype Body = Body(trackPackagesResponse: Option<TrackPackagesResponse>)

  /** A thrown JavaScript error: its `name` and its `message`. */
  datatype JsError = JsError(name: string, message: string)

  /** What `res.json()` gives: a parse error, or the parsed value (`None` for JSON `null`). */
  datatype Json = Malformed(error: JsError) | Parsed(data: Option<Body>)

  /** What the outbound `fetch` gives: a thrown network error, or a response with its
      HTTP status and its body. */
  datatype Reply = Rejected(error: JsError) | Response(status: nat, body: Json)

  /** The normalised tracking record `fetchFedEx` returns. */
  datatype TrackingRecord = TrackingRecord(
    trackingNumber: string,
    lastStatus: string,
    lastUpdateLocal: string,
    location: string,
    delivered: bool,
    service: string)

  const NoInformation := "Sin información"
  const NoPackageData := "Sin datos del paquete"

  /** `res.ok`: the status is in the range 200-299. */
  predicate IsOk(status: nat) {
    200 <= status <= 299
  }

  /** The message of the error thrown for a status outside that range. */
  function HttpMessage(status: nat): (r: string)
    ensures |r| > 5 && r[..5] == "HTTP " && r[5..] == Decimal(status)
  {
    "HTTP " + Decimal(status)
  }

  /** `a || b || ... || fallback` over text values: the first truthy one, else the
      fallback. The result is the fallback or the text of some truthy entry. */
  function FirstTruthy(chain: seq<Field>, fallback: string): (r: string)
    ensures r == fallback || exists k :: 0 <= k < |chain| && Truthy(chain[k]) && r == chain[k].s
  {
    if chain == [] then fallback
    else if Truthy(chain[0]) then chain[0].s
    else
      var r := FirstTruthy(chain[1..], fallback);
      assert r != fallback ==> exists k :: 1 <= k < |chain| && Truthy(chain[k]) && r == chain[k].s by {
        if r != fallback {
          var k :| 0 <= k < |chain[1..]| && Truthy(chain[1..][k]) && r == chain[1..][k].s;
          assert chain[k + 1] == chain[1..][k];
        }
      }
      r
  }

  /** The chain stops at the first truthy entry. */
  lemma {:induction false} FirstTruthyPicks(chain: seq<Field>, fallback: string, k: nat)
    requires k < |chain| && Truthy(chain[k])
    requires forall j :: 0 <= j < k ==> !Truthy(chain[j])
    ensures FirstTruthy(chain, fallback) == chain[k].s
  {
    if k > 0 {
      FirstTruthyPicks(chain[1..], fallback, k - 1);
    }
  }

  /** With no truthy entry the chain gives its fallback. */
  lemma {:induction false} FirstTruthyFallback(chain: seq<Field>, fallback: string)
    requires forall j :: 0 <= j < |chain| ==> !Truthy(chain[j])
    ensures FirstTruthy(chain, fallback) == fallback
  {
    if chain != [] {
      FirstTruthyFallback(chain[1..], fallback);
    }
  }

  /** `data?.TrackPackagesResponse?.packageList?.[0]`, where a `null` entry counts as no package. */
  function FirstPackage(data: Option<Body>): (r: Option<Package>)
    ensures r.Some? <==>
      && data.Some? && data.value.trackPackagesResponse.Some?
      && data.value.trackPackagesResponse.value.packageList.Some?
      && data.value.trackPackagesResponse.value.packageList.value != []
      && data.value.trackPackagesResponse.value.packageList.value[0].Some?
    ensures r.Some? ==> r == data.value.trackPackagesResponse.value.packageList.value[0]
  {
    if data.None? || data.value.trackPackagesResponse.None? then None
    else
      var list := data.value.trackPackagesResponse.value.packageList;
      if list.None? || list.value == [] then None else list.value[0]
  }

  /** `last`: the first entry of `scanEventList` when that is an array, else `null`. */
  function LastEvent(pkg: Package): (r: Option<ScanEvent>)
    ensures pkg.scanEventList.NotAnArray? ==> r.None?
    ensures pkg.scanEventList.Events? && pkg.scanEventList.entries == [] ==> r.None?
    ensures pkg.scanEventList.Events? && pkg.scanEventList.entries != [] ==> r == pkg.scanEventList.entries[0]
  {
    match pkg.scanEventList
    case NotAnArray => None
    case Events(entries) => if entries == [] then None else entries[0]
  }

  /** `(last && last.status)`: the event's status when there is an event, else `null`. */
  function EventStatus(last: Option<ScanEvent>): Field {
    if last.Some? then last.value.status else Null
  }

  /** `(last && last.scanLocation)`. */
  function EventLocation(last: Option<ScanEvent>): Field {
    if last.Some? then last.value.scanLocation else Null
  }

  /** `pkg.localization?.message`. */
  function LocalizationMessage(pkg: Package): Field {
    if pkg.localization.Some? then pkg.localization.value.message else Undefined
  }

  /** `lastStatus`: the latest event's status, else `keyStatus`, else the localised message,
      else the sentinel "Sin información"; never empty. */
  function LastStatus(pkg: Package): (r: string)
    ensures r != ""
    ensures var st := EventStatus(LastEvent(pkg));
      && (Truthy(st) ==> r == st.s)
      && (!Truthy(st) && Truthy(pkg.keyStatus) ==> r == pkg.keyStatus.s)
      && (!Truthy(st) && !Truthy(pkg.keyStatus) && Truthy(LocalizationMessage(pkg))
          ==> r == LocalizationMessage(pkg).s)
      && (!Truthy(st) && !Truthy(pkg.keyStatus) && !Truthy(LocalizationMessage(pkg))
          ==> r == NoInformation)
  {
    var chain := [EventStatus(LastEvent(pkg)), pkg.keyStatus, LocalizationMessage(pkg)];
    ChainOfThree(chain, NoInformation);
    FirstTruthy(chain, NoInformation)
  }

  /** `${last.date} ${last.time}`: never empty, since it always holds the space. */
  function Stamp(e: ScanEvent): (r: string)
    ensures r != ""
  {
    Shown(e.date) + " " + Shown(e.time)
  }

  /** `lastUpdateLocal`: whenever there is a latest event it is that event's date and time
      (the template string is always truthy, even for missing parts); otherwise the actual
      delivery time, else the estimated delivery time, else "". */
  function LastUpdateLocal(pkg: Package): (r: string)
    ensures LastEvent(pkg).Some? ==> r == Shown(LastEvent(pkg).value.date) + " " + Shown(LastEvent(pkg).value.time)
    ensures LastEvent(pkg).None? && Truthy(pkg.displayActDeliveryDt) ==> r == pkg.displayActDeliveryDt.s
    ensures LastEvent(pkg).None? && !Truthy(pkg.displayActDeliveryDt) && Truthy(pkg.displayEstDeliveryDt)
      ==> r == pkg.displayEstDeliveryDt.s
    ensures LastEvent(pkg).None? && !Truthy(pkg.displayActDeliveryDt) && !Truthy(pkg.displayEstDeliveryDt)
      ==> r == ""
  {
    var last := LastEvent(pkg);
    var chain := [if last.Some? then Text(Stamp(last.value)) else Null,
                  pkg.displayActDeliveryDt, pkg.displayEstDeliveryDt];
    ChainOfThree(chain, "");
    FirstTruthy(chain, "")
  }

  /** `[a, b, c].filter(Boolean)` on text values: the strings of the truthy ones, in order. */
  function Present(fields: seq<Field>): (r: seq<string>)
    ensures |r| <= |fields|
    ensures forall i :: 0 <= i < |r| ==> r[i] != ""
    ensures r == [] <==> forall j :: 0 <= j < |fields| ==> !Truthy(fields[j])
  {
    if fields == [] then []
    else if Truthy(fields[0]) then [fields[0].s] + Present(fields[1..])
    else
      var r := Present(fields[1..]);
      assert (forall j :: 0 <= j < |fields| ==> !Truthy(fields[j]))
         <==> (forall j :: 0 <= j < |fields[1..]| ==> !Truthy(fields[1..][j])) by {
        forall j | 0 <= j < |fields[1..]| ensures fields[1..][j] == fields[j + 1] { }
      }
      r
  }

  /** What `filter(Boolean)` keeps of one text value: its text when it is truthy, else nothing. */
  function Kept(f: Field): (r: seq<string>)
    ensures r == [] <==> !Truthy(f)
    ensures r != [] ==> r == [f.s]
  {
    if Truthy(f) then [f.s] else []
  }

  /** `filter(Boolean)` keeps order: it filters a concatenation part by part. */
  lemma {:induction false} PresentConcat(a: seq<Field>, b: seq<Field>)
    ensures Present(a + b) == Present(a) + Present(b)
    decreases |a|
  {
    if a == [] {
      assert a + b == b;
    } else {
      assert (a + b)[0] == a[0] && (a + b)[1..] == a[1..] + b;
      PresentConcat(a[1..], b);
    }
  }

  /** On a single value `filter(Boolean)` keeps what `Kept` says. */
  lemma PresentSingle(f: Field)
    ensures Present([f]) == Kept(f)
  {
    assert [f][1..] == [];
  }

  /** The composite is the `", "`-join of whichever of city, state and country are
      truthy, in that order. */
  lemma CompositeLocationParts(pkg: Package)
    ensures CompositeLocation(pkg) == Join(Kept(pkg.scanLocationCity) + Kept(pkg.scanLocationStateOrProvinceCode)
                                           + Kept(pkg.scanLocationCountryCode), ", ")
  {
    var city, state, country := pkg.scanLocationCity, pkg.scanLocationStateOrProvinceCode, pkg.scanLocationCountryCode;
    assert [city, state, country] == [city] + [state] + [country];
    PresentConcat([city] + [state], [country]);
    PresentConcat([city], [state]);
    PresentSingle(city);
    PresentSingle(state);
    PresentSingle(country);
  }

  /** The city, state and country of the package joined by ", ", leaving out the missing
      ones: empty exactly when none of the three is present. */
  function CompositeLocation(pkg: Package): (r: string)
    ensures r == "" <==> !Truthy(pkg.scanLocationCity) && !Truthy(pkg.scanLocationStateOrProvinceCode)
                          && !Truthy(pkg.scanLocationCountryCode)
  {
    var fields := [pkg.scanLocationCity, pkg.scanLocationStateOrProvinceCode, pkg.scanLocationCountryCode];
    var parts := Present(fields);
    JoinEmptyIff(parts, ", ");
    assert (forall j :: 0 <= j < |fields| ==> !Truthy(fields[j]))
       <==> !Truthy(fields[0]) && !Truthy(fields[1]) && !Truthy(fields[2]);
    Join(parts, ", ")
  }

  /** With all three parts present the composite is "city, state, country". */
  lemma CompositeLocationAll(pkg: Package)
    requires Truthy(pkg.scanLocationCity) && Truthy(pkg.scanLocationStateOrProvinceCode)
    requires Truthy(pkg.scanLocationCountryCode)
    ensures CompositeLocation(pkg) == pkg.scanLocationCity.s + ", " + pkg.scanLocationStateOrProvinceCode.s
                                      + ", " + pkg.scanLocationCountryCode.s
  {
    var fields := [pkg.scanLocationCity, pkg.scanLocationStateOrProvinceCode, pkg.scanLocationCountryCode];
    assert fields[1..] == [pkg.scanLocationStateOrProvinceCode, pkg.scanLocationCountryCode];
    assert fields[1..][1..] == [pkg.scanLocationCountryCode];
    assert Present(fields[1..][1..]) == [pkg.scanLocationCountryCode.s];
    assert Present(fields[1..]) == [pkg.scanLocationStateOrProvinceCode.s, pkg.scanLocationCountryCode.s];
    var parts := [pkg.scanLocationCity.s, pkg.scanLocationStateOrProvinceCode.s, pkg.scanLocationCountryCode.s];
    assert Present(fields) == parts;
    assert parts[1..] == [pkg.scanLocationStateOrProvinceCode.s, pkg.scanLocationCountryCode.s];
    assert parts[1..][1..] == [pkg.scanLocationCountryCode.s];
    assert Join(parts[1..], ", ") == pkg.scanLocationStateOrProvinceCode.s + ", " + pkg.scanLocationCountryCode.s;
  }

  /** A missing part is skipped with its separator: with no state the composite is
      "city, country". */
  lemma CompositeLocationSkipsMissing(pkg: Package)
    requires Truthy(pkg.scanLocationCity) && !Truthy(pkg.scanLocationStateOrProvinceCode)
    requires Truthy(pkg.scanLocationCountryCode)
    ensures CompositeLocation(pkg) == pkg.scanLocationCity.s + ", " + pkg.scanLocationCountryCode.s
  {
    var fields := [pkg.scanLocationCity, pkg.scanLocationStateOrProvinceCode, pkg.scanLocationCountryCode];
    assert fields[1..] == [pkg.scanLocationStateOrProvinceCode, pkg.scanLocationCountryCode];
    assert fields[1..][1..] == [pkg.scanLocationCountryCode];
    assert Present(fields[1..][1..]) == [pkg.scanLocationCountryCode.s];
    assert Present(fields[1..]) == [pkg.scanLocationCountryCode.s];
    var parts := [pkg.scanLocationCity.s, pkg.scanLocationCountryCode.s];
    assert Present(fields) == parts;
    assert parts[1..] == [pkg.scanLocationCountryCode.s];
  }

  /** `location`: the latest event's scan location, else the composite of city, state and
      country, else ""; empty exactly when neither source has anything. */
  function Location(pkg: Package): (r: string)
    ensures var loc := EventLocation(LastEvent(pkg));
      && (Truthy(loc) ==> r == loc.s)
      && (!Truthy(loc) ==> r == CompositeLocation(pkg))
      && (r == "" <==> !Truthy(loc) && !Truthy(pkg.scanLocationCity)
                       && !Truthy(pkg.scanLocationStateOrProvinceCode) && !Truthy(pkg.scanLocationCountryCode))
  {
    var loc := EventLocation(LastEvent(pkg));
    var composite := CompositeLocation(pkg);
    var chain := [loc, Text(composite)];
    ChainOfTwo(chain, "");
    FirstTruthy(chain, "")
  }

  /** `Boolean(pkg.isDelivered)`: true exactly when `isDelivered` is `true`. */
  function Delivered(pkg: Package): (r: bool)
    ensures r <==> pkg.isDelivered == Set(true)
  {
    pkg.isDelivered.Set? && pkg.isDelivered.b
  }

  /** `service`: the service type description, else the service commit message, else "". */
  function Service(pkg: Package): (r: string)
    ensures Truthy(pkg.serviceTypeDesc) ==> r == pkg.serviceTypeDesc.s
    ensures !Truthy(pkg.serviceTypeDesc) && Truthy(pkg.serviceCommitMessage) ==> r == pkg.serviceCommitMessage.s
    ensures !Truthy(pkg.serviceTypeDesc) && !Truthy(pkg.serviceCommitMessage) ==> r == ""
  {
    var chain := [pkg.serviceTypeDesc, pkg.serviceCommitMessage];
    ChainOfTwo(chain, "");
    FirstTruthy(chain, "")
  }

  /** The first-truthy rule spelled out for a chain of two. */
  lemma ChainOfTwo(chain: seq<Field>, fallback: string)
    requires |chain| == 2
    ensures Truthy(chain[0]) ==> FirstTruthy(chain, fallback) == chain[0].s
    ensures !Truthy(chain[0]) && Truthy(chain[1]) ==> FirstTruthy(chain, fallback) == chain[1].s
    ensures !Truthy(chain[0]) && !Truthy(chain[1]) ==> FirstTruthy(chain, fallback) == fallback
  {
    if Truthy(chain[0]) {
      FirstTruthyPicks(chain, fallback, 0);
    } else if Truthy(chain[1]) {
      FirstTruthyPicks(chain, fallback, 1);
    } else {
      FirstTruthyFallback(chain, fallback);
    }
  }

  /** The first-truthy rule spelled out for a chain of three. */
  lemma ChainOfThree(chain: seq<Field>, fallback: string)
    requires |chain| == 3
    ensures Truthy(chain[0]) ==> FirstTruthy(chain, fallback) == chain[0].s
    ensures !Truthy(chain[0]) && Truthy(chain[1]) ==> FirstTruthy(chain, fallback) == chain[1].s
    ensures !Truthy(chain[0]) && !Truthy(chain[1]) && Truthy(chain[2]) ==> FirstTruthy(chain, fallback) == chain[2].s
    ensures !Truthy(chain[0]) && !Truthy(chain[1]) && !Truthy(chain[2]) ==> FirstTruthy(chain, fallback) == fallback
  {
    if Truthy(chain[0]) {
      FirstTruthyPicks(chain, fallback, 0);
    } else if Truthy(chain[1]) {
      FirstTruthyPicks(chain, fallback, 1);
    } else if Truthy(chain[2]) {
      FirstTruthyPicks(chain, fallback, 2);
    } else {
      FirstTruthyFallback(chain, fallback);
    }
  }

  /** The record built from a package, echoing the tracking number it was asked for. */
  function Normalize(trackingNumber: string, pkg: Package): (r: TrackingRecord)
    ensures r.trackingNumber == trackingNumber && r.lastStatus != ""
    ensures r.delivered <==> pkg.isDelivered == Set(true)
  {
    TrackingRecord(
      trackingNumber := trackingNumber,
      lastStatus := LastStatus(pkg),
      lastUpdateLocal := LastUpdateLocal(pkg),
      location := Location(pkg),
      delivered := Delivered(pkg),
      service := Service(pkg))
  }

  /** `fetchFedEx(trackingNumber)` given what the endpoint replied. A network error and a
      parse error propagate; a status outside 200-299 throws "HTTP <status>" before the body
      is read; a reply without a first package throws "Sin datos del paquete"; otherwise
      the result is the package's record, carrying the tracking number asked for. */
  function FetchFedEx(trackingNumber: string, reply: Reply): (r: Result<TrackingRecord, JsError>)
    ensures reply.Rejected? ==> r == Failure(reply.error)
    ensures reply.Response? && !IsOk(reply.status) ==> r == Failure(JsError("Error", HttpMessage(reply.status)))
    ensures reply.Response? && IsOk(reply.status) && reply.body.Malformed? ==> r == Failure(reply.body.error)
    ensures reply.Response? && IsOk(reply.status) && reply.body.Parsed? && FirstPackage(reply.body.data).None?
      ==> r == Failure(JsError("Error", NoPackageData))
    ensures r.Success? <==> reply.Response? && IsOk(reply.status) && reply.body.Parsed?
                            && FirstPackage(reply.body.data).Some?
    ensures r.Success? ==> r.value.trackingNumber == trackingNumber
                           && r.value == Normalize(trackingNumber, FirstPackage(reply.body.data).value)
  {
    match reply
    case Rejected(e) => Failure(e)
    case Response(status, body) =>
      if !IsOk(status) then Failure(JsError("Error", HttpMessage(status)))
      else
        match body
        case Malformed(e) => Failure(e)
        case Parsed(data) =>
          var pkg := FirstPackage(data);
          if pkg.None? then Failure(JsError("Error", NoPackageData))
          else Success(Normalize(trackingNumber, pkg.value))
  }

  /** The HTTP status can be read back from the error message, so different statuses give
      different messages. */
  lemma HttpMessageInjective(a: nat, b: nat)
    requires HttpMessage(a) == HttpMessage(b)
    ensures a == b
  {
    assert Decimal(a) == HttpMessage(a)[5..];
    assert Decimal(b) == HttpMessage(b)[5..];
    DecimalInjective(a, b);
  }

  /** The missing-package message is told apart from every HTTP status message. */
  lemma NoPackageDataIsNotHttp(status: nat)
    ensures HttpMessage(status) != NoPackageData
  {
    assert HttpMessage(status)[0] == 'H';
  }
}
