/** The `/api/track` handler (server.js:100-124): sanitise the `numbers` field, look each
    number up in turn, collect one entry per number and answer `{count, results}`. */
module Batch {
  import opened Wrappers
  import opened Sanitization
  import opened Carrier

  /** One entry of `results`: `{ok: true, ...record}` or `{ok: false, trackingNumber, error}`. */
  datatype Entry = Tracked(record: TrackingRecord) | Failed(trackingNumber: string, error: string) {
    /** The entry's `ok` flag. */
    predicate Ok() {
      Tracked?
    }

    /** The entry's `trackingNumber`, whichever shape it has. */
    function Number(): string {
      if Tracked? then record.trackingNumber else trackingNumber
    }
  }

  /** The response body `{count, results}`. */
  datatype Envelope = Envelope(count: nat, results: seq<Entry>)

  /** `String(e.message || e)`: the message, or, when it is empty, what an error with an
      empty message prints as, its name. */
  function ErrorText(e: JsError): (r: string)
    ensures e.message != "" ==> r == e.message
    ensures e.message == "" ==> r == e.name
  {
    if e.message != "" then e.message else e.name
  }

  /** The entry the loop pushes for number `n` when the endpoint replies `reply`: it always
      carries `n`, and it is `ok` exactly when `fetchFedEx` returned normally. */
  function EntryFor(n: string, reply: Reply): (r: Entry)
    ensures r.Number() == n
    ensures r.Ok() <==> FetchFedEx(n, reply).Success?
    ensures r.Ok() ==> r.record == FetchFedEx(n, reply).value
    ensures !r.Ok() ==> r == Failed(n, ErrorText(FetchFedEx(n, reply).error))
  {
    match FetchFedEx(n, reply)
    case Success(record) => Tracked(record)
    case Failure(e) => Failed(n, ErrorText(e))
  }

  /** What `results` holds after the loop has handled `numbers`, the i-th reply answering
      the i-th number: one entry per number, in order. */
  function Results(numbers: seq<string>, replies: seq<Reply>): (r: seq<Entry>)
    requires |numbers| == |replies|
    ensures |r| == |numbers|
    ensures forall i :: 0 <= i < |r| ==> r[i] == EntryFor(numbers[i], replies[i])
  {
    Pairwise(EntryFor, numbers, replies)
  }

  /** `f` applied to the pairs of equal position. */
  function Pairwise<A, B, C>(f: (A, B) -> C, xs: seq<A>, ys: seq<B>): (r: seq<C>)
    requires |xs| == |ys|
    ensures |r| == |xs|
    ensures forall i :: 0 <= i < |r| ==> r[i] == f(xs[i], ys[i])
  {
    seq(|xs|, i requires 0 <= i < |xs| => f(xs[i], ys[i]))
  }

  /** `results[i].trackingNumber == numbers[i]`, whether the lookup succeeded or failed. */
  lemma ResultsEchoNumbers(numbers: seq<string>, replies: seq<Reply>)
    requires |numbers| == |replies|
    ensures forall i :: 0 <= i < |numbers| ==> Results(numbers, replies)[i].Number() == numbers[i]
  {
  }

  /** `results[i].ok` holds exactly when `fetchFedEx(numbers[i])` returned normally. */
  lemma ResultsOkIff(numbers: seq<string>, replies: seq<Reply>, i: nat)
    requires |numbers| == |replies| && i < |numbers|
    ensures Results(numbers, replies)[i].Ok() <==> FetchFedEx(numbers[i], replies[i]).Success?
  {
  }

  /** Failure isolation: changing the reply for number `j` (to a failure, say) changes
      entry `j` alone. */
  lemma FailureIsolation(numbers: seq<string>, replies: seq<Reply>, j: nat, reply: Reply)
    requires |numbers| == |replies| && j < |numbers|
    ensures Results(numbers, replies[j := reply])[j] == EntryFor(numbers[j], reply)
    ensures forall i :: 0 <= i < |numbers| && i != j ==>
              Results(numbers, replies[j := reply])[i] == Results(numbers, replies)[i]
  {
  }

  /** A status outside 200-299 for number `i` gives `{ok: false, trackingNumber, error: "HTTP <status>"}`
      at position `i`. */
  lemma HttpFailureEntry(numbers: seq<string>, replies: seq<Reply>, i: nat)
    requires |numbers| == |replies| && i < |numbers|
    requires replies[i].Response? && !IsOk(replies[i].status)
    ensures Results(numbers, replies)[i] == Failed(numbers[i], HttpMessage(replies[i].status))
  {
  }

  /** A reply without a first package for number `i` gives the "Sin datos del paquete"
      failure at position `i`. */
  lemma NoPackageEntry(numbers: seq<string>, replies: seq<Reply>, i: nat)
    requires |numbers| == |replies| && i < |numbers|
    requires replies[i].Response? && IsOk(replies[i].status) && replies[i].body.Parsed?
    requires FirstPackage(replies[i].body.data).None?
    ensures Results(numbers, replies)[i] == Failed(numbers[i], NoPackageData)
  {
  }

  /** The `for (const n of numbers)` loop: looks the numbers up one after the other and
      pushes one entry for each, in order; a failed lookup pushes its failure entry and
      the loop goes on. */
  method LookUpAll(numbers: seq<string>, replies: seq<Reply>) returns (results: seq<Entry>)
    requires |numbers| == |replies|
    ensures results == Results(numbers, replies)
  {
    results := [];
    for i := 0 to |numbers|
      invariant results == Results(numbers[..i], replies[..i])
    {
      var r := FetchFedEx(numbers[i], replies[i]);
      var entry;
      if r.Success? {
        entry := Tracked(r.value);
      } else {
        entry := Failed(numbers[i], ErrorText(r.error));
      }
      assert entry == EntryFor(numbers[i], replies[i]);
      ResultsSnoc(numbers, replies, i);
      results := results + [entry];
    }
    assert numbers[..|numbers|] == numbers && replies[..|numbers|] == replies;
  }

  /** Handling one more number appends its entry. */
  lemma ResultsSnoc(numbers: seq<string>, replies: seq<Reply>, i: nat)
    requires |numbers| == |replies| && i < |numbers|
    ensures Results(numbers[..i + 1], replies[..i + 1])
         == Results(numbers[..i], replies[..i]) + [EntryFor(numbers[i], replies[i])]
  {
    PairwiseSnoc(EntryFor, numbers, replies, i);
  }

  lemma PairwiseSnoc<A, B, C>(f: (A, B) -> C, xs: seq<A>, ys: seq<B>, i: nat)
    requires |xs| == |ys| && i < |xs|
    ensures Pairwise(f, xs[..i + 1], ys[..i + 1]) == Pairwise(f, xs[..i], ys[..i]) + [f(xs[i], ys[i])]
  {
    var longer, shorter := Pairwise(f, xs[..i + 1], ys[..i + 1]), Pairwise(f, xs[..i], ys[..i]);
    forall j | 0 <= j < i ensures longer[j] == shorter[j] {
      assert xs[..i + 1][j] == xs[..i][j] && ys[..i + 1][j] == ys[..i][j];
    }
  }

  /** The handler for a request whose `numbers` field is `numbers`, the i-th reply of the
      endpoint answering the i-th sanitised number. The `count` is the number of results,
      which is the number of distinct trimmed non-empty inputs; each result is the entry
      for its number; a missing or non-array field gives `{count: 0, results: []}`. */
  method Track(numbers: NumbersField, replies: seq<Reply>) returns (env: Envelope)
    requires |replies| == |Sanitize(numbers)|
    ensures env.count == |env.results|
    ensures env.results == Results(Sanitize(numbers), replies)
    ensures env.count == |Elements(Candidates(Raw(numbers)))|
    ensures !numbers.Array? ==> env == Envelope(0, [])
  {
    var ns := Sanitize(numbers);
    var results := LookUpAll(ns, replies);
    env := Envelope(|results|, results);
  }

  /** A package whose latest event is a delivery in Memphis, as the carrier reports it. */
  function DeliveredInMemphis(): Package {
    var event := ScanEvent(Text("Delivered"), Text("2024-01-01"), Text("10:00"), Text("Memphis, TN, US"));
    Package(
      scanEventList := Events([Some(event)]),
      keyStatus := Undefined,
      localization := None,
      displayActDeliveryDt := Undefined,
      displayEstDeliveryDt := Undefined,
      scanLocationCity := Undefined,
      scanLocationStateOrProvinceCode := Undefined,
      scanLocationCountryCode := Undefined,
      isDelivered := Set(true),
      serviceTypeDesc := Undefined,
      serviceCommitMessage := Undefined)
  }

  /** A 200 reply whose package list holds exactly `packages`. */
  function ReplyWith(packages: seq<Option<Package>>): Reply {
    Response(200, Parsed(Some(Body(Some(TrackPackagesResponse(Some(packages)))))))
  }

  /** End to end: looking up "000000000000" against that reply gives
      `{ok: true, trackingNumber: "000000000000", lastStatus: "Delivered",
        lastUpdateLocal: "2024-01-01 10:00", location: "Memphis, TN, US",
        delivered: true, service: ""}`. */
  lemma DeliveredExample()
    ensures Results(["000000000000"], [ReplyWith([Some(DeliveredInMemphis())])])
         == [Tracked(TrackingRecord("000000000000", "Delivered", "2024-01-01 10:00", "Memphis, TN, US", true, ""))]
  {
    var pkg := DeliveredInMemphis();
    var record := TrackingRecord("000000000000", "Delivered", "2024-01-01 10:00", "Memphis, TN, US", true, "");
    DeliveredRecord();
    assert FetchFedEx("000000000000", ReplyWith([Some(pkg)])) == Success(record);
    assert ["000000000000"][..0] == [];
  }

  lemma DeliveredRecord()
    ensures Normalize("000000000000", DeliveredInMemphis())
         == TrackingRecord("000000000000", "Delivered", "2024-01-01 10:00", "Memphis, TN, US", true, "")
  {
    var pkg := DeliveredInMemphis();
    assert LastStatus(pkg) == "Delivered";
    assert LastUpdateLocal(pkg) == "2024-01-01" + " " + "10:00";
    assert "2024-01-01" + " " + "10:00" == "2024-01-01 10:00";
    assert Location(pkg) == "Memphis, TN, US";
    assert Service(pkg) == "";
  }

  /** An empty package list gives the failure entry with the no-data message, not a crash. */
  lemma EmptyPackageListExample(n: string)
    ensures Results([n], [ReplyWith([])]) == [Failed(n, "Sin datos del paquete")]
  {
    assert [n][..0] == [];
  }

  /** One number answered 404 and one answered with a package: the first entry fails with
      "HTTP 404", the second succeeds; the failure does not stop the batch. */
  lemma MixedBatchExample(a: string, b: string, pkg: Package)
    ensures var r := Results([a, b], [Response(404, Parsed(None)), ReplyWith([Some(pkg)])]);
      r[0] == Failed(a, "HTTP 404") && r[1].Ok() && r[1].Number() == b
  {
    var numbers, replies := [a, b], [Response(404, Parsed(None)), ReplyWith([Some(pkg)])];
    assert HttpMessage(404) == "HTTP 404";
    HttpFailureEntry(numbers, replies, 0);
  }
}
