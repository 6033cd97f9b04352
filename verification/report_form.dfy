/** The report form: the fields a user fills in, the events that change
    them, and the checks `handleSubmit` runs before it files a report. */
module ReportForm {
  import opened Wrappers
  import opened Reports

  /** The coordinates used when only a typed location is given. */
  const DefaultLatitude: real := 40.7128
  const DefaultLongitude: real := -74.0060

  datatype MediaType = NoMedia | Photo | Audio

  datatype Form = Form(
    description: string,
    category: string,
    emergency: bool,
    location: Option<Location>,
    manualLocation: string,
    mediaType: MediaType,
    media: Option<string>)

  /** The form as it mounts. */
  const Blank := Form("", "", false, None, "", NoMedia, None)

  /** What can happen to the form before it is submitted. The browser's
      position lookup ends in `LocationFound` or `LocationFailed`;
      `ChooseManual` is the "Enter manually" radio, which drops a detected
      position. */
  datatype Event =
    | TypeDescription(text: string)
    | ChooseCategory(name: string)
    | SetEmergency(on: bool)
    | TypeLocation(text: string)
    | LocationFound(latitude: real, longitude: real)
    | LocationFailed
    | ChooseManual
    | CapturePhoto
    | CaptureAudio

  function Step(f: Form, e: Event): (f': Form)
    ensures f'.media == f.media
  {
    match e
    case TypeDescription(t) => f.(description := t)
    case ChooseCategory(c) => f.(category := c)
    case SetEmergency(b) => f.(emergency := b)
    case TypeLocation(t) => f.(manualLocation := t)
    case LocationFound(lat, lng) => f.(location := Some(Location(lat, lng, None)))
    case LocationFailed => f
    case ChooseManual => f.(location := None)
    case CapturePhoto => f.(mediaType := Photo)
    case CaptureAudio => f.(mediaType := Audio)
  }

  function Run(f: Form, es: seq<Event>): Form
    decreases |es|
  {
    if |es| == 0 then f else Run(Step(f, es[0]), es[1..])
  }

  /** No event attaches a file: the form's media stays absent forever. */
  lemma {:induction false} MediaNeverAttached(f: Form, es: seq<Event>)
    requires f.media.None?
    ensures Run(f, es).media.None?
    decreases |es|
  {
    if |es| > 0 {
      MediaNeverAttached(Step(f, es[0]), es[1..]);
    }
  }

  datatype Outcome =
    | DescriptionRequired
    | LocationRequired
    | Submitted(draft: ReportDraft, navigateTo: string)

  /** `handleSubmit`: description first, then some location; a detected
      position is used as it is, otherwise the default coordinates with the
      typed text as address. An empty category is sent as none, and media
      URLs only when a file is attached. */
  function Submit(f: Form): (o: Outcome)
    ensures f.description == "" <==> o == DescriptionRequired
    ensures o == LocationRequired <==> f.description != "" && f.location.None? && f.manualLocation == ""
    ensures o.Submitted? ==> o.navigateTo == "/"
    ensures o.Submitted? ==> o.draft.description == f.description && o.draft.emergency == f.emergency
    ensures o.Submitted? && f.location.Some? ==> o.draft.location == f.location.value
    ensures o.Submitted? && f.location.None? ==>
      o.draft.location == Location(DefaultLatitude, DefaultLongitude, Some(f.manualLocation))
    ensures o.Submitted? ==> (o.draft.category.None? <==> f.category == "")
    ensures o.Submitted? && f.category != "" ==> o.draft.category == Some(f.category)
    ensures o.Submitted? ==> (o.draft.mediaUrls.Some? <==> f.media.Some?)
  {
    if f.description == "" then DescriptionRequired
    else if f.location.None? && f.manualLocation == "" then LocationRequired
    else
      var location := if f.location.Some? then f.location.value
        else Location(DefaultLatitude, DefaultLongitude,
                      Some(if f.manualLocation != "" then f.manualLocation else "Location manually entered"));
      var draft := ReportDraft(
        f.description,
        location,
        if f.media.Some? then Some(["https://example.com/mockurl"]) else None,
        f.emergency,
        if f.category != "" then Some(f.category) else None,
        None);
      Submitted(draft, "/")
  }

  /** Switching to manual entry after a position was detected, then typing
      an address, files the report at the default coordinates with that
      address: the detected position is forgotten. */
  lemma ManualAfterDetection(f: Form, lat: real, lng: real, address: string)
    requires f.description != "" && address != ""
    ensures var o := Submit(Run(f, [LocationFound(lat, lng), ChooseManual, TypeLocation(address)]));
      o.Submitted? && o.draft.location == Location(DefaultLatitude, DefaultLongitude, Some(address))
  {
    var es := [LocationFound(lat, lng), ChooseManual, TypeLocation(address)];
    var f1 := Step(f, es[0]);
    var f2 := Step(f1, ChooseManual);
    var f3 := Step(f2, TypeLocation(address));
    assert es[1..] == [ChooseManual, TypeLocation(address)] && es[1..][1..] == [TypeLocation(address)];
    assert Run(f, es) == Run(f2, [TypeLocation(address)]) == Run(f3, []) == f3;
    assert f3.location.None? && f3.manualLocation == address;
  }

  /** A form filled in from the blank one never sends media URLs. */
  lemma NoMediaUrlsEverSent(es: seq<Event>)
    ensures Submit(Run(Blank, es)).Submitted? ==> Submit(Run(Blank, es)).draft.mediaUrls.None?
  {
    MediaNeverAttached(Blank, es);
  }

  /** Submitting adds exactly the report the form describes, with status
      `'new'`, and leaves the store unchanged when a check fails. */
  function SubmitToStore(st: Store, f: Form, id: string, now: int): (r: (Store, Outcome))
    ensures r.1 == Submit(f)
    ensures !r.1.Submitted? ==> r.0 == st
    ensures r.1.Submitted? ==>
      (|r.0.reports| == |st.reports| + 1 && DraftOf(r.0.reports[0]) == r.1.draft && r.0.reports[0].status == New)
  {
    var o := Submit(f);
    if o.Submitted? then (AddReport(st, o.draft, id, now), o) else (st, o)
  }
}
