/** The emergency SOS button: activation, the three-second countdown driven
    by interval ticks, the alert it files, and cancellation. Each interval
    the button starts is kept with the coordinates it will report and
    whether it has cleared itself. */
module EmergencySOS {
  import opened Wrappers
  import opened Reports

  /** What the browser's position lookup does when the button is pressed. */
  datatype Geo = NoGeolocation | GeoError | GeoSuccess(latitude: real, longitude: real)

  datatype Interval = Interval(latitude: real, longitude: real, cleared: bool)

  datatype Sos = Sos(
    active: bool,
    countdown: Option<int>,
    location: Option<(real, real)>,
    intervals: seq<Interval>,
    alerts: seq<ReportDraft>)

  const Idle := Sos(false, None, None, [], [])

  /** Where the alert is sent from when no position is available. */
  const FallbackLatitude: real := 40.7128
  const FallbackLongitude: real := -74.0060

  /** The report `sendEmergencyAlert` files. */
  function Alert(latitude: real, longitude: real): (a: ReportDraft)
    ensures a.emergency && a.category == Some("Emergency SOS")
    ensures a.location == Location(latitude, longitude, None)
    ensures a.description == "EMERGENCY SOS ALERT: Immediate assistance required."
  {
    ReportDraft("EMERGENCY SOS ALERT: Immediate assistance required.",
                Location(latitude, longitude, None), None, true, Some("Emergency SOS"), None)
  }

  /** `sendEmergencyAlert`: file the alert, then mark the button active. */
  function SendAlert(s: Sos, latitude: real, longitude: real): (s': Sos)
    ensures s'.alerts == s.alerts + [Alert(latitude, longitude)] && s'.active
    ensures s'.countdown == s.countdown && s'.location == s.location && s'.intervals == s.intervals
  {
    s.(alerts := s.alerts + [Alert(latitude, longitude)], active := true)
  }

  /** `activateSOS`. */
  function Activate(s: Sos, geo: Geo): (s': Sos)
    ensures s.active ==> s' == s
    ensures !s.active && !geo.GeoSuccess? ==>
      && s'.alerts == s.alerts + [Alert(FallbackLatitude, FallbackLongitude)] && s'.active
      && s'.countdown == s.countdown && s'.location == s.location && s'.intervals == s.intervals
    ensures !s.active && geo.GeoSuccess? ==>
      && s'.countdown == Some(3) && s'.alerts == s.alerts && !s'.active
      && s'.location == Some((geo.latitude, geo.longitude))
      && s'.intervals == s.intervals + [Interval(geo.latitude, geo.longitude, false)]
  {
    if s.active then s
    else match geo
      case NoGeolocation => SendAlert(s, FallbackLatitude, FallbackLongitude)
      case GeoError => SendAlert(s, FallbackLatitude, FallbackLongitude)
      case GeoSuccess(lat, lng) =>
        s.(location := Some((lat, lng)), countdown := Some(3), intervals := s.intervals + [Interval(lat, lng, false)])
  }

  /** One tick of interval `i`: with the countdown gone or at most 1, the
      interval clears itself, sends the alert and empties the countdown;
      otherwise the countdown goes down by one. A cleared or unknown
      interval does not tick. */
  function Tick(s: Sos, i: nat): (s': Sos)
    ensures |s'.intervals| == |s.intervals|
    ensures i >= |s.intervals| || s.intervals[i].cleared ==> s' == s
    ensures i < |s.intervals| && !s.intervals[i].cleared ==>
      if s.countdown.None? || s.countdown.value <= 1 then
        && s'.alerts == s.alerts + [Alert(s.intervals[i].latitude, s.intervals[i].longitude)]
        && s'.countdown.None? && s'.active && s'.intervals[i].cleared
      else
        s' == s.(countdown := Some(s.countdown.value - 1))
  {
    if i >= |s.intervals| || s.intervals[i].cleared then s
    else if s.countdown.None? || s.countdown.value <= 1 then
      var iv := s.intervals[i];
      SendAlert(s.(intervals := s.intervals[i := iv.(cleared := true)], countdown := None),
                iv.latitude, iv.longitude)
    else s.(countdown := Some(s.countdown.value - 1))
  }

  /** `cancelSOS`: deactivate and drop the countdown; the interval is left running. */
  function Cancel(s: Sos): (s': Sos)
    ensures !s'.active && s'.countdown.None?
    ensures s'.intervals == s.intervals && s'.alerts == s.alerts
  {
    s.(active := false, countdown := None)
  }

  /** After a located activation the alert goes out on the third tick, not before. */
  lemma AlertOnThirdTick(s: Sos, lat: real, lng: real)
    requires !s.active && forall j :: 0 <= j < |s.intervals| ==> s.intervals[j].cleared
    ensures var a := Activate(s, GeoSuccess(lat, lng));
      var k := |s.intervals|;
      && Tick(a, k).alerts == s.alerts
      && Tick(Tick(a, k), k).alerts == s.alerts
      && Tick(Tick(Tick(a, k), k), k).alerts == s.alerts + [Alert(lat, lng)]
  {
  }

  /** Cancelling during the countdown does not stop the alert: the next
      tick of the running interval sees no countdown and sends it. */
  lemma CancelDoesNotStopAlert(s: Sos, lat: real, lng: real)
    requires !s.active
    ensures var k := |s.intervals|;
      Tick(Cancel(Activate(s, GeoSuccess(lat, lng))), k).alerts == s.alerts + [Alert(lat, lng)]
  {
  }

  /** The button stays inactive during the countdown, so pressing it again
      starts a second interval on the shared countdown; the two intervals
      tick in turn and two alerts are sent. */
  lemma SecondPressDuringCountdown(lat: real, lng: real)
    ensures var a := Activate(Activate(Idle, GeoSuccess(lat, lng)), GeoSuccess(lat, lng));
      && |a.intervals| == 2
      && |a.alerts| == 0
      && |Tick(Tick(Tick(Tick(a, 0), 1), 0), 1).alerts| == 2
  {
  }

  /** Without a position the alert goes out at once from the fallback coordinates. */
  lemma FallbackAlert(s: Sos, geo: Geo)
    requires !s.active && (geo == NoGeolocation || geo == GeoError)
    ensures Activate(s, geo).alerts[|s.alerts|].location == Location(40.7128, -74.0060, None)
    ensures Activate(s, geo).active
  {
  }

  /** Filing an alert adds an emergency report of category 'Emergency SOS' to the store. */
  lemma AlertReachesStore(st: Store, lat: real, lng: real, id: string, now: int)
    ensures var r := AddReport(st, Alert(lat, lng), id, now).reports[0];
      r.emergency && r.category == Some("Emergency SOS") && r.status == New && r.location.address.None?
  {
  }

  /** Interval `i` exists and has not cleared itself. */
  predicate Running(s: Sos, i: int) {
    0 <= i < |s.intervals| && !s.intervals[i].cleared
  }

  /** The ticks of the listed intervals, one after another. */
  function Ticks(s: Sos, ticks: seq<nat>): (s': Sos)
    ensures |s'.intervals| == |s.intervals|
    decreases |ticks|
  {
    if |ticks| == 0 then s else Ticks(Tick(s, ticks[0]), ticks[1..])
  }

  /** With no interval running, ticks change nothing. */
  lemma {:induction false} QuietStaysQuiet(s: Sos, ticks: seq<nat>)
    requires forall i :: 0 <= i < |s.intervals| ==> !Running(s, i)
    ensures Ticks(s, ticks) == s
    decreases |ticks|
  {
    if |ticks| > 0 {
      assert Tick(s, ticks[0]) == s by {
        assert !Running(s, ticks[0]);
      }
      QuietStaysQuiet(Tick(s, ticks[0]), ticks[1..]);
    }
  }

  /** Every interval marked cleared. */
  function ClearAll(ivs: seq<Interval>): (r: seq<Interval>)
    ensures |r| == |ivs|
    ensures forall i :: 0 <= i < |ivs| ==> r[i] == ivs[i].(cleared := true)
  {
    if |ivs| == 0 then [] else [ivs[0].(cleared := true)] + ClearAll(ivs[1..])
  }

  /** `cancelSOS` as the countdown screen's "Press cancel if this was an
      accident" means it: it also stops every running interval. */
  function CancelAndClear(s: Sos): (s': Sos)
    ensures !s'.active && s'.countdown.None? && s'.alerts == s.alerts
    ensures |s'.intervals| == |s.intervals|
    ensures forall i :: 0 <= i < |s'.intervals| ==> !Running(s', i)
  {
    s.(active := false, countdown := None, intervals := ClearAll(s.intervals))
  }

  /** With the corrected cancel, cancelling during the countdown stops the
      alert: however the intervals tick afterwards, nothing is sent. */
  lemma CancelAndClearStopsAlert(s: Sos, lat: real, lng: real, ticks: seq<nat>)
    requires !s.active
    ensures Ticks(CancelAndClear(Activate(s, GeoSuccess(lat, lng))), ticks).alerts == s.alerts
  {
    QuietStaysQuiet(CancelAndClear(Activate(s, GeoSuccess(lat, lng))), ticks);
  }

  /** `activateSOS` with its early return extended to the countdown: a press
      while the alert is pending changes nothing. */
  function ActivateOnce(s: Sos, geo: Geo): (s': Sos)
    ensures s.active || s.countdown.Some? ==> s' == s
    ensures !s.active && s.countdown.None? ==> s' == Activate(s, geo)
  {
    if s.active || s.countdown.Some? then s else Activate(s, geo)
  }

  /** At most one interval runs, and only while a countdown is shown. */
  ghost predicate Calm(s: Sos) {
    && (forall i :: Running(s, i) ==> s.countdown.Some?)
    && (forall i, j :: Running(s, i) && Running(s, j) ==> i == j)
  }

  /** The button as it mounts is calm, and the corrected press keeps it so. */
  lemma CalmActivateOnce(s: Sos, geo: Geo)
    requires Calm(s)
    ensures Calm(Idle)
    ensures Calm(ActivateOnce(s, geo))
  {
    if !s.active && s.countdown.None? {
      var a := Activate(s, geo);
      if geo.GeoSuccess? {
        forall i | 0 <= i < |s.intervals| ensures !Running(a, i) {
          assert a.intervals[i] == s.intervals[i];
          assert !Running(s, i);
        }
      } else {
        assert a.intervals == s.intervals;
        forall i | 0 <= i < |s.intervals| ensures !Running(a, i) {
          assert !Running(s, i);
        }
      }
    }
  }

  /** Every tick keeps the button calm. */
  lemma CalmTick(s: Sos, i: nat)
    requires Calm(s)
    ensures Calm(Tick(s, i))
  {
    var t := Tick(s, i);
    if Running(s, i) {
      forall j | Running(t, j) ensures t.countdown.Some? && j == i {
        assert Running(s, j);
        assert j == i;
      }
    }
  }

  /** The cancel as written leaves the button calm only when nothing was
      running; the corrected cancel always does. */
  lemma CalmCancel(s: Sos)
    requires Calm(s)
    ensures Calm(Cancel(s)) <==> forall j :: !Running(s, j)
    ensures Calm(CancelAndClear(s))
  {
    if exists j :: Running(s, j) {
      var j :| Running(s, j);
      assert Running(Cancel(s), j);
    } else {
      forall j ensures !Running(Cancel(s), j) {
        assert !Running(s, j);
      }
    }
  }

  /** With the corrected press, a second press during the countdown is
      ignored: one interval, and one alert once it has ticked three times. */
  lemma SecondPressIgnored(lat: real, lng: real)
    ensures var a := ActivateOnce(ActivateOnce(Idle, GeoSuccess(lat, lng)), GeoSuccess(lat, lng));
      && a == ActivateOnce(Idle, GeoSuccess(lat, lng))
      && |a.intervals| == 1
      && |Tick(Tick(Tick(a, 0), 0), 0).alerts| == 1
  {
  }
}
