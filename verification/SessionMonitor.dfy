/** The monitor keeps only its current state, clearing and appending lists as events come.
    Its invariant is that this agrees with the specification on the whole history. */
module SessionMonitor {
  import opened DataSession
  import opened Options

  // ---- One more event ----

  lemma Snoc(init: Init, h: seq<Event>, e: Event)
    ensures (h + [e])[..|h|] == h
    ensures RoleAfter(init, h + [e]) == if e.RoleRead? then ParseRole(e.text) else RoleAfter(init, h)
    ensures BoundAfter(init, h + [e]) ==
              if e.FunctionRead? && e.driver.Some? then e.driver.value != "" else BoundAfter(init, h)
    ensures Since(init, h + [e]) == if KindAfter(init, h + [e]) == KindAfter(init, h) then Since(init, h) else |h| + 1
    ensures StartTime(init, h + [e], |h| + 1) == e.last
    ensures forall i :: 0 <= i <= |h| ==> StartTime(init, h + [e], i) == StartTime(init, h, i)
  {
    assert (h + [e])[..|h|] == h;
  }

  lemma SnocRecorded(h: seq<Event>, e: Event, a: nat, port: Port)
    requires a <= |h|
    ensures Recorded((h + [e])[a..], port) == Recorded(h[a..], port).Extend(e, port)
  {
    assert (h + [e])[a..][..|h| - a] == h[a..];
  }

  lemma SnocSlice(h: seq<Event>, e: Event, a: nat, port: Port)
    requires a <= |h| && !e.StateRead?
    ensures Recorded((h + [e])[a..|h| + 1], port) == Recorded(h[a..], port)
  {
    assert (h + [e])[a..|h| + 1] == (h + [e])[a..];
    SnocRecorded(h, e, a, port);
  }

  lemma SnocKind(init: Init, h: seq<Event>, e: Event)
    ensures Since(init, h) <= |h| && KindAt(init, h + [e], Since(init, h)) == KindAfter(init, h)
  {
    var a := Since(init, h);
    SinceIsMaximal(init, h);
    assert (h + [e])[..a] == h[..a];
    assert KindAt(init, h, a) == KindAfter(init, h);
  }

  lemma SnocBatch(init: Init, h: seq<Event>, e: Event)
    requires !e.StateRead?
    ensures Batch(init, h + [e], Since(init, h), |h| + 1) == BatchNow(init, h, e)
  {
    var a := Since(init, h);
    SnocKind(init, h, e);
    assert a > 0 ==> (h + [e])[a - 1] == h[a - 1];
    SnocSlice(h, e, a, Device);
    SnocSlice(h, e, a, Host1);
    SnocSlice(h, e, a, Host2);
  }

  lemma SnocUploads(init: Init, h: seq<Event>, e: Event)
    requires !e.StateRead?
    ensures Uploads(init, h + [e]) ==
              if Ends(init, h + [e]) then Uploads(init, h) + [BatchNow(init, h, e)] else Uploads(init, h)
  {
    assert (h + [e])[..|h|] == h;
    SnocBatch(init, h, e);
  }

  // The batch of the session open after h, were e to end it.
  ghost function BatchNow(init: Init, h: seq<Event>, e: Event): seq<Report> {
    var a := Since(init, h);
    var start := StartTime(init, h, a);
    if KindAfter(init, h) == InDevice then
      [Report(false, FirstReading(e), start, Recorded(h[a..], Device))]
    else
      HostBatch(FirstReading(e), SecondReading(e), start, Recorded(h[a..], Host1), Recorded(h[a..], Host2))
  }

  lemma SnocMonotone(init: Init, h: seq<Event>, e: Event)
    requires Monotone(init, h + [e])
    ensures Monotone(init, h)
    ensures LastReading(init, h) <= FirstReading(e) <= SecondReading(e) <= e.last == LastReading(init, h + [e])
  {
    assert Ticks(init, h + [e], |h|);
    forall i | 0 <= i < |h| ensures Ticks(init, h, i) {
      assert Ticks(init, h + [e], i);
    }
  }

  // ---- The monitor's state, and what one event does to it ----

  datatype Fields = Fields(role: Role, bound: bool, start: Time,
                           device: PortRecord, host1: PortRecord, host2: PortRecord, uploads: seq<seq<Report>>)
  {
    function Reporting(first: Time, second: Time): Fields {
      if role == DEVICE then this.(uploads := uploads + [[Report(false, first, start, device)]])
      else if role == HOST then this.(uploads := uploads + [HostBatch(first, second, start, host1, host2)])
      else this
    }

    function ChangeRole(newRole: Role, first: Time, second: Time, last: Time): Fields {
      var ended := if role == HOST || (role == DEVICE && bound) then Reporting(first, second) else this;
      var begun := ended.(role := newRole, start := last);
      if newRole == DEVICE then begun.(device := NOTHING)
      else if newRole == HOST then begun.(host1 := NOTHING, host2 := NOTHING)
      else begun
    }

    function OnRole(e: Event): Fields
      requires e.RoleRead?
    {
      var newRole := ParseRole(e.text);
      if newRole == role then this else ChangeRole(newRole, e.first, e.second, e.last)
    }

    function OnFunction(e: Event): Fields
      requires e.FunctionRead?
    {
      if e.driver.None? || (e.driver.value != "") == bound then this
      else
        var flipped := this.(bound := !bound);
        if role != DEVICE then flipped
        else if bound then flipped.Reporting(e.first, e.last)
        else flipped.(device := NOTHING, start := e.last)
    }

    function On(e: Event): Fields {
      match e
      case RoleRead(_, _, _, _) => OnRole(e)
      case FunctionRead(_, _, _) => OnFunction(e)
      case StateRead(_, _, _) =>
        this.(device := device.Extend(e, Device), host1 := host1.Extend(e, Host1), host2 := host2.Extend(e, Host2))
    }
  }

  ghost predicate TracksRole(init: Init, h: seq<Event>, f: Fields) {
    f.role == RoleAfter(init, h) && f.bound == BoundAfter(init, h)
  }

  // The fields that hold the open session's data, when one is open.
  ghost predicate TracksOpen(init: Init, h: seq<Event>, f: Fields) {
    var a := Since(init, h);
    && (KindAfter(init, h) != Idle ==> f.start == StartTime(init, h, a))
    && (KindAfter(init, h) == InDevice ==> f.device == Recorded(h[a..], Device))
    && (KindAfter(init, h) == InHost ==> f.host1 == Recorded(h[a..], Host1) && f.host2 == Recorded(h[a..], Host2))
  }

  ghost predicate Tracks(init: Init, h: seq<Event>, f: Fields) {
    TracksRole(init, h, f) && TracksOpen(init, h, f) && f.uploads == Uploads(init, h)
  }

  ghost predicate Tidy(f: Fields) {
    WellFormed(f.device) && WellFormed(f.host1) && WellFormed(f.host2)
  }

  // Timestamps never decrease, and those of the current role start with its session,
  // open or not.
  ghost predicate InOrder(init: Init, h: seq<Event>, f: Fields) {
    var now := LastReading(init, h);
    && init.start <= f.start <= now
    && Chronological(f.device, CountsFrom(init, f.role == DEVICE, f.start), now)
    && Chronological(f.host1, CountsFrom(init, f.role == HOST, f.start), now)
    && Chronological(f.host2, CountsFrom(init, f.role == HOST, f.start), now)
  }

  ghost predicate Inv(init: Init, h: seq<Event>, f: Fields) {
    Tracks(init, h, f) && Tidy(f) && (Monotone(init, h) ==> InOrder(init, h, f))
  }

  lemma EventKeepsRole(init: Init, h: seq<Event>, f: Fields, e: Event)
    requires TracksRole(init, h, f)
    ensures TracksRole(init, h + [e], f.On(e))
  {
    Snoc(init, h, e);
  }

  lemma StateEventKeepsTrack(init: Init, h: seq<Event>, f: Fields, e: Event)
    requires Tracks(init, h, f) && e.StateRead?
    ensures Tracks(init, h + [e], f.On(e))
  {
    var a := Since(init, h);
    EventKeepsRole(init, h, f, e);
    Snoc(init, h, e);
    SnocRecorded(h, e, a, Device);
    SnocRecorded(h, e, a, Host1);
    SnocRecorded(h, e, a, Host2);
  }

  // An event that leaves the kind of session alone leaves its data alone.
  lemma SameKindKeepsOpen(init: Init, h: seq<Event>, f: Fields, e: Event)
    requires TracksOpen(init, h, f) && !e.StateRead?
    requires KindAfter(init, h + [e]) == KindAfter(init, h) != Idle
    ensures TracksOpen(init, h + [e], f)
  {
    var a := Since(init, h);
    Snoc(init, h, e);
    SnocRecorded(h, e, a, Device);
    SnocRecorded(h, e, a, Host1);
    SnocRecorded(h, e, a, Host2);
  }

  // A session that starts has no data yet.
  lemma NewKindTracks(init: Init, h: seq<Event>, f: Fields, e: Event)
    requires KindAfter(init, h + [e]) != KindAfter(init, h)
    requires f.start == e.last
    requires KindAfter(init, h + [e]) == InDevice ==> f.device == NOTHING
    requires KindAfter(init, h + [e]) == InHost ==> f.host1 == f.host2 == NOTHING
    ensures TracksOpen(init, h + [e], f)
  {
    Snoc(init, h, e);
    assert (h + [e])[|h| + 1..] == [];
  }

  ghost predicate SameData(f: Fields, g: Fields) {
    f.start == g.start && f.device == g.device && f.host1 == g.host1 && f.host2 == g.host2
  }

  // In the fields' own terms: data kept while the kind of session is, and empty for a new one.
  lemma ControlEventAndKind(init: Init, h: seq<Event>, f: Fields, e: Event)
    requires TracksRole(init, h, f) && !e.StateRead?
    ensures var g, before, now := f.On(e), KindAfter(init, h), KindAfter(init, h + [e]);
            && (now == before != Idle ==> SameData(f, g))
            && (now != before && now != Idle ==> g.start == e.last)
            && (now != before && now == InDevice ==> g.device == NOTHING)
            && (now != before && now == InHost ==> g.host1 == g.host2 == NOTHING)
  {
    Snoc(init, h, e);
  }

  lemma ControlEventKeepsOpen(init: Init, h: seq<Event>, f: Fields, e: Event)
    requires TracksRole(init, h, f) && TracksOpen(init, h, f) && !e.StateRead?
    ensures TracksOpen(init, h + [e], f.On(e))
  {
    ControlEventAndKind(init, h, f, e);
    if KindAfter(init, h + [e]) == Idle {
    } else if KindAfter(init, h + [e]) == KindAfter(init, h) {
      SameKindKeepsOpen(init, h, f, e);
    } else {
      NewKindTracks(init, h, f.On(e), e);
    }
  }

  lemma ControlEventKeepsUploads(init: Init, h: seq<Event>, f: Fields, e: Event)
    requires Tracks(init, h, f) && !e.StateRead?
    ensures f.On(e).uploads == Uploads(init, h + [e])
  {
    Snoc(init, h, e);
    SnocUploads(init, h, e);
  }

  lemma ControlEventKeepsTrack(init: Init, h: seq<Event>, f: Fields, e: Event)
    requires Tracks(init, h, f) && !e.StateRead?
    ensures Tracks(init, h + [e], f.On(e))
  {
    EventKeepsRole(init, h, f, e);
    ControlEventKeepsOpen(init, h, f, e);
    ControlEventKeepsUploads(init, h, f, e);
  }

  lemma KeepsTidy(f: Fields, e: Event)
    requires Tidy(f)
    ensures Tidy(f.On(e))
  {
  }

  // From when a port's timestamps count, given whether its role is the current one.
  function CountsFrom(init: Init, current: bool, start: Time): Time {
    if current then start else init.start
  }

  lemma RecordStaysInOrder(r: PortRecord, from: Time, start: Time, now: Time, later: Time)
    requires Chronological(r, start, now) && from <= start && now <= later
    ensures Chronological(r, from, later) && Chronological(r, start, later)
  {
  }

  lemma StateEventKeepsOrder(init: Init, h: seq<Event>, f: Fields, e: Event)
    requires Monotone(init, h + [e]) && InOrder(init, h, f) && e.StateRead?
    ensures InOrder(init, h + [e], f.On(e))
  {
    SnocMonotone(init, h, e);
    var now := LastReading(init, h);
    ExtendKeepsOrder(f.device, e, Device, CountsFrom(init, f.role == DEVICE, f.start), now);
    ExtendKeepsOrder(f.host1, e, Host1, CountsFrom(init, f.role == HOST, f.start), now);
    ExtendKeepsOrder(f.host2, e, Host2, CountsFrom(init, f.role == HOST, f.start), now);
  }

  // What a role change or a bind change does to the lists: kept as they are, or emptied.
  ghost predicate OnlyEmpties(f: Fields, g: Fields, last: Time) {
    && (g.start == f.start || g.start == last)
    && (g.device == NOTHING || (g.device == f.device && (g.role == DEVICE ==> f.role == DEVICE && g.start == f.start)))
    && (g.host1 == NOTHING || (g.host1 == f.host1 && (g.role == HOST ==> f.role == HOST && g.start == f.start)))
    && (g.host2 == NOTHING || (g.host2 == f.host2 && (g.role == HOST ==> f.role == HOST && g.start == f.start)))
  }

  lemma ControlEventOnlyEmpties(f: Fields, e: Event)
    requires !e.StateRead?
    ensures OnlyEmpties(f, f.On(e), e.last)
  {
  }

  lemma ControlEventKeepsOrder(init: Init, h: seq<Event>, f: Fields, e: Event)
    requires Monotone(init, h + [e]) && InOrder(init, h, f) && !e.StateRead?
    ensures InOrder(init, h + [e], f.On(e))
  {
    SnocMonotone(init, h, e);
    ControlEventOnlyEmpties(f, e);
    var now := LastReading(init, h);
    RecordStaysInOrder(f.device, init.start, CountsFrom(init, f.role == DEVICE, f.start), now, e.last);
    RecordStaysInOrder(f.host1, init.start, CountsFrom(init, f.role == HOST, f.start), now, e.last);
    RecordStaysInOrder(f.host2, init.start, CountsFrom(init, f.role == HOST, f.start), now, e.last);
  }

  lemma EventKeepsInv(init: Init, h: seq<Event>, f: Fields, e: Event)
    requires Inv(init, h, f)
    ensures Inv(init, h + [e], f.On(e))
  {
    KeepsTidy(f, e);
    if Monotone(init, h + [e]) { SnocMonotone(init, h, e); }
    if e.StateRead? {
      StateEventKeepsTrack(init, h, f, e);
      if Monotone(init, h + [e]) { StateEventKeepsOrder(init, h, f, e); }
    } else {
      ControlEventKeepsTrack(init, h, f, e);
      if Monotone(init, h + [e]) { ControlEventKeepsOrder(init, h, f, e); }
    }
  }

  function Initial(init: Init): Fields {
    Fields(init.role, init.bound, init.start, NOTHING, NOTHING, NOTHING, [])
  }

  function After(init: Init, h: seq<Event>): Fields {
    if h == [] then Initial(init) else After(init, h[..|h| - 1]).On(h[|h| - 1])
  }

  /** For every history, clearing and appending as events come uploads exactly what the
      whole-history specification asks for, and the records stay well formed and in order. */
  lemma {:induction false} MonitorRefinesHistory(init: Init, h: seq<Event>)
    ensures After(init, h).uploads == Uploads(init, h)
    ensures Inv(init, h, After(init, h))
  {
    if h == [] {
    } else {
      var front, e := h[..|h| - 1], h[|h| - 1];
      var f := After(init, front);
      MonitorRefinesHistory(init, front);
      EventKeepsInv(init, front, f, e);
      assert front + [e] == h;
      assert Inv(init, h, f.On(e)) && After(init, h) == f.On(e);
    }
  }

  function Appended(r: PortRecord, state: string, now: Time): PortRecord {
    PortRecord(r.states + [state], r.timestamps + [now])
  }

  class UsbDataSessionMonitor {
    var mDataRole: Role
    var mUdcBind: bool
    var mDataSessionStart: Time
    var mDeviceState: PortRecord
    var mHost1State: PortRecord
    var mHost2State: PortRecord
    var uploads: seq<seq<Report>>
    ghost const init: Init
    ghost var history: seq<Event>

    ghost function Now(): Fields
      reads this
    {
      Fields(mDataRole, mUdcBind, mDataSessionStart, mDeviceState, mHost1State, mHost2State, uploads)
    }

    ghost predicate Valid()
      reads this
    {
      Inv(init, history, Now())
    }

    // `role` is whatever the uninitialised field happens to hold.
    constructor (role: Role, udc: Option<string>)
      ensures Valid() && history == []
      ensures init == Init(role, udc.Some? && udc.value != "", 0)
    {
      mDataRole := role;
      mUdcBind := udc.Some? && udc.value != "";
      mDataSessionStart := 0;
      mDeviceState, mHost1State, mHost2State := NOTHING, NOTHING, NOTHING;
      uploads := [];
      history := [];
      init := Init(role, udc.Some? && udc.value != "", 0);
    }

    method ReportUsbDataSessionMetrics(first: Time, second: Time)
      modifies `uploads
      ensures Now() == old(Now()).Reporting(first, second)
    {
      var events := [];
      if mDataRole == DEVICE {
        events := [Report(false, first, mDataSessionStart, mDeviceState)];
      } else if mDataRole == HOST {
        var empty := true;
        var ports := [mHost1State, mHost2State];
        for n := 0 to 2
          invariant n == 0 ==> empty && events == []
          invariant n == 1 ==> empty == (|mHost1State.states| <= 1)
          invariant n == 1 ==> events == if empty then [] else [Report(true, first, mDataSessionStart, mHost1State)]
          invariant n == 2 ==> empty == (|mHost1State.states| <= 1 && |mHost2State.states| <= 1)
          invariant n == 2 && !empty ==> events == HostBatch(first, second, mDataSessionStart, mHost1State, mHost2State)
          invariant n == 2 && empty ==> events == []
        {
          var e := ports[n];
          if |e.states| > 1 {
            var now := if events == [] then first else second;
            events := events + [Report(true, now, mDataSessionStart, e)];
            empty := false;
          }
        }
        if empty {
          events := [Report(true, first, mDataSessionStart, mHost1State)];
        }
      } else {
        return;
      }
      uploads := uploads + [events];
    }

    method HandleDeviceStateEvent(port: Port, text: string, now: Time)
      requires Valid()
      modifies this
      ensures Valid() && history == old(history) + [StateRead(port, text, now)]
      ensures Now() == old(Now()).On(StateRead(port, text, now))
      ensures uploads == Uploads(init, history)
    {
      ghost var e, before := StateRead(port, text, now), Now();
      var state := ParseState(text);
      if state.Some? {
        Append(port, state.value, now);
      }
      assert Now() == before.On(e);
      EventKeepsInv(init, history, before, e);
      history := history + [e];
    }

    // The two push_backs, on the state structure of the port.
    method Append(port: Port, state: string, now: Time)
      modifies `mDeviceState, `mHost1State, `mHost2State
      ensures mDeviceState == if port == Device then Appended(old(mDeviceState), state, now) else old(mDeviceState)
      ensures mHost1State == if port == Host1 then Appended(old(mHost1State), state, now) else old(mHost1State)
      ensures mHost2State == if port == Host2 then Appended(old(mHost2State), state, now) else old(mHost2State)
    {
      match port {
        case Device =>
          mDeviceState := Appended(mDeviceState, state, now);
        case Host1 =>
          mHost1State := Appended(mHost1State, state, now);
        case Host2 =>
          mHost2State := Appended(mHost2State, state, now);
      }
    }

    method HandleDataRoleEvent(text: string, first: Time, second: Time, last: Time)
      requires Valid()
      modifies this
      ensures Valid() && history == old(history) + [RoleRead(text, first, second, last)]
      ensures Now() == old(Now()).On(RoleRead(text, first, second, last))
      ensures mDataRole == HOST <==> ReadsAs(text, 10, "host")
      ensures mDataRole == DEVICE <==> ReadsAs(text, 10, "device")
      ensures mDataRole == NONE <==> !ReadsAs(text, 10, "host") && !ReadsAs(text, 10, "device")
      ensures uploads == Uploads(init, history)
    {
      ghost var e, before := RoleRead(text, first, second, last), Now();
      var newDataRole := ParseRole(text);
      RoleIsExact(text);
      if newDataRole != mDataRole {
        ChangeRole(newDataRole, first, second, last);
      }
      EventKeepsInv(init, history, before, e);
      history := history + [e];
    }

    method ChangeRole(newDataRole: Role, first: Time, second: Time, last: Time)
      requires newDataRole != mDataRole
      modifies this
      ensures history == old(history)
      ensures Now() == old(Now()).ChangeRole(newDataRole, first, second, last)
    {
      if mDataRole == HOST || (mDataRole == DEVICE && mUdcBind) {
        ReportUsbDataSessionMetrics(first, second);
      }
      mDataRole := newDataRole;
      mDataSessionStart := last;
      if newDataRole == DEVICE {
        mDeviceState := NOTHING;
      } else if newDataRole == HOST {
        mHost1State := NOTHING;
        mHost2State := NOTHING;
      }
    }

    method UpdateUdcBindStatus(driver: Option<string>, first: Time, last: Time)
      requires Valid()
      modifies this
      ensures Valid() && history == old(history) + [FunctionRead(driver, first, last)]
      ensures Now() == old(Now()).On(FunctionRead(driver, first, last))
      ensures uploads == Uploads(init, history)
    {
      ghost var e := FunctionRead(driver, first, last);
      EventKeepsInv(init, history, Now(), e);
      history := history + [e];
      if driver.None? { return; }
      var newUdcBind := driver.value != "";
      if newUdcBind == mUdcBind { return; }
      if mDataRole == DEVICE {
        if mUdcBind && !newUdcBind {
          ReportUsbDataSessionMetrics(first, last);
        } else if !mUdcBind && newUdcBind {
          mDeviceState := NOTHING;
          mDataSessionStart := last;
        }
      }
      mUdcBind := newUdcBind;
    }
  }
}
