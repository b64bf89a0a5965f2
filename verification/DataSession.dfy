/** USB data sessions, specified on the whole history of events: a session is a maximal
    stretch during which the data role is HOST, or is DEVICE with the gadget bound. */
module DataSession {

  import opened Options

  type Time = int

  // The role field has no initialiser, so its first value may be none of the three.
  datatype Role = NONE | HOST | DEVICE | INDETERMINATE

  datatype Port = Device | Host1 | Host2

  /** What one handler reads: sysfs text (`driver` is the bound gadget driver's name, if the
      file can be read), and the clock.  `first` and `second` are read while
      reporting a session that ends, `last` after that. */
  datatype Event =
    | RoleRead(text: string, first: Time, second: Time, last: Time)
    | FunctionRead(driver: Option<string>, first: Time, last: Time)
    | StateRead(port: Port, text: string, last: Time)

  datatype Init = Init(role: Role, bound: bool, start: Time)

  datatype PortRecord = PortRecord(states: seq<string>, timestamps: seq<Time>) {
    // A state event counts for its own port, if it reads as a state.
    function Extend(e: Event, port: Port): PortRecord {
      if e.StateRead? && e.port == port && ParseState(e.text).Some?
      then PortRecord(states + [ParseState(e.text).value], timestamps + [e.last])
      else this
    }
  }

  const NOTHING := PortRecord([], [])

  datatype Report = Report(isHost: bool, end: Time, start: Time, record: PortRecord)

  // ---- What the handlers make of the text they read ----

  const DATA_ROLE_MAX_LEN: nat := 10
  const USB_STATE_MAX_LEN: nat := 20

  const VALID_STATES: set<string> := {
    "not attached\n", "attached\n", "powered\n", "default\n", "addressed\n", "configured\n", "suspended\n"
  }

  // A fixed buffer holds at most n characters, and a C string ends at its first NUL.
  function CString(s: string, n: nat): string
    decreases n
  {
    if n == 0 || s == [] || s[0] == '\0' then "" else [s[0]] + CString(s[1..], n - 1)
  }

  function ParseRole(text: string): Role {
    var role := CString(text, DATA_ROLE_MAX_LEN);
    if role == "host" then HOST else if role == "device" then DEVICE else NONE
  }

  function ParseState(text: string): Option<string> {
    var state := CString(text, USB_STATE_MAX_LEN);
    if state in VALID_STATES then Some(state) else None
  }

  // What reading such a buffer amounts to: the longest prefix that has no NUL and fits.
  ghost predicate ReadsAs(s: string, n: nat, r: string) {
    && r <= s && |r| <= n && '\0' !in r
    && (|r| == |s| || |r| == n || s[|r|] == '\0')
  }

  lemma {:induction false} CStringIsTheLongest(s: string, n: nat, r: string)
    ensures ReadsAs(s, n, r) <==> r == CString(s, n)
    decreases n
  {
    if n == 0 || s == [] || s[0] == '\0' {
    } else {
      CStringIsTheLongest(s[1..], n - 1, CString(s[1..], n - 1));
      var c := CString(s, n);
      assert c[1..] == CString(s[1..], n - 1);
      if ReadsAs(s, n, r) && r != [] {
        assert r == [s[0]] + r[1..] && '\0' !in r[1..];
        CStringIsTheLongest(s[1..], n - 1, r[1..]);
      }
    }
  }

  // The role is what the first ten characters say, up to a NUL: "host", "device", or none.
  lemma RoleIsExact(text: string)
    ensures ParseRole(text) == HOST <==> ReadsAs(text, 10, "host")
    ensures ParseRole(text) == DEVICE <==> ReadsAs(text, 10, "device")
    ensures ParseRole(text) == NONE <==> !ReadsAs(text, 10, "host") && !ReadsAs(text, 10, "device")
  {
    CStringIsTheLongest(text, 10, "host");
    CStringIsTheLongest(text, 10, "device");
  }

  lemma RoleOfAName()
    ensures ParseRole("host") == HOST && ParseRole("device") == DEVICE
  {
    RoleIsExact("host");
    RoleIsExact("device");
  }

  // A name with its line end is none.
  lemma RoleOfALine()
    ensures ParseRole("host\n") == NONE
  {
    RoleIsExact("host\n");
    assert "host\n"[4] != '\0';
  }

  // A state counts if it is one of the seven, with its line end, within twenty characters.
  lemma StateIsExact(text: string, state: string)
    ensures ParseState(text) == Some(state) <==>
              && ReadsAs(text, 20, state)
              && state in {"not attached\n", "attached\n", "powered\n", "default\n", "addressed\n",
                           "configured\n", "suspended\n"}
  {
    CStringIsTheLongest(text, 20, state);
  }

  // ---- The history ----

  function RoleAfter(init: Init, h: seq<Event>): Role {
    if h == [] then init.role
    else match h[|h| - 1]
      case RoleRead(text, _, _, _) => ParseRole(text)
      case _ => RoleAfter(init, h[..|h| - 1])
  }

  function BoundAfter(init: Init, h: seq<Event>): bool {
    if h == [] then init.bound
    else match h[|h| - 1]
      case FunctionRead(Some(name), _, _) => name != ""
      case _ => BoundAfter(init, h[..|h| - 1])
  }

  datatype Kind = Idle | InHost | InDevice

  function KindAfter(init: Init, h: seq<Event>): Kind {
    var role := RoleAfter(init, h);
    if role == HOST then InHost
    else if role == DEVICE && BoundAfter(init, h) then InDevice
    else Idle
  }

  // The kind of session that is open after i events.
  function KindAt(init: Init, h: seq<Event>, i: nat): Kind
    requires i <= |h|
  {
    KindAfter(init, h[..i])
  }

  // The valid state events of one port, oldest first.
  function Recorded(h: seq<Event>, port: Port): PortRecord {
    if h == [] then NOTHING
    else
      var before := Recorded(h[..|h| - 1], port);
      before.Extend(h[|h| - 1], port)
  }

  // ---- Sessions: events a to b-1, the last of which ends the session ----

  ghost predicate IsSession(init: Init, h: seq<Event>, a: nat, b: nat) {
    && a < b <= |h|
    && KindAt(init, h, a) != Idle
    && (forall i :: a <= i < b ==> KindAt(init, h, i) == KindAt(init, h, a))
    && KindAt(init, h, b) != KindAt(init, h, a)
    && (a > 0 ==> KindAt(init, h, a - 1) != KindAt(init, h, a))
  }

  // Since when the present kind has lasted.
  function Since(init: Init, h: seq<Event>): (a: nat)
    ensures a <= |h|
  {
    if h == [] then 0
    else if KindAfter(init, h[..|h| - 1]) == KindAfter(init, h) then Since(init, h[..|h| - 1])
    else |h|
  }

  predicate Ends(init: Init, h: seq<Event>)
    requires h != []
  {
    var kind := KindAfter(init, h[..|h| - 1]);
    kind != Idle && kind != KindAfter(init, h)
  }

  function Sessions(init: Init, h: seq<Event>): (s: seq<(nat, nat)>) {
    if h == [] then []
    else
      var before := Sessions(init, h[..|h| - 1]);
      if Ends(init, h) then before + [(Since(init, h[..|h| - 1]), |h|)] else before
  }

  function StartTime(init: Init, h: seq<Event>, a: nat): Time
    requires a <= |h|
  {
    if a == 0 then init.start else h[a - 1].last
  }

  function SecondReading(e: Event): Time {
    if e.RoleRead? then e.second else e.last
  }

  function FirstReading(e: Event): Time {
    if e.StateRead? then e.last else e.first
  }

  // What is uploaded for the session of events a to b-1.
  function Batch(init: Init, h: seq<Event>, a: nat, b: nat): seq<Report>
    requires a < b <= |h|
  {
    var first, second := FirstReading(h[b - 1]), SecondReading(h[b - 1]);
    var start := StartTime(init, h, a);
    if KindAt(init, h, a) == InDevice then
      [Report(false, first, start, Recorded(h[a..b], Device))]
    else
      HostBatch(first, second, start, Recorded(h[a..b], Host1), Recorded(h[a..b], Host2))
  }

  // One event per host port with more than one state, or else one from host 1.
  function HostBatch(first: Time, second: Time, start: Time, host1: PortRecord, host2: PortRecord): seq<Report> {
    if |host1.states| > 1 && |host2.states| > 1 then
      [Report(true, first, start, host1), Report(true, second, start, host2)]
    else if |host2.states| > 1 then [Report(true, first, start, host2)]
    else [Report(true, first, start, host1)]
  }

  // The records worth an event of their own.
  function Busy(records: seq<PortRecord>): (busy: seq<PortRecord>)
    ensures |busy| <= |records|
  {
    if records == [] then []
    else (if |records[0].states| >= 2 then [records[0]] else []) + Busy(records[1..])
  }

  // In the order of the ports, with a clock reading each; or host 1's alone.
  lemma HostBatchIsExact(first: Time, second: Time, start: Time, host1: PortRecord, host2: PortRecord)
    ensures var busy, batch := Busy([host1, host2]), HostBatch(first, second, start, host1, host2);
            var told := if busy == [] then [host1] else busy;
            && |batch| == |told|
            && forall k :: 0 <= k < |batch| ==>
                 batch[k] == Report(true, if k == 0 then first else second, start, told[k])
  {
    assert [host1, host2][1..] == [host2] && [host2][1..] == [];
    assert Busy([host2]) == if |host2.states| >= 2 then [host2] else [];
  }

  function Uploads(init: Init, h: seq<Event>): (u: seq<seq<Report>>) {
    if h == [] then []
    else
      var front := h[..|h| - 1];
      if Ends(init, h) then Uploads(init, front) + [Batch(init, h, Since(init, front), |h|)]
      else Uploads(init, front)
  }

  // ---- Facts about the specification ----

  lemma KindAtPrefix(init: Init, h: seq<Event>, i: nat)
    requires h != [] && i < |h|
    ensures KindAt(init, h[..|h| - 1], i) == KindAt(init, h, i)
  {
    assert h[..|h| - 1][..i] == h[..i];
  }

  lemma {:induction false} SinceIsMaximal(init: Init, h: seq<Event>)
    ensures var a := Since(init, h);
            && (forall i :: a <= i <= |h| ==> KindAt(init, h, i) == KindAfter(init, h))
            && (a > 0 ==> KindAt(init, h, a - 1) != KindAfter(init, h))
  {
    assert h[..|h|] == h;
    if h == [] {
    } else {
      var front := h[..|h| - 1];
      assert front == h[..|h| - 1];
      SinceIsMaximal(init, front);
      forall i: nat | i < |h| ensures KindAt(init, front, i) == KindAt(init, h, i) {
        KindAtPrefix(init, h, i);
      }
    }
  }

  // Both directions: the list holds every maximal interval that has ended, and nothing else.
  lemma {:induction false} SessionsAreTheMaximalIntervals(init: Init, h: seq<Event>, a: nat, b: nat)
    ensures (a, b) in Sessions(init, h) <==> IsSession(init, h, a, b)
  {
    if h == [] {
    } else {
      var front := h[..|h| - 1];
      SessionsAreTheMaximalIntervals(init, front, a, b);
      if b < |h| {
        forall i: nat | i < |h| ensures KindAt(init, front, i) == KindAt(init, h, i) {
          KindAtPrefix(init, h, i);
        }
        assert IsSession(init, front, a, b) <==> IsSession(init, h, a, b);
        assert (a, b) != (Since(init, front), |h|);
      } else if b == |h| {
        LastSession(init, h, a);
      }
    }
  }

  lemma LastSession(init: Init, h: seq<Event>, a: nat)
    requires h != []
    ensures IsSession(init, h, a, |h|) <==> Ends(init, h) && a == Since(init, h[..|h| - 1])
    ensures (a, |h|) !in Sessions(init, h[..|h| - 1])
  {
    var front := h[..|h| - 1];
    assert h[..|h|] == h;
    SinceIsMaximal(init, front);
    forall i: nat | i < |h| ensures KindAt(init, front, i) == KindAt(init, h, i) {
      KindAtPrefix(init, h, i);
    }
    SessionsAreOrdered(init, front);
    var m := Since(init, front);
    assert KindAt(init, h, |h| - 1) == KindAfter(init, front);
    assert m > 0 ==> KindAt(init, h, m - 1) != KindAt(init, h, m);
  }

  ghost predicate Ordered(s: seq<(nat, nat)>, end: nat) {
    && (forall k :: 0 <= k < |s| ==> s[k].0 < s[k].1 <= end)
    && (forall j, k :: 0 <= j < k < |s| ==> s[j].1 <= s[k].0)
  }

  lemma {:induction false} SessionsAreOrdered(init: Init, h: seq<Event>)
    ensures Ordered(Sessions(init, h), |h|)
    ensures KindAfter(init, h) != Idle ==> Ordered(Sessions(init, h), Since(init, h))
  {
    if h == [] {
    } else {
      SessionsAreOrdered(init, h[..|h| - 1]);
    }
  }

  // The uploads are the batches of the sessions, in order: none missed, none twice.
  lemma {:induction false} UploadsAreTheSessions(init: Init, h: seq<Event>)
    ensures |Uploads(init, h)| == |Sessions(init, h)|
    ensures forall k :: 0 <= k < |Uploads(init, h)| ==>
              var (a, b) := Sessions(init, h)[k];
              a < b <= |h| && Uploads(init, h)[k] == Batch(init, h, a, b)
  {
    SessionsAreOrdered(init, h);
    if h == [] {
    } else {
      var front := h[..|h| - 1];
      UploadsAreTheSessions(init, front);
      forall k | 0 <= k < |Sessions(init, front)|
        ensures var (a, b) := Sessions(init, front)[k];
                a < b < |h| && Batch(init, front, a, b) == Batch(init, h, a, b)
      {
        var (a, b) := Sessions(init, front)[k];
        SessionsAreOrdered(init, front);
        KindAtPrefix(init, h, a);
        assert front[a..b] == h[a..b];
      }
    }
  }

  function Active(kind: Kind): nat {
    if kind == Idle then 0 else 1
  }

  function Started(init: Init, h: seq<Event>): nat {
    if h == [] then 0
    else
      var before, now := KindAfter(init, h[..|h| - 1]), KindAfter(init, h);
      Started(init, h[..|h| - 1]) + if now != before then Active(now) else 0
  }

  lemma {:induction false} SessionsAreConserved(init: Init, h: seq<Event>)
    ensures |Uploads(init, h)| + Active(KindAfter(init, h)) == Started(init, h) + Active(KindAfter(init, []))
  {
    if h == [] {
    } else {
      SessionsAreConserved(init, h[..|h| - 1]);
    }
  }

  // ---- Records ----

  ghost predicate WellFormed(r: PortRecord) {
    && |r.states| == |r.timestamps|
    && forall k :: 0 <= k < |r.states| ==> r.states[k] in VALID_STATES
  }

  ghost predicate Chronological(r: PortRecord, from: Time, to: Time) {
    && (forall k :: 0 <= k < |r.timestamps| ==> from <= r.timestamps[k] <= to)
    && (forall j, k :: 0 <= j < k < |r.timestamps| ==> r.timestamps[j] <= r.timestamps[k])
  }

  function LastReading(init: Init, h: seq<Event>): Time {
    StartTime(init, h, |h|)
  }

  // The boot clock never runs backwards.
  ghost predicate Monotone(init: Init, h: seq<Event>) {
    forall i :: 0 <= i < |h| ==> Ticks(init, h, i)
  }

  ghost predicate Ticks(init: Init, h: seq<Event>, i: int)
    requires 0 <= i < |h|
  {
    StartTime(init, h, i) <= FirstReading(h[i]) <= SecondReading(h[i]) <= h[i].last
  }

  lemma {:induction false} RecordedIsWellFormed(h: seq<Event>, port: Port)
    ensures WellFormed(Recorded(h, port))
  {
    if h == [] {
    } else {
      RecordedIsWellFormed(h[..|h| - 1], port);
    }
  }

  // Each report tells of its own session only: valid states, in order, within its time span.
  lemma ReportsStayInTheirSession(init: Init, h: seq<Event>, k: nat)
    requires Monotone(init, h) && k < |Uploads(init, h)|
    ensures 1 <= |Uploads(init, h)[k]| <= 2
    ensures forall r <- Uploads(init, h)[k] ::
              Fits(r.record, r.start, r.end)
  {
    UploadsAreTheSessions(init, h);
    var (a, b) := Sessions(init, h)[k];
    SessionsAreTheMaximalIntervals(init, h, a, b);
    EndingEvent(init, h, a, b);
    SessionRecordFits(init, h, a, b, Device);
    SessionRecordFits(init, h, a, b, Host1);
    SessionRecordFits(init, h, a, b, Host2);
  }

  ghost predicate Fits(r: PortRecord, start: Time, end: Time) {
    WellFormed(r) && Chronological(r, start, end) && start <= end
  }

  lemma RecordedIgnoresOthers(h: seq<Event>, port: Port)
    requires h != [] && !h[|h| - 1].StateRead?
    ensures Recorded(h, port) == Recorded(h[..|h| - 1], port)
  {
  }

  lemma SessionRecordFits(init: Init, h: seq<Event>, a: nat, b: nat, port: Port)
    requires Monotone(init, h) && a < b <= |h| && !h[b - 1].StateRead?
    ensures Fits(Recorded(h[a..b], port), StartTime(init, h, a), FirstReading(h[b - 1]))
    ensures FirstReading(h[b - 1]) <= SecondReading(h[b - 1])
  {
    assert Ticks(init, h, b - 1);
    RecordedIsWellFormed(h[a..b], port);
    RecordedIgnoresOthers(h[a..b], port);
    assert h[a..b][..b - 1 - a] == h[a..b - 1];
    RecordedInSpan(init, h, a, b - 1, port);
    ClockAdvances(init, h, a, b - 1);
  }

  // A session is never ended by a state event.
  lemma EndingEvent(init: Init, h: seq<Event>, a: nat, b: nat)
    requires IsSession(init, h, a, b)
    ensures !h[b - 1].StateRead?
  {
    assert h[..b][..b - 1] == h[..b - 1];
    assert KindAt(init, h, b - 1) == KindAt(init, h, a);
  }

  lemma {:induction false} ClockAdvances(init: Init, h: seq<Event>, a: nat, b: nat)
    requires Monotone(init, h) && a <= b <= |h|
    ensures StartTime(init, h, a) <= StartTime(init, h, b)
  {
    if a == b {
    } else {
      ClockAdvances(init, h, a, b - 1);
      assert Ticks(init, h, b - 1);
    }
  }

  lemma ExtendKeepsOrder(r: PortRecord, e: Event, port: Port, from: Time, to: Time)
    requires Chronological(r, from, to) && from <= to <= e.last
    ensures Chronological(r.Extend(e, port), from, e.last)
  {
  }

  ghost predicate Within(g: seq<Event>, from: Time, to: Time) {
    && (forall i :: 0 <= i < |g| ==> from <= g[i].last <= to)
    && (forall i, j :: 0 <= i < j < |g| ==> g[i].last <= g[j].last)
  }

  lemma {:induction false} RecordedWithin(g: seq<Event>, port: Port, from: Time, to: Time)
    requires Within(g, from, to) && from <= to
    ensures Chronological(Recorded(g, port), from, to)
  {
    if g == [] {
    } else {
      var front, e := g[..|g| - 1], g[|g| - 1];
      RecordedWithin(front, port, from, e.last);
      ExtendKeepsOrder(Recorded(front, port), e, port, from, e.last);
    }
  }

  lemma RecordedInSpan(init: Init, h: seq<Event>, a: nat, b: nat, port: Port)
    requires Monotone(init, h) && a <= b <= |h|
    ensures Chronological(Recorded(h[a..b], port), StartTime(init, h, a), StartTime(init, h, b))
  {
    var g := h[a..b];
    forall i | 0 <= i < |g| ensures StartTime(init, h, a) <= g[i].last <= StartTime(init, h, b) {
      ClockAdvances(init, h, a, a + i + 1);
      ClockAdvances(init, h, a + i + 1, b);
    }
    forall i, j | 0 <= i < j < |g| ensures g[i].last <= g[j].last {
      assert g[i].last == StartTime(init, h, a + i + 1) && g[j].last == StartTime(init, h, a + j + 1);
      ClockAdvances(init, h, a + i + 1, a + j + 1);
    }
    ClockAdvances(init, h, a, b);
    RecordedWithin(g, port, StartTime(init, h, a), StartTime(init, h, b));
  }
}
