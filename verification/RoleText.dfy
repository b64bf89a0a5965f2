/** Roles as text: what is written to sysfs, and how the bracketed listing that comes
    back is read. */
module RoleText {

  import opened Options
  import opened Search

  datatype PowerRole = NoPower | Source | Sink
  datatype DataRole = NoData | Host | Device
  datatype Mode = NoMode | Ufp | Dfp | Drp | AudioAccessory | DebugAccessory

  datatype PortRole = Power(power: PowerRole) | Data(data: DataRole) | PortMode(mode: Mode)

  datatype Status = SUCCESS | ERROR | UNRECOGNIZED_ROLE

  function ConvertRoleToString(role: PortRole): string {
    match role
    case Power(Source) => "source"
    case Power(Sink) => "sink"
    case Data(Host) => "host"
    case Data(Device) => "device"
    case PortMode(Ufp) => "sink"
    case PortMode(Dfp) => "source"
    case _ => "none"
  }

  predicate IsSpace(c: char) {
    c == ' ' || '\t' <= c <= '\r'
  }

  function TrimStart(s: string): string {
    if s != [] && IsSpace(s[0]) then TrimStart(s[1..]) else s
  }

  function TrimEnd(s: string): string {
    if s != [] && IsSpace(s[|s| - 1]) then TrimEnd(s[..|s| - 1]) else s
  }

  function Trim(s: string): string {
    TrimEnd(TrimStart(s))
  }

  const SIZE_MAX_PLUS_ONE: int := 0x1_0000_0000_0000_0000

  // What a size_t holds after a subtraction that may have gone below zero.
  function Unsigned(n: int): nat
    requires -SIZE_MAX_PLUS_ONE <= n
  {
    if n < 0 then n + SIZE_MAX_PLUS_ONE else n
  }

  // substr clips its count, and the count is unsigned: a closing bracket before the
  // opening one asks for almost 2^64 characters, that is, for all the rest.
  function ExtractRole(s: string): string
    requires |s| < SIZE_MAX_PLUS_ONE / 2
  {
    var first, last := Find(s, '[', 0), Find(s, ']', 0);
    if first < |s| && last < |s| then
      var count := Unsigned(last - first - 1);
      if first + 1 + count <= |s| then s[first + 1..first + 1 + count] else s[first + 1..]
    else s
  }

  // On a mismatch the union is switched to whatever the text names.
  function WithText(role: PortRole, text: string): (Status, PortRole) {
    if text == "source" then (SUCCESS, Power(Source))
    else if text == "sink" then (SUCCESS, Power(Sink))
    else if text == "host" then (SUCCESS, if role.Data? then Data(Host) else PortMode(Dfp))
    else if text == "device" then (SUCCESS, if role.Data? then Data(Device) else PortMode(Ufp))
    else if text != "none" then (UNRECOGNIZED_ROLE, role)
    else (SUCCESS, role)
  }

  function Cleared(role: PortRole): PortRole {
    match role
    case Power(_) => Power(NoPower)
    case Data(_) => Data(NoData)
    case PortMode(_) => PortMode(NoMode)
  }

  type Text = s: string | |s| < SIZE_MAX_PLUS_ONE / 2 witness ""

  lemma {:induction false} TrimShortens(s: string)
    ensures |Trim(s)| <= |s|
  {
    TrimmedAt(s);
  }

  // getCurrentRoleHelper: `accessory` and `file` are what the two sysfs files hold, if readable.
  function CurrentRole(role: PortRole, connected: bool, accessory: Option<string>, file: Option<Text>)
    : (Status, PortRole)
  {
    var cleared := Cleared(role);
    if !connected then (SUCCESS, cleared)
    else if role.PortMode? && accessory.None? then (ERROR, cleared)
    else if role.PortMode? && Trim(accessory.value) == "analog_audio" then (SUCCESS, PortMode(AudioAccessory))
    else if role.PortMode? && Trim(accessory.value) == "debug" then (SUCCESS, PortMode(DebugAccessory))
    else if file.None? then (ERROR, cleared)
    else
      TrimShortens(file.value);
      WithText(cleared, ExtractRole(Trim(file.value)))
  }

  // switchRole for data and power roles: what was read back after the write, if anything.
  function SwitchVerdict(role: PortRole, readBack: Option<Text>): bool {
    && readBack.Some?
    && (TrimShortens(readBack.value); ExtractRole(Trim(readBack.value))) == ConvertRoleToString(role)
  }

  // ---- Trimming keeps a slice, and never a bracket's worth less ----

  ghost predicate TrimsTo(s: string, i: nat, j: nat) {
    && i <= j <= |s|
    && (forall k :: 0 <= k < i ==> IsSpace(s[k]))
    && (forall k :: j <= k < |s| ==> IsSpace(s[k]))
    && (i < j ==> !IsSpace(s[i]) && !IsSpace(s[j - 1]))
    && Trim(s) == s[i..j]
  }

  lemma {:induction false} TrimStartAt(s: string) returns (i: nat)
    ensures i <= |s| && TrimStart(s) == s[i..]
    ensures forall k :: 0 <= k < i ==> IsSpace(s[k])
    ensures i < |s| ==> !IsSpace(s[i])
  {
    if s != [] && IsSpace(s[0]) {
      i := TrimStartAt(s[1..]);
      i := i + 1;
    } else {
      i := 0;
    }
  }

  lemma {:induction false} TrimEndAt(s: string) returns (j: nat)
    ensures j <= |s| && TrimEnd(s) == s[..j]
    ensures forall k :: j <= k < |s| ==> IsSpace(s[k])
    ensures j > 0 ==> !IsSpace(s[j - 1])
  {
    if s != [] && IsSpace(s[|s| - 1]) {
      j := TrimEndAt(s[..|s| - 1]);
      assert s[..|s| - 1][..j] == s[..j];
    } else {
      j := |s|;
      assert s[..j] == s;
    }
  }

  lemma TrimmedAt(s: string)
    ensures exists i: nat, j: nat :: TrimsTo(s, i, j)
    ensures |Trim(s)| <= |s|
  {
    var i := TrimStartAt(s);
    var j := TrimEndAt(s[i..]);
    assert s[i..][..j] == s[i..i + j];
    assert forall k :: i + j <= k < |s| ==> s[k] == s[i..][k - i];
    assert TrimsTo(s, i, i + j);
  }

  lemma SpaceIsExact(c: char)
    ensures IsSpace(c) <==> c in {' ', '\t', '\n', 11 as char, 12 as char, '\r'}
  {
  }

  predicate Blank(s: string) {
    forall k :: 0 <= k < |s| ==> IsSpace(s[k])
  }

  // Where the text between blanks starts and ends is no choice.
  lemma TrimsOnlyTo(s: string, a: nat, b: nat, i: nat, j: nat)
    requires a <= b <= |s| && Blank(s[..a]) && Blank(s[b..])
    requires a < b ==> !IsSpace(s[a]) && !IsSpace(s[b - 1])
    requires TrimsTo(s, i, j)
    ensures s[i..j] == s[a..b]
  {
    assert forall k :: 0 <= k < a ==> s[k] == s[..a][k];
    assert forall k :: b <= k < |s| ==> s[k] == s[b..][k - b];
    if a == b {
      assert Blank(s);
    } else {
      assert i == a && j == b;
    }
  }

  // Trimming takes away the blanks around a text, and nothing else.
  lemma TrimIsExact(before: string, text: string, after: string)
    requires Blank(before) && Blank(after)
    requires text != "" ==> !IsSpace(text[0]) && !IsSpace(text[|text| - 1])
    ensures Trim(before + text + after) == text
  {
    var s, a, b := before + text + after, |before|, |before| + |text|;
    TrimmedAt(s);
    var i: nat, j: nat :| TrimsTo(s, i, j);
    assert s[..a] == before && s[a..b] == text && s[b..] == after;
    TrimsOnlyTo(s, a, b, i, j);
  }

  // ---- Reading a bracketed listing ----

  predicate BracketFree(s: string) {
    '[' !in s && ']' !in s
  }

  // Any listing of alternatives with the current one in brackets.
  function Listing(before: string, current: string, after: string): string {
    before + "[" + current + "]" + after
  }

  ghost predicate BracketsAt(s: string, a: nat, b: nat) {
    && a < b < |s| && s[a] == '[' && s[b] == ']'
    && forall k :: 0 <= k < |s| && k != a && k != b ==> s[k] != '[' && s[k] != ']'
  }

  lemma ExtractAt(s: string, a: nat, b: nat)
    requires |s| < SIZE_MAX_PLUS_ONE / 2 && BracketsAt(s, a, b)
    ensures ExtractRole(s) == s[a + 1..b]
  {
    FindIs(s, '[', 0, a);
    FindIs(s, ']', 0, b);
  }

  lemma SliceKeepsBrackets(s: string, a: nat, b: nat, i: nat, j: nat)
    requires BracketsAt(s, a, b) && i <= a < b < j <= |s|
    ensures BracketsAt(s[i..j], a - i, b - i)
    ensures s[i..j][a - i + 1..b - i] == s[a + 1..b]
  {
    var t, u := s[i..j], s[a + 1..b];
    forall k | 0 <= k < |u| ensures t[a - i + 1..b - i][k] == u[k] {
      assert t[a - i + 1 + k] == s[a + 1 + k];
    }
  }

  lemma BracketedIsExtracted(s: string, a: nat, b: nat)
    requires |s| < SIZE_MAX_PLUS_ONE / 2 && BracketsAt(s, a, b)
    ensures |Trim(s)| <= |s| && ExtractRole(Trim(s)) == s[a + 1..b]
  {
    TrimmedAt(s);
    var i: nat, j: nat :| TrimsTo(s, i, j);
    assert i <= a < b < j by {
      assert !IsSpace(s[a]) && !IsSpace(s[b]);
    }
    SliceKeepsBrackets(s, a, b, i, j);
    ExtractAt(s[i..j], a - i, b - i);
  }

  lemma ListingIsRead(before: string, current: string, after: string)
    requires BracketFree(before) && BracketFree(current) && BracketFree(after)
    requires |Listing(before, current, after)| < SIZE_MAX_PLUS_ONE / 2
    ensures var s := Listing(before, current, after);
            |Trim(s)| <= |s| && ExtractRole(Trim(s)) == current
  {
    var s, a, b := Listing(before, current, after), |before|, |before| + 1 + |current|;
    forall k | 0 <= k < |s| && k != a && k != b ensures s[k] != '[' && s[k] != ']' {
      if k < a {
        assert s[k] == before[k];
      } else if k < b {
        assert s[k] == current[k - a - 1];
      } else {
        assert s[k] == after[k - b - 1];
      }
    }
    BracketedIsExtracted(s, a, b);
    assert s[a + 1..b] == current;
  }

  // What is written for each role; anything else, and no role, is "none".
  lemma RenderedExactly(role: PortRole)
    ensures ConvertRoleToString(role) == "source" <==> role in {Power(Source), PortMode(Dfp)}
    ensures ConvertRoleToString(role) == "sink" <==> role in {Power(Sink), PortMode(Ufp)}
    ensures ConvertRoleToString(role) == "host" <==> role == Data(Host)
    ensures ConvertRoleToString(role) == "device" <==> role == Data(Device)
    ensures ConvertRoleToString(role) in {"source", "sink", "host", "device", "none"}
  {
    assert "source"[0] != "sink"[0] || "source"[1] != "sink"[1];
    assert "host"[0] != "none"[0] && "device"[0] != "none"[0];
  }

  // Round trip: a role written, listed in brackets among any others, is read back.
  lemma RoleRoundTrip(role: PortRole, stale: PortRole, accessory: Option<string>, before: string, after: string)
    requires role in {Power(Source), Power(Sink), Data(Host), Data(Device)}
    requires role.Power? == stale.Power? && role.Data? == stale.Data?
    requires BracketFree(before) && BracketFree(after)
    requires |Listing(before, ConvertRoleToString(role), after)| < SIZE_MAX_PLUS_ONE / 2
    ensures var s := Listing(before, ConvertRoleToString(role), after);
            CurrentRole(stale, true, accessory, Some(s)) == (SUCCESS, role)
  {
    ListingIsRead(before, ConvertRoleToString(role), after);
  }

  // Total on every string: without both brackets nothing is cut...
  lemma ExtractWithoutBrackets(s: string)
    requires |s| < SIZE_MAX_PLUS_ONE / 2 && ('[' !in s || ']' !in s)
    ensures ExtractRole(s) == s
  {
    FindFacts(s, '[', 0);
    FindFacts(s, ']', 0);
  }

  // ... and with the brackets the wrong way round, everything after the opening one is kept.
  lemma ExtractBetweenBrackets(s: string, first: nat, last: nat)
    requires |s| < SIZE_MAX_PLUS_ONE / 2
    requires first < |s| && s[first] == '[' && forall k :: 0 <= k < first ==> s[k] != '['
    requires last < |s| && s[last] == ']' && forall k :: 0 <= k < last ==> s[k] != ']'
    ensures ExtractRole(s) == if first < last then s[first + 1..last] else s[first + 1..]
  {
    FindIs(s, '[', 0, first);
    FindIs(s, ']', 0, last);
  }

  predicate FirstAt(s: string, c: char, i: nat) {
    i < |s| && s[i] == c && forall k :: 0 <= k < i ==> s[k] != c
  }

  // What any text says, told without searching for it.
  ghost predicate ReadsAs(s: string, text: string) {
    if '[' in s && ']' in s then
      exists a: nat, b: nat :: FirstAt(s, '[', a) && FirstAt(s, ']', b) &&
        text == if a < b then s[a + 1..b] else s[a + 1..]
    else text == s
  }

  lemma ExtractedIsRead(s: string)
    requires |s| < SIZE_MAX_PLUS_ONE / 2
    ensures forall text :: ReadsAs(s, text) <==> text == ExtractRole(s)
  {
    if '[' in s && ']' in s {
      var a, b := Find(s, '[', 0), Find(s, ']', 0);
      FindFacts(s, '[', 0);
      FindFacts(s, ']', 0);
      assert FirstAt(s, '[', a) && FirstAt(s, ']', b);
      ExtractBetweenBrackets(s, a, b);
    } else {
      ExtractWithoutBrackets(s);
    }
  }

  // A switch is reported as done exactly if the file, whatever it holds, now reads as the role.
  lemma VerdictIsExact(asked: PortRole, file: Text)
    ensures SwitchVerdict(asked, Some(file)) <==> ReadsAs(Trim(file), ConvertRoleToString(asked))
  {
    TrimShortens(file);
    ExtractedIsRead(Trim(file));
  }

  // So with a listing it is the bracketed text that counts, whatever else is listed...
  lemma VerdictOnListing(asked: PortRole, before: string, current: string, after: string)
    requires BracketFree(before) && BracketFree(current) && BracketFree(after)
    requires |Listing(before, current, after)| < SIZE_MAX_PLUS_ONE / 2
    ensures SwitchVerdict(asked, Some(Listing(before, current, after))) <==> current == ConvertRoleToString(asked)
  {
    ListingIsRead(before, current, after);
  }

  // ... and with a plain file all of it but the blanks around.
  lemma VerdictOnPlainText(asked: PortRole, file: Text)
    requires '[' !in file || ']' !in file
    ensures SwitchVerdict(asked, Some(file)) <==> Trim(file) == ConvertRoleToString(asked)
  {
    TrimmedAt(file);
    ExtractWithoutBrackets(Trim(file));
  }

  predicate SameTag(a: PortRole, b: PortRole) {
    a.Power? == b.Power? && a.Data? == b.Data?
  }

  // The caller reads the union under the tag it asked for, which is the tag it gets
  // back exactly if the text is not one of the other kind.
  lemma TagKeptExactly(role: PortRole, accessory: Option<string>, file: Text)
    requires role.PortMode? ==> accessory.Some?
    ensures |Trim(file)| < SIZE_MAX_PLUS_ONE / 2
    ensures var text := ExtractRole(Trim(file));
            SameTag(role, CurrentRole(role, true, accessory, Some(file)).1) <==>
              match role
              case Power(_) => text !in {"host", "device"}
              case Data(_) => text !in {"source", "sink"}
              case PortMode(_) => Trim(accessory.value) in {"analog_audio", "debug"} || text !in {"source", "sink"}
  {
    TrimShortens(file);
  }

  // It can fail: a data role file that names a power role hands the caller a power role.
  lemma TagIsLost(stale: DataRole, before: string, after: string)
    requires BracketFree(before) && BracketFree(after)
    requires |Listing(before, "source", after)| < SIZE_MAX_PLUS_ONE / 2
    ensures CurrentRole(Data(stale), true, None, Some(Listing(before, "source", after))) == (SUCCESS, Power(Source))
  {
    ListingIsRead(before, "source", after);
  }

  // An accessory decides the mode, whatever the data role.
  lemma AccessoryIsExact(stale: Mode, accessory: string, file: Option<Text>)
    ensures var r := CurrentRole(PortMode(stale), true, Some(accessory), file);
            && (r == (SUCCESS, PortMode(AudioAccessory)) <==> Trim(accessory) == "analog_audio")
            && (r == (SUCCESS, PortMode(DebugAccessory)) <==> Trim(accessory) == "debug")
  {
    if file.Some? { TrimShortens(file.value); }
    assert "analog_audio"[0] != "debug"[0];
  }

  // Which text makes which role; a host or a device is a mode unless the data role was asked for.
  lemma TextIsExact(role: PortRole, text: string)
    ensures WithText(Cleared(role), text) == (SUCCESS, Power(Source)) <==> text == "source"
    ensures WithText(Cleared(role), text) == (SUCCESS, Power(Sink)) <==> text == "sink"
    ensures WithText(Cleared(role), text) == (SUCCESS, if role.Data? then Data(Host) else PortMode(Dfp)) <==>
              text == "host"
    ensures WithText(Cleared(role), text) == (SUCCESS, if role.Data? then Data(Device) else PortMode(Ufp)) <==>
              text == "device"
    ensures WithText(Cleared(role), text) == (SUCCESS, Cleared(role)) <==> text == "none"
  {
  }

  lemma TextStatusIsExact(role: PortRole, text: string)
    ensures WithText(role, text).0 ==
              if text in {"source", "sink", "host", "device", "none"} then SUCCESS else UNRECOGNIZED_ROLE
  {
  }

  lemma RoleReadIsExact(role: PortRole, accessory: Option<string>, file: Text) returns (text: string)
    requires role.PortMode? ==> accessory.Some? && Trim(accessory.value) !in {"analog_audio", "debug"}
    ensures ReadsAs(Trim(file), text)
    ensures var r := CurrentRole(role, true, accessory, Some(file));
            && (r == (SUCCESS, Power(Source)) <==> text == "source")
            && (r == (SUCCESS, Power(Sink)) <==> text == "sink")
            && (r == (SUCCESS, if role.Data? then Data(Host) else PortMode(Dfp)) <==> text == "host")
            && (r == (SUCCESS, if role.Data? then Data(Device) else PortMode(Ufp)) <==> text == "device")
            && (r == (SUCCESS, Cleared(role)) <==> text == "none")
  {
    TrimShortens(file);
    ExtractedIsRead(Trim(file));
    text := ExtractRole(Trim(file));
    TextIsExact(role, text);
    assert CurrentRole(role, true, accessory, Some(file)) == WithText(Cleared(role), text);
  }

  // When nothing is connected nothing is read, and the role asked for is none.
  lemma NothingConnected(role: PortRole, accessory: Option<string>, file: Option<Text>)
    ensures var r := CurrentRole(role, false, accessory, file);
            r.0 == SUCCESS && SameTag(role, r.1) && r.1 in {Power(NoPower), Data(NoData), PortMode(NoMode)}
  {
  }

  // When reading fails, and when what is read is no role.
  lemma StatusIsExact(role: PortRole, accessory: Option<string>, file: Option<Text>)
    requires !(role.PortMode? && accessory.Some? && Trim(accessory.value) in {"analog_audio", "debug"})
    ensures var status := CurrentRole(role, true, accessory, file).0;
            && (status == ERROR <==> file.None? || (role.PortMode? && accessory.None?))
            && (status == UNRECOGNIZED_ROLE <==>
                  && file.Some? && (role.PortMode? ==> accessory.Some?)
                  && forall text | text in {"source", "sink", "host", "device", "none"} ::
                       !ReadsAs(Trim(file.value), text))
  {
    if file.Some? && (role.PortMode? ==> accessory.Some?) {
      TrimShortens(file.value);
      var s := Trim(file.value);
      ExtractedIsRead(s);
      TextStatusIsExact(Cleared(role), ExtractRole(s));
      assert CurrentRole(role, true, accessory, file) == WithText(Cleared(role), ExtractRole(s));
      assert ReadsAs(s, ExtractRole(s));
    }
  }

  // The mode is read off the data role: a host is the downstream-facing port.
  lemma ModeAgreesWithDataRole(accessory: string, file: Text)
    requires Trim(accessory) !in {"analog_audio", "debug"}
    ensures var mode := CurrentRole(PortMode(NoMode), true, Some(accessory), Some(file));
            var data := CurrentRole(Data(NoData), true, None, Some(file));
            && mode.0 == data.0
            && (mode.1 == PortMode(Dfp) <==> data.1 == Data(Host))
            && (mode.1 == PortMode(Ufp) <==> data.1 == Data(Device))
  {
    TrimShortens(file);
  }
}
