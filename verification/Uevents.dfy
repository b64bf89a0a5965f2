/** The pointer walk over a uevent message that both USB services use, and what each of
    them does with the strings it visits. */
module Uevents {
  import opened Search

  const UEVENT_MSG_LEN: nat := 2048

  // ---- Specification: NUL-separated strings ----

  // All NUL-separated strings, empty ones included; always at least one.
  function Split(s: string): (pieces: seq<string>)
    ensures pieces != []
    decreases |s|
  {
    var j := Find(s, '\0', 0);
    if j < |s| then [s[..j]] + Split(s[j + 1..]) else [s]
  }

  function Joined(pieces: seq<string>): string
    requires pieces != []
  {
    if |pieces| == 1 then pieces[0] else pieces[0] + ['\0'] + Joined(pieces[1..])
  }

  // The text is what the pieces make with a NUL between any two...
  lemma {:induction false} SplitIsExact(s: string)
    ensures Joined(Split(s)) == s
    decreases |s|
  {
    var j := Find(s, '\0', 0);
    FindFacts(s, '\0', 0);
    if j == |s| {
    } else {
      var rest := s[j + 1..];
      SplitIsExact(rest);
      assert Split(s) == [s[..j]] + Split(rest);
      assert Split(s)[1..] == Split(rest);
      assert s == s[..j] + ['\0'] + rest;
    }
  }

  // ... and no piece has one.
  lemma {:induction false} PiecesHaveNoNul(s: string, k: nat)
    requires k < |Split(s)|
    ensures '\0' !in Split(s)[k]
    decreases |s|
  {
    var j := Find(s, '\0', 0);
    FindFacts(s, '\0', 0);
    if j == |s| || k == 0 {
    } else {
      PiecesHaveNoNul(s[j + 1..], k - 1);
    }
  }

  function UpToEmpty(pieces: seq<string>): seq<string> {
    if pieces == [] || pieces[0] == "" then [] else [pieces[0]] + UpToEmpty(pieces[1..])
  }

  // What the walk visits: it stops at an empty string, or at the end.
  function Visited(s: string): seq<string>
    decreases |s|
  {
    if s == [] || s[0] == '\0' then []
    else
      var j := Find(s, '\0', 0);
      [s[..j]] + if j < |s| then Visited(s[j + 1..]) else []
  }

  // The same from index i on; a step past the last string leads past the end.
  function VisitedFrom(s: string, i: nat): seq<string> {
    if i <= |s| then Visited(s[i..]) else []
  }

  lemma VisitedStep(s: string, i: nat, j: nat)
    requires i < j <= |s| && (forall k :: i <= k < j ==> s[k] != '\0') && (j < |s| ==> s[j] == '\0')
    ensures VisitedFrom(s, i) == [s[i..j]] + VisitedFrom(s, j + 1)
  {
    var t := s[i..];
    FindIs(t, '\0', 0, j - i);
    assert t[..j - i] == s[i..j];
    if j < |s| { assert t[j - i + 1..] == s[j + 1..]; }
  }

  // The walk visits the NUL-separated strings up to the first empty one.
  lemma {:induction false} VisitedIsSplitUpToEmpty(s: string)
    ensures Visited(s) == UpToEmpty(Split(s))
    decreases |s|
  {
    var j := Find(s, '\0', 0);
    FindFacts(s, '\0', 0);
    if s == [] || j == 0 {
    } else if j < |s| {
      VisitedIsSplitUpToEmpty(s[j + 1..]);
      assert Split(s)[1..] == Split(s[j + 1..]);
    } else {
      assert s[..|s|] == s;
    }
  }

  // The kernel's rendering: every string followed by a NUL.
  function Message(strings: seq<string>): string {
    if strings == [] then [] else strings[0] + ['\0'] + Message(strings[1..])
  }

  // Round trip: every message of non-empty strings is taken apart exactly.
  lemma {:induction false} VisitedOfMessage(strings: seq<string>)
    requires forall k :: 0 <= k < |strings| ==> strings[k] != "" && '\0' !in strings[k]
    ensures Visited(Message(strings)) == strings
  {
    if strings == [] {
    } else {
      var p, m := strings[0], Message(strings);
      assert forall k :: 0 <= k < |p| ==> m[k] == p[k];
      FindIs(m, '\0', 0, |p|);
      assert m[..|p|] == p;
      assert m[|p| + 1..] == Message(strings[1..]);
      VisitedOfMessage(strings[1..]);
    }
  }

  // ---- What Usb.cpp does with a string ----

  datatype Action = PartnerAdded | PortChanged | Overheated | Nothing

  predicate StartsWith(s: string, prefix: string) {
    prefix <= s
  }

  // (add)(.*)(-partner), where '.' matches anything but a line end
  predicate MatchesPartnerAdded(s: string) {
    && |s| >= 11
    && StartsWith(s, "add")
    && s[|s| - 8..] == "-partner"
    && '\n' !in s && '\r' !in s
  }

  function Classify(s: string): Action {
    if MatchesPartnerAdded(s) then PartnerAdded
    else if StartsWith(s, "DEVTYPE=typec_") || StartsWith(s, "DRIVER=max77759tcpc")
         || StartsWith(s, "DRIVER=pogo-transport") || StartsWith(s, "POWER_SUPPLY_NAME=usb") then PortChanged
    else if StartsWith(s, "DRIVER=google,usbc_port_cooling_dev") then Overheated
    else Nothing
  }

  lemma PartnerAddedIsExact(s: string)
    ensures MatchesPartnerAdded(s) <==>
              exists middle: string :: s == "add" + middle + "-partner" && '\n' !in middle && '\r' !in middle
  {
    if MatchesPartnerAdded(s) {
      var middle := s[3..|s| - 8];
      assert s == "add" + middle + "-partner";
    }
    forall middle: string | s == "add" + middle + "-partner" && '\n' !in middle && '\r' !in middle
      ensures MatchesPartnerAdded(s)
    {
      assert s[|s| - 8..] == "-partner";
    }
  }

  // What each string is taken for; no string is taken for two things.
  lemma ClassifyIsExact(s: string)
    ensures Classify(s) == PartnerAdded <==>
              exists middle: string :: s == "add" + middle + "-partner" && '\n' !in middle && '\r' !in middle
    ensures Classify(s) == PortChanged <==>
              || "DEVTYPE=typec_" <= s || "DRIVER=max77759tcpc" <= s
              || "DRIVER=pogo-transport" <= s || "POWER_SUPPLY_NAME=usb" <= s
    ensures Classify(s) == Overheated <==> "DRIVER=google,usbc_port_cooling_dev" <= s
  {
    PartnerAddedIsExact(s);
    NamesDiffer(s);
  }

  lemma NamesDiffer(s: string)
    ensures "DRIVER=google,usbc_port_cooling_dev" <= s ==>
              && !("DEVTYPE=typec_" <= s) && !("DRIVER=max77759tcpc" <= s)
              && !("DRIVER=pogo-transport" <= s) && !("POWER_SUPPLY_NAME=usb" <= s)
              && !("add" <= s)
    ensures "add" <= s ==>
              && !("DEVTYPE=typec_" <= s) && !("DRIVER=max77759tcpc" <= s)
              && !("DRIVER=pogo-transport" <= s) && !("POWER_SUPPLY_NAME=usb" <= s)
  {
    if "DRIVER=google,usbc_port_cooling_dev" <= s { assert s[1] == 'R' && s[7] == 'g'; }
    if "DRIVER=max77759tcpc" <= s { assert s[7] == 'm'; }
    if "DRIVER=pogo-transport" <= s { assert s[7] == 'p'; }
    if "DEVTYPE=typec_" <= s { assert s[1] == 'E'; }
    if "POWER_SUPPLY_NAME=usb" <= s { assert s[0] == 'P'; }
    if "add" <= s { assert s[0] == 'a'; }
  }

  predicate IsPortChange(s: string) {
    Classify(s) == PortChanged
  }

  // The strings a loop gets to that stops after the first one satisfying `stop`.
  function Reached(stop: string -> bool, pieces: seq<string>): (r: seq<string>)
    ensures r <= pieces
  {
    if pieces == [] then []
    else if stop(pieces[0]) then [pieces[0]]
    else [pieces[0]] + Reached(stop, pieces[1..])
  }

  // The loops' step: one more string visited, and what is still to come.
  lemma VisitStep(visited: seq<string>, piece: string, rest: seq<string>)
    ensures visited + ([piece] + rest) == visited + [piece] + rest
  {
  }

  lemma ReachedStep(stop: string -> bool, visited: seq<string>, piece: string, rest: seq<string>)
    ensures visited + Reached(stop, [piece] + rest) ==
              visited + [piece] + if stop(piece) then [] else Reached(stop, rest)
  {
  }

  lemma {:induction false} ReachedEndsAtFirstStop(stop: string -> bool, pieces: seq<string>)
    ensures var r := Reached(stop, pieces);
            && (forall k :: 0 <= k < |r| - 1 ==> !stop(r[k]))
            && (|r| < |pieces| ==> r != [] && stop(r[|r| - 1]))
  {
    if pieces == [] || stop(pieces[0]) {
    } else {
      ReachedEndsAtFirstStop(stop, pieces[1..]);
    }
  }

  // ---- The walk ----

  /** One buffer, filled by the socket with n characters (or an error, or an overflow). */
  class UeventBuffer {
    const msg: array<char>
    var cp: nat
    // The furthest index read so far.
    ghost var furthest: int

    constructor ()
      ensures fresh(msg) && msg.Length == UEVENT_MSG_LEN + 2
    {
      msg := new char[UEVENT_MSG_LEN + 2];
      cp := 0;
      furthest := -1;
    }

    method Read() returns (c: char)
      requires cp < msg.Length
      modifies `furthest
      ensures c == msg[cp]
      ensures furthest == if cp > old(furthest) then cp else old(furthest)
    {
      c := msg[cp];
      furthest := if cp > furthest then cp else furthest;
    }

    // Terminated by two NULs at n, as the handlers leave it.
    ghost predicate Terminated(n: nat, s: string)
      reads this, msg
    {
      && n + 2 <= msg.Length
      && |s| == n
      && (forall k :: 0 <= k < n ==> msg[k] == s[k])
      && msg[n] == msg[n + 1] == '\0'
      && furthest <= n + 1
    }

    // Visits the string at cp, then advances to after the next NUL.
    method Advance(ghost n: nat, ghost s: string) returns (piece: string)
      requires Terminated(n, s) && cp <= n && msg[cp] != '\0'
      modifies `cp, `furthest
      ensures Terminated(n, s)
      ensures old(cp) < cp <= n + 1
      ensures VisitedFrom(s, old(cp)) == [piece] + VisitedFrom(s, cp)
    {
      var start := cp;
      SkipPastNul(n);
      piece := msg[start..cp - 1];
      assert piece == s[start..cp - 1];
      VisitedStep(s, start, cp - 1);
    }

    method SkipPastNul(ghost n: nat)
      requires n + 2 <= msg.Length && msg[n] == '\0' && furthest <= n + 1 && cp <= n
      modifies `cp, `furthest
      ensures old(cp) < cp <= n + 1 && furthest <= n + 1
      ensures msg[cp - 1] == '\0'
      ensures forall k :: old(cp) <= k < cp - 1 ==> msg[k] != '\0'
    {
      var c := Read();
      cp := cp + 1;
      while c != '\0'
        invariant old(cp) < cp <= n + 1 && furthest <= n + 1
        invariant c == msg[cp - 1]
        invariant forall k :: old(cp) <= k < cp - 1 ==> msg[k] != '\0'
        decreases n + 1 - cp
      {
        c := Read();
        cp := cp + 1;
      }
    }

    // False when nothing usable was received: an error, or a message that fills the buffer.
    method Start(n: int) returns (ok: bool)
      requires msg.Length == UEVENT_MSG_LEN + 2 && furthest == -1
      modifies this, msg
      ensures ok <==> 0 < n < UEVENT_MSG_LEN
      ensures ok ==> Terminated(n, old(msg[..n])) && cp == 0 && furthest == -1
      ensures !ok ==> furthest == -1 && msg[..] == old(msg[..])
    {
      ok := false;
      if n <= 0 { return; }
      if n >= UEVENT_MSG_LEN { return; }
      msg[n] := '\0';
      msg[n + 1] := '\0';
      cp := 0;
      ok := true;
    }

    // handleUevent of the monitor: every string is visited.
    method Walk(n: int) returns (visited: seq<string>)
      requires msg.Length == UEVENT_MSG_LEN + 2 && furthest == -1
      modifies this, msg
      ensures 0 < n < UEVENT_MSG_LEN ==> visited == Visited(old(msg[..n])) && furthest <= n + 1
      ensures n <= 0 || n >= UEVENT_MSG_LEN ==> visited == [] && furthest == -1 && msg[..] == old(msg[..])
    {
      visited := [];
      ghost var s := if 0 < n < UEVENT_MSG_LEN then msg[..n] else [];
      var ok := Start(n);
      if ok {
        visited := VisitAll(n, s);
      }
    }

    method VisitAll(ghost n: nat, ghost s: string) returns (visited: seq<string>)
      requires Terminated(n, s) && cp == 0
      modifies `cp, `furthest
      ensures Terminated(n, s) && visited == Visited(s)
    {
      visited := [];
      var c := Read();
      while c != '\0'
        invariant cp <= n + 1 && c == msg[cp]
        invariant Terminated(n, s)
        invariant VisitedFrom(s, 0) == visited + VisitedFrom(s, cp)
        decreases n + 1 - cp
      {
        var piece := Advance(n, s);
        VisitStep(visited, piece, VisitedFrom(s, cp));
        visited := visited + [piece];
        c := Read();
      }
    }

    // uevent_event of Usb.cpp: the walk stops after the first port change.
    method WalkUntil(n: int, stop: string -> bool) returns (visited: seq<string>)
      requires msg.Length == UEVENT_MSG_LEN + 2 && furthest == -1
      modifies this, msg
      ensures 0 < n < UEVENT_MSG_LEN ==> visited == Reached(stop, Visited(old(msg[..n]))) && furthest <= n + 1
      ensures n <= 0 || n >= UEVENT_MSG_LEN ==> visited == [] && furthest == -1 && msg[..] == old(msg[..])
    {
      visited := [];
      ghost var s := if 0 < n < UEVENT_MSG_LEN then msg[..n] else [];
      var ok := Start(n);
      if ok {
        visited := VisitUntil(n, s, stop);
      }
    }

    method VisitUntil(ghost n: nat, ghost s: string, stop: string -> bool) returns (visited: seq<string>)
      requires Terminated(n, s) && cp == 0
      modifies `cp, `furthest
      ensures Terminated(n, s) && visited == Reached(stop, Visited(s))
    {
      visited := [];
      var c := Read();
      while c != '\0'
        invariant cp <= n + 1 && c == msg[cp]
        invariant Terminated(n, s)
        invariant Reached(stop, VisitedFrom(s, 0)) == visited + Reached(stop, VisitedFrom(s, cp))
        decreases n + 1 - cp
      {
        var piece := Advance(n, s);
        ReachedStep(stop, visited, piece, VisitedFrom(s, cp));
        visited := visited + [piece];
        if stop(piece) { break; }
        c := Read();
      }
    }

    method UeventEvent(n: int) returns (visited: seq<string>)
      requires msg.Length == UEVENT_MSG_LEN + 2 && furthest == -1
      modifies this, msg
      ensures 0 < n < UEVENT_MSG_LEN ==> visited == Reached(IsPortChange, Visited(old(msg[..n]))) && furthest <= n + 1
      ensures n <= 0 || n >= UEVENT_MSG_LEN ==> visited == []
    {
      visited := WalkUntil(n, IsPortChange);
    }
  }
}
