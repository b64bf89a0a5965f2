/** Switching the gadget to a set of functions: tear down, check, link one by one, pull up,
    and tell the caller.  Every stage may fail. */
module GadgetSwitch {
  import opened InterruptScan
  import opened Options

  // The bits of the request; NONE is the empty set.
  datatype Flag = ADB | ACCESSORY | MTP | MIDI | PTP | RNDIS | AUDIO_SOURCE | UVC | NCM | OTHER(bit: nat)

  type Functions = set<Flag>

  datatype Status = SUCCESS | ERROR | CONFIGURATION_NOT_SUPPORTED

  /** How the outside answers one call.  `generic` are the links that the library makes first,
      from number 0 on, and `genericFfs` whether one of them is served from user space.
      `links` says which link numbers can be made, `genericOk` and `adbOk` whether the
      library is content otherwise, `delivers` which replies arrive.  A running monitor
      reports whether the functions are in effect: `lateNotice` is what that of an earlier call
      says last before it is stopped, `notice` what this call's says last before the call returns. */
  datatype World = World(
    irqs: Option<string>, isUint: string -> bool,
    resetOk: bool, vidPid: Status, vendor: string,
    generic: seq<string>, genericOk: bool, genericFfs: bool, adbOk: bool,
    links: nat -> bool, pullUpOk: bool, comesUp: bool, delivers: nat -> bool,
    lateNotice: Option<bool>, notice: Option<bool>)

  datatype Link = Link(name: string, number: nat, ok: bool)

  datatype Reply = Reply(functions: Functions, status: Status, delivered: bool)

  function VendorLinks(functions: Functions, vendor: string): seq<string> {
    if vendor == "dm" then
      if RNDIS in functions then ["acm.gs6", "dm.gs7"] else ["dm.gs7", "acm.gs6"]
    else if vendor == "etr_miu" then ["etr_miu.gs11"]
    else if vendor == "uwb_acm" then ["acm.uwb0"]
    else []
  }

  // With the "dm" vendor functions NCM comes last, otherwise right after the generic ones.
  function NcmFirst(functions: Functions, vendor: string): seq<string> {
    if NCM in functions && vendor != "dm" then ["ncm.gs9"] else []
  }

  function NcmLast(functions: Functions, vendor: string): seq<string> {
    if NCM in functions && vendor == "dm" then ["ncm.gs9"] else []
  }

  function AdbLink(functions: Functions): seq<string> {
    if ADB in functions then ["ffs.adb"] else []
  }

  function Plan(functions: Functions, w: World): seq<string> {
    w.generic + NcmFirst(functions, w.vendor) + VendorLinks(functions, w.vendor)
    + AdbLink(functions) + NcmLast(functions, w.vendor)
  }

  function ServedFromUserSpace(functions: Functions, w: World): bool {
    w.genericFfs || ADB in functions
  }

  predicate AllLinksWork(functions: Functions, w: World) {
    && w.genericOk
    && (ADB in functions ==> w.adbOk)
    && forall k :: 0 <= k < |Plan(functions, w)| ==> w.links(k)
  }

  // What the caller is told first.
  function Verdict(functions: Functions, w: World): Status {
    if !w.resetOk then ERROR
    else if functions == {} then SUCCESS
    else if w.vidPid != SUCCESS then w.vidPid
    else if !AllLinksWork(functions, w) then ERROR
    else if ServedFromUserSpace(functions, w) then (if w.comesUp then SUCCESS else ERROR)
    else if w.pullUpOk then SUCCESS
    else ERROR
  }

  predicate ReachesMonitor(functions: Functions, w: World) {
    && w.resetOk && functions != {} && w.vidPid == SUCCESS
    && AllLinksWork(functions, w) && ServedFromUserSpace(functions, w)
  }

  // The links made are the plan, numbered from 0 without a gap, up to the first failure.
  ghost predicate FollowsPlan(links: seq<Link>, functions: Functions, w: World) {
    Follows(links, Plan(functions, w), w)
  }

  ghost predicate Follows(links: seq<Link>, plan: seq<string>, w: World) {
    && |links| <= |plan|
    && (forall k :: 0 <= k < |links| ==> links[k] == Link(plan[k], k, w.links(k)))
    && (forall k :: 0 <= k < |links| - 1 ==> links[k].ok)
  }

  // The number of the adb link.
  function AdbAt(functions: Functions, w: World): nat {
    |w.generic| + |NcmFirst(functions, w.vendor)| + |VendorLinks(functions, w.vendor)|
  }

  // Linking stops early only where something failed, and goes no further than that.
  ghost predicate StopsAtTheFailure(links: seq<Link>, functions: Functions, w: World) {
    EndsRight(links, functions, w, AdbAt(functions, w), |Plan(functions, w)|)
  }

  ghost predicate EndsRight(links: seq<Link>, functions: Functions, w: World, adbAt: nat, all: nat) {
    && (|links| > |w.generic| ==> w.genericOk)
    && (ADB in functions && |links| > adbAt + 1 ==> w.adbOk)
    && (|| |links| == all
        || (links != [] && !links[|links| - 1].ok)
        || (|links| == |w.generic| && !w.genericOk)
        || (ADB in functions && |links| == adbAt + 1 && !w.adbOk))
  }

  // Where the parts of a plan begin: the vendor's links at a, adb's at b, the last one at c.
  ghost predicate FirstParts(plan: seq<string>, functions: Functions, w: World, a: nat, b: nat) {
    && a == |w.generic| + (if NCM in functions && w.vendor != "dm" then 1 else 0)
    && a <= b <= |plan|
    && w.generic <= plan
    && (NCM in functions && w.vendor != "dm" ==> plan[|w.generic|] == "ncm.gs9")
    && plan[a..b] == VendorLinks(functions, w.vendor)
  }

  ghost predicate LastParts(plan: seq<string>, functions: Functions, w: World, b: nat, c: nat) {
    && c == b + (if ADB in functions then 1 else 0)
    && |plan| == c + (if NCM in functions && w.vendor == "dm" then 1 else 0)
    && (ADB in functions ==> plan[b] == "ffs.adb")
    && (NCM in functions && w.vendor == "dm" ==> plan[c] == "ncm.gs9")
  }

  lemma PlanParts(functions: Functions, w: World) returns (a: nat, b: nat, c: nat)
    ensures FirstParts(Plan(functions, w), functions, w, a, b)
    ensures LastParts(Plan(functions, w), functions, w, b, c)
    ensures b == AdbAt(functions, w)
  {
    a := |w.generic| + |NcmFirst(functions, w.vendor)|;
    b := a + |VendorLinks(functions, w.vendor)|;
    c := b + |AdbLink(functions)|;
    var head := w.generic + NcmFirst(functions, w.vendor);
    var tail := AdbLink(functions) + NcmLast(functions, w.vendor);
    MiddlePart(head, VendorLinks(functions, w.vendor), tail);
    assert Plan(functions, w) == head + VendorLinks(functions, w.vendor) + tail;
  }

  lemma MiddlePart(head: seq<string>, middle: seq<string>, tail: seq<string>)
    ensures (head + middle + tail)[|head|..|head| + |middle|] == middle
  {
  }

  class UsbGadget {
    var mCurrentUsbFunctions: Functions
    var mCurrentUsbFunctionsApplied: bool
    var mGadgetIrqPath: string
    var monitorRunning: bool
    // What the present call has done.
    var links: seq<Link>
    var pulledUp: bool
    var monitoring: bool
    var replies: seq<Reply>

    constructor ()
      ensures mGadgetIrqPath == "" && !monitorRunning
    {
      mCurrentUsbFunctions, mCurrentUsbFunctionsApplied, mGadgetIrqPath := {}, false, "";
      links, pulledUp, monitoring, monitorRunning, replies := [], false, false, false, [];
    }

    // currentFunctionsAppliedCallback, if the monitor calls it.
    method Hear(notice: Option<bool>)
      modifies `mCurrentUsbFunctionsApplied
      ensures mCurrentUsbFunctionsApplied == if notice.Some? then notice.value else old(mCurrentUsbFunctionsApplied)
    {
      if notice.Some? { mCurrentUsbFunctionsApplied := notice.value; }
    }

    method LinkFunction(name: string, number: nat, ok: bool) returns (failed: bool)
      modifies `links
      ensures links == old(links) + [Link(name, number, ok)]
      ensures failed == !ok
    {
      links := links + [Link(name, number, ok)];
      failed := !ok;
    }

    method Tell(functions: Functions, status: Status, w: World) returns (ok: bool)
      modifies `replies
      ensures replies == old(replies) + [Reply(functions, status, ok)]
      ensures ok == w.delivers(|old(replies)|)
    {
      ok := w.delivers(|replies|);
      replies := replies + [Reply(functions, status, ok)];
    }

    // The first n links of the plan have been made.
    ghost predicate Progress(plan: seq<string>, w: World, n: nat)
      reads this
    {
      && |links| == n <= |plan|
      && forall k :: 0 <= k < n ==> links[k] == Link(plan[k], k, true) && w.links(k)
    }

    // A link before number n has failed.
    ghost predicate Stuck(plan: seq<string>, w: World, n: nat)
      reads this
    {
      && 0 < |links| <= n <= |plan| && !w.links(|links| - 1)
      && forall k :: 0 <= k < |links| ==> links[k] == Link(plan[k], k, k < |links| - 1) && (w.links(k) <==> links[k].ok)
    }

    method LinkNext(ghost plan: seq<string>, name: string, i: nat, w: World) returns (failed: bool)
      requires Progress(plan, w, i) && i < |plan| && plan[i] == name
      modifies `links
      ensures failed == !w.links(i)
      ensures if failed then Stuck(plan, w, i + 1) else Progress(plan, w, i + 1)
    {
      failed := LinkFunction(name, i, w.links(i));
    }

    // The library's own links, in place of addGenericAndroidFunctions.
    method AddGeneric(ghost plan: seq<string>, w: World) returns (ok: bool, ffsEnabled: bool)
      requires Progress(plan, w, 0) && w.generic <= plan
      modifies `links
      ensures ok ==> Progress(plan, w, |w.generic|) && w.genericOk
      ensures !ok ==> (Progress(plan, w, |w.generic|) && !w.genericOk) || Stuck(plan, w, |w.generic|)
      ensures ffsEnabled == w.genericFfs
    {
      ffsEnabled := w.genericFfs;
      for i := 0 to |w.generic|
        invariant Progress(plan, w, i)
      {
        var failed := LinkNext(plan, w.generic[i], i, w);
        if failed { ok := false; return; }
      }
      ok := w.genericOk;
    }

    // One link that is only made on request.
    method LinkIf(wanted: bool, ghost plan: seq<string>, name: string, i: nat, w: World)
      returns (failed: bool, next: nat)
      requires Progress(plan, w, i) && (wanted ==> i < |plan| && plan[i] == name)
      modifies `links
      ensures next == if wanted then i + 1 else i
      ensures if failed then Stuck(plan, w, next) else Progress(plan, w, next)
    {
      failed, next := false, i;
      if wanted {
        failed := LinkNext(plan, name, i, w);
        next := i + 1;
      }
    }

    method LinkVendor(ghost plan: seq<string>, functions: Functions, start: nat, ghost end: nat, w: World)
      returns (failed: bool, i: nat)
      requires Progress(plan, w, start) && start <= end <= |plan|
      requires plan[start..end] == VendorLinks(functions, w.vendor)
      modifies `links
      ensures if failed then Stuck(plan, w, end) else i == end && Progress(plan, w, i)
    {
      i := start;
      failed := false;
      assert forall k :: start <= k < end ==> plan[k] == plan[start..end][k - start];
      if w.vendor == "dm" {
        var first, second := "dm.gs7", "acm.gs6";
        if RNDIS in functions {
          first, second := second, first;
        }
        failed := LinkNext(plan, first, i, w);
        i := i + 1;
        if failed { return; }
        failed := LinkNext(plan, second, i, w);
        i := i + 1;
      } else if w.vendor == "etr_miu" {
        failed := LinkNext(plan, "etr_miu.gs11", i, w);
        i := i + 1;
      } else if w.vendor == "uwb_acm" {
        failed := LinkNext(plan, "acm.uwb0", i, w);
        i := i + 1;
      }
    }

    // Lines 413 to 445.
    method LinkFirst(ghost plan: seq<string>, ghost a: nat, ghost b: nat, functions: Functions, w: World)
      returns (failed: bool, i: nat, ffsEnabled: bool)
      requires links == [] && FirstParts(plan, functions, w, a, b)
      modifies `links
      ensures !failed ==> i == b && Progress(plan, w, b) && w.genericOk
      ensures failed ==> Stuck(plan, w, b) || (Progress(plan, w, |w.generic|) && !w.genericOk)
      ensures |links| > |w.generic| ==> w.genericOk
      ensures ffsEnabled == w.genericFfs
    {
      var ok;
      ok, ffsEnabled := AddGeneric(plan, w);
      if !ok { failed, i := true, 0; return; }
      failed, i := LinkIf(NCM in functions && w.vendor != "dm", plan, "ncm.gs9", |w.generic|, w);
      if failed { return; }
      failed, i := LinkVendor(plan, functions, i, b, w);
    }

    // Lines 447 to 456.
    method LinkLast(ghost plan: seq<string>, i: nat, ghost c: nat, functions: Functions, w: World, ffs: bool)
      returns (ok: bool, ffsEnabled: bool)
      requires Progress(plan, w, i) && LastParts(plan, functions, w, i, c)
      modifies `links
      ensures ok ==> Progress(plan, w, |plan|) && (ADB in functions ==> w.adbOk)
      ensures !ok ==> Stuck(plan, w, |plan|) || (Progress(plan, w, c) && ADB in functions && !w.adbOk)
      ensures |links| >= i && (ADB in functions && |links| > c ==> w.adbOk)
      ensures ffsEnabled <==> ffs || ADB in functions
    {
      ffsEnabled := ffs;
      if ADB in functions { ffsEnabled := true; }
      var failed, next := LinkIf(ADB in functions, plan, "ffs.adb", i, w);
      if failed || (ADB in functions && !w.adbOk) { ok := false; return; }
      failed, next := LinkIf(NCM in functions && w.vendor == "dm", plan, "ncm.gs9", next, w);
      ok := !failed;
    }

    method LinkPlanned(
        ghost plan: seq<string>, ghost a: nat, ghost b: nat, ghost c: nat, functions: Functions, w: World)
      returns (ok: bool, ffsEnabled: bool)
      requires links == [] && FirstParts(plan, functions, w, a, b) && LastParts(plan, functions, w, b, c)
      modifies `links
      ensures ok <==> w.genericOk && (ADB in functions ==> w.adbOk) && forall k :: 0 <= k < |plan| ==> w.links(k)
      ensures ok ==> Progress(plan, w, |plan|)
      ensures Follows(links, plan, w) && EndsRight(links, functions, w, b, |plan|)
      ensures ok ==> (ffsEnabled <==> w.genericFfs || ADB in functions)
    {
      var failed, i;
      failed, i, ffsEnabled := LinkFirst(plan, a, b, functions, w);
      if failed { ok := false; return; }
      ok, ffsEnabled := LinkLast(plan, i, c, functions, w, ffsEnabled);
    }

    method LinkEverything(functions: Functions, w: World) returns (ok: bool, ffsEnabled: bool)
      requires links == []
      modifies `links
      ensures ok <==> AllLinksWork(functions, w)
      ensures ok ==> |links| == |Plan(functions, w)|
      ensures FollowsPlan(links, functions, w) && StopsAtTheFailure(links, functions, w)
      ensures ok ==> (ffsEnabled <==> w.genericFfs || ADB in functions)
    {
      ghost var a, b, c := PlanParts(functions, w);
      ok, ffsEnabled := LinkPlanned(Plan(functions, w), a, b, c, functions, w);
    }

    method SetupFunctions(functions: Functions, callback: bool, w: World) returns (status: Status)
      requires links == [] && replies == [] && !pulledUp && !monitoring
      requires functions != {} && w.resetOk && w.vidPid == SUCCESS
      modifies `links, `replies, `pulledUp, `monitoring, `monitorRunning, `mCurrentUsbFunctionsApplied
      ensures FollowsPlan(links, functions, w) && StopsAtTheFailure(links, functions, w)
      ensures monitorRunning == (old(monitorRunning) || monitoring)
      ensures mCurrentUsbFunctionsApplied ==
                if pulledUp then true
                else if monitoring && w.notice.Some? then w.notice.value
                else old(mCurrentUsbFunctionsApplied)
      ensures pulledUp <==> AllLinksWork(functions, w) && !ServedFromUserSpace(functions, w) && w.pullUpOk
      ensures monitoring <==> AllLinksWork(functions, w) && ServedFromUserSpace(functions, w)
      // at once only for what the kernel serves, through the monitor for adb and the like
      ensures pulledUp ==> ADB !in functions && !w.genericFfs
      ensures monitoring <==>
                && (ADB in functions || w.genericFfs)
                && w.genericOk && (ADB in functions ==> w.adbOk)
                && forall k :: 0 <= k < |Plan(functions, w)| ==> w.links(k)
      ensures pulledUp || monitoring ==> |links| == |Plan(functions, w)| && forall k :: 0 <= k < |links| ==> links[k].ok
      ensures status == if pulledUp || (monitoring && (callback ==> w.delivers(0))) then SUCCESS else ERROR
      ensures replies == if callback && (pulledUp || monitoring)
                         then [Reply(functions, Verdict(functions, w), w.delivers(0))] else []
    {
      var linked, ffsEnabled := LinkEverything(functions, w);
      if !linked { return ERROR; }
      if !ffsEnabled {
        if !w.pullUpOk { return ERROR; }
        pulledUp := true;
        mCurrentUsbFunctionsApplied := true;
        if callback {
          var _ := Tell(functions, SUCCESS, w);
        }
        return SUCCESS;
      }
      monitoring, monitorRunning := true, true;
      Hear(w.notice);
      if callback {
        var ok := Tell(functions, if w.comesUp then SUCCESS else ERROR, w);
        if !ok { return ERROR; }
      }
      return SUCCESS;
    }

    // What a call has done once the gadget is torn down, if it could be.
    ghost predicate Done(functions: Functions, callback: bool, w: World, ok: bool)
      reads this
    {
      // the links made are numbered 0, 1, 2, ... and only after teardown and validation
      && FollowsPlan(links, functions, w)
      && (if w.resetOk && functions != {} && w.vidPid == SUCCESS
          then StopsAtTheFailure(links, functions, w) else links == [])
      && (pulledUp <==>
            && w.resetOk && functions != {} && w.vidPid == SUCCESS
            && AllLinksWork(functions, w) && !ServedFromUserSpace(functions, w) && w.pullUpOk)
      && (monitoring <==> ReachesMonitor(functions, w))
      && (pulledUp || monitoring ==>
            |links| == |Plan(functions, w)| && forall k :: 0 <= k < |links| ==> links[k].ok)
      // one reply, and a second only after the first was not delivered
      && (!callback ==> replies == [])
      && (callback ==> 1 <= |replies| <= 2 && replies[0].status == Verdict(functions, w))
      && (callback ==> (|replies| == 2 <==> ReachesMonitor(functions, w) && !replies[0].delivered))
      && (|replies| == 2 ==> replies[1].status == ERROR)
      && (forall k :: 0 <= k < |replies| ==> replies[k].functions == functions && replies[k].delivered == w.delivers(k))
      && (ok <==> pulledUp || (monitoring && (callback ==> replies[0].delivered)))
    }

    method SetCurrentUsbFunctions(functions: Functions, callback: bool, w: World) returns (ok: bool)
      modifies this
      ensures mCurrentUsbFunctions == functions
      ensures Done(functions, callback, w, ok)
      // at once only for what the kernel serves, through the monitor for adb and the like
      ensures pulledUp ==> ADB !in functions && !w.genericFfs
      ensures monitoring <==>
                && w.resetOk && functions != {} && w.vidPid == SUCCESS
                && (ADB in functions || w.genericFfs)
                && w.genericOk && (ADB in functions ==> w.adbOk)
                && forall k :: 0 <= k < |Plan(functions, w)| ==> w.links(k)
      // the call itself says "applied" only when every stage has succeeded; all else is
      // what a monitor says while it runs
      ensures mCurrentUsbFunctionsApplied ==
                if pulledUp then true
                else if monitoring && w.notice.Some? then w.notice.value
                else old(monitorRunning) && w.lateNotice == Some(true)
      ensures monitorRunning == if w.resetOk then monitoring else old(monitorRunning)
      ensures if old(mGadgetIrqPath) != "" then mGadgetIrqPath == old(mGadgetIrqPath)
              else if w.irqs.None? then mGadgetIrqPath == ""
              else Found(w.irqs.value, w.isUint, if mGadgetIrqPath == "" then None else Some(mGadgetIrqPath))
    {
      links, pulledUp, monitoring, replies := [], false, false, [];
      mCurrentUsbFunctions := functions;
      mCurrentUsbFunctionsApplied := false;
      // The interrupt is looked up before the gadget is torn down.
      if mGadgetIrqPath == "" {
        var path := GetUsbGadgetIrqPath(w.irqs, w.isUint);
        if path.Some? { mGadgetIrqPath := path.value; }
      }
      if monitorRunning { Hear(w.lateNotice); }
      ok := Switch(functions, callback, w);
    }

    method Switch(functions: Functions, callback: bool, w: World) returns (ok: bool)
      requires links == [] && replies == [] && !pulledUp && !monitoring
      modifies `links, `replies, `pulledUp, `monitoring, `monitorRunning, `mCurrentUsbFunctionsApplied
      ensures Done(functions, callback, w, ok)
      ensures mCurrentUsbFunctionsApplied ==
                if pulledUp then true
                else if monitoring && w.notice.Some? then w.notice.value
                else old(mCurrentUsbFunctionsApplied)
      ensures monitorRunning == if w.resetOk then monitoring else old(monitorRunning)
    {
      if !w.resetOk {
        Fail(functions, ERROR, callback, w);
        return false;
      }
      monitorRunning := false;
      if functions == {} {
        // Even a request for no functions, though carried out, returns an error.
        Fail(functions, SUCCESS, callback, w);
        return false;
      }
      ok := Configure(functions, callback, w);
    }

    // Validation and linking.
    method Configure(functions: Functions, callback: bool, w: World) returns (ok: bool)
      requires links == [] && replies == [] && !pulledUp && !monitoring
      requires functions != {} && w.resetOk
      modifies `links, `replies, `pulledUp, `monitoring, `monitorRunning, `mCurrentUsbFunctionsApplied
      ensures Done(functions, callback, w, ok)
      ensures mCurrentUsbFunctionsApplied ==
                if pulledUp then true
                else if monitoring && w.notice.Some? then w.notice.value
                else old(mCurrentUsbFunctionsApplied)
      ensures monitorRunning == (old(monitorRunning) || monitoring)
    {
      if w.vidPid != SUCCESS {
        Fail(functions, w.vidPid, callback, w);
        return false;
      }
      var status := SetupFunctions(functions, callback, w);
      if status != SUCCESS {
        Fail(functions, status, callback, w);
      }
      ok := status == SUCCESS;
    }

    // Tells the caller, and leaves the call in error.
    method Fail(functions: Functions, status: Status, callback: bool, w: World)
      modifies `replies
      ensures replies ==
                old(replies) + if callback then [Reply(functions, status, w.delivers(|old(replies)|))] else []
    {
      if callback {
        var _ := Tell(functions, status, w);
      }
    }
  }

  // What a call comes to, in terms of what failed and of nothing else.
  lemma WhatDoneMeans(gadget: UsbGadget, functions: Functions, callback: bool, w: World, ok: bool)
    requires gadget.Done(functions, callback, w, ok)
    ensures gadget.pulledUp <==>
              && w.resetOk && functions != {} && w.vidPid == SUCCESS && w.genericOk
              && (forall k :: 0 <= k < |Plan(functions, w)| ==> w.links(k))
              && ADB !in functions && !w.genericFfs && w.pullUpOk
    ensures gadget.monitoring <==>
              && w.resetOk && functions != {} && w.vidPid == SUCCESS && w.genericOk
              && (forall k :: 0 <= k < |Plan(functions, w)| ==> w.links(k))
              && (ADB in functions || w.genericFfs) && (ADB in functions ==> w.adbOk)
    ensures callback ==>
              (gadget.replies[0].status == SUCCESS <==>
                || (w.resetOk && functions == {})
                || gadget.pulledUp
                || (gadget.monitoring && w.comesUp))
    ensures callback && gadget.replies[0].status != SUCCESS ==>
              gadget.replies[0].status ==
                if w.resetOk && functions != {} && w.vidPid != SUCCESS then w.vidPid else ERROR
  {
  }

  function Names(links: seq<Link>): seq<string> {
    seq(|links|, k requires 0 <= k < |links| => links[k].name)
  }

  // The names linked, in full, by vendor.
  lemma LinkedInFull(gadget: UsbGadget, functions: Functions, callback: bool, w: World, ok: bool)
    requires gadget.Done(functions, callback, w, ok) && (gadget.pulledUp || gadget.monitoring)
    ensures var ncm := if NCM in functions then ["ncm.gs9"] else [];
            var adb := if ADB in functions then ["ffs.adb"] else [];
            Names(gadget.links) == w.generic +
              if w.vendor == "dm" && RNDIS in functions then ["acm.gs6", "dm.gs7"] + adb + ncm
              else if w.vendor == "dm" then ["dm.gs7", "acm.gs6"] + adb + ncm
              else if w.vendor == "etr_miu" then ncm + ["etr_miu.gs11"] + adb
              else if w.vendor == "uwb_acm" then ncm + ["acm.uwb0"] + adb
              else ncm + adb
  {
    assert Names(gadget.links) == Plan(functions, w);
    PlanInFull(functions, w);
  }

  lemma PlanInFull(functions: Functions, w: World)
    ensures var ncm := if NCM in functions then ["ncm.gs9"] else [];
            var adb := if ADB in functions then ["ffs.adb"] else [];
            Plan(functions, w) == w.generic +
              if w.vendor == "dm" && RNDIS in functions then ["acm.gs6", "dm.gs7"] + adb + ncm
              else if w.vendor == "dm" then ["dm.gs7", "acm.gs6"] + adb + ncm
              else if w.vendor == "etr_miu" then ncm + ["etr_miu.gs11"] + adb
              else if w.vendor == "uwb_acm" then ncm + ["acm.uwb0"] + adb
              else ncm + adb
  {
  }

  // Exactly when what the caller is told is not what the call returns.
  lemma ReplyAgainstReturn(gadget: UsbGadget, functions: Functions, w: World, ok: bool)
    requires gadget.Done(functions, true, w, ok)
    ensures gadget.replies[0].status == SUCCESS && !ok <==>
              || (w.resetOk && functions == {})
              || (ReachesMonitor(functions, w) && w.comesUp && !w.delivers(0))
    ensures gadget.replies[0].status != SUCCESS && ok <==>
              ReachesMonitor(functions, w) && !w.comesUp && w.delivers(0)
  {
    assert gadget.replies[0].delivered == w.delivers(0);
  }
}
