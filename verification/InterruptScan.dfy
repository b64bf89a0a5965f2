/** Finding the gadget's interrupt in /proc/interrupts. */
module InterruptScan {

  import opened Options
  import opened Search

  const PROC_IRQ_PATH := "/proc/irq/"
  const SMP_AFFINITY_LIST := "/smp_affinity_list"

  predicate Mentions(line: string) {
    exists i :: 0 <= i <= |line| - 4 && Dwc3At(line, i)
  }

  predicate Dwc3At(line: string, i: int)
    requires 0 <= i <= |line| - 4
  {
    line[i..i + 4] == "dwc3"
  }

  // ---- Specification: lines a to b-1 of the text, each ended by a newline at b ----

  ghost predicate IsLine(s: string, a: nat, b: nat) {
    && a <= b < |s| && s[b] == '\n'
    && (a > 0 ==> s[a - 1] == '\n')
    && forall k :: a <= k < b ==> s[k] != '\n'
  }

  ghost predicate MentioningLine(s: string, a: nat, b: nat) {
    IsLine(s, a, b) && Mentions(s[a..b])
  }

  ghost predicate FirstMentioningLine(s: string, a: nat, b: nat) {
    && MentioningLine(s, a, b)
    && forall c: nat, d: nat :: d < a ==> !MentioningLine(s, c, d)
  }

  // What stands before the first colon, or the whole line.
  function Number(line: string): string {
    line[..Find(line, ':', 0)]
  }

  lemma NumberIsBeforeTheColon(line: string)
    ensures ':' !in Number(line)
    ensures Number(line) == line || Number(line) + ":" <= line
  {
    FindFacts(line, ':', 0);
  }

  function PathFor(line: string): string {
    PROC_IRQ_PATH + Number(line) + SMP_AFFINITY_LIST
  }

  // The path for a line that reads "<number>:<rest>".
  lemma PathInFull(number: string, rest: string)
    requires ':' !in number
    ensures PathFor(number + ":" + rest) == "/proc/irq/" + number + "/smp_affinity_list"
  {
    var line := number + ":" + rest;
    FindIs(line, ':', 0, |number|);
    assert line[..|number|] == number;
  }

  lemma MentionsExactly(line: string)
    ensures Mentions(line) <==> exists before: string, after: string :: line == before + "dwc3" + after
  {
    if i :| 0 <= i <= |line| - 4 && Dwc3At(line, i) {
      assert line == line[..i] + "dwc3" + line[i + 4..];
    }
    forall before: string, after: string | line == before + "dwc3" + after ensures Mentions(line) {
      assert Dwc3At(line, |before|);
    }
  }

  // The path is found exactly if there is such a line and it starts with a number.
  ghost predicate Found(s: string, isUint: string -> bool, path: Option<string>) {
    && (path.Some? ==> exists a: nat, b: nat ::
          FirstMentioningLine(s, a, b) && isUint(Number(s[a..b])) && path.value == PathFor(s[a..b]))
    && (path.None? ==> forall a: nat, b: nat ::
          FirstMentioningLine(s, a, b) ==> !isUint(Number(s[a..b])))
  }

  // `irqs` is the file, if it can be read; `isUint` is the library's number syntax.
  method GetUsbGadgetIrqPath(irqs: Option<string>, isUint: string -> bool) returns (path: Option<string>)
    ensures irqs.None? ==> path.None?
    ensures irqs.Some? ==> Found(irqs.value, isUint, path)
  {
    if irqs.None? { return None; }
    var s := irqs.value;
    var readPos: nat := 0;
    while true
      invariant readPos <= |s|
      invariant readPos > 0 ==> s[readPos - 1] == '\n'
      invariant forall c: nat, d: nat :: d < readPos ==> !MentioningLine(s, c, d)
      decreases |s| - readPos
    {
      var foundPos := Find(s, '\n', readPos);
      FindFacts(s, '\n', readPos);
      if foundPos == |s| {
        NoMoreLines(s, readPos);
        return None;
      }
      var line := s[readPos..foundPos];
      OnlyLineHere(s, readPos, foundPos);
      if Mentions(line) {
        assert FirstMentioningLine(s, readPos, foundPos);
        if !isUint(Number(line)) {
          FirstIsUnique(s, readPos, foundPos);
          return None;
        }
        return Some(PathFor(line));
      }
      readPos := foundPos + 1;
    }
  }

  lemma NoMoreLines(s: string, from: nat)
    requires from <= |s| && forall k :: from <= k < |s| ==> s[k] != '\n'
    ensures forall c: nat, d: nat :: IsLine(s, c, d) ==> d < from
  {
  }

  // The newline at b ends one line only.
  lemma OnlyLineHere(s: string, a: nat, b: nat)
    requires a <= b < |s| && s[b] == '\n' && (a > 0 ==> s[a - 1] == '\n')
    requires forall k :: a <= k < b ==> s[k] != '\n'
    ensures IsLine(s, a, b)
    ensures forall c: nat, d: nat :: IsLine(s, c, d) && a <= d <= b ==> c == a && d == b
  {
    forall c: nat, d: nat | IsLine(s, c, d) && a <= d <= b ensures c == a && d == b {
      assert d == b;
      assert a > 0 ==> s[a - 1] == '\n';
      assert c > 0 ==> s[c - 1] == '\n';
    }
  }

  lemma FirstIsUnique(s: string, a: nat, b: nat)
    requires FirstMentioningLine(s, a, b)
    ensures forall c: nat, d: nat :: FirstMentioningLine(s, c, d) ==> c == a && d == b
  {
    forall c: nat, d: nat | FirstMentioningLine(s, c, d) ensures c == a && d == b {
      assert MentioningLine(s, a, b) && MentioningLine(s, c, d);
      OnlyLineHere(s, a, b);
      OnlyLineHere(s, c, d);
    }
  }
}
