/** The scan of /sys/class/typec: which ports there are, and which have a partner. */
module PortScan {

  import opened Options
  import opened Search

  datatype Entry = Entry(name: string, isLink: bool)

  predicate Contains(s: string, t: string) {
    exists i :: 0 <= i <= |s| - |t| && OccursAt(s, t, i)
  }

  predicate OccursAt(s: string, t: string, i: int)
    requires 0 <= i <= |s| - |t|
  {
    s[i..i + |t|] == t
  }

  // strtok(s, "-"): leading dashes are skipped, and the token ends at the next one.
  function FirstToken(s: string): string {
    if s != [] && s[0] == '-' then FirstToken(s[1..]) else s[..Find(s, '-', 0)]
  }

  // The token: after any dashes, up to the next one.
  lemma {:induction false} FirstTokenIs(dashes: string, token: string, rest: string)
    requires forall k :: 0 <= k < |dashes| ==> dashes[k] == '-'
    requires '-' !in token && (token == "" ==> rest == "") && (rest != "" ==> rest[0] == '-')
    ensures FirstToken(dashes + token + rest) == token
  {
    var s := dashes + token + rest;
    if dashes == "" {
      FindIs(s, '-', 0, |token|);
      assert s[..|token|] == token;
    } else {
      FirstTokenIs(dashes[1..], token, rest);
      assert s[1..] == dashes[1..] + token + rest;
    }
  }

  // A port and its partner.
  lemma PartnerOfAPort(port: string, more: string)
    requires port != "" && '-' !in port
    ensures FirstToken(port + "-partner" + more) == port
    ensures Contains(port + "-partner" + more, "-partner")
  {
    FirstTokenIs("", port, "-partner" + more);
    assert "" + port + ("-partner" + more) == port + "-partner" + more;
    assert OccursAt(port + "-partner" + more, "-partner", |port|);
  }

  predicate IsPort(e: Entry) {
    e.isLink && !Contains(e.name, "-partner")
  }

  predicate IsPartner(e: Entry) {
    e.isLink && Contains(e.name, "-partner")
  }

  ghost predicate HasPartner(entries: seq<Entry>, port: string) {
    exists e :: e in entries && IsPartner(e) && FirstToken(e.name) == port
  }

  // The outcome, told without any order.
  ghost predicate Describes(names: map<string, bool>, entries: seq<Entry>) {
    && (forall port :: port in names <==>
          (Entry(port, true) in entries && IsPort(Entry(port, true))) || HasPartner(entries, port))
    && (forall port :: port in names ==> (names[port] <==> HasPartner(entries, port)))
  }

  // `listing` is what readdir yields, if the directory can be opened.
  method GetTypeCPortNames(listing: Option<seq<Entry>>) returns (ok: bool, names: map<string, bool>)
    ensures ok <==> listing.Some?
    ensures if ok then Describes(names, listing.value) else names == map[]
  {
    names := map[];
    if listing.None? { return false, names; }
    var entries := listing.value;
    for n := 0 to |entries|
      invariant Describes(names, entries[..n])
    {
      var e := entries[n];
      SeenSoFar(entries, n);
      if e.isLink {
        if !Contains(e.name, "-partner") {
          if e.name !in names {
            names := names[e.name := false];
          }
        } else {
          names := names[FirstToken(e.name) := true];
        }
      }
    }
    assert entries[..|entries|] == entries;
    ok := true;
  }

  lemma SeenSoFar(entries: seq<Entry>, n: nat)
    requires n < |entries|
    ensures forall e :: e in entries[..n + 1] <==> e in entries[..n] || e == entries[n]
    ensures forall port :: HasPartner(entries[..n + 1], port) <==>
              HasPartner(entries[..n], port) || (IsPartner(entries[n]) && FirstToken(entries[n].name) == port)
  {
    assert entries[..n + 1] == entries[..n] + [entries[n]];
  }

  // Any two listings of the same directory give the same map.
  lemma OrderDoesNotMatter(a: seq<Entry>, b: seq<Entry>, fromA: map<string, bool>, fromB: map<string, bool>)
    requires multiset(a) == multiset(b)
    requires Describes(fromA, a) && Describes(fromB, b)
    ensures fromA == fromB
  {
    forall e ensures e in a <==> e in b {
      assert e in a <==> e in multiset(a);
      assert e in b <==> e in multiset(b);
    }
    forall port ensures HasPartner(a, port) <==> HasPartner(b, port) {
    }
  }
}
