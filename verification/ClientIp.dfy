/** auth/clientip.go: which address a request came from, behind trusted proxies. Parsing and
    prefix matching belong to net/netip and are parameters; an address is its canonical text. */
module ClientIp {
  import opened Entities

  datatype Net = Net(parse: string -> Option<string>, contains: (string, string) -> bool, proxies: seq<string>)

  const UNKNOWN_CLIENT_IP := "unknown"

  // ----- header lines -----

  predicate IsSpace(c: char) {
    c == ' ' || c == '\t' || c == '\n' || c == '\r' || c == 11 as char || c == 12 as char
  }

  function Trim(s: string): string {
    if s != "" && IsSpace(s[0]) then Trim(s[1..])
    else if s != "" && IsSpace(s[|s| - 1]) then Trim(s[..|s| - 1])
    else s
  }

  function SplitCommas(s: string): (parts: seq<string>)
    ensures parts != []
  {
    if s == "" then [""]
    else
      var rest := SplitCommas(s[1..]);
      if s[0] == ',' then [""] + rest else [[s[0]] + rest[0]] + rest[1..]
  }

  function HopsOf(parts: seq<string>): seq<string> {
    if parts == [] then []
    else
      var last := Trim(parts[|parts| - 1]);
      HopsOf(parts[..|parts| - 1]) + if last != "" then [last] else []
  }

  /** The hop list of a header: every line's non-empty, trimmed entries in order. */
  function Hops(lines: seq<string>): seq<string> {
    if lines == [] then [] else Hops(lines[..|lines| - 1]) + HopsOf(SplitCommas(lines[|lines| - 1]))
  }

  method ForwardedFor(lines: seq<string>) returns (hops: seq<string>)
    ensures hops == Hops(lines)
  {
    hops := [];
    for i := 0 to |lines|
      invariant hops == Hops(lines[..i])
    {
      var parts := SplitCommas(lines[i]);
      ghost var before := hops;
      for j := 0 to |parts|
        invariant hops == before + HopsOf(parts[..j])
      {
        assert parts[..j + 1][..j] == parts[..j];
        var hop := Trim(parts[j]);
        if hop != "" {
          hops := hops + [hop];
        }
      }
      assert parts[..|parts|] == parts;
      assert lines[..i + 1][..i] == lines[..i];
    }
    assert lines[..|lines|] == lines;
  }

  function JoinCommas(lines: seq<string>): string
    requires lines != []
  {
    if |lines| == 1 then lines[0] else JoinCommas(lines[..|lines| - 1]) + "," + lines[|lines| - 1]
  }

  lemma {:induction false} SplitAtComma(a: string, b: string)
    ensures SplitCommas(a + "," + b) == SplitCommas(a) + SplitCommas(b)
  {
    if a == "" {
      assert a + "," + b == "," + b;
      assert ("," + b)[1..] == b;
    } else {
      assert (a + "," + b)[1..] == a[1..] + "," + b;
      SplitAtComma(a[1..], b);
    }
  }

  lemma {:induction false} HopsOfConcat(a: seq<string>, b: seq<string>)
    ensures HopsOf(a + b) == HopsOf(a) + HopsOf(b)
  {
    if b == [] {
      assert a + b == a;
    } else {
      assert (a + b)[..|a + b| - 1] == a + b[..|b| - 1];
      HopsOfConcat(a, b[..|b| - 1]);
    }
  }

  lemma HopsOfLine(line: string)
    ensures Hops([line]) == HopsOf(SplitCommas(line))
  {
    assert [line][..0] == [];
  }

  /** However a header is split across lines, it gives the hops of one comma-joined line. */
  lemma {:induction false} LineBreaksDoNotMatter(lines: seq<string>)
    requires lines != []
    ensures Hops(lines) == Hops([JoinCommas(lines)])
  {
    if |lines| == 1 {
      assert lines == [lines[0]];
    } else {
      var init, last := lines[..|lines| - 1], lines[|lines| - 1];
      var joined := JoinCommas(init);
      LineBreaksDoNotMatter(init);
      HopsOfLine(joined);
      HopsOfLine(joined + "," + last);
      SplitAtComma(joined, last);
      HopsOfConcat(SplitCommas(joined), SplitCommas(last));
    }
  }

  // ----- entries -----

  /** Neither end is white space. */
  predicate IsTrim(s: string) {
    s != "" && s[0] !in " \t\n\r" && s[|s| - 1] !in " \t\n\r"
  }

  lemma {:induction false} TrimTrims(s: string)
    ensures Trim(s) == "" || IsTrim(Trim(s))
    ensures forall c :: c in Trim(s) ==> c in s
    decreases |s|
  {
    if s != "" && IsSpace(s[0]) {
      TrimTrims(s[1..]);
    } else if s != "" && IsSpace(s[|s| - 1]) {
      TrimTrims(s[..|s| - 1]);
    }
  }

  lemma {:induction false} PartsHaveNoComma(s: string)
    ensures forall i :: 0 <= i < |SplitCommas(s)| ==> ',' !in SplitCommas(s)[i]
  {
    if s != "" {
      PartsHaveNoComma(s[1..]);
    }
  }

  /** Every hop is a trimmed, non-empty piece of a line between commas. */
  lemma {:induction false} HopsAreEntries(lines: seq<string>)
    ensures forall i :: 0 <= i < |Hops(lines)| ==> IsTrim(Hops(lines)[i]) && ',' !in Hops(lines)[i]
  {
    if lines != [] {
      HopsAreEntries(lines[..|lines| - 1]);
      PartsHaveNoComma(lines[|lines| - 1]);
      HopsOfAreTrimmed(SplitCommas(lines[|lines| - 1]));
    }
  }

  lemma {:induction false} HopsOfAreTrimmed(parts: seq<string>)
    requires forall i :: 0 <= i < |parts| ==> ',' !in parts[i]
    ensures forall i :: 0 <= i < |HopsOf(parts)| ==> IsTrim(HopsOf(parts)[i]) && ',' !in HopsOf(parts)[i]
  {
    if parts != [] {
      HopsOfAreTrimmed(parts[..|parts| - 1]);
      TrimTrims(parts[|parts| - 1]);
    }
  }

  /** And an entry is read as it was written, whatever blanks surround it. */
  lemma PaddedEntryIsRead(before: string, hop: string, after: string)
    requires IsTrim(hop) && !IsSpace(hop[0]) && !IsSpace(hop[|hop| - 1]) && ',' !in hop
    requires (forall c :: c in before ==> c in " \t") && (forall c :: c in after ==> c in " \t")
    ensures Hops([before + hop + after]) == [hop]
  {
    var line := before + hop + after;
    HopsOfLine(line);
    assert ',' !in line;
    OnePart(line);
    TrimStrips(before, hop, after);
    assert [line][..0] == [];
    assert HopsOf([line]) == HopsOf([]) + [hop];
  }

  lemma {:induction false} OnePart(s: string)
    requires ',' !in s
    ensures SplitCommas(s) == [s]
  {
    if s != "" {
      assert ',' !in s[1..];
      OnePart(s[1..]);
      assert s[0] in s && [s[0]] + s[1..] == s;
    }
  }

  lemma {:induction false} TrimStrips(before: string, hop: string, after: string)
    requires hop != "" && !IsSpace(hop[0]) && !IsSpace(hop[|hop| - 1])
    requires (forall c :: c in before ==> c in " \t") && (forall c :: c in after ==> c in " \t")
    ensures Trim(before + hop + after) == hop
    decreases |before| + |after|
  {
    var s := before + hop + after;
    if before != "" {
      assert before[0] in before && s[0] == before[0] && s[1..] == before[1..] + hop + after;
      TrimStrips(before[1..], hop, after);
    } else if after != "" {
      assert s == hop + after && s[0] == hop[0];
      assert after[|after| - 1] in after && s[|s| - 1] == after[|after| - 1];
      assert s[..|s| - 1] == before + hop + after[..|after| - 1];
      TrimStrips(before, hop, after[..|after| - 1]);
    } else {
      assert s == hop;
    }
  }

  // ----- the walk -----

  predicate IsTrusted(net: Net, addr: string) {
    exists i :: 0 <= i < |net.proxies| && net.contains(net.proxies[i], addr)
  }

  method Trusted(net: Net, addr: string) returns (yes: bool)
    ensures yes <==> IsTrusted(net, addr)
    ensures yes <==> exists i :: 0 <= i < |net.proxies| && net.contains(net.proxies[i], addr)
  {
    for i := 0 to |net.proxies|
      invariant forall j :: 0 <= j < i ==> !net.contains(net.proxies[j], addr)
    {
      if net.contains(net.proxies[i], addr) {
        return true;
      }
    }
    return false;
  }

  predicate Vouched(net: Net, hop: string) {
    net.parse(hop).Some? && IsTrusted(net, net.parse(hop).value)
  }

  /** The client, given the hops and the address of the proxy that sent them: the rightmost hop
      that is not a trusted proxy, or the last vouched address if that hop does not parse. */
  ghost predicate IsClient(net: Net, peer: string, hops: seq<string>, client: string) {
    if forall i :: 0 <= i < |hops| ==> Vouched(net, hops[i])
    then client == if hops == [] then peer else net.parse(hops[0]).value
    else exists i :: 0 <= i < |hops| && StopsAt(net, peer, hops, i, client)
  }

  ghost predicate StopsAt(net: Net, peer: string, hops: seq<string>, i: nat, client: string)
    requires i < |hops|
  {
    && (forall j :: i < j < |hops| ==> Vouched(net, hops[j]))
    && !Vouched(net, hops[i])
    && client == if net.parse(hops[i]).Some? then net.parse(hops[i]).value
                 else if i + 1 < |hops| then net.parse(hops[i + 1]).value else peer
  }

  /** Who sent the request: the peer unless it is a trusted proxy; then X-Real-IP or the peer
      without hops, and otherwise the walk's result. */
  method Resolve(net: Net, peer: string, forwarded: seq<string>, realIp: string) returns (client: string)
    ensures net.parse(peer).None? ==> client == "unknown"
    ensures net.parse(peer).Some? && !IsTrusted(net, net.parse(peer).value) ==> client == net.parse(peer).value
    ensures net.parse(peer).Some? && IsTrusted(net, net.parse(peer).value) && Hops(forwarded) == [] ==>
              client == if net.parse(realIp).Some? then net.parse(realIp).value else net.parse(peer).value
    ensures net.parse(peer).Some? && IsTrusted(net, net.parse(peer).value) && Hops(forwarded) != [] ==>
              IsClient(net, net.parse(peer).value, Hops(forwarded), client)
  {
    var parsed := net.parse(peer);
    if parsed.None? {
      return UNKNOWN_CLIENT_IP;
    }
    var addr := parsed.value;
    var ok := Trusted(net, addr);
    if !ok {
      return addr;
    }
    var hops := ForwardedFor(forwarded);
    if |hops| == 0 {
      var behind := net.parse(realIp);
      if behind.Some? {
        return behind.value;
      }
      return addr;
    }
    var i := |hops| - 1;
    while i >= 0
      invariant -1 <= i < |hops|
      invariant forall j :: i < j < |hops| ==> Vouched(net, hops[j])
      invariant addr == if i + 1 < |hops| then net.parse(hops[i + 1]).value else net.parse(peer).value
    {
      var hop := net.parse(hops[i]);
      if hop.None? {
        assert StopsAt(net, net.parse(peer).value, hops, i, addr);
        return addr;
      }
      addr := hop.value;
      ok := Trusted(net, addr);
      if !ok {
        assert StopsAt(net, net.parse(peer).value, hops, i, addr);
        return addr;
      }
      i := i - 1;
    }
    return addr;
  }

  /** The walk has one answer. */
  lemma ClientIsUnique(net: Net, peer: string, hops: seq<string>, a: string, b: string)
    requires IsClient(net, peer, hops, a) && IsClient(net, peer, hops, b)
    ensures a == b
  {
    if !(forall i :: 0 <= i < |hops| ==> Vouched(net, hops[i])) {
      var i :| 0 <= i < |hops| && StopsAt(net, peer, hops, i, a);
      var j :| 0 <= j < |hops| && StopsAt(net, peer, hops, j, b);
      assert i == j;
    }
  }

  /** Entries a client writes itself, left of the hop where the walk stops, change nothing. */
  lemma ClaimsAreIgnored(net: Net, peer: string, claims: seq<string>, stop: string, right: seq<string>, client: string)
    requires !Vouched(net, stop) && forall i :: 0 <= i < |right| ==> Vouched(net, right[i])
    ensures IsClient(net, peer, claims + [stop] + right, client) <==> IsClient(net, peer, [stop] + right, client)
  {
    var short, long := [stop] + right, claims + [stop] + right;
    assert short[0] == stop && long[|claims|] == stop;
    assert forall i :: 0 < i < |short| ==> short[i] == right[i - 1];
    assert forall i :: |claims| < i < |long| ==> long[i] == right[i - |claims| - 1];
    if IsClient(net, peer, long, client) {
      var i :| 0 <= i < |long| && StopsAt(net, peer, long, i, client);
      assert i == |claims|;
      assert StopsAt(net, peer, short, 0, client);
    }
    if IsClient(net, peer, short, client) {
      var i :| 0 <= i < |short| && StopsAt(net, peer, short, i, client);
      assert i == 0;
      assert StopsAt(net, peer, long, |claims|, client);
    }
  }
}
