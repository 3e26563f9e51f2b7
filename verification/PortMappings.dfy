/** Remapping of Compose port lists (`internal/composefile/service/port_specs.go`). */
module PortMappings {
  import opened Text

  /** One element of a decoded `ports` list: short text syntax, a map (its `target` and
      `protocol` values as the endpoint helpers read them, the rest carried along), or
      anything else. */
  datatype PortItem =
    | Short(text: string)
    | Long(target: Option<string>, protocol: Option<string>, rest: int)
    | Unknown(raw: int)

  /** What `portProtocolSuffix` answers: no suffix, `/tcp` or `/udp`. */
  datatype Protocol = NoProtocol | Tcp | Udp {
    function Text(): string {
      match this
      case NoProtocol => ""
      case Tcp => "/tcp"
      case Udp => "/udp"
    }
  }

  datatype ComposePort = ComposePort(container: string, protocol: Protocol)

  datatype Mapping = Mapping(container: string, host: string)

  /** What port_mappings.go guarantees about a container endpoint (it is a decimal port
      number), as far as the port syntax can tell: no separator and no outer blanks. */
  predicate Endpoint(s: string) {
    s != "" && Trimmed(s) && NoChar(s, ':') && NoChar(s, '/')
  }

  function LowerChar(c: char): char {
    if 'A' <= c <= 'Z' then ((c as int) + 32) as char else c
  }

  /** `strings.ToLower` as far as it matters to `tcp` and `udp`: no character outside A-Z lowers to one of their
      letters. */
  function Lower(s: string): (r: string)
    ensures |r| == |s| && forall i :: 0 <= i < |s| ==> r[i] == LowerChar(s[i])
  {
    seq(|s|, i requires 0 <= i < |s| => LowerChar(s[i]))
  }

  function ProtocolSuffix(protocol: string): Protocol {
    var p := Lower(TrimSpace(protocol));
    if p == "tcp" then Tcp else if p == "udp" then Udp else NoProtocol
  }

  /** The letter in either case. */
  predicate Either(c: char, lower: char, upper: char) {
    c == lower || c == upper
  }

  /** A protocol is recognised in any case and between blanks, and no other text is. */
  lemma ProtocolAnyCase(protocol: string)
    ensures var p := TrimSpace(protocol);
            && (ProtocolSuffix(protocol) == Tcp
                <==> |p| == 3 && Either(p[0], 't', 'T') && Either(p[1], 'c', 'C') && Either(p[2], 'p', 'P'))
            && (ProtocolSuffix(protocol) == Udp
                <==> |p| == 3 && Either(p[0], 'u', 'U') && Either(p[1], 'd', 'D') && Either(p[2], 'p', 'P'))
  {
    var p := TrimSpace(protocol);
    if |p| == 3 {
      assert Lower(p) == [LowerChar(p[0]), LowerChar(p[1]), LowerChar(p[2])];
      assert "tcp" == ['t', 'c', 'p'] && "udp" == ['u', 'd', 'p'];
    }
  }

  function ParseShort(raw: string): Option<ComposePort> {
    var (container0, protocol, _) := Cut(AfterLast(raw, ':'), '/');
    var container := TrimSpace(container0);
    if container == "" then None else Some(ComposePort(container, ProtocolSuffix(protocol)))
  }

  function ParsePort(item: PortItem): Option<ComposePort> {
    match item
    case Short(text) => ParseShort(text)
    case Long(target, protocol, _) =>
      if target.None? then None
      else Some(ComposePort(target.value, if protocol.Some? then ProtocolSuffix(protocol.value) else NoProtocol))
    case Unknown(_) => None
  }

  /** The printed form of a remapped port. */
  function Print(m: Mapping, protocol: Protocol): PortItem {
    Short(m.host + ":" + m.container + protocol.Text())
  }

  lemma SuffixText(p: string, protocol: Protocol)
    requires (p == "tcp" && protocol == Tcp) || (p == "udp" && protocol == Udp)
    ensures ProtocolSuffix(p) == protocol && protocol.Text() == "/" + p
  {
    assert Trimmed(p);
    TrimSpaceFixed(p);
    assert Lower(p) == p;
  }

  /** The container and protocol part of a printed port splits back into the two. */
  lemma CutContainer(container: string, protocol: Protocol) returns (tail: string)
    requires Endpoint(container)
    ensures Cut(container + protocol.Text(), '/').0 == container
    ensures Cut(container + protocol.Text(), '/').1 == tail && ProtocolSuffix(tail) == protocol
  {
    match protocol
    case NoProtocol =>
      CutBare(container);
      tail := "";
    case Tcp =>
      CutKnown(container, "tcp", Tcp);
      tail := "tcp";
    case Udp =>
      CutKnown(container, "udp", Udp);
      tail := "udp";
  }

  lemma CutBare(container: string)
    requires Endpoint(container)
    ensures Cut(container + NoProtocol.Text(), '/') == (container, "", false) && ProtocolSuffix("") == NoProtocol
  {
    assert container + "" == container;
    assert IndexOf(container, '/') == |container|;
    TrimSpaceFixed("");
    assert Lower("") == "";
  }

  lemma CutKnown(container: string, p: string, protocol: Protocol)
    requires Endpoint(container) && ((p == "tcp" && protocol == Tcp) || (p == "udp" && protocol == Udp))
    ensures Cut(container + protocol.Text(), '/') == (container, p, true)
    ensures ProtocolSuffix(p) == protocol
  {
    SuffixText(p, protocol);
    assert container + ("/" + p) == container + ['/'] + p;
    CutAt(container, '/', p);
  }

  /** Print then parse: a remapped port is read back as its container and its protocol, whatever the host text is. */
  lemma PrintParse(m: Mapping, protocol: Protocol)
    requires Endpoint(m.container)
    ensures ParsePort(Print(m, protocol)) == Some(ComposePort(m.container, protocol))
  {
    var text := m.container + protocol.Text();
    assert NoChar(text, ':');
    AfterLastAt(m.host, ':', text);
    assert m.host + ":" + m.container + protocol.Text() == m.host + [':'] + text;
    var tail := CutContainer(m.container, protocol);
    TrimSpaceFixed(m.container);
  }

  /** How a port list is read and written: everything below holds of any such pair that reads
      back what it writes, and `PORTS`, the Compose syntax, is one. */
  datatype Syntax = Syntax(parse: PortItem -> Option<ComposePort>, format: (Mapping, Protocol) -> PortItem) {
    ghost predicate RoundTrips() {
      forall m: Mapping, protocol :: Endpoint(m.container) ==>
            parse(format(m, protocol)) == Some(ComposePort(m.container, protocol))
    }
  }

  lemma ReadBack(x: Syntax, m: Mapping, protocol: Protocol)
    requires x.RoundTrips() && Endpoint(m.container)
    ensures x.parse(x.format(m, protocol)) == Some(ComposePort(m.container, protocol))
  {
  }

  const PORTS := Syntax(ParsePort, Print)

  lemma PortsRoundTrip()
    ensures PORTS.RoundTrips()
  {
    forall m: Mapping, protocol | Endpoint(m.container)
      ensures PORTS.parse(PORTS.format(m, protocol)) == Some(ComposePort(m.container, protocol))
    {
      PrintParse(m, protocol);
    }
  }

  predicate Serves(x: Syntax, item: PortItem, container: string) {
    x.parse(item).Some? && x.parse(item).value.container == container
  }

  // ---------------------------------------------------------------- one mapping

  /** The entries that do not serve the container, in order. */
  function Without(x: Syntax, ports: seq<PortItem>, container: string): seq<PortItem> {
    if ports == [] then []
    else
      var n := |ports| - 1;
      Without(x, ports[..n], container) + (if Serves(x, ports[n], container) then [] else [ports[n]])
  }

  /** The first non-empty protocol among the entries serving the container. */
  function FirstProtocol(x: Syntax, ports: seq<PortItem>, container: string): Protocol {
    if ports == [] then NoProtocol
    else
      var n := |ports| - 1;
      var before := FirstProtocol(x, ports[..n], container);
      if before != NoProtocol then before
      else if Serves(x, ports[n], container) then x.parse(ports[n]).value.protocol
      else NoProtocol
  }

  function ApplyOne(x: Syntax, ports: seq<PortItem>, m: Mapping): seq<PortItem> {
    Without(x, ports, m.container) + [x.format(m, FirstProtocol(x, ports, m.container))]
  }

  method ApplyPortMapping(ports: seq<PortItem>, m: Mapping) returns (next: seq<PortItem>)
    ensures next == ApplyOne(PORTS, ports, m)
  {
    var originalProtocol := NoProtocol;
    next := [];
    for i := 0 to |ports|
      invariant next == Without(PORTS, ports[..i], m.container)
      invariant originalProtocol == FirstProtocol(PORTS, ports[..i], m.container)
    {
      assert ports[..i + 1][..i] == ports[..i];
      var port := ParsePort(ports[i]);
      if port.Some? && port.value.container == m.container {
        if originalProtocol == NoProtocol {
          originalProtocol := port.value.protocol;
        }
      } else {
        next := next + [ports[i]];
      }
    }
    assert ports[..|ports|] == ports;
    next := next + [Short(m.host + ":" + m.container + originalProtocol.Text())];
  }

  // ---------------------------------------------------------------- all mappings

  function ApplyAll(x: Syntax, ports: seq<PortItem>, ms: seq<Mapping>): seq<PortItem> {
    if ms == [] then ports
    else ApplyOne(x, ApplyAll(x, ports, ms[..|ms| - 1]), ms[|ms| - 1])
  }

  method ApplyPortMappings(ports: seq<PortItem>, ms: seq<Mapping>) returns (out: seq<PortItem>)
    ensures out == ApplyAll(PORTS, ports, ms)
  {
    out := ports;
    for i := 0 to |ms|
      invariant out == ApplyAll(PORTS, ports, ms[..i])
    {
      assert ms[..i + 1][..i] == ms[..i];
      out := ApplyPortMapping(out, ms[i]);
    }
    assert ms[..|ms|] == ms;
  }

  predicate Mapped(ms: seq<Mapping>, container: string) {
    exists i :: 0 <= i < |ms| && ms[i].container == container
  }

  predicate MappedItem(x: Syntax, ms: seq<Mapping>, item: PortItem) {
    x.parse(item).Some? && Mapped(ms, x.parse(item).value.container)
  }

  /** The entries that no mapping touches (other containers and unparseable entries), in order. */
  function Untouched(x: Syntax, ports: seq<PortItem>, ms: seq<Mapping>): seq<PortItem> {
    if ports == [] then []
    else
      var n := |ports| - 1;
      Untouched(x, ports[..n], ms) + (if MappedItem(x, ms, ports[n]) then [] else [ports[n]])
  }

  /** The mappings that no later mapping of the same container overrides, in order. */
  function Effective(ms: seq<Mapping>): seq<Mapping> {
    if ms == [] then []
    else
      var n := |ms| - 1;
      Others(Effective(ms[..n]), ms[n].container) + [ms[n]]
  }

  function Others(ms: seq<Mapping>, container: string): seq<Mapping> {
    if ms == [] then []
    else
      var n := |ms| - 1;
      Others(ms[..n], container) + (if ms[n].container == container then [] else [ms[n]])
  }

  /** One printed entry for each mapping, with the protocol the original list gave its container. */
  function Entries(x: Syntax, ports: seq<PortItem>, ms: seq<Mapping>): (r: seq<PortItem>)
    ensures |r| == |ms|
  {
    seq(|ms|, i requires 0 <= i < |ms| => x.format(ms[i], FirstProtocol(x, ports, ms[i].container)))
  }

  /** The result in one pass: what no mapping touches, then one entry per container, last host winning. */
  function Remapped(x: Syntax, ports: seq<PortItem>, ms: seq<Mapping>): seq<PortItem> {
    Untouched(x, ports, ms) + Entries(x, ports, Effective(ms))
  }

  predicate Endpoints(ms: seq<Mapping>) {
    forall i :: 0 <= i < |ms| ==> Endpoint(ms[i].container)
  }

  lemma {:induction false} WithoutAppend(x: Syntax, a: seq<PortItem>, b: seq<PortItem>, c: string)
    ensures Without(x, a + b, c) == Without(x, a, c) + Without(x, b, c)
  {
    if b == [] {
      assert a + b == a;
    } else {
      var n := |b| - 1;
      WithoutAppend(x, a, b[..n], c);
      assert (a + b)[..|a + b| - 1] == a + b[..n];
    }
  }

  lemma {:induction false} FirstProtocolAppend(x: Syntax, a: seq<PortItem>, b: seq<PortItem>, c: string)
    ensures FirstProtocol(x, a + b, c)
          == if FirstProtocol(x, a, c) != NoProtocol then FirstProtocol(x, a, c) else FirstProtocol(x, b, c)
  {
    if b == [] {
      assert a + b == a;
    } else {
      var n := |b| - 1;
      FirstProtocolAppend(x, a, b[..n], c);
      assert (a + b)[..|a + b| - 1] == a + b[..n];
    }
  }

  lemma {:induction false} UntouchedAppend(x: Syntax, a: seq<PortItem>, b: seq<PortItem>, ms: seq<Mapping>)
    ensures Untouched(x, a + b, ms) == Untouched(x, a, ms) + Untouched(x, b, ms)
  {
    if b == [] {
      assert a + b == a;
    } else {
      var n := |b| - 1;
      UntouchedAppend(x, a, b[..n], ms);
      assert (a + b)[..|a + b| - 1] == a + b[..n];
    }
  }

  lemma MappedSnoc(ms: seq<Mapping>, m: Mapping, c: string)
    ensures Mapped(ms + [m], c) <==> Mapped(ms, c) || m.container == c
  {
    if Mapped(ms, c) {
      var i :| 0 <= i < |ms| && ms[i].container == c;
      assert (ms + [m])[i].container == c;
    }
    assert (ms + [m])[|ms|] == m;
  }

  /** Dropping one more container from the untouched entries. */
  lemma UntouchedSnoc(x: Syntax, ports: seq<PortItem>, ms: seq<Mapping>, m: Mapping)
    ensures Without(x, Untouched(x, ports, ms), m.container) == Untouched(x, ports, ms + [m])
  {
    if ports != [] {
      var n := |ports| - 1;
      UntouchedSnoc(x, ports[..n], ms, m);
      var kept := if MappedItem(x, ms, ports[n]) then [] else [ports[n]];
      WithoutAppend(x, Untouched(x, ports[..n], ms), kept, m.container);
      assert Without(x, [], m.container) == [];
      assert [ports[n]][..0] == [];
      if x.parse(ports[n]).Some? {
        MappedSnoc(ms, m, x.parse(ports[n]).value.container);
      }
    }
  }

  /** The untouched entries carry all protocol evidence of an unmapped container and none of a mapped one. */
  lemma {:induction false} FirstProtocolUntouched(x: Syntax, ports: seq<PortItem>, ms: seq<Mapping>, c: string)
    ensures FirstProtocol(x, Untouched(x, ports, ms), c)
          == if Mapped(ms, c) then NoProtocol else FirstProtocol(x, ports, c)
  {
    if ports != [] {
      var n := |ports| - 1;
      FirstProtocolUntouched(x, ports[..n], ms, c);
      var kept := if MappedItem(x, ms, ports[n]) then [] else [ports[n]];
      FirstProtocolAppend(x, Untouched(x, ports[..n], ms), kept, c);
      assert [ports[n]][..0] == [];
    }
  }

  lemma EntriesAppend(x: Syntax, ports: seq<PortItem>, a: seq<Mapping>, b: seq<Mapping>)
    ensures Entries(x, ports, a + b) == Entries(x, ports, a) + Entries(x, ports, b)
  {
  }

  lemma OthersProperties(ms: seq<Mapping>, c: string)
    ensures forall x :: Mapped(Others(ms, c), x) <==> Mapped(ms, x) && x != c
    ensures forall m :: m in Others(ms, c) ==> m in ms
    ensures Endpoints(ms) ==> Endpoints(Others(ms, c))
  {
    if ms != [] {
      var n := |ms| - 1;
      OthersProperties(ms[..n], c);
      assert ms == ms[..n] + [ms[n]];
      forall x ensures Mapped(Others(ms, c), x) <==> Mapped(ms, x) && x != c {
        MappedSnoc(ms[..n], ms[n], x);
        MappedSnoc(Others(ms[..n], c), ms[n], x);
        assert Others(ms[..n], c) + [] == Others(ms[..n], c);
      }
    }
  }

  /** Dropping a container from printed entries drops exactly the mappings of that container. */
  lemma EntriesWithout(x: Syntax, ports: seq<PortItem>, ms: seq<Mapping>, c: string)
    requires x.RoundTrips() && Endpoints(ms)
    ensures Without(x, Entries(x, ports, ms), c) == Entries(x, ports, Others(ms, c))
  {
    if ms != [] {
      var n := |ms| - 1;
      EntriesWithout(x, ports, ms[..n], c);
      assert Entries(x, ports, ms)[..n] == Entries(x, ports, ms[..n]);
      assert Entries(x, ports, [ms[n]]) == [Entries(x, ports, ms)[n]];
      ReadBack(x, ms[n], FirstProtocol(x, ports, ms[n].container));
      if ms[n].container != c {
        EntriesAppend(x, ports, Others(ms[..n], c), [ms[n]]);
      }
    }
  }

  /** The entries read back as the mappings' containers with the protocols the original list gave them. */
  ghost predicate ReadsAs(x: Syntax, items: seq<PortItem>, ports: seq<PortItem>, ms: seq<Mapping>) {
    && |items| == |ms|
    && forall i :: 0 <= i < |ms| ==>
        x.parse(items[i]) == Some(ComposePort(ms[i].container, FirstProtocol(x, ports, ms[i].container)))
  }

  lemma EntriesRead(x: Syntax, ports: seq<PortItem>, ms: seq<Mapping>)
    requires x.RoundTrips() && Endpoints(ms)
    ensures ReadsAs(x, Entries(x, ports, ms), ports, ms)
  {
    forall i | 0 <= i < |ms|
      ensures x.parse(Entries(x, ports, ms)[i])
            == Some(ComposePort(ms[i].container, FirstProtocol(x, ports, ms[i].container)))
    {
    }
  }

  lemma {:induction false} ReadProtocol(x: Syntax, items: seq<PortItem>, ports: seq<PortItem>, ms: seq<Mapping>,
        c: string)
    requires ReadsAs(x, items, ports, ms)
    ensures FirstProtocol(x, items, c) == if Mapped(ms, c) then FirstProtocol(x, ports, c) else NoProtocol
  {
    if ms != [] {
      var n := |ms| - 1;
      ReadProtocol(x, items[..n], ports, ms[..n], c);
      LastMapped(ms, c);
    }
  }

  /** Printed entries carry the original protocol of each mapped container. */
  lemma EntriesProtocol(x: Syntax, ports: seq<PortItem>, ms: seq<Mapping>, c: string)
    requires x.RoundTrips() && Endpoints(ms)
    ensures FirstProtocol(x, Entries(x, ports, ms), c)
          == if Mapped(ms, c) then FirstProtocol(x, ports, c) else NoProtocol
  {
    EntriesRead(x, ports, ms);
    ReadProtocol(x, Entries(x, ports, ms), ports, ms, c);
  }

  lemma LastMapped(ms: seq<Mapping>, c: string)
    requires ms != []
    ensures Mapped(ms, c) <==> Mapped(ms[..|ms| - 1], c) || ms[|ms| - 1].container == c
  {
    var n := |ms| - 1;
    assert ms == ms[..n] + [ms[n]];
    MappedSnoc(ms[..n], ms[n], c);
  }

  lemma EffectiveProperties(ms: seq<Mapping>)
    ensures forall c :: Mapped(Effective(ms), c) <==> Mapped(ms, c)
    ensures forall m :: m in Effective(ms) ==> m in ms
    ensures Endpoints(ms) ==> Endpoints(Effective(ms))
  {
    if ms != [] {
      var n := |ms| - 1;
      EffectiveProperties(ms[..n]);
      OthersProperties(Effective(ms[..n]), ms[n].container);
      assert ms == ms[..n] + [ms[n]];
      forall c ensures Mapped(Effective(ms), c) <==> Mapped(ms, c) {
        MappedSnoc(ms[..n], ms[n], c);
        MappedSnoc(Others(Effective(ms[..n]), ms[n].container), ms[n], c);
      }
    }
  }

  /** One more mapping on top of the one-pass form gives the one-pass form. */
  lemma OnePassStep(x: Syntax, ports: seq<PortItem>, before: seq<Mapping>, m: Mapping)
    requires x.RoundTrips() && Endpoints(before)
    ensures ApplyOne(x, Remapped(x, ports, before), m) == Remapped(x, ports, before + [m])
  {
    EffectiveProperties(before);
    var ms, effective := before + [m], Effective(before);
    var kept, entries := Untouched(x, ports, before), Entries(x, ports, effective);
    assert ms[..|ms| - 1] == before;
    WithoutAppend(x, kept, entries, m.container);
    UntouchedSnoc(x, ports, before, m);
    EntriesWithout(x, ports, effective, m.container);
    var printed := [x.format(m, FirstProtocol(x, ports, m.container))];
    OnePassProtocol(x, ports, before, m.container);
    EntriesAppend(x, ports, Others(effective, m.container), [m]);
    assert Entries(x, ports, [m]) == printed;
    assert Effective(ms) == Others(effective, m.container) + [m];
  }

  lemma OnePassProtocol(x: Syntax, ports: seq<PortItem>, ms: seq<Mapping>, c: string)
    requires x.RoundTrips() && Endpoints(ms)
    ensures FirstProtocol(x, Remapped(x, ports, ms), c) == FirstProtocol(x, ports, c)
  {
    EffectiveProperties(ms);
    FirstProtocolAppend(x, Untouched(x, ports, ms), Entries(x, ports, Effective(ms)), c);
    FirstProtocolUntouched(x, ports, ms, c);
    EntriesProtocol(x, ports, Effective(ms), c);
  }

  /** Main result: applying the mappings one after another equals the one-pass form. */
  lemma {:induction false} SequentialIsOnePass(x: Syntax, ports: seq<PortItem>, ms: seq<Mapping>)
    requires x.RoundTrips() && Endpoints(ms)
    ensures ApplyAll(x, ports, ms) == Remapped(x, ports, ms)
    decreases |ms|
  {
    if ms == [] {
      UntouchedByNone(x, ports);
      assert Remapped(x, ports, ms) == ports;
    } else {
      var n := |ms| - 1;
      SequentialIsOnePass(x, ports, ms[..n]);
      OnePassStep(x, ports, ms[..n], ms[n]);
      assert ms == ms[..n] + [ms[n]];
    }
  }

  lemma NotMapped(x: Syntax, item: PortItem)
    ensures !MappedItem(x, [], item)
  {
  }

  lemma UntouchedByNone(x: Syntax, ports: seq<PortItem>)
    ensures Untouched(x, ports, []) == ports
  {
    if ports != [] {
      var n := |ports| - 1;
      UntouchedByNone(x, ports[..n]);
      NotMapped(x, ports[n]);
      assert ports == ports[..n] + [ports[n]];
    }
  }

  // ---------------------------------------------------------------- what the result looks like

  lemma EntriesAllMapped(x: Syntax, ports: seq<PortItem>, es: seq<Mapping>, ms: seq<Mapping>)
    requires x.RoundTrips() && Endpoints(es) && forall m :: m in es ==> m in ms
    ensures Untouched(x, Entries(x, ports, es), ms) == []
  {
    if es != [] {
      var n := |es| - 1;
      EntriesAllMapped(x, ports, es[..n], ms);
      assert Entries(x, ports, es)[..n] == Entries(x, ports, es[..n]);
      ReadBack(x, es[n], FirstProtocol(x, ports, es[n].container));
      assert es[n] in ms;
    }
  }

  /** Entries of unmapped containers and unparseable entries keep their content and order. */
  lemma UnmappedKept(x: Syntax, ports: seq<PortItem>, ms: seq<Mapping>)
    requires x.RoundTrips() && Endpoints(ms)
    ensures Untouched(x, ApplyAll(x, ports, ms), ms) == Untouched(x, ports, ms)
  {
    SequentialIsOnePass(x, ports, ms);
    EffectiveProperties(ms);
    UntouchedAppend(x, Untouched(x, ports, ms), Entries(x, ports, Effective(ms)), ms);
    EntriesAllMapped(x, ports, Effective(ms), ms);
    UntouchedTwice(x, ports, ms);
  }

  lemma {:induction false} UntouchedTwice(x: Syntax, ports: seq<PortItem>, ms: seq<Mapping>)
    ensures Untouched(x, Untouched(x, ports, ms), ms) == Untouched(x, ports, ms)
  {
    if ports != [] {
      var n := |ports| - 1;
      UntouchedTwice(x, ports[..n], ms);
      var kept := if MappedItem(x, ms, ports[n]) then [] else [ports[n]];
      UntouchedAppend(x, Untouched(x, ports[..n], ms), kept, ms);
      assert [ports[n]][..0] == [];
    }
  }

  /** The last mapping of a container. */
  ghost predicate LastFor(ms: seq<Mapping>, i: int) {
    0 <= i < |ms| && forall j :: i < j < |ms| ==> ms[j].container != ms[i].container
  }

  /** The entries serving the container, in order. */
  function Serving(x: Syntax, ports: seq<PortItem>, container: string): seq<PortItem> {
    if ports == [] then []
    else
      var n := |ports| - 1;
      Serving(x, ports[..n], container) + (if Serves(x, ports[n], container) then [ports[n]] else [])
  }

  lemma {:induction false} ServingAppend(x: Syntax, a: seq<PortItem>, b: seq<PortItem>, c: string)
    ensures Serving(x, a + b, c) == Serving(x, a, c) + Serving(x, b, c)
  {
    if b == [] {
      assert a + b == a;
    } else {
      var n := |b| - 1;
      ServingAppend(x, a, b[..n], c);
      assert (a + b)[..|a + b| - 1] == a + b[..n];
    }
  }

  lemma {:induction false} ServingWithout(x: Syntax, ports: seq<PortItem>, c: string, d: string)
    ensures Serving(x, Without(x, ports, d), c) == if c == d then [] else Serving(x, ports, c)
  {
    if ports != [] {
      var n := |ports| - 1;
      ServingWithout(x, ports[..n], c, d);
      var kept := if Serves(x, ports[n], d) then [] else [ports[n]];
      ServingAppend(x, Without(x, ports[..n], d), kept, c);
      assert [ports[n]][..0] == [];
    }
  }

  /** One mapping leaves its container with just its own entry, and other containers with what they had. */
  lemma ServingAfterOne(x: Syntax, ports: seq<PortItem>, m: Mapping, c: string)
    requires x.RoundTrips() && Endpoint(m.container)
    ensures Serving(x, ApplyOne(x, ports, m), c)
         == if m.container == c then [x.format(m, FirstProtocol(x, ports, c))] else Serving(x, ports, c)
  {
    var added := x.format(m, FirstProtocol(x, ports, m.container));
    ReadBack(x, m, FirstProtocol(x, ports, m.container));
    ServingAppend(x, Without(x, ports, m.container), [added], c);
    ServingWithout(x, ports, c, m.container);
    assert [added][..0] == [];
  }

  /** Each mapped container ends with exactly one entry: the host of its last mapping and
      the first non-empty protocol the original list gave it. */
  lemma {:induction false} MappedExactlyOnce(x: Syntax, ports: seq<PortItem>, ms: seq<Mapping>, i: int)
    requires x.RoundTrips() && Endpoints(ms) && LastFor(ms, i)
    ensures Serving(x, ApplyAll(x, ports, ms), ms[i].container)
          == [x.format(ms[i], FirstProtocol(x, ports, ms[i].container))]
    decreases |ms|
  {
    var n := |ms| - 1;
    ServingAfterOne(x, ApplyAll(x, ports, ms[..n]), ms[n], ms[i].container);
    if i == n {
      ProtocolSurvives(x, ports, ms[..n], ms[i].container);
    } else {
      MappedExactlyOnce(x, ports, ms[..n], i);
    }
  }

  /** A remapping never changes what protocol a container is found to use. */
  lemma ProtocolSurvives(x: Syntax, ports: seq<PortItem>, ms: seq<Mapping>, c: string)
    requires x.RoundTrips() && Endpoints(ms)
    ensures FirstProtocol(x, ApplyAll(x, ports, ms), c) == FirstProtocol(x, ports, c)
  {
    SequentialIsOnePass(x, ports, ms);
    OnePassProtocol(x, ports, ms, c);
  }

  /** Main result: remapping an already remapped list changes nothing. */
  lemma RemappingIsIdempotent(x: Syntax, ports: seq<PortItem>, ms: seq<Mapping>)
    requires x.RoundTrips() && Endpoints(ms)
    ensures ApplyAll(x, ApplyAll(x, ports, ms), ms) == ApplyAll(x, ports, ms)
  {
    var out := ApplyAll(x, ports, ms);
    SequentialIsOnePass(x, ports, ms);
    SequentialIsOnePass(x, out, ms);
    UnmappedKept(x, ports, ms);
    forall i | 0 <= i < |Effective(ms)|
      ensures FirstProtocol(x, out, Effective(ms)[i].container) == FirstProtocol(x, ports, Effective(ms)[i].container)
    {
      ProtocolSurvives(x, ports, ms, Effective(ms)[i].container);
    }
    assert Entries(x, out, Effective(ms)) == Entries(x, ports, Effective(ms));
  }

  // ---------------------------------------------------------------- the same, entry by entry

  /** Entry `k` serves the container and says which protocol it uses. */
  predicate Says(x: Syntax, ports: seq<PortItem>, k: int, c: string, protocol: Protocol) {
    && 0 <= k < |ports| && protocol != NoProtocol
    && x.parse(ports[k]) == Some(ComposePort(c, protocol))
  }

  /** The first entry of the container that names a protocol names this one; none does for `NoProtocol`. */
  ghost predicate FirstSaid(x: Syntax, ports: seq<PortItem>, c: string, protocol: Protocol) {
    if protocol == NoProtocol then forall k, p :: !Says(x, ports, k, c, p)
    else exists k :: Says(x, ports, k, c, protocol) && forall j, p :: j < k ==> !Says(x, ports, j, c, p)
  }

  lemma {:induction false} FirstProtocolIsSaid(x: Syntax, ports: seq<PortItem>, c: string)
    ensures FirstSaid(x, ports, c, FirstProtocol(x, ports, c))
  {
    if ports != [] {
      var n := |ports| - 1;
      FirstProtocolIsSaid(x, ports[..n], c);
      assert forall k, p :: k < n ==> (Says(x, ports, k, c, p) <==> Says(x, ports[..n], k, c, p));
      var before, protocol := FirstProtocol(x, ports[..n], c), FirstProtocol(x, ports, c);
      if before != NoProtocol {
        var k :| Says(x, ports[..n], k, c, before) && forall j, p :: j < k ==> !Says(x, ports[..n], j, c, p);
        assert Says(x, ports, k, c, protocol);
      } else if protocol != NoProtocol {
        assert Says(x, ports, n, c, protocol);
      }
    }
  }

  lemma OneIsSaid(x: Syntax, ports: seq<PortItem>, c: string, p: Protocol, q: Protocol)
    requires FirstSaid(x, ports, c, p) && FirstSaid(x, ports, c, q)
    ensures p == q
  {
    if p != NoProtocol && q != NoProtocol {
      var k :| Says(x, ports, k, c, p) && forall j, r :: j < k ==> !Says(x, ports, j, c, r);
      var l :| Says(x, ports, l, c, q) && forall j, r :: j < l ==> !Says(x, ports, j, c, r);
      assert k == l;
    }
  }

  /** Entry `j` is the only one of its list that serves the container. */
  predicate OnlyOneServing(x: Syntax, out: seq<PortItem>, j: int, c: string) {
    && 0 <= j < |out| && Serves(x, out[j], c)
    && forall k :: 0 <= k < |out| && Serves(x, out[k], c) ==> k == j
  }

  lemma {:induction false} OnlyServing(x: Syntax, out: seq<PortItem>, c: string, item: PortItem) returns (j: int)
    requires Serving(x, out, c) == [item]
    ensures OnlyOneServing(x, out, j, c) && out[j] == item
  {
    var n := |out| - 1;
    if Serves(x, out[n], c) {
      assert Serving(x, out[..n], c) + [out[n]] == [item];
      assert |Serving(x, out[..n], c)| == 0 && ([] + [out[n]])[0] == item;
      NoneServing(x, out[..n], c);
      j := n;
    } else {
      assert Serving(x, out[..n], c) + [] == [item];
      j := OnlyServing(x, out[..n], c, item);
    }
  }

  lemma {:induction false} NoneServing(x: Syntax, out: seq<PortItem>, c: string)
    requires Serving(x, out, c) == []
    ensures forall k :: 0 <= k < |out| ==> !Serves(x, out[k], c)
  {
    if out != [] { NoneServing(x, out[..|out| - 1], c); }
  }

  lemma ServedOnce(x: Syntax, ports: seq<PortItem>, ms: seq<Mapping>, i: int, protocol: Protocol) returns (j: int)
    requires x.RoundTrips() && Endpoints(ms) && LastFor(ms, i) && FirstSaid(x, ports, ms[i].container, protocol)
    ensures OnlyOneServing(x, ApplyAll(x, ports, ms), j, ms[i].container)
    ensures ApplyAll(x, ports, ms)[j] == x.format(ms[i], protocol)
  {
    FirstProtocolIsSaid(x, ports, ms[i].container);
    OneIsSaid(x, ports, ms[i].container, protocol, FirstProtocol(x, ports, ms[i].container));
    MappedExactlyOnce(x, ports, ms, i);
    j := OnlyServing(x, ApplyAll(x, ports, ms), ms[i].container, x.format(ms[i], protocol));
  }

  /** Main result: after all mappings, exactly one entry serves a mapped container: its text is the
      host of the last mapping, the container, and the protocol that was first named for it before. */
  lemma MappedEntry(ports: seq<PortItem>, ms: seq<Mapping>, i: int, protocol: Protocol) returns (j: int)
    requires Endpoints(ms) && LastFor(ms, i) && FirstSaid(PORTS, ports, ms[i].container, protocol)
    ensures OnlyOneServing(PORTS, ApplyAll(PORTS, ports, ms), j, ms[i].container)
    ensures ApplyAll(PORTS, ports, ms)[j]
         == Short(ms[i].host + ":" + ms[i].container
                  + (match protocol case NoProtocol => "" case Tcp => "/tcp" case Udp => "/udp"))
  {
    PortsRoundTrip();
    j := ServedOnce(PORTS, ports, ms, i, protocol);
  }

  /** Positions of a list in ascending order. */
  predicate Ascending(at: seq<nat>) {
    forall i, j :: 0 <= i < j < |at| ==> at[i] < at[j]
  }

  /** Entry `k` is of a container that some mapping names. */
  predicate IsMapped(x: Syntax, ports: seq<PortItem>, ms: seq<Mapping>, k: nat)
    requires k < |ports|
  {
    x.parse(ports[k]).Some? && exists i :: 0 <= i < |ms| && ms[i].container == x.parse(ports[k]).value.container
  }

  lemma {:induction false} UntouchedPositions(x: Syntax, ports: seq<PortItem>, ms: seq<Mapping>) returns (at: seq<nat>)
    ensures Ascending(at) && forall k: nat :: k in at <==> k < |ports| && !IsMapped(x, ports, ms, k)
    ensures |Untouched(x, ports, ms)| == |at|
    ensures forall i :: 0 <= i < |at| ==> at[i] < |ports| && Untouched(x, ports, ms)[i] == ports[at[i]]
  {
    if ports == [] {
      at := [];
    } else {
      var n := |ports| - 1;
      var before := UntouchedPositions(x, ports[..n], ms);
      forall k: nat | k < n ensures IsMapped(x, ports, ms, k) <==> IsMapped(x, ports[..n], ms, k) {
        assert ports[..n][k] == ports[k];
      }
      at := if IsMapped(x, ports, ms, n) then before else before + [n];
      Extended(before, n);
      assert Untouched(x, ports, ms)
          == Untouched(x, ports[..n], ms) + (if IsMapped(x, ports, ms, n) then [] else [ports[n]]);
      forall i | 0 <= i < |at| ensures at[i] < |ports| && Untouched(x, ports, ms)[i] == ports[at[i]] {
        if i < |before| { assert at[i] == before[i] && ports[..n][before[i]] == ports[before[i]]; }
      }
    }
  }

  lemma Extended(at: seq<nat>, n: nat)
    requires Ascending(at) && forall k :: k in at ==> k < n
    ensures Ascending(at + [n]) && forall k :: k in at + [n] <==> k in at || k == n
  {
    forall i | 0 <= i < |at| ensures at[i] < n { assert at[i] in at; }
  }

  /** Main result: the mapped list begins with exactly the entries no mapping names, unchanged and in their order. */
  lemma UnmappedComeFirst(x: Syntax, ports: seq<PortItem>, ms: seq<Mapping>) returns (at: seq<nat>)
    requires x.RoundTrips() && Endpoints(ms)
    ensures Ascending(at) && forall k: nat :: k in at <==> k < |ports| && !IsMapped(x, ports, ms, k)
    ensures var out := ApplyAll(x, ports, ms);
            && |at| <= |out| && (forall i :: 0 <= i < |at| ==> at[i] < |ports| && out[i] == ports[at[i]])
            && forall k: nat :: |at| <= k < |out| ==> IsMapped(x, out, ms, k)
  {
    SequentialIsOnePass(x, ports, ms);
    at := UntouchedPositions(x, ports, ms);
    EffectiveProperties(ms);
    AppendedAreMapped(x, ports, Effective(ms), ms, Untouched(x, ports, ms));
  }

  /** What is appended for mappings out of a list is mapped by the list. */
  lemma AppendedAreMapped(x: Syntax, ports: seq<PortItem>, es: seq<Mapping>, ms: seq<Mapping>, kept: seq<PortItem>)
    requires x.RoundTrips() && Endpoints(es) && forall m :: m in es ==> m in ms
    ensures var out := kept + Entries(x, ports, es);
            forall k: nat :: |kept| <= k < |out| ==> IsMapped(x, out, ms, k)
  {
    var out := kept + Entries(x, ports, es);
    forall k: nat | |kept| <= k < |out| ensures IsMapped(x, out, ms, k) {
      var m := es[k - |kept|];
      ReadBack(x, m, FirstProtocol(x, ports, m.container));
      assert m in ms;
    }
  }

  /** The long form of a port reads like the short one: the protocol in any case and between blanks. */
  lemma LongReadsAsShort(c: string, protocol: string, host: string, rest: int)
    requires Endpoint(c) && NoChar(protocol, ':')
    ensures ParsePort(Long(Some(c), Some(protocol), rest)) == ParsePort(Short(host + ":" + c + "/" + protocol))
    ensures ParsePort(Long(Some(c), None, rest)) == ParsePort(Short(c)) == Some(ComposePort(c, NoProtocol))
  {
    var text := c + "/" + protocol;
    assert NoChar(text, ':');
    AfterLastAt(host, ':', text);
    assert host + ":" + c + "/" + protocol == host + [':'] + text;
    assert text == c + ['/'] + protocol;
    CutAt(c, '/', protocol);
    TrimSpaceFixed(c);
    PrintedBare(c);
  }

  lemma PrintedBare(c: string)
    requires Endpoint(c)
    ensures ParsePort(Short(c)) == Some(ComposePort(c, NoProtocol))
  {
    CutBare(c);
    assert c + NoProtocol.Text() == c;
    TrimSpaceFixed(c);
  }
}
