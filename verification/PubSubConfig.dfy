/** The PubSub configuration file of the Go server: namespaces, unicast addresses, security groups. */
module PubSubConfig {
  import opened Prelude
  import opened Text

  // ---- namespaces in a JSON value

  datatype Json = Str(text: string) | Other(raw: string) | List(items: seq<Json>) | Object(members: map<string, Json>)

  /** Every string in a value; the names of members are not among them. */
  ghost predicate AllStrings(v: Json, p: string -> bool) {
    match v
    case Str(s) => p(s)
    case Other(_) => true
    case List(items) => forall i :: 0 <= i < |items| ==> AllStrings(items[i], p)
    case Object(members) => forall k :: k in members ==> AllStrings(members[k], p)
  }

  /** The same value with every string replaced. */
  function MapStrings(v: Json, f: string -> string): Json {
    match v
    case Str(s) => Str(f(s))
    case Other(_) => v
    case List(items) => List(seq(|items|, i requires 0 <= i < |items| => MapStrings(items[i], f)))
    case Object(members) => Object(map k | k in members :: MapStrings(members[k], f))
  }

  const PREFIX := "nsu="

  predicate IsUri(s: string) { PREFIX <= s }

  /** A string that stays, or one that names a known namespace. */
  predicate Readable(s: string, index: map<string, uint16>) {
    IsUri(s) ==> SplitOnce(s[4..], ';').Some? && SplitOnce(s[4..], ';').value.0 in index
  }

  function Resolve(s: string, index: map<string, uint16>): string {
    if IsUri(s) && Readable(s, index) then
      var p := SplitOnce(s[4..], ';').value;
      "ns=" + Decimal(index[p.0]) + ";" + p.1
    else s
  }

  function Reads(index: map<string, uint16>): string -> bool { (s: string) => Readable(s, index) }

  function Resolver(index: map<string, uint16>): string -> string { (s: string) => Resolve(s, index) }

  method ResolveNamespaces(v: Json, index: map<string, uint16>) returns (r: Option<Json>)
    ensures r.Some? <==> AllStrings(v, Reads(index))
    ensures r.Some? ==> r.value == MapStrings(v, Resolver(index))
    decreases v, 2
  {
    match v
    case Str(s) =>
      if !(PREFIX <= s) { return Some(v); }
      var parts := SplitOnce(s[4..], ';');
      if parts.None? { return None; }
      var uri, rest := parts.value.0, parts.value.1;
      if uri !in index { return None; }
      return Some(Str("ns=" + Decimal(index[uri]) + ";" + rest));
    case Other(_) => return Some(v);
    case List(items) => r := ResolveItems(v, items, index);
    case Object(members) => r := ResolveMembers(v, members, index);
  }

  method ResolveItems(v: Json, items: seq<Json>, index: map<string, uint16>) returns (r: Option<Json>)
    requires v == List(items)
    ensures r.Some? <==> AllStrings(v, Reads(index))
    ensures r.Some? ==> r.value == MapStrings(v, Resolver(index))
    decreases v, 1
  {
    var out := items;
    for i := 0 to |items|
      invariant |out| == |items| && out[i..] == items[i..]
      invariant forall j :: 0 <= j < i ==>
                  AllStrings(items[j], Reads(index)) && out[j] == MapStrings(items[j], Resolver(index))
    {
      assert out[i] == items[i];
      var next := ResolveNamespaces(items[i], index);
      if next.None? { return None; }
      out := out[i := next.value];
    }
    return Some(List(out));
  }

  /** The members in any order. */
  method ResolveMembers(v: Json, members: map<string, Json>, index: map<string, uint16>) returns (r: Option<Json>)
    requires v == Object(members)
    ensures r.Some? <==> AllStrings(v, Reads(index))
    ensures r.Some? ==> r.value == MapStrings(v, Resolver(index))
    decreases v, 1
  {
    var out, left := members, members.Keys;
    while left != {}
      invariant left <= members.Keys && out.Keys == members.Keys
      invariant forall k :: k in members && k !in left ==>
                  AllStrings(members[k], Reads(index)) && out[k] == MapStrings(members[k], Resolver(index))
      invariant forall k :: k in left ==> out[k] == members[k]
      decreases |left|
    {
      var k :| k in left;
      var next := ResolveNamespaces(members[k], index);
      if next.None? { return None; }
      out, left := out[k := next.value], left - {k};
    }
    MembersDone(members, out, index);
    return Some(Object(out));
  }

  lemma MembersDone(members: map<string, Json>, out: map<string, Json>, index: map<string, uint16>)
    requires out.Keys == members.Keys
    requires forall k :: k in members ==>
               AllStrings(members[k], Reads(index)) && out[k] == MapStrings(members[k], Resolver(index))
    ensures AllStrings(Object(members), Reads(index)) && Object(out) == MapStrings(Object(members), Resolver(index))
  {
    assert out == map k | k in members :: MapStrings(members[k], Resolver(index));
  }

  lemma {:induction false} AllStringsMapped(v: Json, f: string -> string, p: string -> bool, q: string -> bool)
    requires AllStrings(v, p) && forall s :: p(s) ==> q(f(s))
    ensures AllStrings(MapStrings(v, f), q)
  {
    match v
    case Str(_) =>
    case Other(_) =>
    case List(items) =>
      forall i | 0 <= i < |items| ensures AllStrings(MapStrings(items[i], f), q) {
        AllStringsMapped(items[i], f, p, q);
      }
    case Object(members) =>
      forall k | k in members ensures AllStrings(MapStrings(members[k], f), q) {
        AllStringsMapped(members[k], f, p, q);
      }
  }

  lemma {:induction false} MapStringsFixed(v: Json, f: string -> string, p: string -> bool)
    requires AllStrings(v, p) && forall s :: p(s) ==> f(s) == s
    ensures MapStrings(v, f) == v
  {
    match v
    case Str(_) =>
    case Other(_) =>
    case List(items) =>
      forall i | 0 <= i < |items| ensures MapStrings(items[i], f) == items[i] {
        MapStringsFixed(items[i], f, p);
      }
    case Object(members) =>
      forall k | k in members ensures MapStrings(members[k], f) == members[k] {
        MapStringsFixed(members[k], f, p);
      }
  }

  lemma {:induction false} MapStringsTwice(v: Json, f: string -> string, g: string -> string, h: string -> string)
    requires forall s :: g(f(s)) == h(s)
    ensures MapStrings(MapStrings(v, f), g) == MapStrings(v, h)
  {
    match v
    case Str(_) =>
    case Other(_) =>
    case List(items) =>
      forall i | 0 <= i < |items| ensures MapStrings(MapStrings(items[i], f), g) == MapStrings(items[i], h) {
        MapStringsTwice(items[i], f, g, h);
      }
    case Object(members) =>
      forall k | k in members ensures MapStrings(MapStrings(members[k], f), g) == MapStrings(members[k], h) {
        MapStringsTwice(members[k], f, g, h);
      }
  }

  /** `nsu=` with a known namespace becomes `ns=` with its index in front of the same rest; with an unknown one nothing
      is read. */
  lemma ResolveUri(u: string, rest: string, index: map<string, uint16>)
    requires ';' !in u
    ensures Reads(index)("nsu=" + u + ";" + rest) <==> u in index
    ensures u in index ==>
              MapStrings(Str("nsu=" + u + ";" + rest), Resolver(index)) ==
              Str("ns=" + Decimal(index[u]) + ";" + rest)
  {
    UriParts(u, rest);
    SplitOnceIs(u, ';', rest);
  }

  lemma UriParts(u: string, rest: string)
    ensures var s := "nsu=" + u + ";" + rest; IsUri(s) && s[4..] == u + [';'] + rest
  {
    var s := "nsu=" + u + ";" + rest;
    assert s[..4] == PREFIX && s[4..] == u + [';'] + rest;
  }

  lemma NoSemicolon(u: string, index: map<string, uint16>)
    requires ';' !in u
    ensures !Reads(index)("nsu=" + u)
  {
    assert ("nsu=" + u)[4..] == u && ("nsu=" + u)[..4] == PREFIX;
  }

  /** The shape of a value: the strings blanked. */
  function Blank(): string -> string { (s: string) => "" }

  function Plain(): string -> bool { (s: string) => !IsUri(s) }

  lemma ResolvedIsPlain(s: string, index: map<string, uint16>)
    requires Readable(s, index)
    ensures !IsUri(Resolve(s, index))
    ensures !IsUri(s) ==> Resolve(s, index) == s
  {
    if IsUri(s) {
      assert Resolve(s, index)[2] == '=' && PREFIX[2] == 'u';
    }
  }

  /** Resolving leaves no `nsu=` string, keeps the shape and every other leaf, and a second time changes nothing. */
  lemma ResolvedValue(v: Json, index: map<string, uint16>)
    requires AllStrings(v, Reads(index))
    ensures var r := MapStrings(v, Resolver(index));
            && AllStrings(r, Plain()) && MapStrings(r, Blank()) == MapStrings(v, Blank())
            && AllStrings(r, Reads(index)) && MapStrings(r, Resolver(index)) == r
    ensures AllStrings(v, Plain()) ==> MapStrings(v, Resolver(index)) == v
  {
    var r := MapStrings(v, Resolver(index));
    forall s | Reads(index)(s) ensures Plain()(Resolver(index)(s)) { ResolvedIsPlain(s, index); }
    AllStringsMapped(v, Resolver(index), Reads(index), Plain());
    MapStringsTwice(v, Resolver(index), Blank(), Blank());
    forall s | Plain()(s) ensures Resolver(index)(s) == s && Reads(index)(s) { }
    MapStringsFixed(r, Resolver(index), Plain());
    AllStringsWeaken(r, Plain(), Reads(index));
    if AllStrings(v, Plain()) { MapStringsFixed(v, Resolver(index), Plain()); }
  }

  lemma {:induction false} AllStringsWeaken(v: Json, p: string -> bool, q: string -> bool)
    requires AllStrings(v, p) && forall s :: p(s) ==> q(s)
    ensures AllStrings(v, q)
  {
    match v
    case Str(_) =>
    case Other(_) =>
    case List(items) =>
      forall i | 0 <= i < |items| ensures AllStrings(items[i], q) {
        AllStringsWeaken(items[i], p, q);
      }
    case Object(members) =>
      forall k | k in members ensures AllStrings(members[k], q) {
        AllStringsWeaken(members[k], p, q);
      }
  }

  // ---- unicast addresses

  datatype Address = Url(url: string, networkInterface: string) | OtherAddress

  datatype Transport = NoTransport | Datagram2(address: Option<Address>) | OtherTransport

  datatype WriterGroup = WriterGroup(name: string, transport: Transport, securityGroupId: string)

  datatype ReaderGroup = ReaderGroup(name: string, securityGroupId: string)

  datatype Connection = Connection(address: Option<Address>, writerGroups: seq<WriterGroup>,
                                   readerGroups: seq<ReaderGroup>)

  datatype AddressError = NotAUrl | TwoDestinations | WithReaders

  /** A writer group with an address of its own. */
  predicate Addressed(g: WriterGroup) { g.transport.Datagram2? && g.transport.address.Some? }

  predicate IsUrl(g: WriterGroup) { Addressed(g) && g.transport.address.value.Url? }

  function Cleared(g: WriterGroup): WriterGroup { if Addressed(g) then g.(transport := NoTransport) else g }

  /** All addresses are URLs, and the same one. */
  predicate OneUrl(gs: seq<WriterGroup>) {
    && (forall i :: 0 <= i < |gs| && Addressed(gs[i]) ==> IsUrl(gs[i]))
    && (forall i, j :: 0 <= i < |gs| && 0 <= j < |gs| && IsUrl(gs[i]) && IsUrl(gs[j]) ==>
          gs[i].transport.address.value.url == gs[j].transport.address.value.url)
  }

  predicate SomeAddressed(gs: seq<WriterGroup>) { exists i :: 0 <= i < |gs| && Addressed(gs[i]) }

  /** At most one destination, and none if the connection also reads. */
  predicate Movable(conn: Connection) {
    OneUrl(conn.writerGroups) && (SomeAddressed(conn.writerGroups) ==> conn.readerGroups == [])
  }

  /** Group `i` has the last address of all. */
  ghost predicate LastUrl(gs: seq<WriterGroup>, i: int) {
    0 <= i < |gs| && IsUrl(gs[i]) && forall j :: i < j < |gs| ==> !Addressed(gs[j])
  }

  /** The last address has become the address of the connection; nothing else has changed. */
  ghost predicate Moved(conn: Connection, d: Connection) {
    && d.readerGroups == conn.readerGroups && |d.writerGroups| == |conn.writerGroups|
    && (forall i :: 0 <= i < |conn.writerGroups| ==> d.writerGroups[i] == Cleared(conn.writerGroups[i]))
    && (if SomeAddressed(conn.writerGroups) then
          exists i :: LastUrl(conn.writerGroups, i) && d.address == conn.writerGroups[i].transport.address
        else d == conn)
  }

  method MoveUnicastAddress(conn: Connection) returns (r: Result<Connection, AddressError>)
    ensures r.Ok? <==> Movable(conn)
    ensures r.Ok? ==> Moved(conn, r.value)
  {
    var gs, out := conn.writerGroups, conn.writerGroups;
    var destination: Option<Address>, at: int := None, -1;
    for i := 0 to |gs|
      invariant |out| == |gs| && out[i..] == gs[i..] && forall j :: 0 <= j < i ==> out[j] == Cleared(gs[j])
      invariant OneUrl(gs[..i])
      invariant destination.None? ==> at == -1 && out == gs && forall j :: 0 <= j < i ==> !Addressed(gs[j])
      invariant destination.Some? ==> 0 <= at < i && IsUrl(gs[at]) && destination == gs[at].transport.address
                                      && forall j :: at < j < i ==> !Addressed(gs[j])
    {
      assert out[i] == gs[i];
      var g := out[i];
      if !Addressed(g) {
        UrlSkip(gs, i);
        continue;
      }
      var addr := g.transport.address.value;
      if !addr.Url? {
        assert Addressed(gs[i]) && !IsUrl(gs[i]);
        return Err(NotAUrl);
      }
      if destination.Some? && destination.value.url != addr.url {
        assert IsUrl(gs[i]) && IsUrl(gs[at]);
        return Err(TwoDestinations);
      }
      UrlNext(gs, i, at);
      destination, at := Some(addr), i;
      out := out[i := g.(transport := NoTransport)];
    }
    assert gs[..|gs|] == gs;
    if destination.None? {
      return Ok(conn);
    }
    assert Addressed(gs[at]) && LastUrl(gs, at);
    if conn.readerGroups != [] {
      return Err(WithReaders);
    }
    return Ok(Connection(destination, out, conn.readerGroups));
  }

  lemma UrlSkip(gs: seq<WriterGroup>, i: nat)
    requires i < |gs| && OneUrl(gs[..i]) && !Addressed(gs[i])
    ensures OneUrl(gs[..i + 1])
  {
    assert forall j :: 0 <= j < i ==> gs[..i + 1][j] == gs[..i][j];
  }

  lemma UrlNext(gs: seq<WriterGroup>, i: nat, at: int)
    requires i < |gs| && OneUrl(gs[..i]) && IsUrl(gs[i]) && -1 <= at < i
    requires at == -1 ==> forall j :: 0 <= j < i ==> !Addressed(gs[j])
    requires at >= 0 ==> IsUrl(gs[at]) && gs[at].transport.address.value.url == gs[i].transport.address.value.url
    ensures OneUrl(gs[..i + 1])
  {
    assert forall j :: 0 <= j < i ==> gs[..i + 1][j] == gs[..i][j];
    if at >= 0 {
      assert gs[..i][at] == gs[at];
    }
  }

  // ---- security groups

  datatype Group = Group(id: string, policyKnown: bool, hasKeys: bool, accepted: bool)

  datatype File = File(groups: seq<Group>, serveSks: bool, sksClient: bool)

  datatype Source = Static | OwnSks | PushRing | RemotePull

  /** One `SetKeySource` call. */
  datatype Assigned = Assigned(id: string, source: Source)

  datatype KeyError = NoId | UnknownPolicy | KeysWithSks | Refused

  /** Where the keys of a group come from. */
  function SourceOf(file: File, g: Group): Source {
    if g.hasKeys then Static else if file.serveSks then OwnSks else if file.sksClient then RemotePull else PushRing
  }

  /** A group that the file may list: `accepted` says that the stack takes its keys or its settings. */
  predicate Acceptable(file: File, g: Group) {
    g.id != "" && g.policyKnown && !(g.hasKeys && file.serveSks) && (g.hasKeys || file.serveSks ==> g.accepted)
  }

  function Local(file: File, groups: seq<Group>): seq<Assigned> {
    if groups == [] then []
    else
      var t, g := Local(file, groups[..|groups| - 1]), groups[|groups| - 1];
      if SourceOf(file, g) == RemotePull then t else t + [Assigned(g.id, SourceOf(file, g))]
  }

  function Pulled(file: File, groups: seq<Group>): seq<Assigned> {
    if groups == [] then []
    else
      var t, g := Pulled(file, groups[..|groups| - 1]), groups[|groups| - 1];
      if SourceOf(file, g) == RemotePull then t + [Assigned(g.id, RemotePull)] else t
  }

  lemma LocalSnoc(file: File, groups: seq<Group>, i: nat)
    requires i < |groups|
    ensures var t, g := Local(file, groups[..i]), groups[i];
            Local(file, groups[..i + 1]) ==
            if SourceOf(file, g) == RemotePull then t else t + [Assigned(g.id, SourceOf(file, g))]
  {
    assert groups[..i + 1][..i] == groups[..i];
  }

  /** Some group has this source: whether this server's key service or its key push is switched on. */
  predicate Uses(calls: seq<Assigned>, source: Source) {
    calls != [] && (calls[|calls| - 1].source == source || Uses(calls[..|calls| - 1], source))
  }

  lemma UsesSnoc(calls: seq<Assigned>, a: Assigned, source: Source)
    ensures Uses(calls + [a], source) <==> Uses(calls, source) || a.source == source
  {
    assert (calls + [a])[..|calls|] == calls;
  }

  /** After the first `i` groups. */
  ghost predicate Keyed(file: File, i: nat, calls: seq<Assigned>, service: bool, rings: bool) {
    && i <= |file.groups| && calls == Local(file, file.groups[..i])
    && service == Uses(calls, OwnSks) && rings == Uses(calls, PushRing)
  }

  lemma KeyedStep(file: File, i: nat, calls: seq<Assigned>, service: bool, rings: bool)
    requires i < |file.groups| && Keyed(file, i, calls, service, rings)
    ensures var s, id := SourceOf(file, file.groups[i]), file.groups[i].id;
            if s == RemotePull then Keyed(file, i + 1, calls, service, rings)
            else Keyed(file, i + 1, calls + [Assigned(id, s)], service || s == OwnSks, rings || s == PushRing)
  {
    LocalSnoc(file, file.groups, i);
    var call := Assigned(file.groups[i].id, SourceOf(file, file.groups[i]));
    UsesSnoc(calls, call, OwnSks);
    UsesSnoc(calls, call, PushRing);
  }

  method ConfigureKeys(file: File) returns (r: Result<(seq<Assigned>, bool, bool), KeyError>)
    ensures r.Ok? <==> forall i :: 0 <= i < |file.groups| ==> Acceptable(file, file.groups[i])
    ensures r.Ok? ==> r.value.0 == Local(file, file.groups)
    ensures r.Ok? ==> r.value.1 == Uses(r.value.0, OwnSks) && r.value.2 == Uses(r.value.0, PushRing)
  {
    var calls: seq<Assigned>, service, rings := [], false, false;
    for i := 0 to |file.groups|
      invariant forall j :: 0 <= j < i ==> Acceptable(file, file.groups[j])
      invariant Keyed(file, i, calls, service, rings)
    {
      KeyedStep(file, i, calls, service, rings);
      var source := GroupSource(file, file.groups[i]);
      if source.Err? { return Err(source.error); }
      if source.value.Some? {
        var call := Assigned(file.groups[i].id, source.value.value);
        calls := calls + [call];
        service, rings := service || call.source == OwnSks, rings || call.source == PushRing;
      }
    }
    assert file.groups[..|file.groups|] == file.groups;
    return Ok((calls, service, rings));
  }

  /** The source of one group; none yet when a remote service has its keys. */
  method GroupSource(file: File, g: Group) returns (r: Result<Option<Source>, KeyError>)
    ensures r.Ok? <==> Acceptable(file, g)
    ensures r.Ok? ==> r.value == if SourceOf(file, g) == RemotePull then None else Some(SourceOf(file, g))
  {
    if g.id == "" { return Err(NoId); }
    if !g.policyKnown { return Err(UnknownPolicy); }
    if g.hasKeys && file.serveSks { return Err(KeysWithSks); }
    if g.hasKeys {
      if !g.accepted { return Err(Refused); }
      return Ok(Some(Static));
    }
    if file.serveSks {
      if !g.accepted { return Err(Refused); }
      return Ok(Some(OwnSks));
    }
    if file.sksClient { return Ok(None); }
    return Ok(Some(PushRing));
  }

  /** The groups whose keys are pulled from the remote key service, once it answers. */
  method StartSksClient(file: File) returns (calls: seq<Assigned>)
    ensures calls == Pulled(file, file.groups)
  {
    calls := [];
    if !file.sksClient || file.serveSks {
      NonePulled(file, file.groups);
      return;
    }
    for i := 0 to |file.groups|
      invariant calls == Pulled(file, file.groups[..i])
    {
      assert file.groups[..i + 1][..i] == file.groups[..i];
      if file.groups[i].hasKeys { continue; }
      calls := calls + [Assigned(file.groups[i].id, RemotePull)];
    }
    assert file.groups[..|file.groups|] == file.groups;
  }

  lemma {:induction false} NonePulled(file: File, groups: seq<Group>)
    requires !file.sksClient || file.serveSks
    ensures Pulled(file, groups) == []
  {
    if groups != [] { NonePulled(file, groups[..|groups| - 1]); }
  }

  /** How many sources an id is given. */
  function Sources(calls: seq<Assigned>, id: string): nat {
    if calls == [] then 0 else Sources(calls[..|calls| - 1], id) + if calls[|calls| - 1].id == id then 1 else 0
  }

  function Listed(groups: seq<Group>, id: string): nat {
    if groups == [] then 0 else Listed(groups[..|groups| - 1], id) + if groups[|groups| - 1].id == id then 1 else 0
  }

  lemma SourcesSnoc(calls: seq<Assigned>, a: Assigned, id: string)
    ensures Sources(calls + [a], id) == Sources(calls, id) + if a.id == id then 1 else 0
  {
    assert (calls + [a])[..|calls|] == calls;
  }

  /** What `configureKeys` leaves out is exactly what the client of the remote service pulls: an id gets as
      many sources as it is listed, so exactly one each when the ids are distinct. */
  lemma {:induction false} EverySourceOnce(file: File, groups: seq<Group>, id: string)
    ensures Sources(Local(file, groups), id) + Sources(Pulled(file, groups), id) == Listed(groups, id)
  {
    if groups != [] {
      var t, g := groups[..|groups| - 1], groups[|groups| - 1];
      EverySourceOnce(file, t, id);
      SourcesSnoc(Local(file, t), Assigned(g.id, SourceOf(file, g)), id);
      SourcesSnoc(Pulled(file, t), Assigned(g.id, RemotePull), id);
    }
  }

  lemma {:induction false} DistinctIds(groups: seq<Group>, i: nat)
    requires i < |groups| && forall j, k :: 0 <= j < k < |groups| ==> groups[j].id != groups[k].id
    ensures Listed(groups, groups[i].id) == 1
  {
    var n := |groups| - 1;
    if i < n {
      DistinctIds(groups[..n], i);
    } else {
      NotListed(groups[..n], groups[n].id);
    }
  }

  lemma {:induction false} NotListed(groups: seq<Group>, id: string)
    requires forall j :: 0 <= j < |groups| ==> groups[j].id != id
    ensures Listed(groups, id) == 0
  {
    if groups != [] { NotListed(groups[..|groups| - 1], id); }
  }

  lemma {:induction false} SourcesAppend(calls: seq<Assigned>, more: seq<Assigned>, id: string)
    ensures Sources(calls + more, id) == Sources(calls, id) + Sources(more, id)
  {
    if more == [] {
      assert calls + more == calls;
    } else {
      var t := more[..|more| - 1];
      SourcesAppend(calls, t, id);
      assert (calls + more)[..|calls + more| - 1] == calls + t;
    }
  }

  /** Every call is for a listed group and gives it its source. */
  lemma {:induction false} CallFor(file: File, groups: seq<Group>, a: Assigned) returns (j: nat)
    requires a in Local(file, groups) || a in Pulled(file, groups)
    ensures j < |groups| && a == Assigned(groups[j].id, SourceOf(file, groups[j]))
  {
    j := |groups| - 1;
    if a != Assigned(groups[j].id, SourceOf(file, groups[j])) {
      j := CallFor(file, groups[..j], a);
    }
  }

  /** When the ids are distinct, both together give every group exactly one source: the one it should have. */
  lemma OneSourceEach(file: File, i: nat)
    requires i < |file.groups|
    requires forall j, k :: 0 <= j < k < |file.groups| ==> file.groups[j].id != file.groups[k].id
    ensures var calls, g := Local(file, file.groups) + Pulled(file, file.groups), file.groups[i];
            && Sources(calls, g.id) == 1
            && forall a :: a in calls && a.id == g.id ==> a.source == SourceOf(file, g)
  {
    var local, pulled, g := Local(file, file.groups), Pulled(file, file.groups), file.groups[i];
    SourcesAppend(local, pulled, g.id);
    EverySourceOnce(file, file.groups, g.id);
    DistinctIds(file.groups, i);
    forall a: Assigned | a in local + pulled && a.id == g.id ensures a.source == SourceOf(file, g) {
      var j := CallFor(file, file.groups, a);
    }
  }

  /** Static keys are its own; the others are served here, pulled from a remote service or waited for. */
  lemma TheSourceIs(file: File, i: nat, a: Assigned)
    requires i < |file.groups| && a.id == file.groups[i].id
    requires forall j, k :: 0 <= j < k < |file.groups| ==> file.groups[j].id != file.groups[k].id
    requires a in Local(file, file.groups) + Pulled(file, file.groups)
    ensures var own := file.groups[i].hasKeys;
            && (a.source == Static <==> own) && (a.source == OwnSks <==> !own && file.serveSks)
            && (a.source == RemotePull <==> !own && !file.serveSks && file.sksClient)
            && (a.source == PushRing <==> !own && !file.serveSks && !file.sksClient)
  {
    OneSourceEach(file, i);
  }

  // ---- the whole file

  predicate Known(groups: seq<Group>, id: string) { exists i :: 0 <= i < |groups| && groups[i].id == id }

  predicate Covered(conn: Connection, groups: seq<Group>) {
    && (forall i :: 0 <= i < |conn.writerGroups| ==>
          var id := conn.writerGroups[i].securityGroupId; id == "" || Known(groups, id))
    && (forall i :: 0 <= i < |conn.readerGroups| ==>
          var id := conn.readerGroups[i].securityGroupId; id == "" || Known(groups, id))
  }

  method KnownIds(groups: seq<Group>) returns (known: set<string>)
    ensures forall id :: id in known <==> Known(groups, id)
  {
    known := {};
    for i := 0 to |groups|
      invariant forall id :: id in known <==> Known(groups[..i], id)
    {
      forall id ensures Known(groups[..i + 1], id) <==> Known(groups[..i], id) || id == groups[i].id {
        KnownSnoc(groups, i, id);
      }
      known := known + {groups[i].id};
    }
    assert groups[..|groups|] == groups;
  }

  lemma KnownSnoc(groups: seq<Group>, i: nat, id: string)
    requires i < |groups|
    ensures Known(groups[..i + 1], id) <==> Known(groups[..i], id) || id == groups[i].id
  {
    assert groups[..i + 1][i] == groups[i];
    if Known(groups[..i], id) {
      var j :| 0 <= j < i && groups[..i][j].id == id;
      assert groups[..i + 1][j].id == id;
    }
  }

  method CheckGroups(conn: Connection, known: set<string>) returns (ok: bool)
    ensures ok <==>
            && (forall i :: 0 <= i < |conn.writerGroups| ==>
                  var id := conn.writerGroups[i].securityGroupId; id == "" || id in known)
            && (forall i :: 0 <= i < |conn.readerGroups| ==>
                  var id := conn.readerGroups[i].securityGroupId; id == "" || id in known)
  {
    for i := 0 to |conn.writerGroups|
      invariant forall j :: 0 <= j < i ==> var id := conn.writerGroups[j].securityGroupId; id == "" || id in known
    {
      var id := conn.writerGroups[i].securityGroupId;
      if id != "" && id !in known { return false; }
    }
    for i := 0 to |conn.readerGroups|
      invariant forall j :: 0 <= j < i ==> var id := conn.readerGroups[j].securityGroupId; id == "" || id in known
    {
      var id := conn.readerGroups[i].securityGroupId;
      if id != "" && id !in known { return false; }
    }
    return true;
  }

  /** At most one destination, and every SecurityGroupId in use is listed. */
  predicate Sound(conn: Connection, groups: seq<Group>) { Movable(conn) && Covered(conn, groups) }

  /** The stack behind the file: what it makes of the configuration, and whether it can switch on its key service and
      its key push. */
  datatype Stack = Stack(decode: Json -> Option<seq<Connection>>, service: bool, push: bool)

  /** The configuration with its namespaces resolved. */
  function Parsed(stack: Stack, doc: Json, index: map<string, uint16>): Option<seq<Connection>> {
    stack.decode(MapStrings(doc, Resolver(index)))
  }

  /** The services that the groups need can be switched on. */
  predicate Served(stack: Stack, file: File) {
    && (Uses(Local(file, file.groups), OwnSks) ==> stack.service)
    && (Uses(Local(file, file.groups), PushRing) ==> stack.push)
  }

  ghost predicate KeysOk(stack: Stack, file: File) {
    Served(stack, file) && forall i :: 0 <= i < |file.groups| ==> Acceptable(file, file.groups[i])
  }

  /** A file is accepted exactly when its namespaces are known, its configuration decodes, every listed group is
      acceptable, the services can be switched on and every connection is sound. */
  method ConfigurePubSub(stack: Stack, file: File, doc: Json, index: map<string, uint16>)
    returns (r: Option<(seq<Connection>, seq<Assigned>)>)
    ensures r.Some? <==>
            && AllStrings(doc, Reads(index)) && Parsed(stack, doc, index).Some? && KeysOk(stack, file)
            && forall i :: 0 <= i < |Parsed(stack, doc, index).value| ==>
                 Sound(Parsed(stack, doc, index).value[i], file.groups)
    ensures r.Some? ==>
              var connections := Parsed(stack, doc, index).value;
              && r.value.1 == Local(file, file.groups) && |r.value.0| == |connections|
              && forall i :: 0 <= i < |connections| ==> Configured(connections[i], r.value.0[i])
  {
    var resolved := ResolveNamespaces(doc, index);
    if resolved.None? { return None; }
    var connections := stack.decode(resolved.value);
    if connections.None? { return None; }
    var keys := ConfigureKeys(file);
    if keys.Err? { return None; }
    if keys.value.1 && !stack.service { return None; }
    if keys.value.2 && !stack.push { return None; }
    var out := ConfigureConnections(file.groups, connections.value);
    if out.None? { return None; }
    return Some((out.value, keys.value.0));
  }

  method ConfigureConnections(groups: seq<Group>, connections: seq<Connection>) returns (r: Option<seq<Connection>>)
    ensures r.Some? <==> forall i :: 0 <= i < |connections| ==> Sound(connections[i], groups)
    ensures r.Some? ==> |r.value| == |connections|
    ensures r.Some? ==> forall i :: 0 <= i < |connections| ==> Configured(connections[i], r.value[i])
  {
    var known := KnownIds(groups);
    var out: seq<Connection> := [];
    for i := 0 to |connections|
      invariant |out| == i
      invariant forall k :: 0 <= k < i ==> Sound(connections[k], groups) && Configured(connections[k], out[k])
    {
      var conn := ConfigureConnection(connections[i], groups, known);
      if conn.None? { return None; }
      out := out + [conn.value];
    }
    return Some(out);
  }

  /** What a connection becomes; no writer group has an address left. */
  ghost predicate Configured(conn: Connection, d: Connection) { Moved(conn, d) && NoneAddressed(d) }

  method ConfigureConnection(conn: Connection, groups: seq<Group>, known: set<string>) returns (r: Option<Connection>)
    requires forall id :: id in known <==> Known(groups, id)
    ensures r.Some? <==> Sound(conn, groups)
    ensures r.Some? ==> Configured(conn, r.value)
  {
    var moved := MoveUnicastAddress(conn);
    if moved.Err? { return None; }
    CoveredBoth(conn, moved.value, groups);
    var ok := CheckGroups(moved.value, known);
    if !ok { return None; }
    return Some(moved.value);
  }

  predicate NoneAddressed(conn: Connection) {
    forall j :: 0 <= j < |conn.writerGroups| ==> !Addressed(conn.writerGroups[j])
  }

  lemma CoveredBoth(c: Connection, d: Connection, groups: seq<Group>)
    requires Moved(c, d)
    ensures (Covered(d, groups) <==> Covered(c, groups)) && NoneAddressed(d)
  {
    assert forall i :: 0 <= i < |c.writerGroups| ==>
             d.writerGroups[i].securityGroupId == c.writerGroups[i].securityGroupId;
  }
}
