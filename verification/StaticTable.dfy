/**
 Loading the static host table (collector/resolver/static.go). Go ranges over maps in any
 order; the methods below take the next entry nondeterministically, and their contracts do
 not depend on the choice.
 */
module StaticTable {
  import opened Model

  type Table = map<string, string>

  datatype LoadError = BadIp | EmptyName | TwoNames | NoEntries

  datatype Result<T> = Success(value: T) | Failure(error: LoadError)

  /** One (address, name) pair of the configuration. */
  datatype Entry = Entry(ip: string, name: string)

  /** A pair addStaticHost accepts on its own. */
  predicate Valid(e: Entry, isIp: string -> bool) { isIp(e.ip) && e.name != "" }

  /** No address has two names. */
  ghost predicate Consistent(es: set<Entry>) {
    forall a, b :: a in es && b in es && a.ip == b.ip ==> a == b
  }

  ghost predicate Loadable(es: set<Entry>, isIp: string -> bool) {
    Consistent(es) && forall e :: e in es ==> Valid(e, isIp)
  }

  /** The table holds the pairs in es and nothing else. */
  ghost predicate Holds(table: Table, es: set<Entry>) {
    && (forall e :: e in es ==> e.ip in table && table[e.ip] == e.name)
    && (forall ip :: ip in table ==> Entry(ip, table[ip]) in es)
  }

  function AddStaticHost(table: Table, e: Entry, isIp: string -> bool): Result<Table> {
    if !isIp(e.ip) then Failure(BadIp)
    else if e.name == "" then Failure(EmptyName)
    else if e.ip in table && table[e.ip] != e.name then Failure(TwoNames)
    else Success(table[e.ip := e.name])
  }

  /** Adding a pair succeeds exactly when the pairs so far and the new one can be loaded. */
  lemma {:induction false} AddExtends(table: Table, es: set<Entry>, e: Entry, isIp: string -> bool)
    requires Holds(table, es) && Loadable(es, isIp)
    ensures AddStaticHost(table, e, isIp).Success? <==> Loadable(es + {e}, isIp)
    ensures AddStaticHost(table, e, isIp).Success? ==>
      Holds(AddStaticHost(table, e, isIp).value, es + {e})
  {}

  function HostEntries(hosts: map<string, string>): set<Entry> { set ip | ip in hosts :: Entry(ip, hosts[ip]) }

  lemma {:induction false} NotLoadable(small: set<Entry>, big: set<Entry>, isIp: string -> bool)
    requires small <= big && !Loadable(small, isIp)
    ensures !Loadable(big, isIp)
  {}

  /** The loop over a map of hosts, in any order. */
  method AddHosts(table: Table, ghost es: set<Entry>, hosts: map<string, string>, isIp: string -> bool)
    returns (r: Result<Table>)
    requires Holds(table, es) && Loadable(es, isIp)
    ensures r.Success? <==> Loadable(es + HostEntries(hosts), isIp)
    ensures r.Success? ==> Holds(r.value, es + HostEntries(hosts))
  {
    var todo, t := hosts.Keys, table;
    ghost var done := es;
    while todo != {}
      invariant todo <= hosts.Keys
      invariant done + (set ip | ip in todo :: Entry(ip, hosts[ip])) == es + HostEntries(hosts)
      invariant Holds(t, done) && Loadable(done, isIp)
      decreases todo
    {
      var ip :| ip in todo;
      var e := Entry(ip, hosts[ip]);
      AddExtends(t, done, e, isIp);
      var r' := AddStaticHost(t, e, isIp);
      if r'.Failure? {
        NotLoadable(done + {e}, es + HostEntries(hosts), isIp);
        return r';
      }
      todo, t, done := todo - {ip}, r'.value, done + {e};
    }
    return Success(t);
  }

  function ListEntries(name: string, ips: seq<string>): set<Entry> { set ip | ip in ips :: Entry(ip, name) }

  /** The pairs of the services named. */
  ghost function EntriesOf(services: map<string, seq<string>>, names: set<string>): set<Entry> {
    set name, ip | name in names && name in services && ip in services[name] :: Entry(ip, name)
  }

  ghost function ServiceEntries(services: map<string, seq<string>>): set<Entry> {
    EntriesOf(services, services.Keys)
  }

  lemma {:induction false} OneMoreService(services: map<string, seq<string>>, names: set<string>, name: string)
    requires name in services
    ensures EntriesOf(services, names + {name}) == EntriesOf(services, names) + ListEntries(name, services[name])
  {}

  lemma {:induction false} FewerServices(services: map<string, seq<string>>, names: set<string>)
    requires names <= services.Keys
    ensures EntriesOf(services, names) <= ServiceEntries(services)
  {}

  /** The inner loop over the addresses of one service. */
  method AddList(table: Table, ghost es: set<Entry>, name: string, ips: seq<string>, isIp: string -> bool)
    returns (r: Result<Table>)
    requires Holds(table, es) && Loadable(es, isIp)
    ensures r.Success? <==> Loadable(es + ListEntries(name, ips), isIp)
    ensures r.Success? ==> Holds(r.value, es + ListEntries(name, ips))
  {
    var t := table;
    ghost var done := es;
    for i := 0 to |ips|
      invariant done == es + ListEntries(name, ips[..i])
      invariant Holds(t, done) && Loadable(done, isIp)
    {
      var e := Entry(ips[i], name);
      AddExtends(t, done, e, isIp);
      assert ips[..i + 1] == ips[..i] + [ips[i]];
      var r' := AddStaticHost(t, e, isIp);
      if r'.Failure? {
        NotLoadable(done + {e}, es + ListEntries(name, ips), isIp);
        return r';
      }
      t, done := r'.value, done + {e};
    }
    assert ips[..|ips|] == ips;
    return Success(t);
  }

  /** The loop over a map of services, in any order. */
  method AddServices(table: Table, ghost es: set<Entry>, services: map<string, seq<string>>, isIp: string -> bool)
    returns (r: Result<Table>)
    requires Holds(table, es) && Loadable(es, isIp)
    ensures r.Success? <==> Loadable(es + ServiceEntries(services), isIp)
    ensures r.Success? ==> Holds(r.value, es + ServiceEntries(services))
  {
    var todo, t := services.Keys, table;
    ghost var seen: set<string> := {};
    assert es + EntriesOf(services, seen) == es;
    while todo != {}
      invariant seen + todo == services.Keys
      invariant Holds(t, es + EntriesOf(services, seen)) && Loadable(es + EntriesOf(services, seen), isIp)
      decreases todo
    {
      var name :| name in todo;
      var r' := AddList(t, es + EntriesOf(services, seen), name, services[name], isIp);
      OneMoreService(services, seen, name);
      FewerServices(services, seen + {name});
      assert es + EntriesOf(services, seen) + ListEntries(name, services[name])
          == es + EntriesOf(services, seen + {name});
      if r'.Failure? {
        NotLoadable(es + EntriesOf(services, seen + {name}), es + ServiceEntries(services), isIp);
        return r';
      }
      todo, t, seen := todo - {name}, r'.value, seen + {name};
    }
    assert seen == services.Keys;
    return Success(t);
  }

  /** What the YAML file parses to: the two sections, if present, or else a direct map. */
  datatype Config = Config(
    hosts: Option<map<string, string>>, services: Option<map<string, seq<string>>>, direct: Option<map<string, string>>)

  function GetOr<T>(o: Option<T>, default: T): T { if o.Some? then o.value else default }

  /** The pairs of the two sections, and all pairs the configuration asks for. */
  ghost function Sections(c: Config): set<Entry> {
    HostEntries(GetOr(c.hosts, map[])) + ServiceEntries(GetOr(c.services, map[]))
  }

  ghost function Wanted(c: Config): set<Entry> {
    if c.hosts.None? && c.services.None? then HostEntries(GetOr(c.direct, map[])) else Sections(c)
  }

  method LoadSections(c: Config, isIp: string -> bool) returns (r: Result<Table>)
    ensures r.Success? <==> Loadable(Sections(c), isIp)
    ensures r.Success? ==> Holds(r.value, Sections(c))
  {
    ghost var hosts := HostEntries(GetOr(c.hosts, map[]));
    r := AddHosts(map[], {}, GetOr(c.hosts, map[]), isIp);
    assert {} + hosts == hosts;
    if r.Failure? {
      NotLoadable(hosts, Sections(c), isIp);
      return;
    }
    r := AddServices(r.value, hosts, GetOr(c.services, map[]), isIp);
  }

  lemma {:induction false} EmptyTable(table: Table, es: set<Entry>)
    requires Holds(table, es)
    ensures |table| == 0 <==> es == {}
  {}

  /**
   The table is the union of the entries, whatever order the maps are visited in; loading
   fails exactly when there is no entry, an invalid one, or an address with two names.
   */
  method LoadStaticTable(c: Config, isIp: string -> bool) returns (r: Result<Table>)
    ensures r.Success? <==> Wanted(c) != {} && Loadable(Wanted(c), isIp)
    ensures r.Success? ==> Holds(r.value, Wanted(c))
  {
    r := LoadSections(c, isIp);
    if r.Failure? {
      assert c.hosts.None? && c.services.None? ==> Sections(c) == {};
      return;
    }
    EmptyTable(r.value, Sections(c));
    if |r.value| == 0 && c.hosts.None? && c.services.None? {
      if c.direct.None? {
        return Failure(NoEntries);
      }
      assert Sections(c) == {};
      r := AddHosts(r.value, {}, c.direct.value, isIp);
      assert {} + HostEntries(c.direct.value) == Wanted(c);
      if r.Failure? {
        return;
      }
      EmptyTable(r.value, Wanted(c));
    }
    if |r.value| == 0 {
      return Failure(NoEntries);
    }
  }

  /** Two tables that hold the same pairs are equal: the order of visits cannot show. */
  lemma {:induction false} OrderCannotShow(a: Table, b: Table, es: set<Entry>)
    requires Holds(a, es) && Holds(b, es)
    ensures a == b
  {}
}
