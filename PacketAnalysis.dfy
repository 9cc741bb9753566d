/**
  The two classes of the packet-analysis dispatch configuration, with the
  state they update in place. Each mutating method is specified by the
  value-level function of module DispatchTables that it implements.
*/
module PacketAnalysis {
  import opened Wrappers
  import opened DispatchTables

  /** One named routing table from protocol identifier to analyzer name. */
  class DispatcherConfig {
    const name: string
    var mappings: map<Identifier, string>

    /** The value this object currently holds; operator== compares it. */
    function Value(): Dispatcher
      reads this
    {
      Dispatcher(name, mappings)
    }

    /** A dispatcher called `name` with nothing bound. */
    constructor (name: string)
      ensures Value() == Empty(name)
      ensures GetName() == name
    {
      this.name := name;
      mappings := map[];
    }

    /** The name part of the value; `name` is a constant, so it is the constructor's argument. */
    function GetName(): (r: string)
      reads this
      ensures r == Value().name
    {
      name
    }

    /** The whole table: every identifier looks up in it as in the value. */
    function GetMappings(): (r: map<Identifier, string>)
      reads this
      ensures forall id :: Lookup(r, id) == Lookup(Value().mappings, id)
    {
      mappings
    }

    /**
      Binds `identifier` to `analyzerName`, replacing an earlier binding of
      the same identifier (the policy chosen in DispatchTables.Bind). The
      name is a constant and never changes.
    */
    method AddMapping(identifier: Identifier, analyzerName: string)
      modifies this
      ensures Value() == Bind(old(Value()), identifier, analyzerName)
    {
      mappings := mappings[identifier := analyzerName];
    }

    /** operator==: the same name and the same bindings. */
    function Equals(rhs: DispatcherConfig): (r: bool)
      reads this, rhs
      ensures r <==> GetName() == rhs.GetName() && forall id :: Lookup(mappings, id) == Lookup(rhs.mappings, id)
    {
      LookupExtensional(mappings, rhs.mappings);
      name == rhs.name && mappings == rhs.mappings
    }

    /** operator!=: written on the fields, and the negation of operator==. */
    function NotEquals(rhs: DispatcherConfig): (r: bool)
      reads this, rhs
      ensures r <==> !Equals(rhs)
    {
      name != rhs.name || mappings != rhs.mappings
    }
  }

  /** operator== is reflexive, symmetric and transitive, and agrees with equality of values. */
  lemma EqualsIsEquivalence(a: DispatcherConfig, b: DispatcherConfig, c: DispatcherConfig)
    ensures a.Equals(a)
    ensures a.Equals(b) <==> b.Equals(a)
    ensures a.Equals(b) && b.Equals(c) ==> a.Equals(c)
    ensures a.Equals(b) <==> a.Value() == b.Value()
  {
  }

  /** The values held by a sequence of dispatcher objects, in order. */
  ghost function Values(ds: seq<DispatcherConfig>): (vs: seq<Dispatcher>)
    reads ds
    ensures |vs| == |ds|
    ensures forall i :: 0 <= i < |ds| ==> vs[i] == ds[i].Value()
  {
    seq(|ds|, i requires 0 <= i < |ds| reads ds => ds[i].Value())
  }

  /** A sequence that agrees with the objects' values position by position is their values. */
  lemma ValuesPointwise(ds: seq<DispatcherConfig>, vs: seq<Dispatcher>)
    requires |vs| == |ds|
    requires forall j :: 0 <= j < |ds| ==> vs[j] == ds[j].Value()
    ensures Values(ds) == vs
  {
  }

  /** The whole configuration: dispatchers in the order they were added. */
  class Config {
    var dispatchers: seq<DispatcherConfig>

    /** The Config owns each of its dispatchers once: no element appears twice. */
    ghost predicate Valid()
      reads this
    {
      forall i, j :: 0 <= i < j < |dispatchers| ==> dispatchers[i] != dispatchers[j]
    }

    /** The configuration's current value. */
    ghost function Snapshot(): seq<Dispatcher>
      reads this, dispatchers
    {
      Values(dispatchers)
    }

    constructor ()
      ensures Valid() && dispatchers == [] && Snapshot() == []
    {
      dispatchers := [];
    }

    /** The dispatchers themselves, in order: their values are the configuration's value. */
    function GetDispatchers(): (r: seq<DispatcherConfig>)
      reads this, dispatchers
      ensures Values(r) == Snapshot()
      ensures |r| == |Snapshot()|
    {
      dispatchers
    }

    /**
      The first dispatcher called `name`, or None when there is none; the
      search is the one DispatchTables.Find specifies.
    */
    method GetDispatcherConfig(name: string) returns (r: Option<DispatcherConfig>)
      ensures r.None? <==> forall i :: 0 <= i < |dispatchers| ==> dispatchers[i].GetName() != name
      ensures r.Some? ==> r.value in dispatchers && r.value.GetName() == name
      ensures match Find(Snapshot(), name)
                case None => r == None
                case Some(i) => r == Some(dispatchers[i])
    {
      var i := 0;
      while i < |dispatchers|
        invariant 0 <= i <= |dispatchers|
        invariant forall j :: 0 <= j < i ==> dispatchers[j].name != name
      {
        if dispatchers[i].name == name {
          return Some(dispatchers[i]);
        }
        i := i + 1;
      }
      return None;
    }

    /**
      Appends a new, empty dispatcher called `name` and returns it. A name
      that is already present is appended again (the policy chosen in
      DispatchTables.AddDispatcher).
    */
    method AddDispatcherConfig(name: string) returns (d: DispatcherConfig)
      requires Valid()
      modifies this
      ensures Valid() && fresh(d)
      ensures dispatchers == old(dispatchers) + [d]
      ensures d.Value() == Empty(name)
      ensures Snapshot() == AddDispatcher(old(Snapshot()), name)
    {
      d := new DispatcherConfig(name);
      dispatchers := dispatchers + [d];
    }

    /**
      Binds `identifier` to `analyzerName` in the dispatcher called `name`,
      creating that dispatcher first when there is none (the policy chosen in
      DispatchTables.AddMappingByName). No dispatcher is removed, reordered or
      renamed; only the selected one changes.
    */
    method AddMapping(name: string, identifier: Identifier, analyzerName: string)
      requires Valid()
      modifies this, dispatchers
      ensures Valid()
      ensures Snapshot() == AddMappingByName(old(Snapshot()), name, identifier, analyzerName)
      ensures old(dispatchers) <= dispatchers
      ensures |dispatchers| <= |old(dispatchers)| + 1
      ensures |dispatchers| == |old(dispatchers)| + 1 ==> fresh(dispatchers[|old(dispatchers)|])
    {
      ghost var before := Snapshot();
      var found := GetDispatcherConfig(name);
      var d: DispatcherConfig;
      ghost var i: nat;
      if found.Some? {
        d, i := found.value, Find(before, name).value;
      } else {
        d := AddDispatcherConfig(name);
        i := |before|;
      }
      ghost var selected := Snapshot();
      AddMappingAsUpdate(before, name, identifier, analyzerName, i);
      d.AddMapping(identifier, analyzerName);
      ValuesPointwise(dispatchers, selected[i := d.Value()]);
    }
  }

  /** The scenario of an Ethernet dispatcher with IPv4 and ARP bindings. */
  method EthernetScenario()
  {
    var config := new Config();
    var ethernet := config.AddDispatcherConfig("ethernet");
    ghost var s0 := config.Snapshot();
    config.AddMapping("ethernet", 0x0800, "IP");
    ghost var s1 := config.Snapshot();
    config.AddMapping("ethernet", 0x0806, "ARP");
    ghost var s2 := config.Snapshot();
    AddMappingResolves(s1, "ethernet", 0x0806, "ARP");
    AddMappingResolves(s0, "ethernet", 0x0800, "IP");
    AddMappingFrame(s1, "ethernet", 0x0806, "ARP", "ethernet", 0x0800);
    AddMappingFrame(s1, "ethernet", 0x0806, "ARP", "ethernet", 0x8100);
    AddMappingFrame(s0, "ethernet", 0x0800, "IP", "ethernet", 0x8100);
    assert Resolve(s0, "ethernet", 0x8100) == None;
    var found := config.GetDispatcherConfig("ethernet");
    assert found == Some(ethernet);
    assert Lookup(ethernet.GetMappings(), 0x0800) == Some("IP");
    assert Lookup(ethernet.GetMappings(), 0x0806) == Some("ARP");
    assert Lookup(ethernet.GetMappings(), 0x8100) == None;
    assert config.GetDispatchers() == [ethernet];
  }

  /** Binding under a name that was never added creates that dispatcher. */
  method UnknownNameScenario()
  {
    var config := new Config();
    config.AddMapping("vlan", 1, "X");
    var found := config.GetDispatcherConfig("vlan");
    assert found.Some?;
    assert Lookup(found.value.GetMappings(), 1) == Some("X");
    assert |config.GetDispatchers()| == 1;
  }
}
