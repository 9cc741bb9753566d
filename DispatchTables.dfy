/**
  The value-level model of the packet-analysis dispatch configuration:
  what one dispatcher holds (a name and a table from protocol identifier to
  analyzer name), what the whole configuration holds (an ordered sequence of
  dispatchers), and the effect of each mutating operation, as pure functions.
  The classes in module PacketAnalysis are proved against these functions.
*/
module DispatchTables {
  import opened Wrappers

  /** A protocol identifier: the uint32_t key of a dispatch table. */
  type Identifier = x: int | 0 <= x < 0x1_0000_0000

  /** The value of one dispatcher: its name and its identifier-to-analyzer table. */
  datatype Dispatcher = Dispatcher(name: string, mappings: map<Identifier, string>)

  /** The analyzer bound to `id` in `m`, if any. */
  function Lookup(m: map<Identifier, string>, id: Identifier): Option<string>
  {
    if id in m then Some(m[id]) else None
  }

  /** Two tables are equal exactly when every identifier looks up the same in both. */
  lemma LookupExtensional(m1: map<Identifier, string>, m2: map<Identifier, string>)
    ensures m1 == m2 <==> forall id :: Lookup(m1, id) == Lookup(m2, id)
  {
    if forall id :: Lookup(m1, id) == Lookup(m2, id) {
      forall id ensures id in m1 <==> id in m2 {
        assert Lookup(m1, id).Some? <==> Lookup(m2, id).Some?;
      }
      forall id | id in m1 ensures m1[id] == m2[id] {
        assert Lookup(m1, id) == Lookup(m2, id);
      }
    }
  }

  /** A freshly constructed dispatcher: the given name, nothing bound. */
  function Empty(name: string): (d: Dispatcher)
    ensures d.name == name
    ensures forall id :: Lookup(d.mappings, id) == None
  {
    Dispatcher(name, map[])
  }

  /**
    Adding the binding `id -> analyzer` to a dispatcher. The header does not
    say what happens when `id` is already bound; the policy chosen here is
    that the new binding replaces the old one (last write wins).
  */
  function Bind(d: Dispatcher, id: Identifier, analyzer: string): (r: Dispatcher)
    ensures r.name == d.name
    ensures Lookup(r.mappings, id) == Some(analyzer)
    ensures forall k :: k != id ==> Lookup(r.mappings, k) == Lookup(d.mappings, k)
  {
    Dispatcher(d.name, d.mappings[id := analyzer])
  }

  /** Binding the same identifier twice leaves only the second binding. */
  lemma BindOverwrites(d: Dispatcher, id: Identifier, a: string, b: string)
    ensures Bind(Bind(d, id, a), id, b) == Bind(d, id, b)
  {
  }

  // ---------------------------------------------------------------------
  // Building one dispatcher by a sequence of AddMapping calls
  // ---------------------------------------------------------------------

  /** The dispatcher obtained by constructing `name` and binding `pairs` in order. */
  function Build(name: string, pairs: seq<(Identifier, string)>): Dispatcher
  {
    if pairs == [] then Empty(name)
    else Bind(Build(name, pairs[..|pairs| - 1]), pairs[|pairs| - 1].0, pairs[|pairs| - 1].1)
  }

  /** No identifier occurs in two of the pairs. */
  predicate DistinctIds(pairs: seq<(Identifier, string)>)
  {
    forall i, j :: 0 <= i < j < |pairs| ==> pairs[i].0 != pairs[j].0
  }

  /** With distinct identifiers, the built table binds exactly the given pairs. */
  lemma {:induction false} BuildBindings(name: string, pairs: seq<(Identifier, string)>, id: Identifier, a: string)
    requires DistinctIds(pairs)
    ensures Build(name, pairs).name == name
    ensures Lookup(Build(name, pairs).mappings, id) == Some(a) <==> (id, a) in pairs
    decreases |pairs|
  {
    if pairs != [] {
      var init, last := pairs[..|pairs| - 1], pairs[|pairs| - 1];
      assert pairs == init + [last];
      BuildBindings(name, init, id, a);
    }
  }

  /**
    Insertion order does not matter: the same set of pairs with distinct
    identifiers, bound in any order, gives equal dispatchers.
  */
  lemma BuildOrderIrrelevant(name: string, p: seq<(Identifier, string)>, q: seq<(Identifier, string)>)
    requires DistinctIds(p) && DistinctIds(q)
    requires forall x :: x in p <==> x in q
    ensures Build(name, p) == Build(name, q)
  {
    var bp, bq := Build(name, p), Build(name, q);
    forall id ensures Lookup(bp.mappings, id) == Lookup(bq.mappings, id) {
      match Lookup(bp.mappings, id)
      case Some(a) =>
        BuildBindings(name, p, id, a);
        BuildBindings(name, q, id, a);
      case None =>
        if Lookup(bq.mappings, id).Some? {
          var a := Lookup(bq.mappings, id).value;
          BuildBindings(name, p, id, a);
          BuildBindings(name, q, id, a);
        }
    }
    LookupExtensional(bp.mappings, bq.mappings);
    BuildBindings(name, p, 0, "");
    BuildBindings(name, q, 0, "");
  }

  /** An identifier that occurs in none of the pairs is left unbound, whatever the pairs. */
  lemma {:induction false} BuildUnbound(name: string, pairs: seq<(Identifier, string)>, id: Identifier)
    requires forall j :: 0 <= j < |pairs| ==> pairs[j].0 != id
    ensures Lookup(Build(name, pairs).mappings, id) == None
    decreases |pairs|
  {
    if pairs != [] {
      BuildUnbound(name, pairs[..|pairs| - 1], id);
    }
  }

  /** Renaming changes the dispatcher, whatever pairs were bound. */
  lemma {:induction false} BuildDetectsRename(name: string, other: string, p: seq<(Identifier, string)>)
    requires name != other
    ensures Build(name, p).name == name && Build(other, p).name == other
    ensures Build(name, p) != Build(other, p)
    decreases |p|
  {
    if p != [] {
      BuildDetectsRename(name, other, p[..|p| - 1]);
    }
  }

  /**
    Replacing any one pair by a different pair, whether it differs in the
    identifier, the analyzer or both, gives a different dispatcher.
  */
  lemma BuildDetectsPairChange(name: string, p: seq<(Identifier, string)>, i: nat, id': Identifier, b: string)
    requires DistinctIds(p) && i < |p| && (id', b) != p[i]
    ensures Build(name, p) != Build(name, p[i := (id', b)])
  {
    var q := p[i := (id', b)];
    BuildBindings(name, p, p[i].0, p[i].1);
    if id' == p[i].0 {
      assert DistinctIds(q) by {
        forall j, k | 0 <= j < k < |q| ensures q[j].0 != q[k].0 {
          assert q[j].0 == p[j].0 && q[k].0 == p[k].0;
        }
      }
      BuildBindings(name, q, p[i].0, p[i].1);
      assert (p[i].0, p[i].1) !in q by {
        forall j | 0 <= j < |q| ensures q[j] != (p[i].0, p[i].1) {
          if j != i {
            assert p[j].0 != p[i].0 by { assert i < j || j < i; }
          }
        }
      }
    } else {
      forall j | 0 <= j < |q| ensures q[j].0 != p[i].0 {
        if j != i {
          assert p[j].0 != p[i].0 by { assert i < j || j < i; }
        }
      }
      BuildUnbound(name, q, p[i].0);
    }
  }

  // ---------------------------------------------------------------------
  // The whole configuration: an insertion-ordered sequence of dispatchers
  // ---------------------------------------------------------------------

  /** The dispatcher names, in order. */
  function Names(ds: seq<Dispatcher>): (ns: seq<string>)
    ensures |ns| == |ds|
    ensures forall i :: 0 <= i < |ds| ==> ns[i] == ds[i].name
  {
    seq(|ds|, i requires 0 <= i < |ds| => ds[i].name)
  }

  /** No two dispatchers share a name. */
  predicate UniqueNames(ds: seq<Dispatcher>)
  {
    forall i, j :: 0 <= i < j < |ds| ==> ds[i].name != ds[j].name
  }

  /**
    Config::GetDispatcherConfig on the value: the position of the FIRST
    dispatcher called `name`, or None when there is none. With duplicate
    names the later ones are never found.
  */
  function Find(ds: seq<Dispatcher>, name: string): (r: Option<nat>)
    ensures r.None? <==> forall i :: 0 <= i < |ds| ==> ds[i].name != name
    ensures r.Some? ==> r.value < |ds| && ds[r.value].name == name
    ensures r.Some? ==> forall j :: 0 <= j < r.value ==> ds[j].name != name
  {
    if ds == [] then None
    else if ds[0].name == name then Some(0)
    else match Find(ds[1..], name)
      case None => None
      case Some(k) => Some(k + 1)
  }

  /** Find looks only at the names. */
  lemma {:induction false} FindSameNames(ds: seq<Dispatcher>, es: seq<Dispatcher>, name: string)
    requires Names(ds) == Names(es)
    ensures Find(ds, name) == Find(es, name)
  {
    forall i | 0 <= i < |ds| ensures ds[i].name == es[i].name {
      assert Names(ds)[i] == Names(es)[i];
    }
  }

  /** Find on a sequence with one more dispatcher at the end. */
  lemma {:induction false} FindAppend(ds: seq<Dispatcher>, d: Dispatcher, name: string)
    ensures Find(ds + [d], name) ==
      if Find(ds, name).Some? then Find(ds, name)
      else if d.name == name then Some(|ds|)
      else None
    decreases |ds|
  {
    if ds != [] {
      assert (ds + [d])[0] == ds[0];
      assert (ds + [d])[1..] == ds[1..] + [d];
      FindAppend(ds[1..], d, name);
    }
  }

  /** Where names are unique, Find returns position `i` exactly when `i` holds that name. */
  lemma FindUnique(ds: seq<Dispatcher>, name: string, i: nat)
    requires UniqueNames(ds)
    ensures Find(ds, name) == Some(i) <==> i < |ds| && ds[i].name == name
  {
  }

  /** Lookup of the analyzer for `id` in the dispatcher called `name`. */
  function Resolve(ds: seq<Dispatcher>, name: string, id: Identifier): Option<string>
  {
    match Find(ds, name)
    case None => None
    case Some(i) => Lookup(ds[i].mappings, id)
  }

  /**
    Config::AddDispatcherConfig on the value. The header does not say what
    happens to a name that is already present; the policy chosen here is to
    append regardless.
  */
  function AddDispatcher(ds: seq<Dispatcher>, name: string): (r: seq<Dispatcher>)
    ensures |r| == |ds| + 1 && r[..|ds|] == ds
    ensures Names(r) == Names(ds) + [name]
    ensures r[|ds|].mappings == map[]
  {
    ds + [Empty(name)]
  }

  /**
    A new name is found at the new last position; an existing name keeps
    resolving to its earlier dispatcher, so the appended duplicate cannot be
    reached by name.
  */
  lemma AddDispatcherShadows(ds: seq<Dispatcher>, name: string, other: string)
    ensures Find(ds, name).None? ==> Find(AddDispatcher(ds, name), name) == Some(|ds|)
    ensures Find(ds, name).Some? ==> Find(AddDispatcher(ds, name), name) == Find(ds, name)
    ensures other != name ==> Find(AddDispatcher(ds, name), other) == Find(ds, other)
  {
    FindAppend(ds, Empty(name), name);
    FindAppend(ds, Empty(name), other);
  }

  /** Appending keeps the names unique exactly when the name was not present. */
  lemma AddDispatcherUnique(ds: seq<Dispatcher>, name: string)
    ensures UniqueNames(AddDispatcher(ds, name)) <==> UniqueNames(ds) && Find(ds, name).None?
  {
    var r := AddDispatcher(ds, name);
    assert forall j :: 0 <= j < |ds| ==> r[j] == ds[j];
    if Find(ds, name).Some? {
      var i := Find(ds, name).value;
      assert r[i].name == r[|ds|].name;
    }
  }

  /**
    Config::AddMapping on the value: bind `id -> analyzer` in the dispatcher
    that lookup by `name` selects. The header does not say what happens when
    no dispatcher has that name; the policy chosen here is to create one
    (append it) and bind in it.
  */
  function AddMappingByName(ds: seq<Dispatcher>, name: string, id: Identifier, analyzer: string): (r: seq<Dispatcher>)
    ensures Find(ds, name).Some? ==> |r| == |ds|
    ensures Find(ds, name).None? ==> |r| == |ds| + 1 && r[|ds|].name == name
    ensures Names(ds) <= Names(r)
    ensures forall j :: 0 <= j < |ds| && Some(j) != Find(ds, name) ==> r[j] == ds[j]
  {
    match Find(ds, name)
    case Some(i) => ds[i := Bind(ds[i], id, analyzer)]
    case None => ds + [Bind(Empty(name), id, analyzer)]
  }

  /**
    AddMappingByName in two steps: make sure a dispatcher called `name`
    exists (appending one when there is none), then bind in the one at
    position `i`, which lookup selects.
  */
  lemma AddMappingAsUpdate(ds: seq<Dispatcher>, name: string, id: Identifier, a: string, i: nat)
    requires Find(ds, name) == Some(i) || (Find(ds, name).None? && i == |ds|)
    ensures var e := if Find(ds, name).Some? then ds else AddDispatcher(ds, name);
      i < |e| && AddMappingByName(ds, name, id, a) == e[i := Bind(e[i], id, a)]
  {
  }

  /** After AddMapping(name, id, a), looking up `id` under `name` yields `a`. */
  lemma AddMappingResolves(ds: seq<Dispatcher>, name: string, id: Identifier, a: string)
    ensures Find(AddMappingByName(ds, name, id, a), name).Some?
    ensures Find(ds, name).Some? ==> Find(AddMappingByName(ds, name, id, a), name) == Find(ds, name)
    ensures Resolve(AddMappingByName(ds, name, id, a), name, id) == Some(a)
  {
  }

  /** How Find behaves on the result of AddMappingByName, for any name. */
  lemma AddMappingFindsSame(ds: seq<Dispatcher>, name: string, id: Identifier, a: string, other: string)
    ensures Find(ds, name).Some? ==> Find(AddMappingByName(ds, name, id, a), other) == Find(ds, other)
    ensures Find(ds, name).None? ==>
              Find(AddMappingByName(ds, name, id, a), other) == (if other == name then Some(|ds|) else Find(ds, other))
  {
    var r := AddMappingByName(ds, name, id, a);
    match Find(ds, name)
    case Some(i) =>
      assert Names(r) == Names(ds);
      FindSameNames(r, ds, other);
    case None =>
      FindAppend(ds, Bind(Empty(name), id, a), other);
  }

  /** AddMapping(name, id, a) changes no other lookup: neither other names nor other identifiers. */
  lemma AddMappingFrame(ds: seq<Dispatcher>, name: string, id: Identifier, a: string, name': string, id': Identifier)
    requires name' != name || id' != id
    ensures Resolve(AddMappingByName(ds, name, id, a), name', id') == Resolve(ds, name', id')
  {
    AddMappingFindsSame(ds, name, id, a, name');
  }

  /** AddMapping never makes two dispatchers share a name. */
  lemma AddMappingKeepsUnique(ds: seq<Dispatcher>, name: string, id: Identifier, a: string)
    requires UniqueNames(ds)
    ensures UniqueNames(AddMappingByName(ds, name, id, a))
  {
  }

  // ---------------------------------------------------------------------
  // A trace of configuration calls
  // ---------------------------------------------------------------------

  /** One mutating call on a Config. */
  datatype Op =
    | NewDispatcher(name: string)                                    // AddDispatcherConfig
    | NewMapping(name: string, id: Identifier, analyzer: string)     // AddMapping

  function Apply(ds: seq<Dispatcher>, op: Op): seq<Dispatcher>
  {
    match op
    case NewDispatcher(n) => AddDispatcher(ds, n)
    case NewMapping(n, id, a) => AddMappingByName(ds, n, id, a)
  }

  /** No call removes, reorders or renames a dispatcher. */
  lemma ApplyKeepsOrder(ds: seq<Dispatcher>, op: Op)
    ensures Names(ds) <= Names(Apply(ds, op))
  {
  }

  /** The configuration after the calls `ops`, starting from an empty Config. */
  function Replay(ops: seq<Op>): seq<Dispatcher>
  {
    if ops == [] then [] else Apply(Replay(ops[..|ops| - 1]), ops[|ops| - 1])
  }

  /**
    The dispatcher order is the order of creation: whatever calls follow,
    the dispatchers present now keep their names and positions.
  */
  lemma {:induction false} ReplayKeepsOrder(ops: seq<Op>, later: seq<Op>)
    requires ops <= later
    ensures Names(Replay(ops)) <= Names(Replay(later))
    decreases |later|
  {
    if |later| > |ops| {
      var init := later[..|later| - 1];
      assert ops <= init;
      ReplayKeepsOrder(ops, init);
      ApplyKeepsOrder(Replay(init), later[|later| - 1]);
      var n := |Names(Replay(ops))|;
      assert Names(Replay(later))[..n] == Names(Replay(later))[..|Names(Replay(init))|][..n];
    } else {
      assert ops == later;
    }
  }

  /** A configuration built only by Config::AddMapping never holds two dispatchers of one name. */
  lemma {:induction false} ReplayMappingsUnique(ops: seq<Op>)
    requires forall i :: 0 <= i < |ops| ==> ops[i].NewMapping?
    ensures UniqueNames(Replay(ops))
    decreases |ops|
  {
    if ops != [] {
      var last := ops[|ops| - 1];
      ReplayMappingsUnique(ops[..|ops| - 1]);
      AddMappingKeepsUnique(Replay(ops[..|ops| - 1]), last.name, last.id, last.analyzer);
    }
  }
}
