/** The subscription table of app/engine/mqtt_client.c: filters shared by several
    owners, kept in step with what the broker believes. */
module MqttSubscriptions {
  import opened Prelude
  import opened Bytes

  const MAX_SUBSCRIPTIONS := 32
  const MAX_FILTER := 255

  type Filter = seq<byte>

  datatype Entry = Entry(filter: Filter, refs: nat)

  /** The entries in use, in table order. */
  type Table = seq<Entry>

  /** broker is what the broker of the present session has subscribed; owners counts,
      for each filter, the subscribes accepted and not yet released. */
  datatype World = World(table: Table, connected: bool, broker: set<Filter>, owners: multiset<Filter>)

  datatype Step = Subscribe(filter: Filter) | Unsubscribe(filter: Filter) | Connect | Disconnect

  function Start(): World {
    World([], false, {}, multiset{})
  }

  function IndexOf(table: Table, filter: Filter): (r: Option<nat>)
    ensures r.Some? ==> r.value < |table| && table[r.value].filter == filter
    ensures r.Some? ==> forall j | 0 <= j < r.value :: table[j].filter != filter
    ensures r.None? ==> forall j | 0 <= j < |table| :: table[j].filter != filter
  {
    if table == [] then None
    else
      var r := IndexOf(Front(table), filter);
      if r.Some? then r
      else if Last(table).filter == filter then Some(|table| - 1)
      else None
  }

  function Filters(table: Table): set<Filter> {
    set e | e in table :: e.filter
  }

  /** The last entry takes the place of the dropped one. */
  function Drop(table: Table, i: nat): Table
    requires i < |table|
  {
    Front(table[i := Last(table)])
  }

  predicate Accepts(table: Table, filter: Filter) {
    IndexOf(table, filter).Some? || |table| < MAX_SUBSCRIPTIONS
  }

  function Subscribed(w: World, filter: Filter): World {
    var i := IndexOf(w.table, filter);
    if i.Some? then
      w.(table := w.table[i.value := Entry(filter, w.table[i.value].refs + 1)], owners := w.owners + multiset{filter})
    else if |w.table| >= MAX_SUBSCRIPTIONS then w
    else
      w.(table := w.table + [Entry(Take(filter, MAX_FILTER), 1)],
         broker := if w.connected then w.broker + {filter} else w.broker,
         owners := w.owners + multiset{filter})
  }

  function Unsubscribed(w: World, filter: Filter): World {
    var i := IndexOf(w.table, filter);
    if i.None? then w
    else if w.table[i.value].refs > 1 then
      w.(table := w.table[i.value := Entry(filter, w.table[i.value].refs - 1)], owners := w.owners - multiset{filter})
    else
      w.(table := Drop(w.table, i.value),
         broker := if w.connected then w.broker - {filter} else w.broker,
         owners := w.owners - multiset{filter})
  }

  function Next(w: World, s: Step): World {
    match s
    case Subscribe(filter) => Subscribed(w, filter)
    case Unsubscribe(filter) => Unsubscribed(w, filter)
    case Connect => w.(connected := true, broker := Filters(w.table))
    case Disconnect => w.(connected := false)
  }

  function Exec(steps: seq<Step>): World {
    if steps == [] then Start() else Next(Exec(Front(steps)), Last(steps))
  }

  // ----- The table refines the owners -----

  predicate Distinct(table: Table) {
    forall i, j | 0 <= i < j < |table| :: table[i].filter != table[j].filter
  }

  /** Entries are the filters with an owner, each with the number of its owners. */
  ghost predicate Refines(table: Table, owners: multiset<Filter>) {
    && (forall i | 0 <= i < |table| :: table[i].refs == owners[table[i].filter] > 0)
    && (forall f :: f in owners ==> IndexOf(table, f).Some?)
  }

  ghost predicate Inv(w: World) {
    && |w.table| <= MAX_SUBSCRIPTIONS
    && Distinct(w.table)
    && Refines(w.table, w.owners)
    && (w.connected ==> w.broker == Filters(w.table))
  }

  lemma FoundAt(table: Table, i: nat)
    requires Distinct(table) && i < |table|
    ensures IndexOf(table, table[i].filter) == Some(i)
  {
  }

  lemma FiltersAppend(table: Table, e: Entry)
    ensures Filters(table + [e]) == Filters(table) + {e.filter}
  {
    assert e == (table + [e])[|table|];
    assert forall x :: x in table + [e] <==> x in table || x == e;
  }

  lemma IndexAppend(table: Table, e: Entry, f: Filter)
    ensures IndexOf(table + [e], f).Some? <==> IndexOf(table, f).Some? || f == e.filter
  {
    FrontLast(table, e);
  }

  lemma AddKeeps(w: World, filter: Filter)
    requires Inv(w) && IndexOf(w.table, filter).None? && |w.table| < MAX_SUBSCRIPTIONS && |filter| <= MAX_FILTER
    ensures Inv(Subscribed(w, filter))
  {
    var table, owners := w.table + [Entry(filter, 1)], w.owners + multiset{filter};
    FiltersAppend(w.table, Entry(filter, 1));
    AddRefines(w.table, filter, w.owners);
    AddDistinct(w.table, Entry(filter, 1));
    var w' := World(table, w.connected, if w.connected then w.broker + {filter} else w.broker, owners);
    assert Take(filter, MAX_FILTER) == filter;
    assert Subscribed(w, filter) == w';
    assert |table| <= MAX_SUBSCRIPTIONS && Distinct(table) && Refines(table, owners);
  }

  lemma AddDistinct(table: Table, e: Entry)
    requires Distinct(table) && IndexOf(table, e.filter).None?
    ensures Distinct(table + [e])
  {
  }

  lemma AddRefines(table: Table, filter: Filter, owners: multiset<Filter>)
    requires Refines(table, owners) && IndexOf(table, filter).None?
    ensures Refines(table + [Entry(filter, 1)], owners + multiset{filter})
  {
    var e := Entry(filter, 1);
    assert filter !in owners;
    forall f | f in owners + multiset{filter} ensures IndexOf(table + [e], f).Some? {
      IndexAppend(table, e, f);
    }
    forall i | 0 <= i < |table| ensures table[i].filter != filter {
    }
  }

  /** Changing a count changes no filter. */
  lemma RecountFilters(table: Table, i: nat, refs: nat)
    requires i < |table|
    ensures Filters(table[i := Entry(table[i].filter, refs)]) == Filters(table)
  {
    var table' := table[i := Entry(table[i].filter, refs)];
    forall e | e in table ensures e.filter in Filters(table') {
      var j :| 0 <= j < |table| && table[j] == e;
      assert table'[j] in table' && table'[j].filter == e.filter;
    }
    forall e | e in table' ensures e.filter in Filters(table) {
      var j :| 0 <= j < |table| && table'[j] == e;
      assert table[j] in table && table[j].filter == e.filter;
    }
  }

  lemma RecountKeeps(w: World, i: nat, refs: nat, owners: multiset<Filter>)
    requires Inv(w) && i < |w.table| && refs > 0
    requires owners == w.owners[w.table[i].filter := refs]
    ensures Inv(w.(table := w.table[i := Entry(w.table[i].filter, refs)], owners := owners))
  {
    var table' := w.table[i := Entry(w.table[i].filter, refs)];
    RecountFilters(w.table, i, refs);
    forall f | f in owners ensures IndexOf(table', f).Some? {
      if f != w.table[i].filter {
        assert f in w.owners;
        var j := IndexOf(w.table, f).value;
        assert table'[j].filter == f;
      } else {
        assert table'[i].filter == f;
      }
    }
  }

  lemma DropMembers(table: Table, i: nat, f: Filter)
    requires Distinct(table) && i < |table|
    ensures Distinct(Drop(table, i))
    ensures IndexOf(Drop(table, i), f).Some? <==> IndexOf(table, f).Some? && f != table[i].filter
    ensures f in Filters(Drop(table, i)) <==> f in Filters(table) && f != table[i].filter
  {
    var table' := Drop(table, i);
    var n := |table| - 1;
    assert forall j | 0 <= j < n :: table'[j] == if j == i then table[n] else table[j];
    if k: nat :| k < |table| && table[k].filter == f && k != i {
      var j := if k == n then i else k;
      assert table'[j].filter == f && table'[j] in table';
      assert table[k] in table;
    }
    if j: nat :| j < n && table'[j].filter == f {
      var k := if j == i then n else j;
      assert table[k].filter == f && table[k] in table;
    }
  }

  lemma DropRefines(table: Table, i: nat, owners: multiset<Filter>)
    requires Distinct(table) && Refines(table, owners) && i < |table| && table[i].refs == 1
    ensures Refines(Drop(table, i), owners - multiset{table[i].filter})
  {
    var table', owners' := Drop(table, i), owners - multiset{table[i].filter};
    forall f | f in owners' ensures IndexOf(table', f).Some? {
      assert f in owners && f != table[i].filter;
      DropMembers(table, i, f);
    }
    forall j | 0 <= j < |table'| ensures table'[j].refs == owners'[table'[j].filter] > 0 {
      var k := if j == i then |table| - 1 else j;
      assert table'[j] == table[k] && table[k].filter != table[i].filter;
    }
  }

  lemma DropKeeps(w: World, i: nat)
    requires Inv(w) && i < |w.table| && w.table[i].refs == 1
    ensures Inv(Unsubscribed(w, w.table[i].filter))
  {
    var filter, table' := w.table[i].filter, Drop(w.table, i);
    FoundAt(w.table, i);
    DropMembers(w.table, i, filter);
    DropRefines(w.table, i, w.owners);
    forall f ensures f in Filters(table') <==> f in Filters(w.table) - {filter} {
      DropMembers(w.table, i, f);
    }
    assert Filters(table') == Filters(w.table) - {filter};
  }

  lemma OwnerMore(w: World, filter: Filter, i: nat)
    requires Inv(w) && i < |w.table| && w.table[i].filter == filter
    ensures w.owners + multiset{filter} == w.owners[filter := w.table[i].refs + 1]
  {
  }

  lemma OwnerLess(w: World, filter: Filter, i: nat)
    requires Inv(w) && i < |w.table| && w.table[i].filter == filter
    ensures w.owners - multiset{filter} == w.owners[filter := w.table[i].refs - 1]
  {
  }

  lemma NextKeeps(w: World, s: Step)
    requires Inv(w) && (s.Subscribe? ==> |s.filter| <= MAX_FILTER)
    ensures Inv(Next(w, s))
  {
    match s
    case Subscribe(filter) =>
      var i := IndexOf(w.table, filter);
      if i.Some? {
        OwnerMore(w, filter, i.value);
        RecountKeeps(w, i.value, w.table[i.value].refs + 1, w.owners + multiset{filter});
      } else if |w.table| < MAX_SUBSCRIPTIONS {
        AddKeeps(w, filter);
      }
    case Unsubscribe(filter) =>
      var i := IndexOf(w.table, filter);
      if i.Some? {
        if w.table[i.value].refs > 1 {
          OwnerLess(w, filter, i.value);
          RecountKeeps(w, i.value, w.table[i.value].refs - 1, w.owners - multiset{filter});
        } else {
          DropKeeps(w, i.value);
        }
      }
    case Connect =>
    case Disconnect =>
  }

  /** After any mix of subscribes, releases, reconnects and losses of connection,
      with filters within the table's width: the entries are exactly the filters
      still owned, each once and with its number of owners, and a connected broker
      has subscribed exactly these. */
  lemma {:induction false} TableRefinesOwners(steps: seq<Step>)
    requires forall i | 0 <= i < |steps| && steps[i].Subscribe? :: |steps[i].filter| <= MAX_FILTER
    ensures var w := Exec(steps);
      && Distinct(w.table) && Refines(w.table, w.owners) && |w.table| <= MAX_SUBSCRIPTIONS
      && (w.connected ==> w.broker == Filters(w.table))
    ensures Inv(Exec(steps))
  {
    if steps != [] {
      TableRefinesOwners(Front(steps));
      NextKeeps(Exec(Front(steps)), Last(steps));
    }
  }

  // ----- Longer filters -----

  predicate Narrow(table: Table) {
    forall i | 0 <= i < |table| :: |table[i].filter| <= MAX_FILTER
  }

  lemma {:induction false} TableStaysNarrow(steps: seq<Step>)
    ensures Narrow(Exec(steps).table)
  {
    if steps != [] {
      TableStaysNarrow(Front(steps));
      var w, s := Exec(Front(steps)), Last(steps);
      if s.Unsubscribe? && IndexOf(w.table, s.filter).Some? && w.table[IndexOf(w.table, s.filter).value].refs <= 1 {
        var i := IndexOf(w.table, s.filter).value;
        assert forall j | 0 <= j < |w.table| - 1 :: Drop(w.table, i)[j] == if j == i then Last(w.table) else w.table[j];
      }
    }
  }

  /** A subscribe is undone by its release if and only if the filter fits the table:
      a longer one is stored cut and not found again under its own name. */
  lemma ReleaseUndoesSubscribe(steps: seq<Step>, filter: Filter)
    requires |Exec(steps).table| < MAX_SUBSCRIPTIONS && IndexOf(Exec(steps).table, filter).None?
    ensures (Unsubscribed(Subscribed(Exec(steps), filter), filter).table == Exec(steps).table) <==>
      |filter| <= MAX_FILTER
  {
    var w := Exec(steps);
    var w' := Subscribed(w, filter);
    TableStaysNarrow(steps);
    if |filter| <= MAX_FILTER {
      assert Front(w'.table) == w.table;
      assert IndexOf(w'.table, filter) == Some(|w.table|);
      assert Drop(w'.table, |w.table|) == w.table;
    } else {
      TableStaysNarrow(steps + [Subscribe(filter)]);
      FrontLast(steps, Subscribe(filter));
      assert IndexOf(w'.table, filter).None?;
      assert |w'.table| == |w.table| + 1;
    }
  }

  /** A longer filter goes when its first 255 bytes are released, if they were not
      subscribed to already. */
  lemma CutNameReleases(steps: seq<Step>, filter: Filter)
    requires |filter| > MAX_FILTER && |Exec(steps).table| < MAX_SUBSCRIPTIONS
    requires IndexOf(Exec(steps).table, Take(filter, MAX_FILTER)).None?
    ensures Unsubscribed(Subscribed(Exec(steps), filter), Take(filter, MAX_FILTER)).table == Exec(steps).table
  {
    var w, cut := Exec(steps), Take(filter, MAX_FILTER);
    TableStaysNarrow(steps);
    assert IndexOf(w.table, filter).None?;
    var w' := Subscribed(w, filter);
    assert w'.table == w.table + [Entry(cut, 1)];
    IndexAppended(w.table, Entry(cut, 1));
    assert Drop(w'.table, |w.table|) == w.table;
  }

  lemma IndexAppended(table: Table, e: Entry)
    requires IndexOf(table, e.filter).None?
    ensures IndexOf(table + [e], e.filter) == Some(|table|)
  {
    FrontLast(table, e);
  }

  function LongFilter(): Filter {
    seq(MAX_FILTER + 1, _ => 97)
  }

  /** A filter of 256 bytes, subscribed to and released once: its cut name is left,
      although nobody owns it. */
  lemma LongFilterIsLeft()
    ensures var w := Exec([Subscribe(LongFilter()), Unsubscribe(LongFilter())]);
      w.table == [Entry(Take(LongFilter(), MAX_FILTER), 1)]
  {
    var f := LongFilter();
    var first := [Subscribe(f)];
    assert Front(first) == [] && Front([Subscribe(f), Unsubscribe(f)]) == first;
    assert Exec(Front(first)) == Start();
    assert Exec(first) == Subscribed(Start(), f);
    var table := Exec(first).table;
    assert table == [Entry(Take(f, MAX_FILTER), 1)];
    assert IndexOf(table, f).None?;
  }

  // ----- The table in place -----

  class Subscriptions {
    const filters: array<Filter>
    const refs: array<nat>
    var count: nat
    var connected: bool
    var broker: set<Filter>
    ghost var owners: multiset<Filter>

    ghost predicate Valid()
      reads this
    {
      filters.Length == MAX_SUBSCRIPTIONS && refs.Length == MAX_SUBSCRIPTIONS && count <= MAX_SUBSCRIPTIONS
    }

    ghost function Contents(): (t: Table)
      requires Valid()
      reads this, filters, refs
      ensures |t| == count && forall i | 0 <= i < count :: t[i] == Entry(filters[i], refs[i])
    {
      TableOf(filters[..count], refs[..count])
    }

    ghost function State(): World
      requires Valid()
      reads this, filters, refs
    {
      World(Contents(), connected, broker, owners)
    }

    constructor ()
      ensures Valid() && fresh(filters) && fresh(refs) && State() == Start()
    {
      filters := new Filter[MAX_SUBSCRIPTIONS](_ => []);
      refs := new nat[MAX_SUBSCRIPTIONS](_ => 0);
      count, connected, broker, owners := 0, false, {}, multiset{};
    }

    method Find(filter: Filter) returns (at: Option<nat>)
      requires Valid()
      ensures at == IndexOf(Contents(), filter)
    {
      for i := 0 to count
        invariant forall j | 0 <= j < i :: filters[j] != filter
      {
        if filters[i] == filter {
          assert Contents()[i].filter == filter;
          return Some(i);
        }
      }
      return None;
    }

    /** MQTT_Subscribe, its SUBSCRIBE reaching the broker when connected. */
    method SubscribeTo(filter: Filter) returns (ok: bool)
      requires Valid()
      modifies this, refs, filters
      ensures Valid() && State() == Next(old(State()), Subscribe(filter))
      ensures ok == Accepts(old(Contents()), filter)
    {
      var at := Find(filter);
      if at.Some? {
        Recount(at.value, refs[at.value] + 1);
        owners := owners + multiset{filter};
        return true;
      }
      if count >= MAX_SUBSCRIPTIONS {
        return false;
      }
      AddFilter(filter);
      return true;
    }

    /** The first owner comes. */
    method AddFilter(filter: Filter)
      requires Valid() && count < MAX_SUBSCRIPTIONS
      modifies this, refs, filters
      ensures Valid() && State() == World(old(Contents()) + [Entry(Take(filter, MAX_FILTER), 1)], old(connected),
        if old(connected) then old(broker) + {filter} else old(broker), old(owners) + multiset{filter})
    {
      AppendEntry(Take(filter, MAX_FILTER));
      if connected {
        broker := broker + {filter};
      }
      owners := owners + multiset{filter};
    }

    method AppendEntry(name: Filter)
      requires Valid() && count < MAX_SUBSCRIPTIONS
      modifies this`count, refs, filters
      ensures Valid() && Contents() == old(Contents()) + [Entry(name, 1)]
    {
      filters[count] := name;
      refs[count] := 1;
      count := count + 1;
      assert Contents() == old(Contents()) + [Entry(name, 1)];
    }

    /** MQTT_Unsubscribe. */
    method UnsubscribeFrom(filter: Filter)
      requires Valid()
      modifies this, refs, filters
      ensures Valid() && State() == Next(old(State()), Unsubscribe(filter))
    {
      var at := Find(filter);
      if at.None? {
        return;
      }
      if refs[at.value] > 1 {
        Recount(at.value, refs[at.value] - 1);
        owners := owners - multiset{filter};
      } else {
        DropFilter(at.value, filter);
      }
    }

    /** The last owner is gone. */
    method DropFilter(i: nat, filter: Filter)
      requires Valid() && i < count
      modifies this, refs, filters
      ensures Valid() && State() == World(Drop(old(Contents()), i), old(connected),
        if old(connected) then old(broker) - {filter} else old(broker), old(owners) - multiset{filter})
    {
      DropAt(i);
      if connected {
        broker := broker - {filter};
      }
      owners := owners - multiset{filter};
    }

    method Recount(i: nat, n: nat)
      requires Valid() && i < count
      modifies refs
      ensures Contents() == old(Contents())[i := Entry(filters[i], n)]
    {
      refs[i] := n;
      assert Contents() == old(Contents())[i := Entry(filters[i], n)];
    }

    /** The last entry takes the place of entry i. */
    method DropAt(i: nat)
      requires Valid() && i < count
      modifies this`count, refs, filters
      ensures Valid() && Contents() == Drop(old(Contents()), i)
    {
      if i < count - 1 {
        filters[i] := filters[count - 1];
        refs[i] := refs[count - 1];
      }
      count := count - 1;
      assert Contents() == Drop(old(Contents()), i);
    }

    /** do_subscribe_all on a fresh clean session. */
    method SubscribeAll()
      requires Valid()
      modifies this
      ensures Valid() && State() == Next(old(State()), Connect)
    {
      broker := {};
      connected := true;
      for i := 0 to count
        invariant Valid() && Contents() == old(Contents()) && connected && owners == old(owners)
        invariant broker == Filters(Contents()[..i])
      {
        ghost var t := Contents();
        assert t[..i + 1] == t[..i] + [t[i]];
        assert Filters(t[..i + 1]) == Filters(t[..i]) + {t[i].filter};
        broker := broker + {filters[i]};
      }
      assert Contents()[..count] == Contents();
    }
  }

  function TableOf(filters: seq<Filter>, refs: seq<nat>): (t: Table)
    requires |filters| == |refs|
    ensures |t| == |filters| && forall i | 0 <= i < |t| :: t[i] == Entry(filters[i], refs[i])
  {
    seq(|filters|, i requires 0 <= i < |filters| => Entry(filters[i], refs[i]))
  }
}
