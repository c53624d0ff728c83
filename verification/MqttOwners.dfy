/** The subscription table against its meaning: a count of owners for each filter,
    for at most 32 filters, told by the requests alone. */
module MqttOwners {
  import opened Prelude
  import opened Bytes
  import opened MqttSubscriptions

  ghost function Owned(owners: multiset<Filter>): set<Filter> {
    set f | f in owners
  }

  /** A subscribe counts when its filter is owned already or fewer than 32 are; a
      release takes back one subscribe. */
  ghost function OwnersAfter(steps: seq<Step>): multiset<Filter> {
    if steps == [] then multiset{}
    else
      var owners := OwnersAfter(Front(steps));
      match Last(steps)
      case Subscribe(f) => if f in owners || |Owned(owners)| < 32 then owners + multiset{f} else owners
      case Unsubscribe(f) => owners - multiset{f}
      case _ => owners
  }

  function ConnectedAfter(steps: seq<Step>): bool {
    if steps == [] then false
    else match Last(steps)
      case Connect => true
      case Disconnect => false
      case _ => ConnectedAfter(Front(steps))
  }

  /** Filters that fit the table. */
  predicate Fit(steps: seq<Step>) {
    forall i | 0 <= i < |steps| && steps[i].Subscribe? :: |steps[i].filter| <= 255
  }

  lemma NewFilter(front: Table, last: Entry)
    requires Distinct(front + [last])
    ensures last.filter !in Filters(front)
  {
    forall e | e in front ensures e.filter != last.filter {
      var i :| 0 <= i < |front| && front[i] == e;
      assert (front + [last])[i] == e && (front + [last])[|front|] == last;
    }
  }

  lemma {:induction false} FiltersSize(table: Table)
    requires Distinct(table)
    ensures |Filters(table)| == |table|
  {
    if table == [] {
      assert Filters(table) == {};
    } else {
      var front, last := Front(table), Last(table);
      assert table == front + [last];
      FiltersSize(front);
      FiltersAppend(front, last);
      NewFilter(front, last);
      OneMore(Filters(front), last.filter);
    }
  }

  lemma OneMore(s: set<Filter>, f: Filter)
    requires f !in s
    ensures |s + {f}| == |s| + 1
  {
  }

  lemma OwnedIsTable(w: World)
    requires Inv(w)
    ensures Owned(w.owners) == Filters(w.table) && |Owned(w.owners)| == |w.table|
  {
    forall f ensures f in Owned(w.owners) <==> f in Filters(w.table) {
      if f in w.owners {
        var i := IndexOf(w.table, f).value;
        assert w.table[i] in w.table;
      }
      if f in Filters(w.table) {
        var e :| e in w.table && e.filter == f;
        var i :| 0 <= i < |w.table| && w.table[i] == e;
        assert w.table[i].refs == w.owners[f] > 0;
      }
    }
    FiltersSize(w.table);
  }

  lemma OwnersStep(w: World, s: Step)
    requires Inv(w)
    ensures Next(w, s).owners ==
      match s
      case Subscribe(f) => if f in w.owners || |Owned(w.owners)| < 32 then w.owners + multiset{f} else w.owners
      case Unsubscribe(f) => w.owners - multiset{f}
      case _ => w.owners
    ensures Next(w, s).connected == if s.Connect? then true else if s.Disconnect? then false else w.connected
  {
    OwnedIsTable(w);
    if s.Subscribe? || s.Unsubscribe? {
      InOwners(w, s.filter);
    }
  }

  lemma InOwners(w: World, f: Filter)
    requires Inv(w)
    ensures f in w.owners <==> IndexOf(w.table, f).Some?
    ensures f !in w.owners ==> w.owners - multiset{f} == w.owners
  {
    if IndexOf(w.table, f).Some? {
      assert w.table[IndexOf(w.table, f).value].refs == w.owners[f] > 0;
    }
  }

  /** After every run the table holds exactly the owned filters, each once and with
      the number of its owners, and the broker of a connected client has exactly
      these; which those are, the requests alone tell. */
  lemma {:induction false} TableIsOwners(steps: seq<Step>, f: Filter)
    requires Fit(steps)
    ensures var w, owners := Exec(steps), OwnersAfter(steps);
      && w.owners == owners && w.connected == ConnectedAfter(steps) && Inv(w)
      && (f in owners <==> exists i :: 0 <= i < |w.table| && w.table[i].filter == f)
      && (forall i | 0 <= i < |w.table| && w.table[i].filter == f :: w.table[i].refs == owners[f])
      && (ConnectedAfter(steps) ==> (f in w.broker <==> f in owners))
  {
    if steps != [] {
      TableIsOwners(Front(steps), f);
      OwnersStep(Exec(Front(steps)), Last(steps));
    }
    TableRefinesOwners(steps);
    var w := Exec(steps);
    InOwners(w, f);
    OwnedIsTable(w);
  }
}
