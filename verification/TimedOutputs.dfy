/** Overlapping timed io_output actions of app/engine/actions.c: the table of
    pending restores, the camera it drives, and the promise that every port
    returns to the state it had before the first of them. */
module TimedOutputs {
  import opened Prelude

  const MAX_PENDING := 32
  const MAX_PORTS := 16

  datatype Setting = Setting(port: nat, closed: bool)

  /** byTimer: restored by one setPorts call; otherwise the camera's own
      single-port sequence restores and the entry only keeps the books. */
  datatype Pending = Pending(used: bool, byTimer: bool, host: string, restore: seq<Setting>)

  const FreeEntry := Pending(false, false, "", [])

  type Table = t: seq<Pending> | |t| == MAX_PENDING witness seq(MAX_PENDING, _ => FreeEntry)

  predicate Lists(ps: seq<Setting>, port: nat) {
    exists k | 0 <= k < |ps| :: ps[k].port == port
  }

  predicate DistinctPorts(ps: seq<Setting>) {
    forall a, b | 0 <= a < b < |ps| :: ps[a].port != ps[b].port
  }

  /** What io_output_parse yields. */
  predicate ValidRequest(ps: seq<Setting>) {
    1 <= |ps| <= MAX_PORTS && DistinctPorts(ps)
  }

  /** The setting of a port in a list; lists here name a port at most once. */
  function StateIn(ps: seq<Setting>, port: nat): (s: Option<bool>)
    ensures s.Some? <==> Lists(ps, port)
    ensures s.Some? ==> exists k | 0 <= k < |ps| :: ps[k] == Setting(port, s.value)
  {
    if ps == [] then None
    else if ps[0].port == port then
      assert ps[0] == Setting(port, ps[0].closed);
      Some(ps[0].closed)
    else
      var s := StateIn(ps[1..], port);
      assert forall k | 0 <= k < |ps| - 1 :: ps[1..][k] == ps[k + 1];
      s
  }

  lemma {:induction false} StateAt(ps: seq<Setting>, k: nat)
    requires DistinctPorts(ps) && k < |ps|
    ensures StateIn(ps, ps[k].port) == Some(ps[k].closed)
  {
    if k > 0 {
      StateAt(ps[1..], k - 1);
    }
  }

  predicate Holds(e: Pending, host: string, port: nat) {
    e.used && e.host == host && Lists(e.restore, port)
  }

  /** The state the first entry holding the port would return it to. */
  function HeldState(t: seq<Pending>, host: string, port: nat): (s: Option<bool>)
    ensures s.None? <==> forall i | 0 <= i < |t| :: !Holds(t[i], host, port)
    ensures s.Some? ==> exists i | 0 <= i < |t| :: Holds(t[i], host, port) && StateIn(t[i].restore, port) == s
  {
    if t == [] then None
    else if Holds(Last(t), host, port) && HeldState(Front(t), host, port).None? then StateIn(Last(t).restore, port)
    else
      var s := HeldState(Front(t), host, port);
      assert forall i | 0 <= i < |t| - 1 :: Front(t)[i] == t[i];
      s
  }

  /** What is left of a list of restores once the ports of ps are claimed. */
  function Without(restore: seq<Setting>, ps: seq<Setting>): (r: seq<Setting>)
    ensures |r| <= |restore|
    ensures forall s :: s in r <==> s in restore && !Lists(ps, s.port)
  {
    if restore == [] then []
    else Without(Front(restore), ps) + if Lists(ps, Last(restore).port) then [] else [Last(restore)]
  }

  function Claimed(e: Pending, host: string, ps: seq<Setting>): Pending {
    if !e.used || e.host != host then e
    else
      var left := Without(e.restore, ps);
      e.(restore := left, used := left != [])
  }

  function ClaimedTable(t: Table, host: string, ps: seq<Setting>): Table {
    seq(MAX_PENDING, i requires 0 <= i < MAX_PENDING => Claimed(t[i], host, ps))
  }

  /** Port p of the request is one a camera sequence booked below n would restore. */
  predicate InSequence(t: Table, n: nat, host: string, ps: seq<Setting>, p: nat)
    requires n <= MAX_PENDING
  {
    Lists(ps, p) && exists i | 0 <= i < n :: Holds(t[i], host, p) && !t[i].byTimer
  }

  function FreeIndex(t: Table, from: nat): (i: Option<nat>)
    requires from <= MAX_PENDING
    ensures i.Some? ==> from <= i.value < MAX_PENDING && !t[i.value].used
    ensures i.None? ==> forall k | from <= k < MAX_PENDING :: t[k].used
    decreases MAX_PENDING - from
  {
    if from == MAX_PENDING then None else if !t[from].used then Some(from) else FreeIndex(t, from + 1)
  }

  /** One entry's answer to what is still unknown. */
  method FillFrom(e: Pending, ps: seq<Setting>, known: seq<Option<bool>>) returns (held: seq<Option<bool>>)
    requires |known| == |ps|
    ensures |held| == |ps|
    ensures forall k | 0 <= k < |ps| :: held[k] == if known[k].Some? then known[k] else StateIn(e.restore, ps[k].port)
  {
    held := known;
    for k := 0 to |ps|
      invariant |held| == |ps|
      invariant forall m | 0 <= m < k :: held[m] == if known[m].Some? then known[m] else StateIn(e.restore, ps[m].port)
      invariant forall m | k <= m < |ps| :: held[m] == known[m]
    {
      if held[k].None? {
        held := held[k := StateIn(e.restore, ps[k].port)];
      }
    }
  }

  lemma ListsMore(restore: seq<Setting>, j: nat)
    requires j < |restore|
    ensures restore[..j + 1] == restore[..j] + [restore[j]]
    ensures forall p :: Lists(restore[..j + 1], p) <==> Lists(restore[..j], p) || restore[j].port == p
  {
    var longer := restore[..j + 1];
    forall p ensures Lists(longer, p) <==> Lists(restore[..j], p) || restore[j].port == p {
      if restore[j].port == p {
        assert longer[j].port == p;
      }
      if Lists(restore[..j], p) {
        var k :| 0 <= k < j && restore[..j][k].port == p;
        assert longer[k].port == p;
      }
    }
  }

  /** Splits one entry's list into what stays and the ports that are claimed. */
  method SplitEntry(restore: seq<Setting>, ps: seq<Setting>) returns (left: seq<Setting>, taken: seq<nat>)
    ensures left == Without(restore, ps)
    ensures forall p :: p in taken <==> Lists(ps, p) && Lists(restore, p)
  {
    left, taken := [], [];
    for j := 0 to |restore|
      invariant left == Without(restore[..j], ps)
      invariant forall p :: p in taken <==> Lists(ps, p) && Lists(restore[..j], p)
    {
      var s := restore[j];
      FrontLast(restore[..j], s);
      ListsMore(restore, j);
      var claimed := exists k | 0 <= k < |ps| :: ps[k].port == s.port;
      if !claimed {
        left := left + [s];
      } else {
        taken := taken + [s.port];
      }
    }
    assert restore[..|restore|] == restore;
  }

  /** The table of pending restores, updated in place. */
  class PendingTable {
    const entries: array<Pending>

    ghost predicate Valid() {
      entries.Length == MAX_PENDING
    }

    ghost function Contents(): Table
      requires Valid()
      reads entries
    {
      entries[..]
    }

    constructor ()
      ensures Valid() && fresh(entries) && Contents() == seq(MAX_PENDING, _ => FreeEntry)
    {
      entries := new Pending[MAX_PENDING](_ => FreeEntry);
      new;
      assert entries[..] == seq(MAX_PENDING, _ => FreeEntry);
    }

    /** io_output_held_states: the state each port is held to, if any. */
    method HeldStates(host: string, ps: seq<Setting>) returns (held: seq<Option<bool>>)
      requires Valid()
      ensures |held| == |ps|
      ensures forall k | 0 <= k < |ps| :: held[k] == HeldState(Contents(), host, ps[k].port)
    {
      held := seq(|ps|, _ => None);
      for i := 0 to MAX_PENDING
        invariant |held| == |ps|
        invariant forall k | 0 <= k < |ps| :: held[k] == HeldState(entries[..i], host, ps[k].port)
      {
        var e := entries[i];
        FrontLast(entries[..i], e);
        assert entries[..i + 1] == entries[..i] + [e];
        if e.used && e.host == host {
          held := FillFrom(e, ps, held);
        }
      }
      assert entries[..MAX_PENDING] == entries[..];
    }

    /** io_out_pending_claim: takes the ports out of every entry of the host and
        reports those a camera sequence would still restore. */
    method Claim(host: string, ps: seq<Setting>) returns (seqPorts: seq<nat>)
      requires Valid()
      modifies entries
      ensures Contents() == ClaimedTable(old(Contents()), host, ps)
      ensures forall p :: p in seqPorts <==> InSequence(old(Contents()), MAX_PENDING, host, ps, p)
    {
      seqPorts := [];
      ghost var t := Contents();
      for i := 0 to MAX_PENDING
        invariant forall m | 0 <= m < i :: entries[m] == Claimed(t[m], host, ps)
        invariant forall m | i <= m < MAX_PENDING :: entries[m] == t[m]
        invariant forall p :: p in seqPorts <==> InSequence(t, i, host, ps, p)
      {
        var e := entries[i];
        if e.used && e.host == host {
          var left, taken := SplitEntry(e.restore, ps);
          if !e.byTimer {
            seqPorts := seqPorts + taken;
          }
          entries[i] := e.(restore := left, used := if left == [] then false else true);
        }
      }
      assert Contents() == ClaimedTable(t, host, ps);
    }

    method Add(host: string, restore: seq<Setting>, byTimer: bool) returns (at: Option<nat>)
      requires Valid()
      modifies entries
      ensures at == FreeIndex(old(Contents()), 0)
      ensures Contents() ==
        if at.None? then old(Contents()) else old(Contents())[at.value := Pending(true, byTimer, host, restore)]
    {
      at := None;
      for i := 0 to MAX_PENDING
        invariant at.None? ==> FreeIndex(Contents(), 0) == FreeIndex(Contents(), i)
        invariant at.Some? ==> at == FreeIndex(Contents(), 0)
      {
        if at.None? && !entries[i].used {
          at := Some(i);
        }
      }
      if at.Some? {
        entries[at.value] := Pending(true, byTimer, host, restore);
      }
    }
  }
}
