/** The accepting side of a Sparkplug session: NodeState and show() of
    tools/sparkplug_host.py. A Host is the value of one NodeState object. */
module SparkplugHost {
  import opened Prelude

  datatype Kind = NBIRTH | DBIRTH | NDATA | DDATA | NDEATH | NCMD | DCMD

  /** A decoded metric value; Null is Python's None. */
  datatype Value = Null | Flag(on: bool) | Int(n: nat) | Text(text: string)

  /** name is None when a DATA message addresses the metric by alias only. */
  datatype Metric = Metric(name: Option<string>, alias: Option<nat>, value: Value, ts: nat, historical: bool)

  datatype Message = Message(kind: Kind, seqNo: Option<nat>, metrics: seq<Metric>)

  datatype Problem =
    | MissingSeq(kind: Kind)
    | BadBirthSeq(seqNo: nat)
    | SeqGap(kind: Kind, got: nat, wanted: nat)
    | UndeclaredAlias(alias: nat)
    | DataBeforeBirth(kind: Kind)
    | DeathWithSeq
    | BdSeqMismatch(named: Value, birth: Value)

  datatype Host = Host(
    aliases: map<nat, string>,
    bdSeq: Value,
    wanted: Option<nat>,
    birthSeen: bool,
    problems: seq<Problem>)

  const FreshHost := Host(map[], Null, None, false, [])

  const BD_SEQ := "bdSeq"

  function Flagged(h: Host, p: Problem): Host {
    h.(problems := h.problems + [p])
  }

  function CheckSeq(h: Host, kind: Kind, seqNo: Option<nat>): Host {
    if seqNo.None? then Flagged(h, MissingSeq(kind))
    else if kind == NBIRTH then
      (if seqNo.value != 0 then Flagged(h, BadBirthSeq(seqNo.value)) else h).(wanted := Some(1))
    else if h.wanted.None? then h
    else
      (if seqNo.value != h.wanted.value then Flagged(h, SeqGap(kind, seqNo.value, h.wanted.value)) else h)
      .(wanted := Some((seqNo.value + 1) % 256))
  }

  /** Named reports whether Python's `if metric["name"]` takes the branch. */
  predicate Named(m: Metric) {
    m.name.Some? && m.name.value != ""
  }

  function Declared(aliases: map<nat, string>, m: Metric): map<nat, string> {
    if Named(m) && m.alias.Some? then aliases[m.alias.value := m.name.value] else aliases
  }

  /** The name a metric resolves to; the bracketed placeholders are only ever printed. */
  function ResolvedName(aliases: map<nat, string>, m: Metric): string {
    if Named(m) then m.name.value
    else if m.alias.None? then "<unnamed>"
    else if m.alias.value in aliases then aliases[m.alias.value]
    else "<alias>"
  }

  predicate Unresolved(aliases: map<nat, string>, m: Metric) {
    !Named(m) && m.alias.Some? && m.alias.value !in aliases
  }

  function Resolve(h: Host, m: Metric): Host {
    var declared := h.(aliases := Declared(h.aliases, m));
    if Unresolved(h.aliases, m) then Flagged(declared, UndeclaredAlias(m.alias.value)) else declared
  }

  function SeeMetric(h: Host, kind: Kind, m: Metric): Host {
    var r := Resolve(h, m);
    if ResolvedName(h.aliases, m) != BD_SEQ then r
    else if kind == NBIRTH then r.(bdSeq := m.value)
    else if kind == NDEATH && r.bdSeq != Null && m.value != r.bdSeq then Flagged(r, BdSeqMismatch(m.value, r.bdSeq))
    else r
  }

  function SeeMetrics(h: Host, kind: Kind, ms: seq<Metric>): Host {
    if ms == [] then h else SeeMetric(SeeMetrics(h, kind, Front(ms)), kind, Last(ms))
  }

  /** What show() does before it looks at the metrics. */
  function SeeHeader(h: Host, kind: Kind, seqNo: Option<nat>): Host {
    var h1 :=
      if kind == NBIRTH then h.(aliases := map[], birthSeen := true)
      else if kind in {NDATA, DDATA} && !h.birthSeen then Flagged(h, DataBeforeBirth(kind))
      else h;
    if kind == NDEATH then (if seqNo.Some? then Flagged(h1, DeathWithSeq) else h1)
    else if kind in {NCMD, DCMD} then h1
    else CheckSeq(h1, kind, seqNo)
  }

  function Show(h: Host, msg: Message): Host {
    SeeMetrics(SeeHeader(h, msg.kind, msg.seqNo), msg.kind, msg.metrics)
  }

  /** The Python object, updated in place. */
  class NodeState {
    var aliases: map<nat, string>
    var bdSeq: Value
    var expectedSeq: Option<nat>
    var birthSeen: bool
    var problems: seq<Problem>

    ghost function State(): Host
      reads this
    {
      Host(aliases, bdSeq, expectedSeq, birthSeen, problems)
    }

    constructor ()
      ensures State() == FreshHost
    {
      aliases, bdSeq, expectedSeq, birthSeen, problems := map[], Null, None, false, [];
    }

    method FlagProblem(p: Problem)
      modifies this
      ensures State() == Flagged(old(State()), p)
    {
      problems := problems + [p];
    }

    method CheckSequence(kind: Kind, seqNo: Option<nat>)
      modifies this
      ensures State() == CheckSeq(old(State()), kind, seqNo)
    {
      if seqNo.None? {
        FlagProblem(MissingSeq(kind));
        return;
      }
      if kind == NBIRTH {
        if seqNo.value != 0 {
          FlagProblem(BadBirthSeq(seqNo.value));
        }
        expectedSeq := Some(1);
        return;
      }
      if expectedSeq.None? {
        return;
      }
      if seqNo.value != expectedSeq.value {
        FlagProblem(SeqGap(kind, seqNo.value, expectedSeq.value));
      }
      expectedSeq := Some((seqNo.value + 1) % 256);
    }

    method ResolveMetric(m: Metric) returns (name: string)
      modifies this
      ensures State() == Resolve(old(State()), m)
      ensures name == ResolvedName(old(aliases), m)
    {
      if m.name.Some? && m.name.value != "" {
        if m.alias.Some? {
          aliases := aliases[m.alias.value := m.name.value];
        }
        return m.name.value;
      }
      if m.alias.Some? {
        if m.alias.value !in aliases {
          FlagProblem(UndeclaredAlias(m.alias.value));
          return "<alias>";
        }
        return aliases[m.alias.value];
      }
      return "<unnamed>";
    }

    method ShowMessage(msg: Message)
      modifies this
      ensures State() == Show(old(State()), msg)
    {
      ShowHeader(msg.kind, msg.seqNo);
      ghost var header := State();
      var i := 0;
      while i < |msg.metrics|
        invariant 0 <= i <= |msg.metrics|
        invariant State() == SeeMetrics(header, msg.kind, msg.metrics[..i])
      {
        ShowMetric(msg.kind, msg.metrics[i]);
        FrontLast(msg.metrics[..i], msg.metrics[i]);
        assert msg.metrics[..i + 1] == msg.metrics[..i] + [msg.metrics[i]];
        i := i + 1;
      }
      assert msg.metrics[..i] == msg.metrics;
    }

    /** What is looked at before the metrics. */
    method ShowHeader(kind: Kind, seqNo: Option<nat>)
      modifies this
      ensures State() == SeeHeader(old(State()), kind, seqNo)
    {
      if kind == NBIRTH {
        aliases := map[];
        birthSeen := true;
      } else if kind in {NDATA, DDATA} && !birthSeen {
        FlagProblem(DataBeforeBirth(kind));
      }
      if kind == NDEATH {
        if seqNo.Some? {
          FlagProblem(DeathWithSeq);
        }
      } else if kind in {NCMD, DCMD} {
      } else {
        CheckSequence(kind, seqNo);
      }
    }

    method ShowMetric(kind: Kind, m: Metric)
      modifies this
      ensures State() == SeeMetric(old(State()), kind, m)
    {
      var name := ResolveMetric(m);
      if name == BD_SEQ {
        if kind == NBIRTH {
          bdSeq := m.value;
        } else if kind == NDEATH {
          if bdSeq != Null && m.value != bdSeq {
            FlagProblem(BdSeqMismatch(m.value, bdSeq));
          }
        }
      }
    }
  }

  // ----- What the validator accepts, stated without its code -----

  /** The alias table after the first i metrics of a message. */
  function TableAfter(aliases: map<nat, string>, ms: seq<Metric>): map<nat, string> {
    if ms == [] then aliases else Declared(TableAfter(aliases, Front(ms)), Last(ms))
  }

  /** Birth before data, seq 0 at NBIRTH and consecutive afterwards, none on NDEATH. */
  predicate HeaderConforms(h: Host, kind: Kind, seqNo: Option<nat>) {
    match kind
    case NBIRTH => seqNo == Some(0)
    case DBIRTH => seqNo.Some? && (h.wanted.Some? ==> seqNo == h.wanted)
    case NDATA | DDATA => h.birthSeen && seqNo.Some? && (h.wanted.Some? ==> seqNo == h.wanted)
    case NDEATH => seqNo == None
    case NCMD | DCMD => true
  }

  /** Metric i names an alias declared so far, and an NDEATH names the bdSeq of the birth it ends. */
  predicate MetricConforms(table: map<nat, string>, bdSeq: Value, kind: Kind, ms: seq<Metric>, i: nat)
    requires i < |ms|
  {
    && !Unresolved(TableAfter(table, ms[..i]), ms[i])
    && (kind == NDEATH && bdSeq != Null && ResolvedName(TableAfter(table, ms[..i]), ms[i]) == BD_SEQ
        ==> ms[i].value == bdSeq)
  }

  predicate MetricsConform(table: map<nat, string>, bdSeq: Value, kind: Kind, ms: seq<Metric>) {
    forall i: nat | i < |ms| :: MetricConforms(table, bdSeq, kind, ms, i)
  }

  /** The requirements the tool's own header comment lists, as conditions on one
      message arriving at a host. An NBIRTH starts from an empty alias table. */
  predicate Conforms(h: Host, msg: Message) {
    && HeaderConforms(h, msg.kind, msg.seqNo)
    && MetricsConform(if msg.kind == NBIRTH then map[] else h.aliases, h.bdSeq, msg.kind, msg.metrics)
  }

  lemma HeaderFlagged(h: Host, kind: Kind, seqNo: Option<nat>)
    ensures SeeHeader(h, kind, seqNo).problems == h.problems <==> HeaderConforms(h, kind, seqNo)
    ensures h.problems <= SeeHeader(h, kind, seqNo).problems
    ensures SeeHeader(h, kind, seqNo).aliases == if kind == NBIRTH then map[] else h.aliases
    ensures SeeHeader(h, kind, seqNo).bdSeq == h.bdSeq
  {
  }

  lemma ConformSplit(table: map<nat, string>, bdSeq: Value, kind: Kind, ms: seq<Metric>)
    requires ms != []
    ensures MetricsConform(table, bdSeq, kind, ms)
       <==> MetricsConform(table, bdSeq, kind, Front(ms)) && MetricConforms(table, bdSeq, kind, ms, |ms| - 1)
  {
    forall i: nat | i < |Front(ms)|
      ensures MetricConforms(table, bdSeq, kind, Front(ms), i) == MetricConforms(table, bdSeq, kind, ms, i)
    {
      ConformsInFront(table, bdSeq, kind, ms, i);
    }
  }

  lemma ConformsInFront(table: map<nat, string>, bdSeq: Value, kind: Kind, ms: seq<Metric>, i: nat)
    requires i + 1 < |ms|
    ensures MetricConforms(table, bdSeq, kind, Front(ms), i) == MetricConforms(table, bdSeq, kind, ms, i)
  {
    assert Front(ms)[..i] == ms[..i];
  }

  lemma MetricFlagged(h: Host, kind: Kind, m: Metric)
    ensures SeeMetric(h, kind, m).aliases == Declared(h.aliases, m)
    ensures kind != NBIRTH ==> SeeMetric(h, kind, m).bdSeq == h.bdSeq
    ensures h.problems <= SeeMetric(h, kind, m).problems
    ensures SeeMetric(h, kind, m).problems == h.problems <==>
      && !Unresolved(h.aliases, m)
      && (kind == NDEATH && h.bdSeq != Null && ResolvedName(h.aliases, m) == BD_SEQ ==> m.value == h.bdSeq)
  {
  }

  lemma {:induction false} MetricsFlagged(h: Host, kind: Kind, ms: seq<Metric>)
    ensures SeeMetrics(h, kind, ms).aliases == TableAfter(h.aliases, ms)
    ensures kind != NBIRTH ==> SeeMetrics(h, kind, ms).bdSeq == h.bdSeq
    ensures h.problems <= SeeMetrics(h, kind, ms).problems
    ensures SeeMetrics(h, kind, ms).problems == h.problems <==> MetricsConform(h.aliases, h.bdSeq, kind, ms)
  {
    if ms != [] {
      MetricsFlagged(h, kind, Front(ms));
      MetricFlagged(SeeMetrics(h, kind, Front(ms)), kind, Last(ms));
      ConformSplit(h.aliases, h.bdSeq, kind, ms);
    }
  }

  /** The problems list grows on a message exactly when it breaks a requirement. */
  lemma FlagsExactlyViolations(h: Host, msg: Message)
    ensures Show(h, msg).problems == h.problems <==> Conforms(h, msg)
    ensures h.problems <= Show(h, msg).problems
  {
    HeaderFlagged(h, msg.kind, msg.seqNo);
    MetricsFlagged(SeeHeader(h, msg.kind, msg.seqNo), msg.kind, msg.metrics);
  }
}
