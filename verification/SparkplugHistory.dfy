/** The validator over whole conversations: it reports nothing exactly when every
    message is right given those before it, told by the messages alone. */
module SparkplugHistory {
  import opened Prelude
  import opened SparkplugHost

  /** The validator after some messages. */
  function Heard(msgs: seq<Message>): Host {
    if msgs == [] then FreshHost else Show(Heard(Front(msgs)), Last(msgs))
  }

  // ----- What the messages so far establish -----

  predicate Born(msgs: seq<Message>) {
    exists i | 0 <= i < |msgs| :: msgs[i].kind == NBIRTH
  }

  /** The messages since the last NBIRTH, with it, or all of them before the first. */
  function SinceBirth(msgs: seq<Message>): seq<Message> {
    if msgs == [] then []
    else if Last(msgs).kind == NBIRTH then [Last(msgs)]
    else SinceBirth(Front(msgs)) + [Last(msgs)]
  }

  /** How many of the messages carry a sequence number: all but deaths and commands. */
  function Numbered(msgs: seq<Message>): nat {
    if msgs == [] then 0
    else Numbered(Front(msgs)) + if Last(msgs).kind in {NDEATH, NCMD, DCMD} then 0 else 1
  }

  function Metrics(msgs: seq<Message>): seq<Metric> {
    if msgs == [] then [] else Metrics(Front(msgs)) + Last(msgs).metrics
  }

  /** The value of the last metric that is called bdSeq, if there is one. */
  function BdSeqIn(ms: seq<Metric>, otherwise: Value): Value {
    if ms == [] then otherwise
    else if ResolvedName(TableAfter(map[], Front(ms)), Last(ms)) == "bdSeq" then Last(ms).value
    else BdSeqIn(Front(ms), otherwise)
  }

  /** The bdSeq of the last NBIRTH that gave one. */
  function BirthBdSeq(msgs: seq<Message>): Value {
    if msgs == [] then Null
    else if Last(msgs).kind == NBIRTH then BdSeqIn(Last(msgs).metrics, BirthBdSeq(Front(msgs)))
    else BirthBdSeq(Front(msgs))
  }

  /** The sequence number that comes next: consecutive from 0 at the NBIRTH. */
  function NextNumber(msgs: seq<Message>): nat {
    Numbered(SinceBirth(msgs)) % 256
  }

  predicate NumberRight(msgs: seq<Message>, msg: Message) {
    match msg.kind
    case NBIRTH => msg.seqNo == Some(0)
    case DBIRTH => msg.seqNo.Some? && (Born(msgs) ==> msg.seqNo.value == NextNumber(msgs))
    case NDATA | DDATA => Born(msgs) && msg.seqNo == Some(NextNumber(msgs))
    case NDEATH => msg.seqNo.None?
    case NCMD | DCMD => true
  }

  /** A message is right after the others: its number is the next, it uses only
      aliases named since the last NBIRTH, and a death names the bdSeq of the birth. */
  predicate Right(msgs: seq<Message>, msg: Message) {
    && NumberRight(msgs, msg)
    && MetricsConform(if msg.kind == NBIRTH then map[] else TableAfter(map[], Metrics(SinceBirth(msgs))),
                      BirthBdSeq(msgs), msg.kind, msg.metrics)
  }

  predicate AllRight(msgs: seq<Message>) {
    msgs == [] || (AllRight(Front(msgs)) && Right(Front(msgs), Last(msgs)))
  }

  // ----- What the validator keeps -----

  lemma {:induction false} TableSplit(table: map<nat, string>, a: seq<Metric>, b: seq<Metric>)
    ensures TableAfter(table, a + b) == TableAfter(TableAfter(table, a), b)
  {
    if b == [] {
      assert a + b == a;
    } else {
      TableSplit(table, a, Front(b));
      assert Front(a + b) == a + Front(b);
    }
  }

  lemma {:induction false} BirthSets(h: Host, ms: seq<Metric>)
    requires h.aliases == map[]
    ensures SeeMetrics(h, NBIRTH, ms).bdSeq == BdSeqIn(ms, h.bdSeq)
    ensures SeeMetrics(h, NBIRTH, ms).aliases == TableAfter(map[], ms)
  {
    if ms != [] {
      BirthSets(h, Front(ms));
      MetricFlagged(SeeMetrics(h, NBIRTH, Front(ms)), NBIRTH, Last(ms));
    }
  }

  lemma {:induction false} MetricsKeepHeader(h: Host, kind: Kind, ms: seq<Metric>)
    ensures SeeMetrics(h, kind, ms).birthSeen == h.birthSeen && SeeMetrics(h, kind, ms).wanted == h.wanted
  {
    if ms != [] {
      MetricsKeepHeader(h, kind, Front(ms));
    }
  }

  lemma BornMore(msgs: seq<Message>)
    requires msgs != []
    ensures Born(msgs) <==> Born(Front(msgs)) || Last(msgs).kind == NBIRTH
  {
    if Born(Front(msgs)) {
      var i :| 0 <= i < |Front(msgs)| && Front(msgs)[i].kind == NBIRTH;
      assert msgs[i].kind == NBIRTH;
    }
  }

  lemma SinceMore(msgs: seq<Message>)
    requires msgs != [] && Last(msgs).kind != NBIRTH
    ensures Metrics(SinceBirth(msgs)) == Metrics(SinceBirth(Front(msgs))) + Last(msgs).metrics
    ensures Numbered(SinceBirth(msgs)) ==
      Numbered(SinceBirth(Front(msgs))) + if Last(msgs).kind in {NDEATH, NCMD, DCMD} then 0 else 1
  {
    FrontLast(SinceBirth(Front(msgs)), Last(msgs));
  }

  lemma SinceNow(msgs: seq<Message>)
    requires msgs != [] && Last(msgs).kind == NBIRTH
    ensures Metrics(SinceBirth(msgs)) == Last(msgs).metrics && Numbered(SinceBirth(msgs)) == 1
  {
    assert Front([Last(msgs)]) == [];
  }

  /** The alias table, the bdSeq and the birth flag are those of the messages. */
  lemma {:induction false} KeptIsHeard(msgs: seq<Message>)
    ensures var h := Heard(msgs);
      && h.aliases == TableAfter(map[], Metrics(SinceBirth(msgs)))
      && h.bdSeq == BirthBdSeq(msgs) && h.birthSeen == Born(msgs)
  {
    if msgs != [] {
      var h, msg := Heard(Front(msgs)), Last(msgs);
      KeptIsHeard(Front(msgs));
      BornMore(msgs);
      var header := SeeHeader(h, msg.kind, msg.seqNo);
      HeaderFlagged(h, msg.kind, msg.seqNo);
      HeaderSees(h, msg.kind, msg.seqNo);
      MetricsKeepHeader(header, msg.kind, msg.metrics);
      MetricsFlagged(header, msg.kind, msg.metrics);
      if msg.kind == NBIRTH {
        SinceNow(msgs);
        BirthSets(header, msg.metrics);
      } else {
        SinceMore(msgs);
        TableSplit(map[], Metrics(SinceBirth(Front(msgs))), msg.metrics);
      }
    }
  }

  lemma HeaderSees(h: Host, kind: Kind, seqNo: Option<nat>)
    ensures SeeHeader(h, kind, seqNo).birthSeen == (h.birthSeen || kind == NBIRTH)
    ensures HeaderConforms(h, kind, seqNo) ==>
      SeeHeader(h, kind, seqNo).wanted ==
        if kind == NBIRTH then Some(1)
        else if kind in {NDEATH, NCMD, DCMD} || h.wanted.None? then h.wanted
        else Some((h.wanted.value + 1) % 256)
  {
  }

  lemma WantedAfter(h: Host, msg: Message)
    requires Conforms(h, msg)
    ensures Show(h, msg).wanted ==
      if msg.kind == NBIRTH then Some(1)
      else if msg.kind in {NDEATH, NCMD, DCMD} || h.wanted.None? then h.wanted
      else Some((h.wanted.value + 1) % 256)
  {
    HeaderSees(h, msg.kind, msg.seqNo);
    MetricsKeepHeader(SeeHeader(h, msg.kind, msg.seqNo), msg.kind, msg.metrics);
  }

  lemma NumberMore(msgs: seq<Message>)
    requires msgs != []
    ensures NextNumber(msgs) ==
      if Last(msgs).kind == NBIRTH then 1
      else if Last(msgs).kind in {NDEATH, NCMD, DCMD} then NextNumber(Front(msgs))
      else (NextNumber(Front(msgs)) + 1) % 256
  {
    if Last(msgs).kind == NBIRTH {
      SinceNow(msgs);
    } else {
      SinceMore(msgs);
      ModNext(Numbered(SinceBirth(Front(msgs))));
    }
  }

  lemma ModNext(n: nat)
    ensures (n + 1) % 256 == (n % 256 + 1) % 256
  {
  }

  /** The same rule on both sides keeps both sides the same. */
  lemma NumbersAgree(kind: Kind, was: Option<nat>, now: Option<nat>, born: bool, born': bool, n: nat, n': nat)
    requires was == (if born then Some(n) else None) && born' == (born || kind == NBIRTH)
    requires now ==
      if kind == NBIRTH then Some(1)
      else if kind in {NDEATH, NCMD, DCMD} || was.None? then was
      else Some((was.value + 1) % 256)
    requires n' == if kind == NBIRTH then 1 else if kind in {NDEATH, NCMD, DCMD} then n else (n + 1) % 256
    ensures now == if born' then Some(n') else None
  {
  }

  /** While nothing is wrong, the number the validator waits for is the next one. */
  lemma {:induction false} WantedIsNext(msgs: seq<Message>)
    requires Heard(msgs).problems == []
    ensures Heard(msgs).wanted == if Born(msgs) then Some(NextNumber(msgs)) else None
  {
    if msgs != [] {
      var before, msg := Front(msgs), Last(msgs);
      FlagsExactlyViolations(Heard(before), msg);
      WantedIsNext(before);
      BornMore(msgs);
      WantedAfter(Heard(before), msg);
      NumberMore(msgs);
      NumbersAgree(msg.kind, Heard(before).wanted, Heard(msgs).wanted, Born(before), Born(msgs),
                   NextNumber(before), NextNumber(msgs));
    }
  }

  lemma HeaderRight(h: Host, msgs: seq<Message>, msg: Message)
    requires h.birthSeen == Born(msgs) && h.wanted == if Born(msgs) then Some(NextNumber(msgs)) else None
    ensures HeaderConforms(h, msg.kind, msg.seqNo) <==> NumberRight(msgs, msg)
  {
  }

  lemma RightConforms(msgs: seq<Message>, msg: Message)
    requires Heard(msgs).problems == []
    ensures Conforms(Heard(msgs), msg) <==> Right(msgs, msg)
  {
    KeptIsHeard(msgs);
    WantedIsNext(msgs);
    HeaderRight(Heard(msgs), msgs, msg);
  }

  /** A conversation is accepted without a problem exactly when every message of it
      is right after the ones before. */
  lemma {:induction false} AcceptedExactly(msgs: seq<Message>)
    ensures Heard(msgs).problems == [] <==> AllRight(msgs)
  {
    if msgs != [] {
      AcceptedExactly(Front(msgs));
      FlagsExactlyViolations(Heard(Front(msgs)), Last(msgs));
      if Heard(Front(msgs)).problems == [] {
        RightConforms(Front(msgs), Last(msgs));
      }
    }
  }
}
