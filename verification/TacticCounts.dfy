/** Tactic counts over alerts and incidents (src/detection_engine.py:790-800). */
module TacticCounts {
  import opened Prelude
  import opened Rules
  import opened Correlation

  const TACTIC_ORDER: seq<Tactic> := [
    Reconnaissance, ResourceDevelopment, InitialAccess, Execution, Persistence, PrivilegeEscalation, DefenseEvasion,
    CredentialAccess, Discovery, LateralMovement, Collection, CommandAndControl, Exfiltration, Impact]

  datatype TacticCount = TacticCount(tactic: Tactic, count: nat)

  function TacticsOfAlert(): Alert -> seq<Tactic> { (alert: Alert) => alert.tactics }

  function TacticsOfIncident(): Incident -> seq<Tactic> { (incident: Incident) => INCIDENT_TACTICS }

  /** Every mention of a tactic, alerts first. */
  function Mentions(alerts: seq<Alert>, incidents: seq<Incident>): seq<Tactic> {
    FlatMap(alerts, TacticsOfAlert()) + FlatMap(incidents, TacticsOfIncident())
  }

  function Counted(order: seq<Tactic>, mentions: seq<Tactic>): seq<TacticCount> {
    if order == [] then []
    else
      var n := |order| - 1;
      Counted(order[..n], mentions)
      + (if order[n] in mentions then [TacticCount(order[n], multiset(mentions)[order[n]])] else [])
  }

  function Distribution(alerts: seq<Alert>, incidents: seq<Incident>): seq<TacticCount> {
    Counted(TACTIC_ORDER, Mentions(alerts, incidents))
  }

  function At(counts: map<Tactic, nat>, tactic: Tactic): nat { if tactic in counts then counts[tactic] else 0 }

  ghost predicate Counts(counts: map<Tactic, nat>, mentions: seq<Tactic>) {
    forall tactic :: At(counts, tactic) == multiset(mentions)[tactic]
  }

  /** Count the tactics of one alert or incident. */
  method Tally(counts: map<Tactic, nat>, tactics: seq<Tactic>, ghost before: seq<Tactic>)
    returns (more: map<Tactic, nat>)
    requires Counts(counts, before)
    ensures Counts(more, before + tactics)
  {
    more := counts;
    assert before + tactics[..0] == before;
    for i := 0 to |tactics|
      invariant Counts(more, before + tactics[..i])
    {
      assert before + tactics[..i + 1] == before + tactics[..i] + [tactics[i]];
      more := more[tactics[i] := At(more, tactics[i]) + 1];
    }
    assert tactics[..|tactics|] == tactics;
  }

  method BuildMitreDistribution(alerts: seq<Alert>, incidents: seq<Incident>) returns (rows: seq<TacticCount>)
    ensures rows == Distribution(alerts, incidents)
  {
    var counts: map<Tactic, nat> := map[];
    ghost var fromAlerts, fromIncidents := TacticsOfAlert(), TacticsOfIncident();
    for i := 0 to |alerts|
      invariant Counts(counts, FlatMap(alerts[..i], fromAlerts))
    {
      FlatMapStep(alerts, i, fromAlerts);
      counts := Tally(counts, alerts[i].tactics, FlatMap(alerts[..i], fromAlerts));
    }
    assert alerts[..|alerts|] == alerts;
    ghost var base := FlatMap(alerts, fromAlerts);
    assert base + [] == base;
    for i := 0 to |incidents|
      invariant Counts(counts, base + FlatMap(incidents[..i], fromIncidents))
    {
      FlatMapStep(incidents, i, fromIncidents);
      AppendAssociative(base, FlatMap(incidents[..i], fromIncidents), INCIDENT_TACTICS);
      counts := Tally(counts, INCIDENT_TACTICS, base + FlatMap(incidents[..i], fromIncidents));
    }
    assert incidents[..|incidents|] == incidents;
    rows := ListCounts(TACTIC_ORDER, counts, Mentions(alerts, incidents));
  }

  /** The tactics counted at least once, in the given order. */
  method ListCounts(order: seq<Tactic>, counts: map<Tactic, nat>, ghost mentions: seq<Tactic>)
    returns (rows: seq<TacticCount>)
    requires Counts(counts, mentions)
    ensures rows == Counted(order, mentions)
  {
    rows := [];
    for i := 0 to |order|
      invariant rows == Counted(order[..i], mentions)
    {
      assert order[..i + 1][..i] == order[..i];
      assert At(counts, order[i]) == multiset(mentions)[order[i]];
      if At(counts, order[i]) > 0 {
        rows := rows + [TacticCount(order[i], At(counts, order[i]))];
      }
    }
    assert order[..|order|] == order;
  }

  function CountOfRow(): TacticCount -> nat { (row: TacticCount) => row.count }

  function Occurrences(mentions: seq<Tactic>): Tactic -> nat { (tactic: Tactic) => multiset(mentions)[tactic] }

  lemma {:induction false} CountedSum(order: seq<Tactic>, mentions: seq<Tactic>)
    ensures Sum(Counted(order, mentions), CountOfRow()) == Sum(order, Occurrences(mentions))
  {
    if order != [] {
      var n := |order| - 1;
      CountedSum(order[..n], mentions);
      var front := Counted(order[..n], mentions);
      var last := if order[n] in mentions then [TacticCount(order[n], multiset(mentions)[order[n]])] else [];
      SumAppend(front, last, CountOfRow());
    }
  }

  lemma {:induction false} OccurrencesSum(order: seq<Tactic>, mentions: seq<Tactic>)
    requires Distinct(order) && forall tactic <- mentions :: tactic in order
    ensures Sum(order, Occurrences(mentions)) == |mentions|
  {
    if mentions == [] {
      SumZero(order, Occurrences(mentions));
    } else {
      var n := |mentions| - 1;
      assert mentions == mentions[..n] + [mentions[n]];
      OccurrencesSum(order, mentions[..n]);
      SumBump(order, Occurrences(mentions[..n]), Occurrences(mentions), mentions[n], 1);
    }
  }

  lemma EveryTacticOrdered(tactic: Tactic)
    ensures tactic in TACTIC_ORDER
  {
    var order := TACTIC_ORDER;
    assert order[0] == Reconnaissance && order[1] == ResourceDevelopment && order[2] == InitialAccess
      && order[3] == Execution && order[4] == Persistence && order[5] == PrivilegeEscalation
      && order[6] == DefenseEvasion && order[7] == CredentialAccess && order[8] == Discovery
      && order[9] == LateralMovement && order[10] == Collection && order[11] == CommandAndControl
      && order[12] == Exfiltration && order[13] == Impact;
  }

  lemma {:induction false} CountedIff(order: seq<Tactic>, mentions: seq<Tactic>, row: TacticCount)
    ensures row in Counted(order, mentions)
      <==> (row.tactic in order && row.tactic in mentions && row.count == multiset(mentions)[row.tactic])
  {
    if order != [] {
      var n := |order| - 1;
      CountedIff(order[..n], mentions, row);
      assert order == order[..n] + [order[n]];
    }
  }

  ghost predicate ListsAll(rows: seq<TacticCount>, mentions: seq<Tactic>) {
    forall row :: row in rows <==> (row.tactic in mentions && row.count == multiset(mentions)[row.tactic])
  }

  lemma CountedExact(order: seq<Tactic>, mentions: seq<Tactic>)
    requires Distinct(order) && forall tactic: Tactic :: tactic in order
    ensures ListsAll(Counted(order, mentions), mentions)
    ensures Sum(Counted(order, mentions), CountOfRow()) == |mentions|
  {
    forall row: TacticCount
      ensures row in Counted(order, mentions)
        <==> (row.tactic in mentions && row.count == multiset(mentions)[row.tactic])
    {
      CountedIff(order, mentions, row);
    }
    CountedSum(order, mentions);
    OccurrencesSum(order, mentions);
  }

  /** The distribution lists exactly the mentioned tactics with their counts, and its counts add up to all mentions. */
  lemma DistributionExact(alerts: seq<Alert>, incidents: seq<Incident>)
    ensures ListsAll(Distribution(alerts, incidents), Mentions(alerts, incidents))
    ensures Sum(Distribution(alerts, incidents), CountOfRow()) == |Mentions(alerts, incidents)|
  {
    forall tactic: Tactic
      ensures tactic in TACTIC_ORDER
    {
      EveryTacticOrdered(tactic);
    }
    CountedExact(TACTIC_ORDER, Mentions(alerts, incidents));
  }
}
