/** Outbox rows, written in the transaction of the change they announce, and ledgers of what they say
    (src/service_store_rows.py:23-31, 94-105). */
module Outbox {

  datatype OutboxRow = OutboxRow(eventType: string, aggregateType: string, aggregateId: string)

  /** The rows about one aggregate, oldest first. */
  function About(outbox: seq<OutboxRow>, kind: string, id: string): seq<OutboxRow> {
    if outbox == [] then []
    else
      var n := |outbox| - 1;
      About(outbox[..n], kind, id)
      + (if outbox[n].aggregateType == kind && outbox[n].aggregateId == id then [outbox[n]] else [])
  }

  ghost predicate LedgerAt(outbox: seq<OutboxRow>, kind: string, expected: string -> seq<OutboxRow>, id: string) {
    About(outbox, kind, id) == expected(id)
  }

  /** Every aggregate of the kind has announced exactly what is expected of it. */
  ghost predicate Ledger(outbox: seq<OutboxRow>, kind: string, expected: string -> seq<OutboxRow>) {
    forall id :: LedgerAt(outbox, kind, expected, id)
  }

  lemma AboutSnoc(outbox: seq<OutboxRow>, row: OutboxRow, kind: string, id: string)
    ensures About(outbox + [row], kind, id)
         == About(outbox, kind, id) + (if row.aggregateType == kind && row.aggregateId == id then [row] else [])
  {
    assert (outbox + [row])[..|outbox|] == outbox;
  }

  /** One more row keeps the ledger when exactly its own aggregate expects it. */
  lemma LedgerGrows(outbox: seq<OutboxRow>, kind: string, expected: string -> seq<OutboxRow>, event: OutboxRow,
                    expected': string -> seq<OutboxRow>)
    requires Ledger(outbox, kind, expected) && event.aggregateType == kind
    requires expected'(event.aggregateId) == expected(event.aggregateId) + [event]
    requires forall id :: id != event.aggregateId ==> expected'(id) == expected(id)
    ensures Ledger(outbox + [event], kind, expected')
  {
    forall id
      ensures LedgerAt(outbox + [event], kind, expected', id)
    {
      AboutSnoc(outbox, event, kind, id);
      assert LedgerAt(outbox, kind, expected, id);
      assert About(outbox, kind, id) + [] == About(outbox, kind, id);
    }
  }

  lemma LedgerSame(outbox: seq<OutboxRow>, kind: string, expected: string -> seq<OutboxRow>,
                   expected': string -> seq<OutboxRow>)
    requires Ledger(outbox, kind, expected) && forall id :: expected'(id) == expected(id)
    ensures Ledger(outbox, kind, expected')
  {
    forall id
      ensures LedgerAt(outbox, kind, expected', id)
    {
      assert LedgerAt(outbox, kind, expected, id);
    }
  }
}
