/** The command lifecycle: twelve states and the one table every lifecycle write goes through
    (hmi/backend/domain/state_machine.py). */
module Lifecycle {
  import opened Wrappers

  datatype State =
    | Received | Parsing | Validating | NeedsConfirmation | Confirmed
    | ExecutionRequested | Executing
    | Succeeded | Failed | Rejected | Cancelled | Expired

  predicate Terminal(s: State) {
    s in {Succeeded, Failed, Rejected, Cancelled, Expired}
  }

  /** The transition table. */
  predicate Allowed(from: State, to: State) {
    match from
    case Received => to in {Parsing, Rejected, Cancelled}
    case Parsing => to in {Validating, Rejected, Cancelled}
    case Validating => to in {NeedsConfirmation, Succeeded, Failed, Rejected, Cancelled, Expired}
    case NeedsConfirmation => to in {Confirmed, Cancelled, Expired}
    case Confirmed => to in {ExecutionRequested, Failed, Cancelled}
    case ExecutionRequested => to in {Executing, Failed, Cancelled}
    case Executing => to in {Succeeded, Failed, Cancelled}
    case _ => false
  }

  /** Distance from submission; every allowed transition climbs. */
  function Rank(s: State): nat {
    match s
    case Received => 0
    case Parsing => 1
    case Validating => 2
    case NeedsConfirmation => 3
    case Confirmed => 4
    case ExecutionRequested => 5
    case Executing => 6
    case _ => 7
  }

  /** The table by rank: a record that is not over moves one place on, or ends: CANCELLED from anywhere,
      REJECTED up to VALIDATING, EXPIRED at VALIDATING or while it waits, FAILED at VALIDATING or once
      confirmed, SUCCEEDED at VALIDATING or from EXECUTING. */
  lemma TransitionsExactly(from: State, to: State)
    ensures var n := Rank(from);
            Allowed(from, to) <==>
            && n < 7
            && (|| (Rank(to) == n + 1 && n < 6)
                || to == Cancelled
                || (to == Rejected && n <= 2)
                || (to == Expired && 2 <= n <= 3)
                || (to == Failed && (n == 2 || 4 <= n))
                || (to == Succeeded && (n == 2 || n == 6)))
  {
  }

  /** One row of the audit table, `from` being empty for the row written at submission. */
  datatype Row = Row(from: Option<State>, to: State)

  /** A contiguous path of the transition graph that starts at submission. */
  ghost predicate Contiguous(rows: seq<Row>) {
    && |rows| > 0
    && rows[0] == Row(None, Received)
    && forall i | 0 < i < |rows| ::
         rows[i].from == Some(rows[i - 1].to) && Allowed(rows[i - 1].to, rows[i].to)
  }

  lemma {:induction false} RankClimbs(rows: seq<Row>, i: nat, j: nat)
    requires Contiguous(rows) && i < j < |rows|
    ensures Rank(rows[i].to) + (j - i) <= Rank(rows[j].to)
    decreases j
  {
    assert Allowed(rows[j - 1].to, rows[j].to);
    if i < j - 1 {
      RankClimbs(rows, i, j - 1);
    }
  }

  /** A record is audited at most eight times, its rank rises strictly, and nothing follows a
      terminal row. */
  lemma PathShape(rows: seq<Row>)
    requires Contiguous(rows)
    ensures |rows| <= 8
    ensures forall i, j | 0 <= i < j < |rows| :: Rank(rows[i].to) < Rank(rows[j].to)
    ensures forall i | 0 <= i < |rows| - 1 :: !Terminal(rows[i].to)
  {
    forall i, j | 0 <= i < j < |rows| ensures Rank(rows[i].to) < Rank(rows[j].to) {
      RankClimbs(rows, i, j);
    }
    if |rows| > 1 {
      RankClimbs(rows, 0, |rows| - 1);
    }
    forall i | 0 <= i < |rows| - 1 ensures !Terminal(rows[i].to) {
      assert Allowed(rows[i].to, rows[i + 1].to);
    }
  }

  /** Execution is never reached around confirmation: a path through EXECUTING passes
      NEEDS_CONFIRMATION, CONFIRMED and EXECUTION_REQUESTED, in this order, immediately before. */
  lemma ExecutingWasConfirmed(rows: seq<Row>, k: nat)
    requires Contiguous(rows) && k < |rows| && rows[k].to == Executing
    ensures k == 6
    ensures rows[5].to == ExecutionRequested && rows[4].to == Confirmed && rows[3].to == NeedsConfirmation
  {
    assert Allowed(rows[k - 1].to, rows[k].to);
    assert Allowed(rows[k - 2].to, rows[k - 1].to);
    assert Allowed(rows[k - 3].to, rows[k - 2].to);
    assert Allowed(rows[k - 4].to, rows[k - 3].to);
    assert Allowed(rows[k - 5].to, rows[k - 4].to);
    assert Allowed(rows[k - 6].to, rows[k - 5].to);
    if k > 6 {
      RankClimbs(rows, 0, k);
    }
  }

  lemma ContiguousSnoc(rows: seq<Row>, to: State)
    requires Contiguous(rows) && Allowed(rows[|rows| - 1].to, to)
    ensures Contiguous(rows + [Row(Some(rows[|rows| - 1].to), to)])
  {
  }
}
