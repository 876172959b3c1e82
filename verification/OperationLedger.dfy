/** Idempotent operations: a claim by insert, a read when the claim lost, one completion. The
    statements of any number of callers interleave freely. Source: server/src/idempotency.rs. */
module OperationLedger {
  import opened Wrappers
  import opened Bytes

  /** Tenant, idempotency key, server instance and restore epoch: the primary key. */
  datatype Key = Key(tenant: nat, key: nat, instance: nat, epoch: nat)

  datatype Response = Response(code: nat, bytes: Bytes)
  datatype Status = InFlight | Succeeded(response: Response) | Failed(response: Response)
  datatype Row = Row(request: nat, status: Status)
  type Rows = map<Key, Row>

  datatype Claim = Started | Completed(response: Response) | Busy | KeyReused | NoRow

  // ----------------------------------------------------------- statements ----

  /** One statement of some caller. `dropped` marks an insert some other constraint refuses. */
  datatype Statement =
    | Insert(key: Key, request: nat, dropped: bool)
    | Read(key: Key, request: nat)
    | Finish(key: Key, response: Response)

  function Settled(r: Response): Status { if 200 <= r.code < 400 then Succeeded(r) else Failed(r) }

  function ResponseOf(s: Status): Option<Response> {
    match s
    case InFlight => None
    case Succeeded(r) => Some(r)
    case Failed(r) => Some(r)
  }

  predicate Claims(rows: Rows, w: Statement) { w.Insert? && !w.dropped && w.key !in rows }
  predicate Finishes(rows: Rows, w: Statement) { w.Finish? && w.key in rows && rows[w.key].status == InFlight }

  function Apply(rows: Rows, w: Statement): Rows {
    if Claims(rows, w) then rows[w.key := Row(w.request, InFlight)]
    else if Finishes(rows, w) then rows[w.key := rows[w.key].(status := Settled(w.response))]
    else rows
  }

  /** What the read of a caller whose insert lost tells it. */
  function Answer(rows: Rows, key: Key, request: nat): Claim {
    if key !in rows then NoRow
    else if rows[key].request != request then KeyReused
    else
      var r := ResponseOf(rows[key].status);
      if r.Some? then Completed(r.value) else Busy
  }

  function After(rows: Rows, ws: seq<Statement>): Rows
    decreases |ws|
  {
    if ws == [] then rows else After(Apply(rows, ws[0]), ws[1..])
  }

  // ------------------------------------------------------------------ runs ----

  /** A row never goes, keeps its request, and once settled keeps its response. */
  predicate Follows(before: Rows, after: Rows) {
    forall k | k in before ::
      k in after && after[k].request == before[k].request && (before[k].status != InFlight ==> after[k] == before[k])
  }

  lemma {:induction false} RunFollows(rows: Rows, ws: seq<Statement>)
    ensures Follows(rows, After(rows, ws))
    decreases |ws|
  {
    if ws != [] {
      RunFollows(Apply(rows, ws[0]), ws[1..]);
    }
  }

  /** However the statements of all callers interleave, a key is claimed at most once: after one
      insert has claimed it, no later insert does. */
  lemma StartedOnce(rows: Rows, first: Statement, ws: seq<Statement>, later: Statement)
    requires Claims(rows, first) && later.Insert? && later.key == first.key
    ensures !Claims(After(Apply(rows, first), ws), later)
  {
    RunFollows(Apply(rows, first), ws);
  }

  /** The first completion is what every later completed answer carries, byte for byte; a later
      completion changes nothing. */
  lemma FirstCompletionIsReplayed(rows: Rows, finish: Statement, ws: seq<Statement>, key: Key, request: nat)
    requires Finishes(rows, finish) && key == finish.key
    ensures var g := After(Apply(rows, finish), ws);
            && Answer(g, key, request) == (if request == rows[key].request then Completed(finish.response) else KeyReused)
            && forall other: Statement :: other.Finish? && other.key == key ==> !Finishes(g, other)
  {
    RunFollows(Apply(rows, finish), ws);
  }

  /** A caller with another request than the claim's never gets a completed answer. */
  lemma OtherRequestIsRefused(rows: Rows, claim: Statement, ws: seq<Statement>, request: nat)
    requires Claims(rows, claim) && request != claim.request
    ensures Answer(After(Apply(rows, claim), ws), claim.key, request) == KeyReused
  {
    RunFollows(Apply(rows, claim), ws);
  }

  /** Nothing is answered as completed before someone claimed the key and someone completed it. */
  lemma {:induction false} CompletedWasClaimedAndFinished(ws: seq<Statement>, key: Key, request: nat, r: Response)
    requires Answer(After(map[], ws), key, request) == Completed(r)
    ensures exists i, j :: 0 <= i < j < |ws| && ws[i].Insert? && ws[i].key == key && ws[i].request == request
                           && ws[j].Finish? && ws[j].key == key && ws[j].response == r
  {
    var j := FinishOf(map[], ws, key);
    AfterSplit(map[], ws[..j], ws[j..]);
    assert ws[..j] + ws[j..] == ws;
    var mid := After(map[], ws[..j]);
    assert ws[j..][0] == ws[j];
    FirstCompletionIsReplayed(mid, ws[j], ws[j..][1..], key, request);
    var i := ClaimOf(map[], ws[..j], key);
  }

  lemma {:induction false} AfterSplit(rows: Rows, a: seq<Statement>, b: seq<Statement>)
    ensures After(rows, a + b) == After(After(rows, a), b)
    decreases |a|
  {
    if a == [] {
      assert a + b == b;
    } else {
      assert (a + b)[1..] == a[1..] + b;
      AfterSplit(Apply(rows, a[0]), a[1..], b);
    }
  }

  lemma {:induction false} FinishOf(rows: Rows, ws: seq<Statement>, key: Key) returns (j: nat)
    requires key !in rows || rows[key].status == InFlight
    requires key in After(rows, ws) && After(rows, ws)[key].status != InFlight
    ensures j < |ws| && ws[j].Finish? && ws[j].key == key && Finishes(After(rows, ws[..j]), ws[j])
    decreases |ws|
  {
    if Finishes(rows, ws[0]) && ws[0].key == key {
      j := 0;
    } else {
      var n := FinishOf(Apply(rows, ws[0]), ws[1..], key);
      j := n + 1;
      assert ws[..j][1..] == ws[1..][..n];
    }
  }

  lemma {:induction false} ClaimOf(rows: Rows, ws: seq<Statement>, key: Key) returns (i: nat)
    requires key !in rows && key in After(rows, ws)
    ensures i < |ws| && ws[i].Insert? && ws[i].key == key && After(rows, ws)[key].request == ws[i].request
    decreases |ws|
  {
    if Claims(rows, ws[0]) && ws[0].key == key {
      i := 0;
      RunFollows(Apply(rows, ws[0]), ws[1..]);
    } else {
      var n := ClaimOf(Apply(rows, ws[0]), ws[1..], key);
      i := n + 1;
    }
  }

  // ------------------------------------------------------------- the calls ----

  class Ledger {
    var rows: Rows

    constructor ()
      ensures rows == map[]
    {
      rows := map[];
    }

    /** The claim; `between` are the statements of other callers that land before the read of a
        claim that lost. */
    method BeginOperation(key: Key, request: nat, dropped: bool, between: seq<Statement>) returns (claim: Claim)
      modifies this
      ensures claim == Started <==> Claims(old(rows), Insert(key, request, dropped))
      ensures claim == Started ==> rows == Apply(old(rows), Insert(key, request, dropped))
      ensures claim != Started ==> rows == After(old(rows), between) && claim == Answer(rows, key, request)
      ensures key in old(rows) && old(rows)[key].request != request ==> claim == KeyReused
      ensures key in old(rows) && old(rows)[key].request == request && old(rows)[key].status != InFlight ==>
                claim == Completed(ResponseOf(old(rows)[key].status).value)
    {
      if key !in rows && !dropped {
        rows := rows[key := Row(request, InFlight)];
        return Started;
      }
      RunFollows(rows, between);
      rows := After(rows, between);
      claim := Answer(rows, key, request);
    }

    /** Guarded by the in-flight status, so a late writer changes nothing. */
    method CompleteOperation(key: Key, response: Response)
      modifies this
      ensures rows == Apply(old(rows), Finish(key, response))
      ensures Follows(old(rows), rows)
    {
      if key in rows && rows[key].status == InFlight {
        var status := if 200 <= response.code < 400 then Succeeded(response) else Failed(response);
        rows := rows[key := rows[key].(status := status)];
      }
    }
  }
}
