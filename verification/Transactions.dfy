/** Transaction requests: which ones are accepted, which commit path they take,
    and how receipts are counted. */
module Transactions {
  import opened Bytes
  import opened Records
  import opened Mvcc

  // ---- ParseTxnRequest ----

  datatype Compare = Compare(key: Bytes, onModRevision: bool, isEqual: bool, modRevision: int)

  datatype RequestOp =
    | OpPut(key: Bytes, value: Bytes, lease: int, prevKv: bool)
    | OpDeleteRange(key: Bytes, prevKv: bool)
    | OpRange(key: Bytes, rangeEnd: Option<Bytes>)
    | OpTxn

  datatype TxnRequest = TxnRequest(compare: seq<Compare>, success: seq<RequestOp>, failure: seq<RequestOp>)

  datatype ParseError = InvalidTxnRequest | Unsupported

  function ParseTxnRequest(r: TxnRequest): Result<Request, ParseError> {
    if |r.compare| != 1 || |r.success| != 1 || |r.failure| > 1 || !r.compare[0].onModRevision || !r.compare[0].isEqual then
      Err(InvalidTxnRequest)
    else
      var key, mod, op := r.compare[0].key, r.compare[0].modRevision, r.success[0];
      if (op.OpPut? || op.OpDeleteRange?) && op.prevKv then Err(InvalidTxnRequest)
      else if (op.OpPut? || op.OpDeleteRange?) && op.key != key then Err(InvalidTxnRequest)
      else if |r.failure| == 1 && !r.failure[0].OpRange? then Err(InvalidTxnRequest)
      else if |r.failure| == 1 && r.failure[0].rangeEnd.Some? then Err(InvalidTxnRequest)
      else if |r.failure| == 1 && r.failure[0].key != key then Err(InvalidTxnRequest)
      else if mod == 0 && op.OpPut? then Ok(Create(op.key, op.value, op.lease))
      else if mod > 0 && op.OpPut? && |r.failure| == 1 then Ok(Update(op.key, op.value, op.lease, mod))
      else if mod > 0 && op.OpDeleteRange? && |r.failure| == 1 then Ok(Delete(op.key, mod))
      else Err(Unsupported)
  }

  /** The request the Kubernetes client sends for `q`. */
  function Encode(q: Request, withFailure: bool): TxnRequest {
    TxnRequest(
      [Compare(q.key, true, true, Compared(q))],
      [if q.Delete? then OpDeleteRange(q.key, false) else OpPut(q.key, q.value, q.lease, false)],
      if withFailure then [OpRange(q.key, None)] else [])
  }

  /** Exactly the encodings are accepted: creates with or without a failure
      range, updates and deletes with one. */
  lemma ParseAcceptsExactly(r: TxnRequest, q: Request)
    ensures ParseTxnRequest(r) == Ok(q) <==>
            && (!q.Create? ==> q.compare > 0)
            && ((q.Create? && r == Encode(q, false)) || r == Encode(q, true))
  {
  }

  // ---- What a failed compare answers ----

  /** The failure range runs on a compare failure that InsertRecord reports as
      such, and only when the request carries one. */
  predicate RunsFailureRange(t: Table, q: Record, at: int, failures: nat) {
    InsertRow(t, q, at) == Err(CompareRevisionFailed) && failures == 1
  }

  /** etcd runs the failure branch on every failed compare. Here a create of a
      live key and a delete of a missing one fail an earlier NOT NULL column,
      so the range runs exactly for updates and for deletes of a live key. */
  lemma FailureRangeIff(t: Table, n: nat, q: Request, leader: string, at: int)
    requires LogInv(t, n) && ValidRequest(q) && leader != ""
    requires ModRevision(StoreAt(t, n), q.key) != Compared(q)
    ensures RunsFailureRange(t, ToRecord(q, n + 1, leader), at, 1) <==> q.Update? || (q.Delete? && q.key in StoreAt(t, n))
  {
    InsertedIffCompareHolds(t, n, q, leader, at);
    ConstraintsNeverFire(t, n, ToRecord(q, n + 1, leader), at);
    MaxRevGapFree(t, n);
    StoreLookup(t, n, q.key);
  }

  // ---- The commit path ----

  function RequiredReceipts(quorum: int, nodeCount: int): int {
    if quorum == 0 then 0
    else if quorum > 0 then quorum
    else if nodeCount <= 1 then 0
    else nodeCount / 2
  }

  datatype Strategy = Strategy(useQuorum: bool, requiredReceipts: int)

  function SelectTxnStrategy(quorum: int, nodeCount: int, healthyForQuorum: int): Strategy {
    var required := RequiredReceipts(quorum, nodeCount);
    if required <= 0 || healthyForQuorum < required then Strategy(false, 0) else Strategy(true, required)
  }

  /** Under majority quorum the Primary plus the required replicas are a strict
      majority of the nodes, and no smaller requirement would be. */
  lemma MajorityReceipts(quorum: int, nodeCount: nat, healthy: int)
    requires quorum < 0
    ensures var s := SelectTxnStrategy(quorum, nodeCount, healthy);
            && (s.useQuorum <==> nodeCount >= 2 && healthy >= nodeCount / 2)
            && (s.useQuorum ==> 2 * (s.requiredReceipts + 1) > nodeCount && 2 * s.requiredReceipts <= nodeCount)
  {
  }

  /** Collects receipts of one in-flight quorum transaction. */
  class ReceiptCollector {
    const revision: nat
    const required: int
    var acked: set<string>
    var done: bool

    ghost predicate Valid()
      reads this
    {
      done <==> |acked| >= required
    }

    constructor (revision: nat, required: int)
      requires required > 0
      ensures Valid() && this.revision == revision && this.required == required && acked == {}
    {
      this.revision, this.required := revision, required;
      acked, done := {}, false;
    }

    method CollectReceipt(nodeId: string)
      requires Valid()
      modifies this
      ensures Valid()
      ensures acked == if old(done) then old(acked) else old(acked) + {nodeId}
      ensures old(done) ==> done
    {
      if done {
        return;
      }
      acked := acked + {nodeId};
      if |acked| >= required {
        done := true;
      }
    }
  }
}
