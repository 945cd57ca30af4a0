/** The idempotent approval store (20_production_controls.py). Every call runs under one lock, so an
    interleaving of calls is a sequence of atomic steps. */
module Approvals {
  import opened Common

  datatype Status = Pending | ApprovedStatus | OtherStatus(text: string)

  datatype ChangeRequest = ChangeRequest(
    found: bool, tenantId: string, version: int, status: Status, risk: string, testsPassed: bool, rollbackReady: bool)

  /** What is hashed into the fingerprint; SHA-256 of its JSON is injective, so it stands for itself. */
  datatype Payload = Payload(changeId: string, tenantId: string, version: int, approvedBy: string)

  /** `"APR-"` and a digest of the idempotency key. */
  datatype ApprovalId = ApprovalId(key: string)

  datatype Receipt = Receipt(approvalId: ApprovalId, payload: Payload, replayed: bool)

  datatype Failure = KeyReused | AlreadyApproved | NotFound | OutsideScope | StaleVersion | NotEligible

  datatype Outcome = Approved(receipt: Receipt) | Failed(error: Failure)

  datatype Store = Store(
    changes: map<string, ChangeRequest>,
    records: map<string, Receipt>,
    keys: map<(string, string), string>,
    writes: nat)

  function Opened(changes: map<string, ChangeRequest>): Store {
    Store(changes, map[], map[], 0)
  }

  datatype Call = Call(payload: Payload, key: string)

  function BusinessKey(p: Payload): (string, string) {
    (p.tenantId, p.changeId)
  }

  predicate Eligible(c: ChangeRequest) {
    c.status == Pending && c.risk == "low" && c.testsPassed && c.rollbackReady
  }

  /** `approve_once`. */
  function Approve(s: Store, call: Call): (Store, Outcome) {
    var p, key := call.payload, call.key;
    if key in s.records then
      if s.records[key].payload != p then (s, Failed(KeyReused))
      else (s, Approved(s.records[key].(replayed := true)))
    else if BusinessKey(p) in s.keys then (s, Failed(AlreadyApproved))
    else if p.changeId !in s.changes || !s.changes[p.changeId].found then (s, Failed(NotFound))
    else
      var record := s.changes[p.changeId];
      if record.tenantId != p.tenantId then (s, Failed(OutsideScope))
      else if record.version != p.version then (s, Failed(StaleVersion))
      else if !Eligible(record) then (s, Failed(NotEligible))
      else
        var receipt := Receipt(ApprovalId(key), p, false);
        (Store(s.changes[p.changeId := record.(status := ApprovedStatus)], s.records[key := receipt],
               s.keys[BusinessKey(p) := key], s.writes + 1),
         Approved(receipt))
  }

  // ----- the store as an object

  class InMemoryApprovalStore {
    var changes: map<string, ChangeRequest>
    var records: map<string, Receipt>
    var keys: map<(string, string), string>
    var writes: nat

    ghost function Now(): Store
      reads this
    {
      Store(changes, records, keys, writes)
    }

    constructor (changeRequests: map<string, ChangeRequest>)
      ensures Now() == Opened(changeRequests)
    {
      changes, records, keys, writes := changeRequests, map[], map[], 0;
    }

    method WriteCount() returns (n: nat)
      ensures n == Now().writes
    {
      n := writes;
    }

    method GetByKey(key: string) returns (r: Option<Receipt>)
      ensures r == if key in Now().records then Some(Now().records[key]) else None
    {
      r := if key in records then Some(records[key]) else None;
    }

    method ApproveOnce(call: Call) returns (o: Outcome)
      modifies this
      ensures (Now(), o) == Approve(old(Now()), call)
    {
      var p, key := call.payload, call.key;
      if key in records {
        var receipt := records[key];
        if receipt.payload != p {
          return Failed(KeyReused);
        }
        return Approved(receipt.(replayed := true));
      }
      if BusinessKey(p) in keys {
        return Failed(AlreadyApproved);
      }
      if p.changeId !in changes || !changes[p.changeId].found {
        return Failed(NotFound);
      }
      var record := changes[p.changeId];
      if record.tenantId != p.tenantId {
        return Failed(OutsideScope);
      }
      if record.version != p.version {
        return Failed(StaleVersion);
      }
      if !Eligible(record) {
        return Failed(NotEligible);
      }
      var receipt := Receipt(ApprovalId(key), p, false);
      records := records[key := receipt];
      keys := keys[BusinessKey(p) := key];
      changes := changes[p.changeId := record.(status := ApprovedStatus)];
      writes := writes + 1;
      o := Approved(receipt);
    }
  }

  // ----- runs

  /** The store after the calls, in order. */
  function After(s: Store, calls: seq<Call>): Store {
    if calls == [] then s else Approve(After(s, calls[..|calls| - 1]), calls[|calls| - 1]).0
  }

  /** What the `i`-th call of a run returned. */
  function Returned(s: Store, calls: seq<Call>, i: nat): Outcome
    requires i < |calls|
  {
    Approve(After(s, calls[..i]), calls[i]).1
  }

  predicate IsFresh(o: Outcome) {
    o.Approved? && !o.receipt.replayed
  }

  /** How many of the first `n` calls newly approved a change. */
  function FreshCount(s: Store, calls: seq<Call>, n: nat): nat
    requires n <= |calls|
  {
    if n == 0 then 0
    else FreshCount(s, calls, n - 1) + if IsFresh(Returned(s, calls, n - 1)) then 1 else 0
  }

  ghost predicate Recorded(s: Store, key: string, r: Receipt) {
    && r.approvalId == ApprovalId(key) && !r.replayed
    && BusinessKey(r.payload) in s.keys && s.keys[BusinessKey(r.payload)] == key
    && r.payload.changeId in s.changes && s.changes[r.payload.changeId].status == ApprovedStatus
    && s.changes[r.payload.changeId].tenantId == r.payload.tenantId
  }

  /** Stored receipts and approved business keys correspond one to one, and each was counted. */
  ghost predicate Inv(s: Store) {
    && s.writes == |s.records| == |s.keys|
    && (forall key {:trigger s.records[key]} | key in s.records :: Recorded(s, key, s.records[key]))
    && forall b {:trigger s.keys[b]} | b in s.keys ::
      s.keys[b] in s.records && BusinessKey(s.records[s.keys[b]].payload) == b
  }

  lemma RecordedKept(s: Store, t: Store, call: Call, key: string)
    requires key in s.records && Recorded(s, key, s.records[key]) && t == Approve(s, call).0
    ensures key in t.records && t.records[key] == s.records[key] && Recorded(t, key, t.records[key])
  {
  }

  lemma StepRecorded(s: Store, call: Call)
    requires Inv(s)
    ensures var t := Approve(s, call).0;
      forall key {:trigger t.records[key]} | key in t.records :: Recorded(t, key, t.records[key])
  {
    var t := Approve(s, call).0;
    forall key | key in t.records ensures Recorded(t, key, t.records[key]) {
      if key in s.records {
        assert Recorded(s, key, s.records[key]);
        RecordedKept(s, t, call, key);
      }
    }
  }

  lemma StepInv(s: Store, call: Call)
    requires Inv(s)
    ensures Inv(Approve(s, call).0)
  {
    var t := Approve(s, call).0;
    StepRecorded(s, call);
    forall b | b in t.keys ensures t.keys[b] in t.records && BusinessKey(t.records[t.keys[b]].payload) == b {
      if b in s.keys { assert s.keys[b] in s.records; }
    }
  }

  /** After any calls on a fresh store: `write_count` equals the number of stored keys and of approved
      business keys, and the number of calls that newly approved something. */
  lemma {:induction false} RunInv(changes: map<string, ChangeRequest>, calls: seq<Call>)
    ensures var s := After(Opened(changes), calls);
      Inv(s) && s.writes == |s.records| == |s.keys| == FreshCount(Opened(changes), calls, |calls|)
  {
    if calls != [] {
      var n := |calls| - 1;
      RunInv(changes, calls[..n]);
      var s := After(Opened(changes), calls[..n]);
      StepInv(s, calls[n]);
      FreshPrefix(Opened(changes), calls, n, n);
      FreshWrites(s, calls[n]);
      assert calls[..n] == calls[..n][..n];
    }
  }

  lemma FreshWrites(s: Store, call: Call)
    ensures Approve(s, call).0.writes == s.writes + if IsFresh(Approve(s, call).1) then 1 else 0
  {
  }

  lemma {:induction false} FreshPrefix(s: Store, calls: seq<Call>, m: nat, n: nat)
    requires n <= m <= |calls|
    ensures FreshCount(s, calls[..m], n) == FreshCount(s, calls, n)
  {
    if n > 0 {
      FreshPrefix(s, calls, m, n - 1);
      assert calls[..m][..n - 1] == calls[..n - 1];
    }
  }

  /** A failed or replayed call changes nothing. */
  lemma OnlyFreshWrites(s: Store, call: Call)
    ensures !IsFresh(Approve(s, call).1) ==> Approve(s, call).0 == s
    ensures IsFresh(Approve(s, call).1) ==>
      var p := call.payload;
      && call.key !in s.records && BusinessKey(p) !in s.keys
      && p.changeId in s.changes && Eligible(s.changes[p.changeId])
      && Approve(s, call).0.changes == s.changes[p.changeId := s.changes[p.changeId].(status := ApprovedStatus)]
  {
  }

  // ----- exactly once

  lemma {:induction false} AfterLater(s: Store, calls: seq<Call>, i: nat)
    requires i <= |calls|
    ensures After(s, calls) == After(After(s, calls[..i]), calls[i..])
  {
    if i == |calls| {
      assert calls[..i] == calls;
    } else {
      var n := |calls| - 1;
      AfterLater(s, calls[..n], i);
      assert calls[..n][..i] == calls[..i] && calls[..n][i..] == calls[i..][..n - i];
      assert calls[i..][n - i] == calls[n];
    }
  }

  /** A stored receipt is never lost or changed. */
  lemma {:induction false} ReceiptKept(s: Store, calls: seq<Call>, key: string)
    requires Inv(s) && key in s.records
    ensures Inv(After(s, calls)) && key in After(s, calls).records && After(s, calls).records[key] == s.records[key]
  {
    if calls != [] {
      var n := |calls| - 1;
      ReceiptKept(s, calls[..n], key);
      var mid := After(s, calls[..n]);
      StepInv(mid, calls[n]);
      assert Recorded(mid, key, mid.records[key]);
      RecordedKept(mid, Approve(mid, calls[n]).0, calls[n], key);
    }
  }

  lemma FreshStored(s: Store, call: Call)
    requires IsFresh(Approve(s, call).1)
    ensures var t := Approve(s, call).0;
      call.key in t.records && t.records[call.key] == Approve(s, call).1.receipt
      && t.records[call.key] == Receipt(ApprovalId(call.key), call.payload, false)
  {
  }

  /** The store a later call sees still holds the receipt of an earlier approval. */
  lemma FreshRemembered(changes: map<string, ChangeRequest>, calls: seq<Call>, i: nat, j: nat)
    requires i < j <= |calls| && IsFresh(Returned(Opened(changes), calls, i))
    ensures var s := After(Opened(changes), calls[..j]);
      && Inv(s) && calls[i].key in s.records
      && s.records[calls[i].key] == Returned(Opened(changes), calls, i).receipt
      && s.records[calls[i].key].payload == calls[i].payload
  {
    var s0 := Opened(changes);
    RunInv(changes, calls[..i + 1]);
    assert calls[..i + 1][..i] == calls[..i];
    FreshStored(After(s0, calls[..i]), calls[i]);
    AfterLater(s0, calls[..j], i + 1);
    assert calls[..j][..i + 1] == calls[..i + 1];
    ReceiptKept(After(s0, calls[..i + 1]), calls[..j][i + 1..], calls[i].key);
  }

  /** After a first approval under a key, every call with that key and payload returns the first receipt
      with only `replayed` changed, a call with that key and another payload conflicts, and no other
      key ever approves that change again. */
  lemma FirstApprovalStands(changes: map<string, ChangeRequest>, calls: seq<Call>, i: nat, j: nat)
    requires i < j < |calls| && IsFresh(Returned(Opened(changes), calls, i))
    ensures var first := Returned(Opened(changes), calls, i).receipt;
      var later := Returned(Opened(changes), calls, j);
      && (calls[j].key == calls[i].key ==>
            later == if calls[j].payload == calls[i].payload then Approved(first.(replayed := true))
              else Failed(KeyReused))
      && (calls[j].payload.changeId == calls[i].payload.changeId ==> !IsFresh(later))
  {
    FreshRemembered(changes, calls, i, j);
    var s := After(Opened(changes), calls[..j]);
    assert Recorded(s, calls[i].key, s.records[calls[i].key]);
  }

  /** Each change goes from pending to approved at most once in any run. */
  lemma ApprovedOnce(changes: map<string, ChangeRequest>, calls: seq<Call>, i: nat, j: nat)
    requires i < |calls| && j < |calls| && calls[i].payload.changeId == calls[j].payload.changeId
    requires IsFresh(Returned(Opened(changes), calls, i)) && IsFresh(Returned(Opened(changes), calls, j))
    ensures i == j
  {
    if i < j { FirstApprovalStands(changes, calls, i, j); }
    if j < i { FirstApprovalStands(changes, calls, j, i); }
  }

  ghost predicate ApprovedBy(s: Store, calls: seq<Call>, i: nat, changeId: string) {
    i < |calls| && calls[i].payload.changeId == changeId && IsFresh(Returned(s, calls, i))
  }

  /** A change's record only ever differs in its status, which moved from pending to approved exactly
      when some call of the run approved it. */
  lemma {:induction false} StatusHistory(changes: map<string, ChangeRequest>, calls: seq<Call>, changeId: string)
    ensures var s := After(Opened(changes), calls);
      && s.changes.Keys == changes.Keys
      && (changeId in changes ==>
            if exists i: nat :: ApprovedBy(Opened(changes), calls, i, changeId)
            then changes[changeId].status == Pending &&
              s.changes[changeId] == changes[changeId].(status := ApprovedStatus)
            else s.changes[changeId] == changes[changeId])
  {
    if calls != [] {
      var n := |calls| - 1;
      var s0 := Opened(changes);
      StatusHistory(changes, calls[..n], changeId);
      ApprovedEarlier(s0, calls, changeId);
      OnlyFreshWrites(After(s0, calls[..n]), calls[n]);
      if ApprovedBy(s0, calls, n, changeId) {
        forall i: nat | i < n ensures !ApprovedBy(s0, calls, i, changeId) {
          if ApprovedBy(s0, calls, i, changeId) {
            ApprovedOnce(changes, calls, i, n);
            assert false;
          }
        }
      }
    }
  }

  lemma ApprovedEarlier(s: Store, calls: seq<Call>, changeId: string)
    requires calls != []
    ensures var n := |calls| - 1;
      && (forall i: nat | i < n :: ApprovedBy(s, calls, i, changeId) <==> ApprovedBy(s, calls[..n], i, changeId))
      && ((exists i: nat :: ApprovedBy(s, calls, i, changeId))
          <==> (exists i: nat :: ApprovedBy(s, calls[..n], i, changeId)) || ApprovedBy(s, calls, n, changeId))
  {
    var n := |calls| - 1;
    forall i: nat | i < n ensures ApprovedBy(s, calls, i, changeId) <==> ApprovedBy(s, calls[..n], i, changeId) {
      assert calls[..n][..i] == calls[..i] && calls[..n][i] == calls[i];
    }
    if i: nat :| ApprovedBy(s, calls, i, changeId) {
      assert i < n ==> ApprovedBy(s, calls[..n], i, changeId);
    }
    if i: nat :| ApprovedBy(s, calls[..n], i, changeId) {
      assert ApprovedBy(s, calls, i, changeId);
    }
  }

  // ----- what every call of a run returns

  /** An earlier call newly approved something under this key. */
  ghost predicate KeyUsed(s: Store, calls: seq<Call>, n: nat, key: string, i: nat) {
    i < n <= |calls| && calls[i].key == key && IsFresh(Returned(s, calls, i))
  }

  /** An earlier call newly approved this tenant's change. */
  ghost predicate ChangeApproved(s: Store, calls: seq<Call>, n: nat, p: Payload, i: nat) {
    && i < n <= |calls| && IsFresh(Returned(s, calls, i))
    && calls[i].payload.tenantId == p.tenantId && calls[i].payload.changeId == p.changeId
  }

  predicate Known(changes: map<string, ChangeRequest>, p: Payload) {
    p.changeId in changes && changes[p.changeId].found
  }

  /** The request as it was opened may be approved automatically. */
  predicate LowRisk(c: ChangeRequest) {
    c.status == Pending && c.risk == "low" && c.testsPassed && c.rollbackReady
  }

  /** The answer of a first request, from the change as it was opened. */
  ghost predicate DecidesFirst(changes: map<string, ChangeRequest>, call: Call, o: Outcome) {
    var p := call.payload;
    if !Known(changes, p) then o == Failed(NotFound)
    else
      var c := changes[p.changeId];
      && (c.tenantId != p.tenantId ==> o == Failed(OutsideScope))
      && (c.tenantId == p.tenantId && c.version != p.version ==> o == Failed(StaleVersion))
      && (c.tenantId == p.tenantId && c.version == p.version && !LowRisk(c) ==> o == Failed(NotEligible))
      && (c.tenantId == p.tenantId && c.version == p.version && LowRisk(c) ==>
            o == Approved(Receipt(ApprovalId(call.key), p, false)))
  }

  ghost predicate RemembersKey(s0: Store, calls: seq<Call>, n: nat, s: Store, key: string) {
    && (key in s.records <==> exists i: nat :: KeyUsed(s0, calls, n, key, i))
    && forall i: nat | KeyUsed(s0, calls, n, key, i) ::
         key in s.records && s.records[key] == Receipt(ApprovalId(key), calls[i].payload, false)
  }

  ghost predicate RemembersChange(s0: Store, calls: seq<Call>, n: nat, s: Store, p: Payload) {
    BusinessKey(p) in s.keys <==> exists i: nat :: ChangeApproved(s0, calls, n, p, i)
  }

  lemma KeyStep(s0: Store, calls: seq<Call>, m: nat, key: string)
    requires m < |calls| && RemembersKey(s0, calls, m, After(s0, calls[..m]), key)
    ensures RemembersKey(s0, calls, m + 1, Approve(After(s0, calls[..m]), calls[m]).0, key)
  {
    var t := Approve(After(s0, calls[..m]), calls[m]).0;
    var here := calls[m].key == key && IsFresh(Returned(s0, calls, m));
    forall i: nat ensures KeyUsed(s0, calls, m + 1, key, i) <==> KeyUsed(s0, calls, m, key, i) || (i == m && here) {}
    if here {
      FreshStored(After(s0, calls[..m]), calls[m]);
      assert KeyUsed(s0, calls, m + 1, key, m);
      assert key !in After(s0, calls[..m]).records;
    } else {
      OtherKeyKept(After(s0, calls[..m]), calls[m], key);
    }
  }

  lemma OtherKeyKept(s: Store, call: Call, key: string)
    requires !(call.key == key && IsFresh(Approve(s, call).1))
    ensures var t := Approve(s, call).0;
      (key in t.records <==> key in s.records) && (key in s.records ==> t.records[key] == s.records[key])
  {
  }

  lemma ChangeStep(s0: Store, calls: seq<Call>, m: nat, p: Payload)
    requires m < |calls| && RemembersChange(s0, calls, m, After(s0, calls[..m]), p)
    ensures RemembersChange(s0, calls, m + 1, Approve(After(s0, calls[..m]), calls[m]).0, p)
  {
    var here := BusinessKey(calls[m].payload) == BusinessKey(p) && IsFresh(Returned(s0, calls, m));
    var n := m + 1;
    if here { assert ChangeApproved(s0, calls, n, p, m); }
    if i: nat :| ChangeApproved(s0, calls, m, p, i) { assert ChangeApproved(s0, calls, n, p, i); }
    if i: nat :| ChangeApproved(s0, calls, n, p, i) { assert here || ChangeApproved(s0, calls, m, p, i); }
    BusinessKeyStep(After(s0, calls[..m]), calls[m], p);
  }

  lemma BusinessKeyStep(s: Store, call: Call, p: Payload)
    ensures BusinessKey(p) in Approve(s, call).0.keys <==>
      BusinessKey(p) in s.keys || (BusinessKey(call.payload) == BusinessKey(p) && IsFresh(Approve(s, call).1))
  {
  }

  /** The store holds exactly the keys and changes of earlier fresh approvals. */
  lemma {:induction false} StoreRemembers(
    changes: map<string, ChangeRequest>, calls: seq<Call>, n: nat, key: string, p: Payload)
    requires n <= |calls|
    ensures RemembersKey(Opened(changes), calls, n, After(Opened(changes), calls[..n]), key)
    ensures RemembersChange(Opened(changes), calls, n, After(Opened(changes), calls[..n]), p)
  {
    if n > 0 {
      assert calls[..n][..n - 1] == calls[..n - 1] && calls[..n][n - 1] == calls[n - 1];
      StoreRemembers(changes, calls, n - 1, key, p);
      KeyStep(Opened(changes), calls, n - 1, key);
      ChangeStep(Opened(changes), calls, n - 1, p);
    }
  }

  /** A change is approved for its own tenant only. */
  lemma FreshTenant(changes: map<string, ChangeRequest>, calls: seq<Call>, i: nat)
    requires i < |calls| && IsFresh(Returned(Opened(changes), calls, i))
    ensures var p := calls[i].payload; p.changeId in changes && changes[p.changeId].tenantId == p.tenantId
  {
    StatusHistory(changes, calls[..i], calls[i].payload.changeId);
  }

  /** A change nobody approved for its tenant is as it was opened. */
  lemma UnapprovedAsOpened(changes: map<string, ChangeRequest>, calls: seq<Call>, n: nat, p: Payload)
    requires n <= |calls| && p.changeId in changes && changes[p.changeId].tenantId == p.tenantId
    requires forall i: nat :: !ChangeApproved(Opened(changes), calls, n, p, i)
    ensures var s := After(Opened(changes), calls[..n]);
      p.changeId in s.changes && s.changes[p.changeId] == changes[p.changeId]
  {
    StatusHistory(changes, calls[..n], p.changeId);
    forall i: nat ensures !ApprovedBy(Opened(changes), calls[..n], i, p.changeId) {
      if i < n { SameReturned(Opened(changes), calls, n, i); }
      if i < n && IsFresh(Returned(Opened(changes), calls, i)) {
        FreshTenant(changes, calls, i);
        assert !ChangeApproved(Opened(changes), calls, n, p, i);
      }
    }
  }

  lemma SameReturned(s: Store, calls: seq<Call>, n: nat, i: nat)
    requires i < n <= |calls|
    ensures Returned(s, calls[..n], i) == Returned(s, calls, i)
  {
    assert calls[..n][..i] == calls[..i] && calls[..n][i] == calls[i];
  }

  lemma FirstDecision(changes: map<string, ChangeRequest>, s: Store, call: Call)
    requires call.key !in s.records && BusinessKey(call.payload) !in s.keys
    requires s.changes.Keys == changes.Keys
    requires call.payload.changeId in changes ==>
      && s.changes[call.payload.changeId].(status := Pending) == changes[call.payload.changeId].(status := Pending)
      && (changes[call.payload.changeId].tenantId == call.payload.tenantId ==>
            s.changes[call.payload.changeId] == changes[call.payload.changeId])
    ensures DecidesFirst(changes, call, Approve(s, call).1)
  {
  }

  /** What any call of any run returns, from the changes as they were opened and the earlier fresh
      approvals alone: a replay or a conflict under a used key, a refusal of an approved change, and
      otherwise the decision on the change itself. */
  lemma DecisionTable(changes: map<string, ChangeRequest>, calls: seq<Call>, n: nat)
    requires n < |calls|
    ensures var s0 := Opened(changes); var call := calls[n]; var o := Returned(s0, calls, n);
      && (forall i: nat | KeyUsed(s0, calls, n, call.key, i) ::
            o == if calls[i].payload == call.payload then Approved(Receipt(ApprovalId(call.key), call.payload, true))
                 else Failed(KeyReused))
      && ((forall i: nat :: !KeyUsed(s0, calls, n, call.key, i)) ==>
            if exists i: nat :: ChangeApproved(s0, calls, n, call.payload, i) then o == Failed(AlreadyApproved)
            else DecidesFirst(changes, call, o))
  {
    var s0 := Opened(changes);
    var call, s := calls[n], After(s0, calls[..n]);
    StoreRemembers(changes, calls, n, call.key, call.payload);
    StatusHistory(changes, calls[..n], call.payload.changeId);
    if call.key !in s.records && BusinessKey(call.payload) !in s.keys {
      var p := call.payload;
      if p.changeId in changes && changes[p.changeId].tenantId == p.tenantId {
        UnapprovedAsOpened(changes, calls, n, p);
      }
      FirstDecision(changes, s, call);
    }
  }
}
