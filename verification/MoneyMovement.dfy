/** Transfers and repayments: one durable record per client request id, written before the single
    outgoing call and resolved after it. */
module MoneyMovement {
  import opened Options
  import RepayMatching

  const PENDING := "pending"
  const SUCCEEDED := "succeeded"
  const FAILED := "failed"
  const UNKNOWN := "unknown"

  /** `reference` is the transfer id or the amount repaid. */
  datatype Resolution = Resolution(status: string, reference: Option<string>, updateTime: Option<string>,
                                   errorCode: Option<string>)

  datatype Record = Record(asset: string, amount: string, status: string, reference: Option<string>,
                           updateTime: Option<string>, errorCode: Option<string>, price: Option<string>,
                           createdAtUs: int, updatedAtUs: int)

  // ------------------------------------------------------------ classification

  datatype Body = Body(tranId: Option<string>, success: bool, asset: Option<string>, amount: Option<string>,
                       updateTime: Option<string>, code: Option<string>)

  /** The client raised, came back without an HTTP status, or returned one. */
  datatype Response = Raised | NoAnswer | Answer(http: int, body: Body)

  function Undecided(code: Option<string>): Resolution {
    Resolution(UNKNOWN, None, None, code)
  }

  function DispatchTransfer(r: Response): Resolution {
    if !r.Answer? then Undecided(None)
    else if r.http == 200 then
      if r.body.tranId.None? then Undecided(None) else Resolution(SUCCEEDED, r.body.tranId, None, None)
    else if r.http in {418, 429} then Undecided(r.body.code)
    else if 400 <= r.http < 500 then Resolution(FAILED, None, None, r.body.code)
    else Undecided(r.body.code)
  }

  function DispatchRepay(asset: string, r: Response): Resolution {
    if !r.Answer? then Undecided(None)
    else if r.http == 200 then
      if r.body.success && r.body.asset == Some(asset)
      then Resolution(SUCCEEDED, r.body.amount, r.body.updateTime, None)
      else Undecided(None)
    else if r.http in {408, 418, 429} || r.http >= 500 then Undecided(r.body.code)
    else if 400 <= r.http < 500 then Resolution(FAILED, None, None, r.body.code)
    else Undecided(r.body.code)
  }

  // -------------------------------------------------------------------- tables

  function Fresh(asset: string, amount: string, nowUs: int): Record {
    Record(asset, amount, PENDING, None, None, None, None, nowUs, nowUs)
  }

  /** Insert a pending record unless the key is taken. */
  function BeginRow<K>(rows: map<K, Record>, k: K, entry: Record): map<K, Record> {
    if k in rows then rows else rows[k := entry]
  }

  function Resolved(row: Record, res: Resolution, price: Option<string>, nowUs: int): Record {
    row.(status := res.status, reference := res.reference, updateTime := res.updateTime,
          errorCode := res.errorCode, price := price, updatedAtUs := nowUs)
  }

  function ResolveRow<K>(rows: map<K, Record>, k: K, res: Resolution, price: Option<string>, nowUs: int): map<K, Record> {
    if k in rows then rows[k := Resolved(rows[k], res, price, nowUs)] else rows
  }

  /** The table of one channel, as its own store keeps it; a transfer has no price column. */
  class AssetTransferStore {
    var rows: map<string, Record>

    constructor ()
      ensures rows == map[]
    {
      rows := map[];
    }

    /** Register an intent; not new when the request id is already on record. */
    method Begin(requestId: string, asset: string, amount: string, nowUs: int) returns (record: Record, isNew: bool)
      modifies this
      ensures rows == BeginRow(old(rows), requestId, Fresh(asset, amount, nowUs))
      ensures isNew <==> requestId !in old(rows)
      ensures requestId in rows && record == rows[requestId]
    {
      isNew := requestId !in rows;
      if isNew {
        rows := rows[requestId := Fresh(asset, amount, nowUs)];
      }
      record := rows[requestId];
    }

    /** Write the outcome over whatever the row holds. */
    method Resolve(requestId: string, res: Resolution, nowUs: int) returns (record: Option<Record>)
      modifies this
      ensures rows == ResolveRow(old(rows), requestId, res, None, nowUs)
      ensures record == if requestId in old(rows) then Some(rows[requestId]) else None
    {
      record := None;
      if requestId in rows {
        rows := rows[requestId := Resolved(rows[requestId], res, None, nowUs)];
        record := Some(rows[requestId]);
      }
    }
  }

  class MarginRepayStore {
    var rows: map<string, Record>

    constructor ()
      ensures rows == map[]
    {
      rows := map[];
    }

    method Begin(requestId: string, asset: string, amount: string, nowUs: int) returns (record: Record, isNew: bool)
      modifies this
      ensures rows == BeginRow(old(rows), requestId, Fresh(asset, amount, nowUs))
      ensures isNew <==> requestId !in old(rows)
      ensures requestId in rows && record == rows[requestId]
    {
      isNew := requestId !in rows;
      if isNew {
        rows := rows[requestId := Fresh(asset, amount, nowUs)];
      }
      record := rows[requestId];
    }

    /** Write the outcome, and the price captured with it, over whatever the row holds. */
    method Resolve(requestId: string, res: Resolution, price: Option<string>, nowUs: int) returns (record: Option<Record>)
      modifies this
      ensures rows == ResolveRow(old(rows), requestId, res, price, nowUs)
      ensures record == if requestId in old(rows) then Some(rows[requestId]) else None
    {
      record := None;
      if requestId in rows {
        rows := rows[requestId := Resolved(rows[requestId], res, price, nowUs)];
        record := Some(rows[requestId]);
      }
    }
  }

  // ------------------------------------------------------------------ handlers

  datatype Channel = Transfer | Repay

  datatype Key = Key(channel: Channel, requestId: string)

  /** A validated request. */
  datatype Request = Request(key: Key, asset: string, amount: string)

  /** One request being handled: from arrival to its reply, or cut short. `owner` tells whether its
      begin inserted the record. */
  datatype Handler =
    | Arrived(req: Request)
    | Begun(req: Request)
    | Sent(req: Request)
    | Classified(req: Request, res: Resolution)
    | Ready(req: Request, res: Resolution, price: Option<string>)
    | Replied(req: Request, owner: bool, reply: Record)
    | Gone(req: Request)

  /** Both channels' tables, the requests seen so far, and every outgoing call ever made. */
  datatype State = State(rows: map<Key, Record>, handlers: seq<Handler>, calls: seq<Key>)

  datatype Step =
    | Arrive(req: Request)
    | Begin(h: nat, nowUs: int)
    | Send(h: nat)
    | Receive(h: nat, response: Response)
    | CapturePrice(h: nat, price: Option<string>)
    | Resolve(h: nat, nowUs: int)
    | Die(h: nat)

  function SetHandler(s: State, h: nat, x: Handler): State
    requires h < |s.handlers|
  {
    s.(handlers := s.handlers[h := x])
  }

  function BeginStep(s: State, h: nat, nowUs: int): State
    requires h < |s.handlers|
  {
    if !s.handlers[h].Arrived? then s
    else
      var req := s.handlers[h].req;
      if req.key in s.rows then SetHandler(s, h, Replied(req, false, s.rows[req.key]))
      else SetHandler(s, h, Begun(req)).(rows := BeginRow(s.rows, req.key, Fresh(req.asset, req.amount, nowUs)))
  }

  function SendStep(s: State, h: nat): State
    requires h < |s.handlers|
  {
    if !s.handlers[h].Begun? then s
    else SetHandler(s, h, Sent(s.handlers[h].req)).(calls := s.calls + [s.handlers[h].req.key])
  }

  function Classify(req: Request, r: Response): Resolution {
    if req.key.channel == Transfer then DispatchTransfer(r) else DispatchRepay(req.asset, r)
  }

  function ReceiveStep(s: State, h: nat, r: Response): State
    requires h < |s.handlers|
  {
    if !s.handlers[h].Sent? then s
    else SetHandler(s, h, Classified(s.handlers[h].req, Classify(s.handlers[h].req, r)))
  }

  /** A price is captured only for a full repayment that strictly succeeded. */
  predicate PriceWanted(req: Request, res: Resolution) {
    req.key.channel == Repay && req.amount == "0" && res.status == SUCCEEDED
  }

  function CaptureStep(s: State, h: nat, price: Option<string>): State
    requires h < |s.handlers|
  {
    if !s.handlers[h].Classified? then s
    else
      var c := s.handlers[h];
      SetHandler(s, h, Ready(c.req, c.res, if PriceWanted(c.req, c.res) then price else None))
  }

  function ResolveStep(s: State, h: nat, nowUs: int): State
    requires h < |s.handlers|
  {
    if !s.handlers[h].Ready? || s.handlers[h].req.key !in s.rows then s
    else
      var c := s.handlers[h];
      var rows := ResolveRow(s.rows, c.req.key, c.res, c.price, nowUs);
      SetHandler(s, h, Replied(c.req, true, rows[c.req.key])).(rows := rows)
  }

  function Apply(s: State, step: Step): State {
    if step.Arrive? then s.(handlers := s.handlers + [Arrived(step.req)])
    else if step.h >= |s.handlers| then s
    else if step.Begin? then BeginStep(s, step.h, step.nowUs)
    else if step.Send? then SendStep(s, step.h)
    else if step.Receive? then ReceiveStep(s, step.h, step.response)
    else if step.CapturePrice? then CaptureStep(s, step.h, step.price)
    else if step.Resolve? then ResolveStep(s, step.h, step.nowUs)
    else SetHandler(s, step.h, Gone(s.handlers[step.h].req))
  }

  function Initial(): State { State(map[], [], []) }

  function Run(s: State, steps: seq<Step>): State
    decreases |steps|
  {
    if steps == [] then s else Apply(Run(s, steps[..|steps| - 1]), steps[|steps| - 1])
  }

  // ----------------------------------------------------------------- invariant

  /** The handler inserted the record of `k` and has not resolved it yet. */
  predicate Owns(x: Handler, k: Key) {
    (x.Begun? || x.Sent? || x.Classified? || x.Ready?) && x.req.key == k
  }

  function Calls(calls: seq<Key>, k: Key): nat {
    if calls == [] then 0 else Calls(calls[..|calls| - 1], k) + (if calls[|calls| - 1] == k then 1 else 0)
  }

  ghost predicate OneOwner(s: State) {
    forall i: nat, j: nat, k ::
      i < |s.handlers| && j < |s.handlers| && Owns(s.handlers[i], k) && Owns(s.handlers[j], k) ==> i == j
  }

  /** What holds of one handler and its record. */
  ghost predicate HandlerOk(s: State, x: Handler) {
    && (x.Begun? || x.Sent? || x.Classified? || x.Ready? ==>
          x.req.key in s.rows && s.rows[x.req.key].status == PENDING
          && s.rows[x.req.key].amount == x.req.amount && s.rows[x.req.key].asset == x.req.asset)
    && (x.Begun? ==> Calls(s.calls, x.req.key) == 0)
    && (x.Classified? || x.Ready? ==> x.res.status != PENDING)
    && (x.Ready? && x.price.Some? ==> PriceWanted(x.req, x.res))
    && (x.Replied? && x.owner ==>
          x.req.key in s.rows && s.rows[x.req.key] == x.reply && x.reply.status != PENDING)
  }

  ghost predicate RecordOk(s: State, k: Key) {
    && Calls(s.calls, k) <= 1
    && (k !in s.rows ==> Calls(s.calls, k) == 0)
    && (k in s.rows && s.rows[k].price.Some? ==>
          k.channel == Repay && s.rows[k].amount == "0" && s.rows[k].status == SUCCEEDED)
  }

  ghost predicate Valid(s: State) {
    && OneOwner(s)
    && (forall i: nat | i < |s.handlers| :: HandlerOk(s, s.handlers[i]))
    && forall k :: RecordOk(s, k)
  }

  lemma NeverClassifiedPending(req: Request, r: Response)
    ensures Classify(req, r).status in {SUCCEEDED, FAILED, UNKNOWN}
  {
  }

  lemma CallsSnoc(calls: seq<Key>, a: Key, k: Key)
    ensures Calls(calls + [a], k) == Calls(calls, k) + (if a == k then 1 else 0)
  {
    assert (calls + [a])[..|calls|] == calls;
  }

  /** Handlers that are untouched stay well while their own record and call count do. */
  lemma OthersStayOk(s: State, s': State, x: Handler)
    requires HandlerOk(s, x)
    requires !x.Gone? ==>
      && (x.req.key in s.rows ==> x.req.key in s'.rows && s'.rows[x.req.key] == s.rows[x.req.key])
      && Calls(s'.calls, x.req.key) == Calls(s.calls, x.req.key)
    ensures HandlerOk(s', x)
  {
  }

  lemma SameTablesKeep(s: State, s': State, h: nat)
    requires Valid(s) && h < |s.handlers| && s'.rows == s.rows && s'.calls == s.calls
    requires |s'.handlers| == |s.handlers| && s'.handlers == s.handlers[h := s'.handlers[h]]
    requires HandlerOk(s', s'.handlers[h])
    requires forall k | Owns(s'.handlers[h], k) :: Owns(s.handlers[h], k)
    ensures Valid(s')
  {
    forall i: nat | i < |s'.handlers| ensures HandlerOk(s', s'.handlers[i]) {
      assert HandlerOk(s, s.handlers[i]);
    }
    forall k ensures RecordOk(s', k) {
      assert RecordOk(s, k);
    }
  }

  lemma ArriveKeeps(s: State, req: Request)
    requires Valid(s)
    ensures Valid(Apply(s, Arrive(req)))
  {
    var s' := Apply(s, Arrive(req));
    forall i: nat | i < |s'.handlers| ensures HandlerOk(s', s'.handlers[i]) {
      if i < |s.handlers| {
        assert HandlerOk(s, s.handlers[i]);
      }
    }
    forall k ensures RecordOk(s', k) {
      assert RecordOk(s, k);
    }
  }

  lemma NewRecordKeeps(s: State, h: nat, nowUs: int)
    requires Valid(s) && h < |s.handlers| && s.handlers[h].Arrived? && s.handlers[h].req.key !in s.rows
    ensures Valid(BeginStep(s, h, nowUs))
  {
    var s', k0 := BeginStep(s, h, nowUs), s.handlers[h].req.key;
    assert RecordOk(s, k0);
    forall i: nat | i < |s'.handlers| ensures HandlerOk(s', s'.handlers[i]) {
      assert HandlerOk(s, s.handlers[i]);
    }
    forall k ensures RecordOk(s', k) {
      assert RecordOk(s, k);
    }
    forall i: nat | i < |s.handlers| ensures !Owns(s.handlers[i], k0) {
      assert HandlerOk(s, s.handlers[i]);
    }
  }

  lemma BeginKeeps(s: State, h: nat, nowUs: int)
    requires Valid(s) && h < |s.handlers|
    ensures Valid(BeginStep(s, h, nowUs))
  {
    if s.handlers[h].Arrived? {
      if s.handlers[h].req.key in s.rows {
        SameTablesKeep(s, BeginStep(s, h, nowUs), h);
      } else {
        NewRecordKeeps(s, h, nowUs);
      }
    }
  }

  lemma SendKeeps(s: State, h: nat)
    requires Valid(s) && h < |s.handlers|
    ensures Valid(SendStep(s, h))
  {
    if s.handlers[h].Begun? {
      var s', k0 := SendStep(s, h), s.handlers[h].req.key;
      assert HandlerOk(s, s.handlers[h]);
      forall i: nat | i < |s'.handlers| ensures HandlerOk(s', s'.handlers[i]) {
        assert HandlerOk(s, s.handlers[i]);
        if !s.handlers[i].Gone? {
          CallsSnoc(s.calls, k0, s.handlers[i].req.key);
          assert i != h ==> !(s.handlers[i].Begun? && s.handlers[i].req.key == k0) by {
            assert Owns(s.handlers[h], k0);
          }
        }
      }
      forall k ensures RecordOk(s', k) {
        assert RecordOk(s, k);
        CallsSnoc(s.calls, k0, k);
      }
    }
  }

  lemma ReceiveKeeps(s: State, h: nat, r: Response)
    requires Valid(s) && h < |s.handlers|
    ensures Valid(ReceiveStep(s, h, r))
  {
    if s.handlers[h].Sent? {
      assert HandlerOk(s, s.handlers[h]);
      NeverClassifiedPending(s.handlers[h].req, r);
      SameTablesKeep(s, ReceiveStep(s, h, r), h);
    }
  }

  lemma CaptureKeeps(s: State, h: nat, price: Option<string>)
    requires Valid(s) && h < |s.handlers|
    ensures Valid(CaptureStep(s, h, price))
  {
    if s.handlers[h].Classified? {
      assert HandlerOk(s, s.handlers[h]);
      SameTablesKeep(s, CaptureStep(s, h, price), h);
    }
  }

  lemma ResolveKeeps(s: State, h: nat, nowUs: int)
    requires Valid(s) && h < |s.handlers|
    ensures Valid(ResolveStep(s, h, nowUs))
  {
    if s.handlers[h].Ready? && s.handlers[h].req.key in s.rows {
      var s', k0 := ResolveStep(s, h, nowUs), s.handlers[h].req.key;
      assert HandlerOk(s, s.handlers[h]) && Owns(s.handlers[h], k0);
      forall i: nat | i < |s'.handlers| ensures HandlerOk(s', s'.handlers[i]) {
        if i != h {
          assert HandlerOk(s, s.handlers[i]);
          assert !Owns(s.handlers[i], k0);
          if s.handlers[i].Replied? && !s.handlers[i].owner {
          } else if s.handlers[i].Arrived? {
          } else {
            OthersStayOk(s, s', s.handlers[i]);
          }
        }
      }
      forall k ensures RecordOk(s', k) {
        assert RecordOk(s, k);
      }
    }
  }

  lemma DieKeeps(s: State, h: nat)
    requires Valid(s) && h < |s.handlers|
    ensures Valid(SetHandler(s, h, Gone(s.handlers[h].req)))
  {
    SameTablesKeep(s, SetHandler(s, h, Gone(s.handlers[h].req)), h);
  }

  lemma StepKeepsValid(s: State, step: Step)
    requires Valid(s)
    ensures Valid(Apply(s, step))
  {
    if step.Arrive? {
      ArriveKeeps(s, step.req);
    } else if step.h < |s.handlers| {
      if step.Begin? { BeginKeeps(s, step.h, step.nowUs); }
      else if step.Send? { SendKeeps(s, step.h); }
      else if step.Receive? { ReceiveKeeps(s, step.h, step.response); }
      else if step.CapturePrice? { CaptureKeeps(s, step.h, step.price); }
      else if step.Resolve? { ResolveKeeps(s, step.h, step.nowUs); }
      else { DieKeeps(s, step.h); }
    }
  }

  lemma {:induction false} RunIsValid(steps: seq<Step>)
    ensures Valid(Run(Initial(), steps))
  {
    if steps != [] {
      RunIsValid(steps[..|steps| - 1]);
      StepKeepsValid(Run(Initial(), steps[..|steps| - 1]), steps[|steps| - 1]);
    }
  }

  // ------------------------------------------------------------------- results

  /** Under any interleaving of requests, repeats and crashes, a request id causes at most one
      outgoing call, and none before its record is stored. */
  lemma AtMostOneCall(steps: seq<Step>, k: Key)
    ensures Calls(Run(Initial(), steps).calls, k) <= 1
    ensures Calls(Run(Initial(), steps).calls, k) > 0 ==> k in Run(Initial(), steps).rows
  {
    RunIsValid(steps);
    assert RecordOk(Run(Initial(), steps), k);
  }

  predicate IsResolved(s: State, k: Key) {
    k in s.rows && s.rows[k].status != PENDING
  }

  lemma StepKeepsResolved(s: State, step: Step, k: Key)
    requires Valid(s) && IsResolved(s, k)
    ensures k in Apply(s, step).rows && Apply(s, step).rows[k] == s.rows[k]
  {
    if !step.Arrive? && step.h < |s.handlers| {
      assert HandlerOk(s, s.handlers[step.h]);
    }
  }

  /** A resolved record never changes again, whatever happens later. */
  lemma {:induction false} ResolvedIsFinal(steps: seq<Step>, more: seq<Step>, k: Key)
    requires IsResolved(Run(Initial(), steps), k)
    ensures k in Run(Initial(), steps + more).rows
    ensures Run(Initial(), steps + more).rows[k] == Run(Initial(), steps).rows[k]
  {
    if more == [] {
      assert steps + more == steps;
    } else {
      var init := more[..|more| - 1];
      assert (steps + more)[..|steps + more| - 1] == steps + init;
      ResolvedIsFinal(steps, init, k);
      RunIsValid(steps + init);
      StepKeepsResolved(Run(Initial(), steps + init), more[|more| - 1], k);
    }
  }

  /** A request that inserted its record and lived to reply left it resolved, as it replied. */
  lemma SurvivorResolves(steps: seq<Step>, h: nat)
    requires
      var s := Run(Initial(), steps);
      h < |s.handlers| && s.handlers[h].Replied? && s.handlers[h].owner
    ensures
      var s := Run(Initial(), steps);
      var x := s.handlers[h];
      IsResolved(s, x.req.key) && s.rows[x.req.key] == x.reply
  {
    RunIsValid(steps);
    assert HandlerOk(Run(Initial(), steps), Run(Initial(), steps).handlers[h]);
  }

  /** A request of id `k` is still working on its record, or was cut short. */
  predicate WorkingOrCut(x: Handler, k: Key) {
    Owns(x, k) || (x.Gone? && x.req.key == k)
  }

  ghost predicate PendingExplained(s: State) {
    forall k | k in s.rows && s.rows[k].status == PENDING ::
      exists i: nat :: i < |s.handlers| && WorkingOrCut(s.handlers[i], k)
  }

  lemma StepExplains(s: State, step: Step)
    requires Valid(s) && PendingExplained(s)
    ensures PendingExplained(Apply(s, step))
  {
    var s' := Apply(s, step);
    forall k | k in s'.rows && s'.rows[k].status == PENDING
      ensures exists i: nat :: i < |s'.handlers| && WorkingOrCut(s'.handlers[i], k)
    {
      if k in s.rows && s.rows[k].status == PENDING {
        var i: nat :| i < |s.handlers| && WorkingOrCut(s.handlers[i], k);
        assert HandlerOk(s, s.handlers[i]);
        assert i < |s'.handlers| && WorkingOrCut(s'.handlers[i], k);
      } else {
        assert HandlerOk(s, s.handlers[step.h]);
        assert step.h < |s'.handlers| && WorkingOrCut(s'.handlers[step.h], k);
      }
    }
  }

  /** A record stays pending only while its request is being handled, or because it was cut short. */
  lemma {:induction false} PendingIsExplained(steps: seq<Step>)
    ensures PendingExplained(Run(Initial(), steps))
  {
    if steps != [] {
      PendingIsExplained(steps[..|steps| - 1]);
      RunIsValid(steps[..|steps| - 1]);
      StepExplains(Run(Initial(), steps[..|steps| - 1]), steps[|steps| - 1]);
    }
  }

  /** Only an explicit refusal is recorded as failed, and only a confirmation as succeeded, with
      what the exchange confirmed: every answer that leaves open whether money moved is unknown. */
  lemma OnlyRefusalsFail(req: Request, r: Response)
    ensures Classify(req, r).status == FAILED <==>
      r.Answer? && 400 <= r.http < 500 && r.http !in {418, 429} && !(req.key.channel == Repay && r.http == 408)
    ensures Classify(req, r).status == SUCCEEDED <==>
      && r.Answer? && r.http == 200
      && (if req.key.channel == Transfer then r.body.tranId.Some?
          else r.body.success && r.body.asset == Some(req.asset))
    ensures Classify(req, r).status == SUCCEEDED ==>
      Classify(req, r).reference == (if req.key.channel == Transfer then r.body.tranId else r.body.amount)
      && (req.key.channel == Repay ==> Classify(req, r).updateTime == r.body.updateTime)
    ensures Classify(req, r).errorCode == if r.Answer? && r.http != 200 then r.body.code else None
    ensures Classify(req, r).status != SUCCEEDED ==> Classify(req, r).reference.None? && Classify(req, r).updateTime.None?
  {
  }

  /** The record as interest matching reads it; the texts' parsed values are passed along. */
  function MatchView(id: string, r: Record, updateTimeMs: Option<int>, price: Option<real>): RepayMatching.RepayRecord {
    RepayMatching.RepayRecord(id, r.asset, r.amount, r.status, updateTimeMs, Some(r.updatedAtUs),
                              if r.price.Some? then price else None)
  }

  /** A stored repayment price sits on a record that ends its interest: the price is only ever
      written with the terminal predicate, and stays with it. */
  lemma PriceImpliesTerminal(steps: seq<Step>, k: Key, updateTimeMs: Option<int>, price: Option<real>)
    requires k in Run(Initial(), steps).rows && Run(Initial(), steps).rows[k].price.Some?
    ensures k.channel == Repay
    ensures RepayMatching.IsTerminal(MatchView(k.requestId, Run(Initial(), steps).rows[k], updateTimeMs, price))
  {
    RunIsValid(steps);
    assert RecordOk(Run(Initial(), steps), k);
  }

  // ------------------------------------------------------ what is written in the end

  lemma {:induction false} RunAppend(s: State, a: seq<Step>, b: seq<Step>)
    ensures Run(s, a + b) == Run(Run(s, a), b)
  {
    if b == [] {
      assert a + b == a;
    } else {
      var n := |b| - 1;
      assert (a + b)[..|a + b| - 1] == a + b[..n];
      RunAppend(s, a, b[..n]);
    }
  }

  /** The reply, and the record it shows, carry the outcome `res`. */
  predicate RepliesWith(x: Handler, res: Resolution) {
    x.Replied? ==>
      && x.owner && x.reply.status == res.status && x.reply.reference == res.reference
      && x.reply.updateTime == res.updateTime && x.reply.errorCode == res.errorCode
  }

  /** The request holds the outcome `res` from its answer on. */
  predicate HoldsOutcome(x: Handler, req: Request, res: Resolution) {
    && x.req == req && RepliesWith(x, res)
    && (x.Classified? || x.Ready? || x.Replied? || x.Gone?)
    && (x.Classified? ==> x.res == res)
    && (x.Ready? ==> x.res == res)
  }

  /** The request holds the price `price` from its capture on. */
  predicate HoldsPrice(x: Handler, req: Request, price: Option<string>) {
    && x.req == req && (x.Ready? || x.Replied? || x.Gone?)
    && (x.Ready? ==> x.price == price)
    && (x.Replied? ==> x.reply.price == price)
  }

  lemma StepHolds(s: State, step: Step, h: nat, req: Request, res: Resolution, price: Option<string>)
    requires h < |s.handlers|
    ensures h < |Apply(s, step).handlers|
    ensures HoldsOutcome(s.handlers[h], req, res) ==> HoldsOutcome(Apply(s, step).handlers[h], req, res)
    ensures HoldsPrice(s.handlers[h], req, price) ==> HoldsPrice(Apply(s, step).handlers[h], req, price)
  {
  }

  lemma {:induction false} RunHolds(s: State, steps: seq<Step>, h: nat, req: Request, res: Resolution, price: Option<string>)
    requires h < |s.handlers|
    ensures h < |Run(s, steps).handlers|
    ensures HoldsOutcome(s.handlers[h], req, res) ==> HoldsOutcome(Run(s, steps).handlers[h], req, res)
    ensures HoldsPrice(s.handlers[h], req, price) ==> HoldsPrice(Run(s, steps).handlers[h], req, price)
  {
    if steps != [] {
      var n := |steps| - 1;
      RunHolds(s, steps[..n], h, req, res, price);
      StepHolds(Run(s, steps[..n]), steps[n], h, req, res, price);
    }
  }

  /** What comes back is what is written: whatever happens around it, a request whose answer arrived
      and that lived to reply left exactly that answer's classification on its record. */
  lemma AnswerIsRecorded(steps: seq<Step>, h: nat, response: Response, more: seq<Step>)
    requires
      var s := Run(Initial(), steps);
      h < |s.handlers| && s.handlers[h].Sent?
    ensures
      var req := Run(Initial(), steps).handlers[h].req;
      var s' := Run(Initial(), steps + [Receive(h, response)] + more);
      && h < |s'.handlers| && RepliesWith(s'.handlers[h], Classify(req, response))
      && (s'.handlers[h].Replied? ==> req.key in s'.rows && s'.rows[req.key] == s'.handlers[h].reply)
  {
    var s := Run(Initial(), steps);
    var req := s.handlers[h].req;
    RunAppend(Initial(), steps, [Receive(h, response)]);
    RunAppend(Initial(), steps + [Receive(h, response)], more);
    var after := Run(s, [Receive(h, response)]);
    assert [Receive(h, response)][..0] == [];
    assert after == Apply(s, Receive(h, response));
    RunHolds(after, more, h, req, Classify(req, response), None);
    RunIsValid(steps + [Receive(h, response)] + more);
    assert HandlerOk(Run(after, more), Run(after, more).handlers[h]);
  }

  /** A full repayment that succeeded keeps the price captured for it, and no other request keeps
      one, through anything that happens until the reply. */
  lemma CapturedPriceIsKept(steps: seq<Step>, h: nat, price: Option<string>, more: seq<Step>)
    requires
      var s := Run(Initial(), steps);
      h < |s.handlers| && s.handlers[h].Classified?
    ensures
      var c := Run(Initial(), steps).handlers[h];
      var s' := Run(Initial(), steps + [CapturePrice(h, price)] + more);
      var wanted := c.req.key.channel == Repay && c.req.amount == "0" && c.res.status == SUCCEEDED;
      && h < |s'.handlers|
      && (s'.handlers[h].Replied? ==>
            && s'.handlers[h].owner && s'.handlers[h].reply.price == (if wanted then price else None)
            && c.req.key in s'.rows && s'.rows[c.req.key] == s'.handlers[h].reply)
  {
    var s := Run(Initial(), steps);
    var c := s.handlers[h];
    var kept := if c.req.key.channel == Repay && c.req.amount == "0" && c.res.status == SUCCEEDED then price else None;
    RunAppend(Initial(), steps, [CapturePrice(h, price)]);
    RunAppend(Initial(), steps + [CapturePrice(h, price)], more);
    var after := Run(s, [CapturePrice(h, price)]);
    assert [CapturePrice(h, price)][..0] == [];
    assert after == Apply(s, CapturePrice(h, price));
    RunHolds(after, more, h, c.req, c.res, kept);
    RunIsValid(steps + [CapturePrice(h, price)] + more);
    assert HandlerOk(Run(after, more), Run(after, more).handlers[h]);
  }
}
