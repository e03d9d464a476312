/**
 The shop and the relays as one system: a committed shop transaction makes its message appear in
 the outbox under an identity value taken earlier, webhooks add rows of their own, and any number
 of relays run in between.
 */
module StoreWarehouse {
  import opened Common
  import opened StoreModel
  import opened StoreRuns
  import opened StoreBooks
  import opened StoreDiscipline
  import opened StoreOnce
  import opened StoreDelivery
  import Relay = OutboxRelay

  datatype Joint = Joint(shop: Sys, relay: Relay.Sys)

  datatype Move =
    | Trade(step: Step, id: nat)                                // a shop transaction; its message, if any, gets this id
    | Webhook(id: nat, topic: string, payload: string)          // a row that is not the shop's
    | Deliver(relayStep: Relay.Step)                            // an identity value taken, or a relay's step

  /** Did the step write a message? At most one, at the end. */
  predicate Speaks(before: Sys, after: Sys) {
    after.db.outbox != before.db.outbox && after.db.outbox != []
  }

  function Said(after: Sys): Message
    requires after.db.outbox != []
  {
    after.db.outbox[|after.db.outbox| - 1]
  }

  predicate Taken(r: Relay.Sys, id: nat) {
    id < |r.db.box| && r.db.box[id].None?
  }

  /** The shop step a move performs; a message needs an identity value that was taken and not used. */
  predicate Trades(j: Joint, move: Move) {
    move.Trade? && (Speaks(j.shop, StoreRuns.Exec(j.shop, move.step)) ==> Taken(j.relay, move.id))
  }

  function Exec(j: Joint, move: Move): Joint {
    match move
    case Trade(step, id) =>
      if !Trades(j, move) then j
      else
        var t := StoreRuns.Exec(j.shop, step);
        Joint(t, if Speaks(j.shop, t) then Relay.Exec(j.relay, Relay.Appear(id, Said(t))) else j.relay)
    case Webhook(id, topic, payload) => j.(relay := Relay.Exec(j.relay, Relay.Appear(id, External(topic, payload))))
    case Deliver(step) => if step.Appear? then j else j.(relay := Relay.Exec(j.relay, step))
  }

  function Run(j: Joint, moves: seq<Move>): Joint
    decreases |moves|
  {
    if moves == [] then j else Run(Exec(j, moves[0]), moves[1..])
  }

  predicate Initial(j: Joint) {
    StoreRuns.Initial(j.shop) && Relay.Initial(j.relay)
  }

  // ---------------------------------------------------------------- the two projections

  /** The shop steps that were performed, in order. */
  function ShopTrace(j: Joint, moves: seq<Move>): seq<Step>
    decreases |moves|
  {
    if moves == [] then []
    else (if Trades(j, moves[0]) then [moves[0].step] else []) + ShopTrace(Exec(j, moves[0]), moves[1..])
  }

  lemma {:induction false} ShopProjects(j: Joint, moves: seq<Move>)
    ensures StoreRuns.Run(j.shop, ShopTrace(j, moves)) == Run(j, moves).shop
    decreases |moves|
  {
    if moves != [] {
      var rest := ShopTrace(Exec(j, moves[0]), moves[1..]);
      ShopProjects(Exec(j, moves[0]), moves[1..]);
      if Trades(j, moves[0]) {
        assert ShopTrace(j, moves)[0] == moves[0].step && ShopTrace(j, moves)[1..] == rest;
      } else {
        assert ShopTrace(j, moves) == rest;
      }
    }
  }

  /** What the relays see of a move. */
  function RelayMove(j: Joint, move: Move): seq<Relay.Step> {
    match move
    case Trade(step, id) =>
      var t := StoreRuns.Exec(j.shop, step);
      if Trades(j, move) && Speaks(j.shop, t) then [Relay.Appear(id, Said(t))] else []
    case Webhook(id, topic, payload) => [Relay.Appear(id, External(topic, payload))]
    case Deliver(step) => if step.Appear? then [] else [step]
  }

  function RelayTrace(j: Joint, moves: seq<Move>): seq<Relay.Step>
    decreases |moves|
  {
    if moves == [] then [] else RelayMove(j, moves[0]) + RelayTrace(Exec(j, moves[0]), moves[1..])
  }

  lemma {:induction false} RelayProjects(j: Joint, moves: seq<Move>)
    ensures Relay.Run(j.relay, RelayTrace(j, moves)) == Run(j, moves).relay
    decreases |moves|
  {
    if moves != [] {
      var mine, rest := RelayMove(j, moves[0]), RelayTrace(Exec(j, moves[0]), moves[1..]);
      RelayProjects(Exec(j, moves[0]), moves[1..]);
      if mine == [] {
        assert RelayTrace(j, moves) == rest;
      } else {
        assert (mine + rest)[0] == mine[0] && (mine + rest)[1..] == rest;
      }
    }
  }

  // ---------------------------------------------------------------- the outbox is the shop's

  /** Every step, raw edits included, writes at most one message, and not an external one. */
  predicate SaysAtMostOne(a: Db, b: Db) {
    b.outbox == a.outbox
    || (|b.outbox| > 0 && b.outbox == a.outbox + [b.outbox[|b.outbox| - 1]] && !b.outbox[|b.outbox| - 1].External?)
  }

  lemma {:induction false} Adds(a: Db, b: Db, m: Message)
    requires b.outbox == a.outbox + [m] && !m.External?
    ensures SaysAtMostOne(a, b)
  {}

  lemma {:induction false} OrderStepSaysOne(db: Db, step: Step)
    requires step.DoMarkPaid? || step.DoRefund?
    ensures SaysAtMostOne(db, Commit(db, Attempt(db, step)))
  {}

  lemma {:induction false} CancelSaysOne(db: Db, o: nat)
    ensures SaysAtMostOne(db, CancelOrder(db, o))
  {}

  lemma {:induction false} OtherStepSaysNothing(db: Db, step: Step)
    requires !step.DoPlaceOrder? && !step.DoMarkPaid? && !step.DoRefund? && !step.DoCancelOrder?
    ensures Commit(db, Attempt(db, step)).outbox == db.outbox
  {}

  lemma {:induction false} StepSaysOne(s: Sys, step: Step)
    ensures SaysAtMostOne(s.db, StoreRuns.Exec(s, step).db)
  {
    ExecCommitsOrNot(s, step);
    if step.DoPlaceOrder? {
      if Attempt(s.db, step).Ok? {
        var ps, t := PlaceOrderCommits(s.db, step);
        Adds(s.db, Placed(s.db, ps, t), OrderPlaced(|s.db.orders|, t.total, t.qty));
      }
    } else if step.DoMarkPaid? || step.DoRefund? {
      OrderStepSaysOne(s.db, step);
    } else if step.DoCancelOrder? {
      CancelSaysOne(s.db, step.order);
    } else {
      OtherStepSaysNothing(s.db, step);
    }
  }

  /** A row appearing at a taken identity value adds its message, wherever that value lies. */
  /** The shop message a row of the outbox holds, if it holds one. */
  function Own(row: Option<Relay.OutRow>): multiset<Message> {
    if row.Some? && !row.value.content.External? then multiset{row.value.content} else multiset{}
  }

  lemma {:induction false} ShopRowsSplit(box: Relay.Outbox)
    requires box != []
    ensures multiset(ShopRows(box)) == multiset(ShopRows(box[..|box| - 1])) + Own(box[|box| - 1])
  {}

  lemma {:induction false} SwapLast(a: multiset<Message>, b: multiset<Message>, c: multiset<Message>)
    ensures (a + b) + c == (a + c) + b
  {}

  /** The messages with this row in place are those before and the row's own. */
  predicate Appears(box: Relay.Outbox, id: nat, row: Relay.OutRow)
    requires id < |box|
  {
    multiset(ShopRows(box[id := Some(row)])) == multiset(ShopRows(box)) + Own(Some(row))
  }

  lemma {:induction false} LastRowAppears(box: Relay.Outbox, row: Relay.OutRow)
    requires box != [] && box[|box| - 1].None?
    ensures Appears(box, |box| - 1, row)
  {
    var n := |box| - 1;
    ShopRowsSplit(box[n := Some(row)]);
    assert box[n := Some(row)][..n] == box[..n];
    assert ShopRows(box) == ShopRows(box[..n]) + [];
  }

  lemma {:induction false} EarlierRowAppears(box: Relay.Outbox, id: nat, row: Relay.OutRow)
    requires id < |box| - 1 && Appears(box[..|box| - 1], id, row)
    ensures Appears(box, id, row)
  {
    var n := |box| - 1;
    ShopRowsSplit(box);
    ShopRowsSplit(box[id := Some(row)]);
    assert box[id := Some(row)][..n] == box[..n][id := Some(row)];
    SwapLast(multiset(ShopRows(box[..n])), Own(Some(row)), Own(box[n]));
  }

  lemma {:induction false} RowAppears(box: Relay.Outbox, id: nat, row: Relay.OutRow)
    requires id < |box| && box[id].None?
    ensures Appears(box, id, row)
    decreases |box|
  {
    if id < |box| - 1 {
      RowAppears(box[..|box| - 1], id, row);
      EarlierRowAppears(box, id, row);
    } else {
      LastRowAppears(box, row);
    }
  }

  /** Marking rows published leaves their messages. */
  lemma {:induction false} MarksKeepMessages(before: Relay.Outbox, after: Relay.Outbox)
    requires |after| == |before|
    requires forall id :: 0 <= id < |before| ==>
      (after[id].Some? <==> before[id].Some?) && (before[id].Some? ==> after[id].value.content == before[id].value.content)
    ensures ShopRows(after) == ShopRows(before)
    decreases |before|
  {
    if before != [] { MarksKeepMessages(before[..|before| - 1], after[..|after| - 1]); }
  }

  lemma {:induction false} RelayStepKeepsMessages(r: Relay.Sys, step: Relay.Step)
    requires !step.Appear?
    ensures ShopRows(Relay.Exec(r, step).db.box) == ShopRows(r.db.box)
  {
    if step.Allocate? {
      assert (r.db.box + [None])[..|r.db.box|] == r.db.box;
      assert ShopRows(r.db.box) + [] == ShopRows(r.db.box);
    } else {
      MarksKeepMessages(r.db.box, Relay.Exec(r, step).db.box);
    }
  }

  /** The outbox holds exactly the messages of the committed transactions. */
  predicate Mirrors(j: Joint) {
    multiset(ShopRows(j.relay.db.box)) == multiset(j.shop.db.outbox)
  }

  /** The message and its row are the same one more. */
  lemma {:induction false} OneMoreEach(box: Relay.Outbox, outbox: seq<Message>, id: nat, m: Message)
    requires multiset(ShopRows(box)) == multiset(outbox) && id < |box| && box[id].None? && !m.External?
    ensures multiset(ShopRows(box[id := Some(Relay.OutRow(m, false))])) == multiset(outbox + [m])
  {
    RowAppears(box, id, Relay.OutRow(m, false));
  }

  lemma {:induction false} RowOf(r: Relay.Sys, id: nat, m: Message)
    requires Taken(r, id)
    ensures Relay.Exec(r, Relay.Appear(id, m)).db.box == r.db.box[id := Some(Relay.OutRow(m, false))]
  {}

  lemma {:induction false} TradeKeepsMirror(j: Joint, move: Move)
    requires Mirrors(j) && Trades(j, move)
    ensures Mirrors(Exec(j, move))
  {
    var t := StoreRuns.Exec(j.shop, move.step);
    StepSaysOne(j.shop, move.step);
    if Speaks(j.shop, t) {
      OneMoreEach(j.relay.db.box, j.shop.db.outbox, move.id, Said(t));
      RowOf(j.relay, move.id, Said(t));
    }
  }

  lemma {:induction false} MoveKeepsMirror(j: Joint, move: Move)
    requires Mirrors(j)
    ensures Mirrors(Exec(j, move))
  {
    match move
    case Trade(_, _) => if Trades(j, move) { TradeKeepsMirror(j, move); }
    case Webhook(id, topic, payload) =>
      if Taken(j.relay, id) { RowAppears(j.relay.db.box, id, Relay.OutRow(External(topic, payload), false)); }
    case Deliver(step) => if !step.Appear? { RelayStepKeepsMessages(j.relay, step); }
  }

  lemma {:induction false} RunKeepsMirror(j: Joint, moves: seq<Move>)
    requires Mirrors(j)
    ensures Mirrors(Run(j, moves))
    decreases |moves|
  {
    if moves != [] {
      MoveKeepsMirror(j, moves[0]);
      RunKeepsMirror(Exec(j, moves[0]), moves[1..]);
    }
  }

  // ---------------------------------------------------------------- end to end

  /** The warehouse saw a fact at most as often as it happened, and as often once the outbox is drained. */
  predicate Sees(warehouse: Relay.Db, topic: Topic, o: nat, times: nat) {
    && EventsAbout(warehouse.events, topic, o) <= times
    && (Relay.Pending(warehouse.box, 0) == [] ==> EventsAbout(warehouse.events, topic, o) == times)
  }

  /**
   Whatever the webhook retries, crashes and concurrent relays do, the warehouse never sees an order
   placed twice, and once the outbox is drained it has seen each exactly once. As long as no order is
   paid again after a refund, the same holds of payments, and no payment of an order that was never
   paid is seen.
   */
  lemma {:induction false} WarehouseSeesEachFactOnce(j: Joint, moves: seq<Move>, o: nat)
    requires Initial(j)
    ensures AppRun(ShopTrace(j, moves)) ==>
        Sees(Run(j, moves).relay.db, PlacedTopic, o, if o < |Run(j, moves).shop.db.orders| then 1 else 0)
    ensures UnrepaidRun(j.shop, ShopTrace(j, moves)) ==>
        Sees(Run(j, moves).relay.db, PaidTopic, o, if EverPaid(Run(j, moves).shop.db, o) then 1 else 0)
  {
    ShopProjects(j, moves);
    RelayProjects(j, moves);
    RunKeepsMirror(j, moves);
    var outbox := Run(j, moves).shop.db.outbox;
    if AppRun(ShopTrace(j, moves)) { BooksAlwaysBalance(j.shop, ShopTrace(j, moves)); }
    if UnrepaidRun(j.shop, ShopTrace(j, moves)) { PaidExactlyOnce(j.shop, ShopTrace(j, moves), o); }
    DeliveredAtMostAnnounced(j.relay, RelayTrace(j, moves), outbox, PlacedTopic, o);
    DeliveredAtMostAnnounced(j.relay, RelayTrace(j, moves), outbox, PaidTopic, o);
  }
}
