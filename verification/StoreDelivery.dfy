/**
 From a committed business fact to the warehouse's domain events: the shop writes each
 announcement to the outbox in the transaction of the fact, and the relays copy the outbox.
 */
module StoreDelivery {
  import opened Common
  import opened StoreModel
  import opened StoreBooks
  import Relay = OutboxRelay

  /** Domain events of a topic that name the order. */
  function EventsAbout(events: seq<Relay.Event>, topic: Topic, o: nat): nat {
    if events == [] then 0
    else EventsAbout(events[..|events| - 1], topic, o) + if About(events[|events| - 1].content, topic, o) then 1 else 0
  }

  predicate PublishedAbout(row: Option<Relay.OutRow>, topic: Topic, o: nat) {
    row.Some? && row.value.published && About(row.value.content, topic, o)
  }

  function RowsAbout(box: Relay.Outbox, topic: Topic, o: nat): nat {
    if box == [] then 0
    else RowsAbout(box[..|box| - 1], topic, o) + if PublishedAbout(box[|box| - 1], topic, o) then 1 else 0
  }

  lemma {:induction false} RowsAboutUpdate(box: Relay.Outbox, id: nat, row: Option<Relay.OutRow>, topic: Topic, o: nat)
    requires id < |box| && !PublishedAbout(row, topic, o)
    ensures RowsAbout(box, topic, o)
         == RowsAbout(box[id := row], topic, o) + if PublishedAbout(box[id], topic, o) then 1 else 0
    decreases |box|
  {
    var n := |box| - 1;
    if id < n {
      RowsAboutUpdate(box[..n], id, row, topic, o);
      assert box[id := row][..n] == box[..n][id := row];
    } else {
      assert box[id := row][..n] == box[..n];
    }
  }

  lemma {:induction false} NothingPublished(box: Relay.Outbox, topic: Topic, o: nat)
    requires forall id :: 0 <= id < |box| ==> !PublishedAbout(box[id], topic, o)
    ensures RowsAbout(box, topic, o) == 0
    decreases |box|
  {
    if box != [] { NothingPublished(box[..|box| - 1], topic, o); }
  }

  /** Taking the last domain event and its row's mark back out leaves a matched state. */
  function WithoutLast(db: Relay.Db): Relay.Db
    requires Relay.Matched(db) && db.events != []
  {
    var e := db.events[|db.events| - 1];
    assert Relay.Faithful(db.box, e);
    Relay.Db(db.box[e.outboxId := Some(Relay.OutRow(e.content, false))], db.events[..|db.events| - 1])
  }

  lemma {:induction false} WithoutLastIsMatched(db: Relay.Db)
    requires Relay.Matched(db) && db.events != []
    ensures Relay.Matched(WithoutLast(db))
  {
    var d, n := WithoutLast(db), |db.events| - 1;
    assert Relay.Faithful(db.box, db.events[n]);
    forall k | 0 <= k < n
      ensures Relay.Faithful(d.box, d.events[k])
    {
      assert Relay.Faithful(db.box, db.events[k]);
    }
    forall id | 0 <= id < |d.box| && Relay.Published(d.box, id)
      ensures Relay.HasEvent(d.events, id)
    {
      assert Relay.HasEvent(db.events, id);
      var k :| 0 <= k <= n && db.events[k].outboxId == id;
      assert d.events[k].outboxId == id;
    }
  }

  /** Domain events and published rows agree topic by topic and order by order. */
  lemma {:induction false} EventsBalanceRows(db: Relay.Db, topic: Topic, o: nat)
    requires Relay.Matched(db)
    ensures EventsAbout(db.events, topic, o) == RowsAbout(db.box, topic, o)
    decreases |db.events|
  {
    if db.events == [] {
      forall id | 0 <= id < |db.box|
        ensures !PublishedAbout(db.box[id], topic, o)
      {
        assert Relay.Published(db.box, id) ==> Relay.HasEvent(db.events, id);
      }
      NothingPublished(db.box, topic, o);
    } else {
      var e := db.events[|db.events| - 1];
      assert Relay.Faithful(db.box, e);
      WithoutLastIsMatched(db);
      EventsBalanceRows(WithoutLast(db), topic, o);
      RowsAboutUpdate(db.box, e.outboxId, Some(Relay.OutRow(e.content, false)), topic, o);
    }
  }

  /** The shop's own messages in the outbox, published or not. */
  function ShopRows(box: Relay.Outbox): seq<Message> {
    if box == [] then []
    else
      var last := box[|box| - 1];
      ShopRows(box[..|box| - 1]) + if last.Some? && !last.value.content.External? then [last.value.content] else []
  }

  predicate ShopRow(row: Option<Relay.OutRow>, topic: Topic, o: nat) {
    row.Some? && About(row.value.content, topic, o)
  }

  lemma {:induction false} ShopRowsLast(box: Relay.Outbox, topic: Topic, o: nat)
    requires box != []
    ensures Announcements(ShopRows(box), topic, o)
         == Announcements(ShopRows(box[..|box| - 1]), topic, o) + if ShopRow(box[|box| - 1], topic, o) then 1 else 0
  {
    var front, last := ShopRows(box[..|box| - 1]), box[|box| - 1];
    if last.Some? && !last.value.content.External? {
      assert ShopRows(box)[..|front|] == front;
    } else {
      assert ShopRows(box) == front;
    }
  }

  predicate Drained(box: Relay.Outbox) {
    forall id :: 0 <= id < |box| ==> !Relay.Unpublished(box, id)
  }

  lemma {:induction false} PublishedAreShopRows(box: Relay.Outbox, topic: Topic, o: nat)
    ensures RowsAbout(box, topic, o) <= Announcements(ShopRows(box), topic, o)
    decreases |box|
  {
    if box != [] {
      ShopRowsLast(box, topic, o);
      PublishedAreShopRows(box[..|box| - 1], topic, o);
    }
  }

  lemma {:induction false} DrainedMeansAll(box: Relay.Outbox, topic: Topic, o: nat)
    requires Drained(box)
    ensures RowsAbout(box, topic, o) == Announcements(ShopRows(box), topic, o)
    decreases |box|
  {
    if box != [] {
      var front, last := box[..|box| - 1], box[|box| - 1];
      assert Drained(front) by {
        assert forall id :: 0 <= id < |front| ==> front[id] == box[id] && !Relay.Unpublished(box, id);
      }
      DrainedMeansAll(front, topic, o);
      ShopRowsLast(box, topic, o);
      assert !Relay.Unpublished(box, |box| - 1);
      assert PublishedAbout(last, topic, o) <==> ShopRow(last, topic, o);
    }
  }

  lemma {:induction false} AnnouncementsRemove(x: seq<Message>, m: Message, y: seq<Message>, topic: Topic, o: nat)
    ensures Announcements(x + [m] + y, topic, o) == Announcements(x + y, topic, o) + if About(m, topic, o) then 1 else 0
    decreases |y|
  {
    if y == [] {
      assert x + [m] + y == x + [m] && (x + [m])[..|x|] == x && x + y == x;
    } else {
      var front := y[..|y| - 1];
      AnnouncementsRemove(x, m, front, topic, o);
      assert (x + [m] + y)[..|x| + |y|] == x + [m] + front && (x + y)[..|x| + |y| - 1] == x + front;
    }
  }

  /** Identity values need not follow commit order. */
  lemma {:induction false} AnnouncementOrderIrrelevant(a: seq<Message>, b: seq<Message>, topic: Topic, o: nat)
    requires multiset(a) == multiset(b)
    ensures Announcements(a, topic, o) == Announcements(b, topic, o)
    decreases |a|
  {
    if a == [] {
      assert |multiset(b)| == 0;
    } else {
      var m, front := a[|a| - 1], a[..|a| - 1];
      assert a == front + [m];
      var x, y := TakeOut(m, front, b);
      AnnouncementOrderIrrelevant(front, x + y, topic, o);
      AnnouncementsRemove(x, m, y, topic, o);
    }
  }

  lemma {:induction false} DeliveredAtMostAnnounced(r: Relay.Sys, moves: seq<Relay.Step>, outbox: seq<Message>,
                                                     topic: Topic, o: nat)
    requires Relay.Initial(r) && multiset(ShopRows(Relay.Run(r, moves).db.box)) == multiset(outbox)
    ensures EventsAbout(Relay.Run(r, moves).db.events, topic, o) <= Announcements(outbox, topic, o)
    ensures Relay.Pending(Relay.Run(r, moves).db.box, 0) == [] ==>
        EventsAbout(Relay.Run(r, moves).db.events, topic, o) == Announcements(outbox, topic, o)
  {
    var db := Relay.Run(r, moves).db;
    Relay.RelaysDeliverExactlyOnce(r, moves);
    EventsBalanceRows(db, topic, o);
    PublishedAreShopRows(db.box, topic, o);
    AnnouncementOrderIrrelevant(ShopRows(db.box), outbox, topic, o);
    if Relay.Pending(db.box, 0) == [] {
      forall id | 0 <= id < |db.box|
        ensures !Relay.Unpublished(db.box, id)
      {
        Relay.PendingIff(db.box, id);
      }
      DrainedMeansAll(db.box, topic, o);
    }
  }
}
