/** The sent/received view (`gen_sent_received_dataframe`): the owner's rows and
    everyone else's are aggregated separately, forwarded rows excluded on the
    sent side only, and the two tables are inner-joined on the period. */
module SentReceived {
  import opened Results
  import Json
  import Seqs
  import opened Table
  import opened Stats

  /** One joined bucket: the `_sent` columns beside the `_received` ones. */
  datatype Merged = Merged(sent: Stat, received: Stat)

  /** Whether a row was sent by the owner. */
  function FromOwner(myId: int): Row -> bool
  {
    (r: Row) => r.fromId == myId
  }

  /** The owner's rows. */
  function Sent(rows: seq<Row>, myId: int): seq<Row>
  {
    Seqs.Filter(rows, FromOwner(myId))
  }

  /** Everyone else's rows. */
  function Received(rows: seq<Row>, myId: int): seq<Row>
  {
    Seqs.Filter(rows, Seqs.Not(FromOwner(myId)))
  }

  /** The joined table: a period appears exactly when it has both an original
      row sent by the owner and a row received from someone else; no bucket is
      filled with zeros. */
  method GenSentReceived(rows: seq<Row>, myId: int) returns (merged: map<Period, Merged>)
    ensures forall p :: p in merged <==>
              p in PeriodsOf(Selected(Sent(rows, myId), true)) && p in PeriodsOf(Received(rows, myId))
    ensures forall p :: p in merged ==>
              merged[p].sent == Summary(Bucket(Selected(Sent(rows, myId), true), p))
    ensures forall p :: p in merged ==>
              merged[p].received == Summary(Bucket(Received(rows, myId), p))
  {
    var sent := GenStats(Sent(rows, myId), true);
    var received := GenStats(Received(rows, myId), false);
    merged := map p | p in sent.Keys * received.Keys :: Merged(sent[p], received[p]);
  }

  // ---------------------------------------------------------------------------
  // Properties

  /** The two sides split the table: every row is on exactly one side, and each
      side holds only rows of the right sender. */
  lemma SidesPartition(rows: seq<Row>, myId: int)
    ensures multiset(Sent(rows, myId)) + multiset(Received(rows, myId)) == multiset(rows)
    ensures forall k :: 0 <= k < |Sent(rows, myId)| ==> Sent(rows, myId)[k].fromId == myId
    ensures forall k :: 0 <= k < |Received(rows, myId)| ==> Received(rows, myId)[k].fromId != myId
  {
    Seqs.FilterPartition(rows, FromOwner(myId));
  }

  /** Before exclusion, a period's sent and received messages add up to all of its messages. */
  lemma SidesPartitionBucket(rows: seq<Row>, myId: int, p: Period)
    ensures |Bucket(Sent(rows, myId), p)| + |Bucket(Received(rows, myId), p)| == |Bucket(rows, p)|
  {
    Seqs.FilterCommutes(rows, FromOwner(myId), InPeriod(p));
    Seqs.FilterCommutes(rows, Seqs.Not(FromOwner(myId)), InPeriod(p));
    Seqs.FilterPartition(Bucket(rows, p), FromOwner(myId));
  }

  /** Forwarded rows are dropped on the sent side only: a forwarded row from
      someone else still counts as received. */
  lemma ForwardedStillReceived(rows: seq<Row>, myId: int, r: Row)
    requires r in rows && r.fromId != myId && !IsOriginal(r)
    ensures r in Received(rows, myId)
    ensures r !in Selected(Sent(rows, myId), true)
  {
    var k :| 0 <= k < |rows| && rows[k] == r;
    assert Seqs.Not(FromOwner(myId))(rows[k]);
    Seqs.FilterKeeps(rows, Seqs.Not(FromOwner(myId)), k);
  }

  const Owner: int := 1

  function SampleRow(fromId: nat, forwarded: bool): Row
  {
    Row(Some(Json.Num(7)), Some(Json.Str("friend")), "personal_chat",
        0, Some(Date(2023, 5, 1, 0)), fromId, Some("hi"),
        if forwarded then Some(Json.Str("someone")) else None,
        None, None, None)
  }

  /** One personal chat, owner 1, three messages of one month: two from the owner
      (one of them forwarded) and one from user 2. The sent side counts one
      message, the received side one. */
  lemma ScenarioOneMonth()
    ensures var rows := [SampleRow(1, false), SampleRow(1, true), SampleRow(2, false)];
            var p := Period(2023, 5);
            && p in PeriodsOf(Selected(Sent(rows, Owner), true))
            && p in PeriodsOf(Received(rows, Owner))
            && Summary(Bucket(Selected(Sent(rows, Owner), true), p)).msg == 1
            && Summary(Bucket(Received(rows, Owner), p)).msg == 1
  {
    var rows := [SampleRow(1, false), SampleRow(1, true), SampleRow(2, false)];
    var p := Period(2023, 5);
    assert Sent(rows, Owner) == [SampleRow(1, false), SampleRow(1, true)];
    assert Selected(Sent(rows, Owner), true) == [SampleRow(1, false)];
    assert Received(rows, Owner) == [SampleRow(2, false)];
    assert Bucket([SampleRow(1, false)], p) == [SampleRow(1, false)];
    assert Bucket([SampleRow(2, false)], p) == [SampleRow(2, false)];
    assert SampleRow(1, false) in Selected(Sent(rows, Owner), true);
    assert SampleRow(2, false) in Received(rows, Owner);
  }
}
