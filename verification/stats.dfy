/** Per-period statistics of the message table (`gen_stats_dataframe` with the
    aggregations of `STAT_FUNCTIONS`, monthly periods). */
module Stats {
  import opened Results
  import opened Json
  import Seqs
  import opened Table

  /** A calendar month, the key `date.dt.to_period("M")` groups by. */
  datatype Period = Period(year: int, month: int)

  function PeriodOf(d: Date): Period
  {
    Period(d.year, d.month)
  }

  /** One bucket's aggregates, named as in `STAT_COLUMNS_NAMES`: distinct chats,
      messages, characters and media seconds. */
  datatype Stat = Stat(chats: nat, msg: nat, chr: int, mediaSec: int)

  /** `text.str.len()`, a missing text counting as 0 in the sum. */
  function Chars(r: Row): int
  {
    if r.text.Some? then |r.text.value| else 0
  }

  /** `duration_seconds`, a missing duration counting as 0 in the sum. */
  function Seconds(r: Row): int
  {
    if r.duration.Some? then r.duration.value else 0
  }

  /** Whether a row is the sender's own message: its forwarded-from cell is missing. */
  predicate IsOriginal(r: Row)
  {
    r.forwardedFrom.None?
  }

  /** The rows aggregated: all of them, or only the originals when forwarded rows are excluded. */
  function Selected(rows: seq<Row>, excludeForwarded: bool): seq<Row>
  {
    if excludeForwarded then Seqs.Filter(rows, IsOriginal) else rows
  }

  /** Whether a row is dated in period `p`. A row without a date (`NaT`) lies
      in no period: grouping drops missing keys. */
  predicate Dated(r: Row, p: Period)
  {
    r.date.Some? && PeriodOf(r.date.value) == p
  }

  function InPeriod(p: Period): Row -> bool
  {
    (r: Row) => Dated(r, p)
  }

  /** The period of a row, as a set that is empty when the row has no date. */
  function PeriodSet(r: Row): set<Period>
  {
    if r.date.Some? then {PeriodOf(r.date.value)} else {}
  }

  /** The rows of one period, in table order. */
  function Bucket(rows: seq<Row>, p: Period): seq<Row>
  {
    Seqs.Filter(rows, InPeriod(p))
  }

  /** The periods that occur in `rows`. */
  function PeriodsOf(rows: seq<Row>): set<Period>
  {
    if |rows| == 0 then {} else PeriodSet(rows[0]) + PeriodsOf(rows[1..])
  }

  /** The distinct non-missing chat ids of `rows` (`nunique` skips missing cells). */
  function ChatIds(rows: seq<Row>): set<Value>
  {
    if |rows| == 0 then {} else IdOf(rows[0]) + ChatIds(rows[1..])
  }

  /** The chat id of one row, as a set that is empty when the cell is missing. */
  function IdOf(r: Row): set<Value>
  {
    if r.chatId.Some? then {r.chatId.value} else {}
  }

  /** The aggregates of one group of rows. */
  function Summary(rows: seq<Row>): Stat
  {
    Stat(|ChatIds(rows)|, |rows|, Seqs.Sum(rows, Chars), Seqs.Sum(rows, Seconds))
  }

  /** Running aggregates of a bucket while the table is scanned. */
  datatype Acc = Acc(ids: set<Value>, msg: nat, chr: int, media: int)

  const Empty: Acc := Acc({}, 0, 0, 0)

  function AccOf(rows: seq<Row>): Acc
  {
    Acc(ChatIds(rows), |rows|, Seqs.Sum(rows, Chars), Seqs.Sum(rows, Seconds))
  }

  function Add(a: Acc, r: Row): Acc
  {
    Acc(a.ids + IdOf(r), a.msg + 1, a.chr + Chars(r), a.media + Seconds(r))
  }

  /** A period occurs in `rows` exactly when some row falls in it. */
  lemma {:induction false} PeriodsMembers(rows: seq<Row>, p: Period)
    ensures p in PeriodsOf(rows) <==> exists k :: 0 <= k < |rows| && Dated(rows[k], p)
  {
    if |rows| > 0 {
      PeriodsMembers(rows[1..], p);
      if p in PeriodsOf(rows[1..]) {
        var k :| 0 <= k < |rows[1..]| && Dated(rows[1..][k], p);
        assert Dated(rows[k + 1], p);
      }
      if exists k :: 0 <= k < |rows| && Dated(rows[k], p) {
        var k :| 0 <= k < |rows| && Dated(rows[k], p);
        if k > 0 {
          assert Dated(rows[1..][k - 1], p);
        }
      }
    }
  }

  lemma BucketOfAbsent(rows: seq<Row>, p: Period)
    ensures p !in PeriodsOf(rows) ==> Bucket(rows, p) == []
  {
    if |Bucket(rows, p)| > 0 {
      var r := Bucket(rows, p)[0];
      var k :| 0 <= k < |rows| && rows[k] == r;
      PeriodsMembers(rows, p);
    }
  }

  lemma {:induction false} PeriodsAppend(xs: seq<Row>, r: Row)
    ensures PeriodsOf(xs + [r]) == PeriodsOf(xs) + PeriodSet(r)
  {
    if |xs| == 0 {
      assert xs + [r] == [r];
    } else {
      Seqs.TailOfAppend(xs, [r]);
      PeriodsAppend(xs[1..], r);
    }
  }

  lemma {:induction false} ChatIdsAppend(xs: seq<Row>, r: Row)
    ensures ChatIds(xs + [r]) == ChatIds(xs) + IdOf(r)
  {
    if |xs| == 0 {
      assert xs + [r] == [r];
    } else {
      Seqs.TailOfAppend(xs, [r]);
      ChatIdsAppend(xs[1..], r);
    }
  }

  /** A value is a distinct chat id of `rows` exactly when some row carries it. */
  lemma {:induction false} ChatIdsMembers(rows: seq<Row>, v: Value)
    ensures v in ChatIds(rows) <==> exists k :: 0 <= k < |rows| && rows[k].chatId == Some(v)
  {
    if |rows| > 0 {
      ChatIdsMembers(rows[1..], v);
      if v in ChatIds(rows[1..]) {
        var k :| 0 <= k < |rows[1..]| && rows[1..][k].chatId == Some(v);
        assert rows[k + 1].chatId == Some(v);
      }
      if exists k :: 0 <= k < |rows| && rows[k].chatId == Some(v) {
        var k :| 0 <= k < |rows| && rows[k].chatId == Some(v);
        if k > 0 {
          assert rows[1..][k - 1].chatId == Some(v);
        }
      }
    }
  }

  lemma SumOne(r: Row, f: Row -> int)
    ensures Seqs.Sum([r], f) == f(r)
  {
  }

  /** Scanning one more row updates its own bucket and no other. */
  lemma AccStep(xs: seq<Row>, r: Row, p: Period)
    ensures AccOf(Bucket(xs + [r], p))
         == if Dated(r, p) then Add(AccOf(Bucket(xs, p)), r) else AccOf(Bucket(xs, p))
  {
    Seqs.FilterAppend(xs, [r], InPeriod(p));
    var b := Bucket(xs, p);
    if Dated(r, p) {
      assert Bucket([r], p) == [r];
      Seqs.SumAppend(b, [r], Chars);
      Seqs.SumAppend(b, [r], Seconds);
      SumOne(r, Chars);
      SumOne(r, Seconds);
      ChatIdsAppend(b, r);
    } else {
      assert Bucket([r], p) == [];
      Seqs.AppendEmpty([], b);
      assert b + [] == b;
    }
  }

  /** The running aggregates after scanning one more row; an undated row is skipped. */
  function Step(acc: map<Period, Acc>, r: Row): map<Period, Acc>
  {
    if r.date.None? then acc
    else
      var p := PeriodOf(r.date.value);
      acc[p := Add(if p in acc then acc[p] else Empty, r)]
  }

  /** The running aggregates describe exactly the rows scanned so far. */
  ghost predicate Describes(acc: map<Period, Acc>, xs: seq<Row>)
  {
    && acc.Keys == PeriodsOf(xs)
    && forall p :: p in acc ==> acc[p] == AccOf(Bucket(xs, p))
  }

  lemma StepBucket(acc: map<Period, Acc>, xs: seq<Row>, r: Row, q: Period)
    requires Describes(acc, xs)
    requires q in Step(acc, r)
    ensures Step(acc, r)[q] == AccOf(Bucket(xs + [r], q))
  {
    AccStep(xs, r, q);
    if Dated(r, q) && q !in acc {
      BucketOfAbsent(xs, q);
    }
  }

  lemma StepDescribes(acc: map<Period, Acc>, xs: seq<Row>, r: Row)
    requires Describes(acc, xs)
    ensures Describes(Step(acc, r), xs + [r])
  {
    assert Step(acc, r).Keys == PeriodsOf(xs + [r]) by {
      PeriodsAppend(xs, r);
    }
    forall q | q in Step(acc, r)
      ensures Step(acc, r)[q] == AccOf(Bucket(xs + [r], q))
    {
      StepBucket(acc, xs, r, q);
    }
  }

  /** The statistics table: one bucket per period present in the selected rows,
      holding that period's distinct chats, message count, character total and
      media seconds (missing values counting as 0). */
  method GenStats(rows: seq<Row>, excludeForwarded: bool) returns (stats: map<Period, Stat>)
    ensures stats.Keys == PeriodsOf(Selected(rows, excludeForwarded))
    ensures forall p :: p in stats ==> stats[p] == Summary(Bucket(Selected(rows, excludeForwarded), p))
  {
    var kept := Selected(rows, excludeForwarded);
    var acc: map<Period, Acc> := map[];
    var i := 0;
    while i < |kept|
      invariant 0 <= i <= |kept|
      invariant Describes(acc, kept[..i])
    {
      StepDescribes(acc, kept[..i], kept[i]);
      Seqs.PrefixStep(kept, i);
      acc := Step(acc, kept[i]);
      i := i + 1;
    }
    Seqs.WholePrefix(kept);
    stats := map p | p in acc :: Stat(|acc[p].ids|, acc[p].msg, acc[p].chr, acc[p].media);
  }

  // ---------------------------------------------------------------------------
  // Properties

  /** Selecting the originals and then one period is selecting the period and then its originals. */
  lemma OriginalsOfBucket(rows: seq<Row>, p: Period)
    ensures Bucket(Selected(rows, true), p) == Seqs.Filter(Bucket(rows, p), IsOriginal)
  {
    Seqs.FilterCommutes(rows, IsOriginal, InPeriod(p));
  }

  /** Excluding forwarded rows removes from each period exactly its forwarded rows. */
  lemma ExcludedForwardedCount(rows: seq<Row>, p: Period)
    ensures |Bucket(Selected(rows, true), p)| + |Seqs.Filter(Bucket(rows, p), Seqs.Not(IsOriginal))|
         == |Bucket(rows, p)|
  {
    OriginalsOfBucket(rows, p);
    Seqs.FilterPartition(Bucket(rows, p), IsOriginal);
  }

  lemma ChatIdsSubset(xs: seq<Row>, ys: seq<Row>)
    requires forall k :: 0 <= k < |xs| ==> xs[k] in ys
    ensures ChatIds(xs) <= ChatIds(ys)
    ensures |ChatIds(xs)| <= |ChatIds(ys)|
  {
    forall v | v in ChatIds(xs)
      ensures v in ChatIds(ys)
    {
      ChatIdsMembers(xs, v);
      var k :| 0 <= k < |xs| && xs[k].chatId == Some(v);
      var j :| 0 <= j < |ys| && ys[j] == xs[k];
      ChatIdsMembers(ys, v);
    }
    SubsetCardinality(ChatIds(xs), ChatIds(ys));
  }

  lemma {:induction false} SubsetCardinality<T>(a: set<T>, b: set<T>)
    requires a <= b
    ensures |a| <= |b|
  {
    if a != {} {
      var x :| x in a;
      SubsetCardinality(a - {x}, b - {x});
    }
  }

  /** With exclusion, no new period appears and no bucket grows: each has at most
      as many messages, chats and characters as without exclusion. */
  lemma ExcludeForwardedShrinks(rows: seq<Row>, p: Period)
    ensures PeriodsOf(Selected(rows, true)) <= PeriodsOf(rows)
    ensures Summary(Bucket(Selected(rows, true), p)).msg <= Summary(Bucket(rows, p)).msg
    ensures Summary(Bucket(Selected(rows, true), p)).chats <= Summary(Bucket(rows, p)).chats
    ensures Summary(Bucket(Selected(rows, true), p)).chr <= Summary(Bucket(rows, p)).chr
  {
    forall q | q in PeriodsOf(Selected(rows, true))
      ensures q in PeriodsOf(rows)
    {
      var kept := Selected(rows, true);
      PeriodsMembers(kept, q);
      var k :| 0 <= k < |kept| && Dated(kept[k], q);
      var j :| 0 <= j < |rows| && rows[j] == kept[k];
      PeriodsMembers(rows, q);
    }
    var b := Bucket(rows, p);
    OriginalsOfBucket(rows, p);
    ChatIdsSubset(Seqs.Filter(b, IsOriginal), b);
    Seqs.SumFilterBound(b, IsOriginal, Chars);
  }

  /** A row without a date is aggregated nowhere: it lies in no period's bucket,
      as grouping drops rows whose key is `NaT`. */
  lemma UndatedInNoBucket(rows: seq<Row>, r: Row, p: Period)
    requires r.date.None?
    ensures r !in Bucket(rows, p)
  {
  }

  /** Every dated selected row lies in the bucket of its own period and in no
      other; an undated row lies in none. */
  lemma RowInOneBucket(rows: seq<Row>, excludeForwarded: bool, r: Row, p: Period)
    requires r in Selected(rows, excludeForwarded)
    ensures r.date.Some? ==> PeriodOf(r.date.value) in PeriodsOf(Selected(rows, excludeForwarded))
    ensures r in Bucket(Selected(rows, excludeForwarded), p) <==> r.date.Some? && PeriodOf(r.date.value) == p
  {
    var kept := Selected(rows, excludeForwarded);
    var k :| 0 <= k < |kept| && kept[k] == r;
    if r.date.Some? {
      PeriodsMembers(kept, PeriodOf(r.date.value));
    }
    if Dated(r, p) {
      assert InPeriod(p)(kept[k]);
      Seqs.FilterKeeps(kept, InPeriod(p), k);
    }
  }
}
