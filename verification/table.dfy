/** The flat message table (`gen_messages_dataframe`): messages are exploded out
    of their chats with the chat's id, name and type attached, filtered to
    accepted chat types and real messages, and their columns converted. */
module Table {
  import opened Results
  import opened Json
  import Seqs
  import Normalizer
  import Sender
  import Extractor

  /** A timestamp, reduced to the parts the statistics read. */
  datatype Date = Date(year: int, month: int, day: int, nanos: int)

  /** The cast of a date string to `datetime64[ns]`; pandas' parser is not part of this model. */
  type DateParser = string -> Option<Date>

  /** One row of the table. A `None` is a missing cell. The message `type`
      column is not stored: after filtering it always holds `"message"`. */
  datatype Row = Row(
    chatId: Option<Value>,
    chatName: Option<Value>,
    chatType: string,
    id: int,
    date: Option<Date>,
    fromId: nat,
    text: Option<string>,
    forwardedFrom: Option<Value>,
    mediaType: Option<Value>,
    duration: Option<int>,
    file: Option<Value>)

  const MessageKind: string := "message"

  /** A message before conversion, beside the fields of the chat it belongs to. */
  datatype RawRow = RawRow(meta: Object, msg: Object)

  /** The rows of one chat, one per message, in message order. */
  function ChatRows(meta: Object, msgs: seq<Object>): (r: seq<RawRow>)
    ensures |r| == |msgs|
    ensures forall j :: 0 <= j < |msgs| ==> r[j] == RawRow(meta, msgs[j])
  {
    if |msgs| == 0 then [] else [RawRow(meta, msgs[0])] + ChatRows(meta, msgs[1..])
  }

  /** `json_normalize(chats, record_path="messages", meta=[...])`: every message
      of every chat, chat by chat. */
  function Explode(chats: seq<Extractor.Chat>): (r: seq<RawRow>)
  {
    if |chats| == 0 then [] else ChatRows(chats[0].fields, chats[0].messages) + Explode(chats[1..])
  }

  /** The chat type cell when it is a string. */
  function ChatTypeOf(meta: Object): (r: Option<string>)
    ensures r.Some? <==> Cell(meta, "type").Some? && Cell(meta, "type").value.Str?
  {
    match Cell(meta, "type")
    case Some(Str(s)) => Some(s)
    case _ => None
  }

  /** Whether a chat's type is a string among the requested types. */
  predicate ChatAccepted(meta: Object, types: set<string>)
  {
    ChatTypeOf(meta).Some? && ChatTypeOf(meta).value in types
  }

  /** Whether a record is a real message rather than a service record. */
  predicate IsMessage(msg: Object)
  {
    Cell(msg, "type") == Some(Str(MessageKind))
  }

  /** The two row masks applied before conversion. */
  predicate Kept(types: set<string>, x: RawRow)
  {
    ChatAccepted(x.meta, types) && IsMessage(x.msg)
  }

  function KeptBy(types: set<string>): RawRow -> bool
  {
    x => Kept(types, x)
  }

  /** `chat_types`, defaulting to `CHAT_TYPES`. */
  function TypesOf(chatTypes: Option<set<string>>): set<string>
  {
    if chatTypes.Some? then chatTypes.value else Extractor.ChatTypes
  }

  /** The cell of message field `k` as the table sees it. `json_normalize`
      flattens a field holding an object into dotted columns, which the reindex
      to the allow-listed columns drops, so such a field reads as missing, like
      an absent or null one. The chat fields are attached as they are. */
  function Field(msg: Object, k: string): (r: Option<Value>)
    ensures r.None? <==> Cell(msg, k).None? || Cell(msg, k).value.Obj?
    ensures r.Some? ==> r == Cell(msg, k)
  {
    match Cell(msg, k)
    case Some(Obj(_)) => None
    case c => c
  }

  /** A cast to `category`: a categorical needs hashable values, so a list or
      an object in the column raises; anything else is kept as it is. */
  function CategoryColumn(column: string, v: Option<Value>): (r: Result<Option<Value>>)
    ensures r.Ok? <==> v.None? || !(v.value.Arr? || v.value.Obj?)
    ensures r.Ok? ==> r.value == v
  {
    match v
    case Some(Arr(_)) => Err(CastError(column))
    case Some(Obj(_)) => Err(CastError(column))
    case _ => Ok(v)
  }

  /** The `text` column: normalized with link replacement, missing stays missing. */
  function TextColumn(v: Option<Value>): (r: Result<Option<string>>)
    ensures v.None? ==> r == Ok(None)
    ensures r.Ok? <==> v.None? || Normalizer.Decode(v.value).Ok?
    ensures r.Ok? && v.Some? ==> r.value == Some(Normalizer.Normalize(Normalizer.Decode(v.value).value, true))
    ensures v.Some? && v.value.Str? ==> r == Ok(Some(v.value.s))
  {
    match v
    case None => Ok(None)
    case Some(t) =>
      var text :- Normalizer.Decode(t);
      Ok(Some(Normalizer.Normalize(text, true)))
  }

  /** The `from_id` column: the tag deleted, the rest cast to `uint64`. */
  function SenderColumn(v: Option<Value>): (r: Result<nat>)
    ensures r.Ok? <==> v.Some? && v.value.Str? && Sender.FromId(v.value.s).Some?
    ensures r.Ok? ==> Sender.FromId(v.value.s) == Some(r.value)
  {
    match v
    case Some(Str(s)) =>
      (match Sender.FromId(s)
       case Some(n) => Ok(n)
       case None => Err(CastError("from_id")))
    case _ => Err(CastError("from_id"))
  }

  /** The `id` column cast to `int`; a missing id cannot be cast. */
  function IdColumn(v: Option<Value>): (r: Result<int>)
    ensures r.Ok? <==> v.Some? && v.value.Num?
    ensures r.Ok? ==> v == Some(Num(r.value))
  {
    match v
    case Some(Num(n)) => Ok(n)
    case _ => Err(CastError("id"))
  }

  /** The `date` column cast to a timestamp. A missing date becomes the
      missing timestamp (`NaT`), which the table keeps. */
  function DateColumn(v: Option<Value>, parseDate: DateParser): (r: Result<Option<Date>>)
    ensures r.Ok? <==> v.None? || (v.value.Str? && parseDate(v.value.s).Some?)
    ensures v.None? ==> r == Ok(None)
    ensures r.Ok? && v.Some? ==> r.value == parseDate(v.value.s)
  {
    match v
    case None => Ok(None)
    case Some(Str(s)) =>
      (match parseDate(s)
       case Some(d) => Ok(Some(d))
       case None => Err(CastError("date")))
    case _ => Err(CastError("date"))
  }

  /** The `duration_seconds` column cast to nullable `Int64`. */
  function DurationColumn(v: Option<Value>): (r: Result<Option<int>>)
    ensures r.Ok? <==> v.None? || v.value.Num?
    ensures r.Ok? ==> (r.value.None? <==> v.None?)
    ensures r.Ok? && r.value.Some? ==> v == Some(Num(r.value.value))
  {
    match v
    case None => Ok(None)
    case Some(Num(n)) => Ok(Some(n))
    case Some(_) => Err(CastError("duration_seconds"))
  }

  /** One kept message converted to a row, in the source's stage order: text,
      then sender, then the casts of `columns_types`, column by column. */
  function Convert(x: RawRow, parseDate: DateParser): (r: Result<Row>)
    requires ChatTypeOf(x.meta).Some?
    ensures r.Ok? <==>
              && TextColumn(Field(x.msg, "text")).Ok?
              && SenderColumn(Field(x.msg, "from_id")).Ok?
              && CategoryColumn("chat_id", Cell(x.meta, "id")).Ok?
              && CategoryColumn("chat_name", Cell(x.meta, "name")).Ok?
              && IdColumn(Field(x.msg, "id")).Ok?
              && DateColumn(Field(x.msg, "date"), parseDate).Ok?
              && CategoryColumn("forwarded_from", Field(x.msg, "forwarded_from")).Ok?
              && CategoryColumn("media_type", Field(x.msg, "media_type")).Ok?
              && DurationColumn(Field(x.msg, "duration_seconds")).Ok?
              && CategoryColumn("file", Field(x.msg, "file")).Ok?
    ensures r.Ok? ==> r.value.chatId == Cell(x.meta, "id")
    ensures r.Ok? ==> r.value.chatName == Cell(x.meta, "name")
    ensures r.Ok? ==> Some(r.value.chatType) == ChatTypeOf(x.meta)
    ensures r.Ok? ==> Field(x.msg, "id") == Some(Num(r.value.id))
    ensures r.Ok? ==> r.value.date == DateColumn(Field(x.msg, "date"), parseDate).value
    ensures r.Ok? ==> Sender.FromId(Field(x.msg, "from_id").value.s) == Some(r.value.fromId)
    ensures r.Ok? ==> r.value.text == TextColumn(Field(x.msg, "text")).value
    ensures r.Ok? ==> r.value.forwardedFrom == Field(x.msg, "forwarded_from")
    ensures r.Ok? ==> r.value.mediaType == Field(x.msg, "media_type")
    ensures r.Ok? ==> r.value.duration == DurationColumn(Field(x.msg, "duration_seconds")).value
    ensures r.Ok? ==> r.value.file == Field(x.msg, "file")
  {
    var text :- TextColumn(Field(x.msg, "text"));
    var fromId :- SenderColumn(Field(x.msg, "from_id"));
    var chatId :- CategoryColumn("chat_id", Cell(x.meta, "id"));
    var chatName :- CategoryColumn("chat_name", Cell(x.meta, "name"));
    var id :- IdColumn(Field(x.msg, "id"));
    var date :- DateColumn(Field(x.msg, "date"), parseDate);
    var forwardedFrom :- CategoryColumn("forwarded_from", Field(x.msg, "forwarded_from"));
    var mediaType :- CategoryColumn("media_type", Field(x.msg, "media_type"));
    var duration :- DurationColumn(Field(x.msg, "duration_seconds"));
    var file :- CategoryColumn("file", Field(x.msg, "file"));
    Ok(Row(chatId, chatName, ChatTypeOf(x.meta).value, id, date, fromId, text,
           forwardedFrom, mediaType, duration, file))
  }

  /** Every row converted; the first failure aborts the whole table. */
  function ConvertAll(xs: seq<RawRow>, parseDate: DateParser): (r: Result<seq<Row>>)
    requires forall k :: 0 <= k < |xs| ==> ChatTypeOf(xs[k].meta).Some?
    ensures r.Ok? <==> forall k :: 0 <= k < |xs| ==> Convert(xs[k], parseDate).Ok?
    ensures r.Ok? ==> |r.value| == |xs|
    ensures r.Ok? ==> forall k :: 0 <= k < |xs| ==> Convert(xs[k], parseDate) == Ok(r.value[k])
  {
    if |xs| == 0 then Ok([])
    else
      var row :- Convert(xs[0], parseDate);
      var rows :- ConvertAll(xs[1..], parseDate);
      Ok([row] + rows)
  }

  /** The message table of the extracted chats. */
  function BuildTable(chats: seq<Extractor.Chat>, chatTypes: Option<set<string>>, parseDate: DateParser)
    : (r: Result<seq<Row>>)
    ensures r.Ok? ==> forall k :: 0 <= k < |r.value| ==> r.value[k].chatType in TypesOf(chatTypes)
  {
    var kept := Seqs.Filter(Explode(chats), KeptBy(TypesOf(chatTypes)));
    ConvertAll(kept, parseDate)
  }

  // ---------------------------------------------------------------------------
  // Properties

  /** A raw row is in the exploded table exactly when it pairs some chat's
      fields with one of that chat's own messages. */
  predicate FromChats(chats: seq<Extractor.Chat>, x: RawRow)
  {
    exists i, j :: 0 <= i < |chats| && 0 <= j < |chats[i].messages| &&
      x == RawRow(chats[i].fields, chats[i].messages[j])
  }

  lemma {:induction false} ExplodeMembers(chats: seq<Extractor.Chat>, x: RawRow)
    ensures x in Explode(chats) <==> FromChats(chats, x)
  {
    if |chats| > 0 {
      ExplodeMembers(chats[1..], x);
      var head := ChatRows(chats[0].fields, chats[0].messages);
      assert Explode(chats) == head + Explode(chats[1..]);
      if x in head {
        var j :| 0 <= j < |head| && head[j] == x;
        assert x == RawRow(chats[0].fields, chats[0].messages[j]);
      }
      if x in Explode(chats[1..]) {
        var i, j :| 0 <= i < |chats[1..]| && 0 <= j < |chats[1..][i].messages| &&
          x == RawRow(chats[1..][i].fields, chats[1..][i].messages[j]);
        assert x == RawRow(chats[i + 1].fields, chats[i + 1].messages[j]);
      }
      if FromChats(chats, x) {
        var i, j :| 0 <= i < |chats| && 0 <= j < |chats[i].messages| &&
          x == RawRow(chats[i].fields, chats[i].messages[j]);
        if i == 0 {
          assert head[j] == x;
        } else {
          assert chats[1..][i - 1] == chats[i];
          assert FromChats(chats[1..], x);
        }
      }
    }
  }

  /** Field `k` of `o` holds an object. */
  predicate ObjectCell(o: Object, k: string)
  {
    Cell(o, k).Some? && Cell(o, k).value.Obj?
  }

  /** Field `k` of `o` holds a list. */
  predicate ListCell(o: Object, k: string)
  {
    Cell(o, k).Some? && Cell(o, k).value.Arr?
  }

  /** An object-valued message field is flattened away and reads as missing: a
      forwarded-from object leaves the row original, an object text or duration
      leaves it without text or duration, an object date leaves it undated. A
      list in a categorical column, or an object in a chat field, fails the
      conversion. */
  lemma FlattenedAndUnhashableCells(x: RawRow, parseDate: DateParser)
    requires ChatTypeOf(x.meta).Some?
    ensures var r := Convert(x, parseDate);
            && (r.Ok? && ObjectCell(x.msg, "forwarded_from") ==> r.value.forwardedFrom.None?)
            && (r.Ok? && ObjectCell(x.msg, "text") ==> r.value.text.None?)
            && (r.Ok? && ObjectCell(x.msg, "duration_seconds") ==> r.value.duration.None?)
            && (r.Ok? && ObjectCell(x.msg, "date") ==> r.value.date.None?)
    ensures ListCell(x.msg, "forwarded_from") ==> Convert(x, parseDate).Err?
    ensures ListCell(x.msg, "media_type") ==> Convert(x, parseDate).Err?
    ensures ListCell(x.msg, "file") ==> Convert(x, parseDate).Err?
    ensures ListCell(x.meta, "id") || ObjectCell(x.meta, "id") ==> Convert(x, parseDate).Err?
    ensures ListCell(x.meta, "name") || ObjectCell(x.meta, "name") ==> Convert(x, parseDate).Err?
  {
  }

  /** The number of kept messages, counted chat by chat. */
  function KeptCount(chats: seq<Extractor.Chat>, types: set<string>): nat
  {
    if |chats| == 0 then 0
    else
      (if ChatAccepted(chats[0].fields, types) then |Seqs.Filter(chats[0].messages, IsMessage)| else 0)
      + KeptCount(chats[1..], types)
  }

  lemma {:induction false} ChatRowsKept(meta: Object, msgs: seq<Object>, types: set<string>)
    ensures |Seqs.Filter(ChatRows(meta, msgs), KeptBy(types))|
         == if ChatAccepted(meta, types) then |Seqs.Filter(msgs, IsMessage)| else 0
  {
    if |msgs| > 0 {
      ChatRowsKept(meta, msgs[1..], types);
    }
  }

  lemma {:induction false} KeptRowsCount(chats: seq<Extractor.Chat>, types: set<string>)
    ensures |Seqs.Filter(Explode(chats), KeptBy(types))| == KeptCount(chats, types)
  {
    if |chats| > 0 {
      var head := ChatRows(chats[0].fields, chats[0].messages);
      Seqs.FilterAppend(head, Explode(chats[1..]), KeptBy(types));
      ChatRowsKept(chats[0].fields, chats[0].messages, types);
      KeptRowsCount(chats[1..], types);
    }
  }

  /** The table has one row per message of kind "message" in a chat of an accepted type. */
  lemma TableSize(chats: seq<Extractor.Chat>, chatTypes: Option<set<string>>, parseDate: DateParser)
    requires BuildTable(chats, chatTypes, parseDate).Ok?
    ensures |BuildTable(chats, chatTypes, parseDate).value| == KeptCount(chats, TypesOf(chatTypes))
  {
    KeptRowsCount(chats, TypesOf(chatTypes));
  }

  /** A kept message: of kind "message", in a chat of an accepted type. */
  predicate KeptMessage(chats: seq<Extractor.Chat>, types: set<string>, i: int, j: int)
  {
    0 <= i < |chats| && 0 <= j < |chats[i].messages| &&
    Kept(types, RawRow(chats[i].fields, chats[i].messages[j]))
  }

  /** The table is built exactly when every kept message converts. */
  lemma TableBuilt(chats: seq<Extractor.Chat>, chatTypes: Option<set<string>>, parseDate: DateParser)
    ensures BuildTable(chats, chatTypes, parseDate).Ok? <==>
              forall i, j :: KeptMessage(chats, TypesOf(chatTypes), i, j) ==>
                Convert(RawRow(chats[i].fields, chats[i].messages[j]), parseDate).Ok?
  {
    var types := TypesOf(chatTypes);
    var kept := Seqs.Filter(Explode(chats), KeptBy(types));
    if BuildTable(chats, chatTypes, parseDate).Ok? {
      forall i, j | KeptMessage(chats, types, i, j)
        ensures Convert(RawRow(chats[i].fields, chats[i].messages[j]), parseDate).Ok?
      {
        var x := RawRow(chats[i].fields, chats[i].messages[j]);
        KeptInFilter(chats, types, i, j);
        var k :| 0 <= k < |kept| && kept[k] == x;
      }
    }
    if forall i, j :: KeptMessage(chats, types, i, j) ==>
         Convert(RawRow(chats[i].fields, chats[i].messages[j]), parseDate).Ok? {
      forall k | 0 <= k < |kept|
        ensures Convert(kept[k], parseDate).Ok?
      {
        ExplodeMembers(chats, kept[k]);
      }
    }
  }

  /** Join correctness: every row is the conversion of a kept message, and it
      carries the id, name and type of that message's own chat. */
  lemma RowsComeFromTheirChat(chats: seq<Extractor.Chat>, chatTypes: Option<set<string>>, parseDate: DateParser, k: int)
    requires BuildTable(chats, chatTypes, parseDate).Ok?
    requires 0 <= k < |BuildTable(chats, chatTypes, parseDate).value|
    ensures exists i, j :: KeptMessage(chats, TypesOf(chatTypes), i, j) &&
              var row := BuildTable(chats, chatTypes, parseDate).value[k];
              && Convert(RawRow(chats[i].fields, chats[i].messages[j]), parseDate) == Ok(row)
              && row.chatId == Cell(chats[i].fields, "id")
              && row.chatName == Cell(chats[i].fields, "name")
              && Some(row.chatType) == ChatTypeOf(chats[i].fields)
              && Cell(chats[i].messages[j], "type") == Some(Str(MessageKind))
  {
    var kept := Seqs.Filter(Explode(chats), KeptBy(TypesOf(chatTypes)));
    ExplodeMembers(chats, kept[k]);
  }

  /** Completeness: every kept message appears as a row. */
  lemma EveryKeptMessageHasRow(chats: seq<Extractor.Chat>, chatTypes: Option<set<string>>, parseDate: DateParser, i: int, j: int)
    requires BuildTable(chats, chatTypes, parseDate).Ok?
    requires KeptMessage(chats, TypesOf(chatTypes), i, j)
    ensures Convert(RawRow(chats[i].fields, chats[i].messages[j]), parseDate).Ok?
    ensures Convert(RawRow(chats[i].fields, chats[i].messages[j]), parseDate).value
              in BuildTable(chats, chatTypes, parseDate).value
  {
    var kept := Seqs.Filter(Explode(chats), KeptBy(TypesOf(chatTypes)));
    var x := RawRow(chats[i].fields, chats[i].messages[j]);
    KeptInFilter(chats, TypesOf(chatTypes), i, j);
    var k :| 0 <= k < |kept| && kept[k] == x;
  }

  /** A kept message survives the row mask. */
  lemma KeptInFilter(chats: seq<Extractor.Chat>, types: set<string>, i: int, j: int)
    requires KeptMessage(chats, types, i, j)
    ensures RawRow(chats[i].fields, chats[i].messages[j]) in Seqs.Filter(Explode(chats), KeptBy(types))
  {
    var x := RawRow(chats[i].fields, chats[i].messages[j]);
    var e := Explode(chats);
    ExplodeMembers(chats, x);
    var m :| 0 <= m < |e| && e[m] == x;
    Seqs.FilterKeeps(e, KeptBy(types), m);
  }

  lemma {:induction false} ExplodeAppend(a: seq<Extractor.Chat>, b: seq<Extractor.Chat>)
    ensures Explode(a + b) == Explode(a) + Explode(b)
  {
    if |a| == 0 {
      assert a + b == b;
    } else {
      Seqs.TailOfAppend(a, b);
      ExplodeAppend(a[1..], b);
      var head := ChatRows(a[0].fields, a[0].messages);
      Seqs.AppendAssoc(head, Explode(a[1..]), Explode(b));
    }
  }

  lemma ConvertAllStep(xs: seq<RawRow>, parseDate: DateParser)
    requires |xs| > 0
    requires forall k :: 0 <= k < |xs| ==> ChatTypeOf(xs[k].meta).Some?
    requires Convert(xs[0], parseDate).Ok? && ConvertAll(xs[1..], parseDate).Ok?
    ensures ConvertAll(xs, parseDate) == Ok([Convert(xs[0], parseDate).value] + ConvertAll(xs[1..], parseDate).value)
  {
    var row := Convert(xs[0], parseDate).value;
    var rest := ConvertAll(xs[1..], parseDate).value;
    assert ConvertAll(xs, parseDate) == Ok([row] + rest);
  }

  lemma {:induction false} ConvertAllAppend(xs: seq<RawRow>, ys: seq<RawRow>, parseDate: DateParser)
    requires forall k :: 0 <= k < |xs| ==> ChatTypeOf(xs[k].meta).Some?
    requires forall k :: 0 <= k < |ys| ==> ChatTypeOf(ys[k].meta).Some?
    requires ConvertAll(xs, parseDate).Ok? && ConvertAll(ys, parseDate).Ok?
    ensures forall k :: 0 <= k < |xs + ys| ==> ChatTypeOf((xs + ys)[k].meta).Some?
    ensures ConvertAll(xs + ys, parseDate) == Ok(ConvertAll(xs, parseDate).value + ConvertAll(ys, parseDate).value)
  {
    if |xs| == 0 {
      Seqs.AppendEmpty(xs, ys);
      Seqs.AppendEmpty(ConvertAll(xs, parseDate).value, ConvertAll(ys, parseDate).value);
    } else {
      var xys := xs + ys;
      var row := Convert(xs[0], parseDate).value;
      var rx, ry := ConvertAll(xs[1..], parseDate).value, ConvertAll(ys, parseDate).value;
      assert ConvertAll(xs, parseDate) == Ok([row] + rx) by {
        ConvertAllStep(xs, parseDate);
      }
      assert ConvertAll(xys, parseDate) == Ok([row] + (rx + ry)) by {
        Seqs.TailOfAppend(xs, ys);
        ConvertAllAppend(xs[1..], ys, parseDate);
        ConvertAllStep(xys, parseDate);
      }
      Seqs.AppendAssoc([row], rx, ry);
    }
  }

  /** The table is built chat by chat: the rows of a concatenation are the rows
      of its parts, in order, so messages keep their archive order. */
  lemma BuildTableAppend(a: seq<Extractor.Chat>, b: seq<Extractor.Chat>, chatTypes: Option<set<string>>, parseDate: DateParser)
    requires BuildTable(a, chatTypes, parseDate).Ok? && BuildTable(b, chatTypes, parseDate).Ok?
    ensures BuildTable(a + b, chatTypes, parseDate)
         == Ok(BuildTable(a, chatTypes, parseDate).value + BuildTable(b, chatTypes, parseDate).value)
  {
    var keep := KeptBy(TypesOf(chatTypes));
    ExplodeAppend(a, b);
    Seqs.FilterAppend(Explode(a), Explode(b), keep);
    ConvertAllAppend(Seqs.Filter(Explode(a), keep), Seqs.Filter(Explode(b), keep), parseDate);
  }

  /** After extraction, the table's default chat-type mask drops no chat: only
      the message-kind mask removes rows. */
  lemma ExtractedChatsAccepted(archive: seq<Value>)
    requires Extractor.Extract(archive).Ok?
    ensures forall k :: 0 <= k < |Extractor.Extract(archive).value| ==>
              ChatAccepted(Extractor.Extract(archive).value[k].fields, TypesOf(None))
  {
  }
}
