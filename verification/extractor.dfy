/** Selection and projection of the archive's chats (`load_needed_chats_data`):
    only chats of an accepted type are kept, each reduced to its allow-listed
    fields and its messages, each message reduced to its allow-listed fields. */
module Extractor {
  import opened Results
  import opened Json
  import Seqs

  /** `CHAT_TYPES`. */
  const ChatTypes: set<string> := {"private_group", "personal_chat"}

  /** The keys of `CHAT_RECORDS`. */
  const ChatRecords: set<string> := {"id", "name", "type"}

  /** The keys of `MESSAGE_RECORDS`. */
  const MessageRecords: set<string> :=
    {"id", "date", "type", "from_id", "text", "forwarded_from", "media_type", "duration_seconds", "file"}

  /** An extracted chat: its allow-listed fields and its reduced `messages` list. */
  datatype Chat = Chat(fields: Object, messages: seq<Object>)

  /** Whether an item of `chats.list` is a chat of an accepted type. Reading the
      type of an item that is not an object, or has no `type`, raises. */
  function Accepted(v: Value): Result<bool>
  {
    match v
    case Obj(f) =>
      if "type" in f then Ok(f["type"].Str? && f["type"].s in ChatTypes) else Err(KeyError("type"))
    case _ => Err(TypeError("chat"))
  }

  /** The items a `for m in chat['messages']` loop visits. A string or an object
      is iterable too, but yields strings, on which `m.items()` fails unless
      there is nothing to visit. */
  function MessageItems(v: Value): (r: Result<seq<Value>>)
    ensures r.Ok? <==> v.Arr? || (v.Str? && |v.s| == 0) || (v.Obj? && |v.fields| == 0)
    ensures r.Ok? && v.Arr? ==> r.value == v.items
    ensures r.Ok? && !v.Arr? ==> r.value == []
  {
    match v
    case Arr(items) => Ok(items)
    case Str(s) => if |s| == 0 then Ok([]) else Err(TypeError("message"))
    case Obj(f) => if |f| == 0 then Ok([]) else Err(TypeError("message"))
    case _ => Err(TypeError("messages"))
  }

  /** Each message reduced to the `MESSAGE_RECORDS` keys. */
  function ProjectMessages(items: seq<Value>): (r: Result<seq<Object>>)
    ensures r.Ok? <==> forall j :: 0 <= j < |items| ==> items[j].Obj?
    ensures r.Ok? ==> |r.value| == |items|
    ensures r.Ok? ==> forall j :: 0 <= j < |items| ==>
                        r.value[j].Keys == items[j].fields.Keys * MessageRecords
                        && forall k :: k in r.value[j] ==> r.value[j][k] == items[j].fields[k]
  {
    if |items| == 0 then Ok([])
    else if !items[0].Obj? then Err(TypeError("message"))
    else
      match ProjectMessages(items[1..])
      case Err(e) => Err(e)
      case Ok(ms) => Ok([Project(items[0].fields, MessageRecords)] + ms)
  }

  /** One accepted chat reduced to `CHAT_RECORDS` plus its reduced messages. */
  function ProjectChat(f: Object): (r: Result<Chat>)
    ensures r.Ok? <==> "messages" in f && MessageItems(f["messages"]).Ok?
                       && forall j :: 0 <= j < |MessageItems(f["messages"]).value| ==>
                            MessageItems(f["messages"]).value[j].Obj?
    ensures r.Ok? ==> |r.value.messages| == |MessageItems(f["messages"]).value|
    ensures r.Ok? ==> r.value.fields.Keys == f.Keys * ChatRecords
    ensures r.Ok? ==> forall k :: k in r.value.fields ==> r.value.fields[k] == f[k]
    ensures r.Ok? ==> forall j :: 0 <= j < |r.value.messages| ==> r.value.messages[j].Keys <= MessageRecords
    ensures r.Ok? ==> forall j :: 0 <= j < |r.value.messages| ==>
                        r.value.messages[j] == Project(MessageItems(f["messages"]).value[j].fields, MessageRecords)
  {
    var c := Project(f, ChatRecords);
    if "messages" !in f then Err(KeyError("messages"))
    else
      match MessageItems(f["messages"])
      case Err(e) => Err(e)
      case Ok(items) =>
        match ProjectMessages(items)
        case Err(e) => Err(e)
        case Ok(ms) => Ok(Chat(c, ms))
  }

  /** An archive item the extractor passes without raising. */
  predicate Readable(v: Value)
  {
    Accepted(v).Ok? && (Accepted(v).value ==> ProjectChat(v.fields).Ok?)
  }

  /** An item whose type is one of `CHAT_TYPES`. */
  predicate IsWanted(v: Value)
  {
    v.Obj? && "type" in v.fields && v.fields["type"].Str? && v.fields["type"].s in ChatTypes
  }

  /** The extracted chats of `chats.list`, in archive order; the first item that
      cannot be read aborts the whole extraction. */
  function Extract(archive: seq<Value>): (r: Result<seq<Chat>>)
    ensures r.Ok? <==> forall i :: 0 <= i < |archive| ==> Readable(archive[i])
    ensures r.Ok? ==> |r.value| == |Seqs.Filter(archive, IsWanted)|
    ensures r.Ok? ==> forall k :: 0 <= k < |r.value| ==>
                        "type" in r.value[k].fields && r.value[k].fields["type"].Str?
                        && r.value[k].fields["type"].s in ChatTypes
    ensures r.Ok? ==> forall k :: 0 <= k < |r.value| ==>
                        r.value[k].fields.Keys <= ChatRecords
                        && forall j :: 0 <= j < |r.value[k].messages| ==> r.value[k].messages[j].Keys <= MessageRecords
  {
    if |archive| == 0 then Ok([])
    else
      assert Accepted(archive[0]).Ok? ==> (Accepted(archive[0]).value <==> IsWanted(archive[0]));
      match Accepted(archive[0])
      case Err(e) => Err(e)
      case Ok(wanted) =>
        if !wanted then Extract(archive[1..])
        else
          match ProjectChat(archive[0].fields)
          case Err(e) => Err(e)
          case Ok(c) =>
            match Extract(archive[1..])
            case Err(e) => Err(e)
            case Ok(cs) => Ok([c] + cs)
  }

  // ---------------------------------------------------------------------------
  // Properties

  /** One item is dropped when its type is not accepted and otherwise becomes one chat. */
  lemma ExtractOne(v: Value)
    requires Readable(v)
    ensures IsWanted(v) ==> Extract([v]) == Ok([ProjectChat(v.fields).value])
    ensures !IsWanted(v) ==> Extract([v]) == Ok([])
  {
    assert [v][1..] == [];
    assert Extract([]) == Ok([]);
    if IsWanted(v) {
      assert Accepted(v) == Ok(true);
      var c := ProjectChat(v.fields).value;
      assert ProjectChat(v.fields) == Ok(c);
      assert Extract([v]) == Ok([c] + []);
      assert [c] + [] == [c];
    }
  }

  /** What one readable item contributes to the extraction. */
  function Contribution(v: Value): seq<Chat>
    requires Readable(v)
  {
    if IsWanted(v) then [ProjectChat(v.fields).value] else []
  }

  lemma ExtractStep(s: seq<Value>)
    requires |s| > 0 && Readable(s[0]) && Extract(s[1..]).Ok?
    ensures Extract(s) == Ok(Contribution(s[0]) + Extract(s[1..]).value)
  {
    if !IsWanted(s[0]) {
      assert [] + Extract(s[1..]).value == Extract(s[1..]).value;
    }
  }

  /** Extraction works item by item: over a concatenation it is the concatenation
      of the parts' results, so kept chats stay in archive order. */
  lemma {:induction false} ExtractAppend(a: seq<Value>, b: seq<Value>)
    requires Extract(a).Ok? && Extract(b).Ok?
    ensures Extract(a + b) == Ok(Extract(a).value + Extract(b).value)
  {
    if |a| == 0 {
      assert a + b == b;
      assert Extract(a).value + Extract(b).value == Extract(b).value;
    } else {
      var ab := a + b;
      assert Readable(a[0]);
      assert Extract(a[1..]).Ok?;
      var h, ra, rb := Contribution(a[0]), Extract(a[1..]).value, Extract(b).value;
      assert Extract(a) == Ok(h + ra) by {
        ExtractStep(a);
      }
      assert Extract(ab) == Ok(h + (ra + rb)) by {
        Seqs.TailOfAppend(a, b);
        ExtractAppend(a[1..], b);
        ExtractStep(ab);
      }
      Seqs.AppendAssoc(h, ra, rb);
    }
  }

  /** Messages keep their number and order, and each keeps exactly its
      allow-listed fields with their values. */
  lemma MessagesPreserved(f: Object, items: seq<Value>)
    requires "messages" in f && MessageItems(f["messages"]) == Ok(items)
    requires ProjectChat(f).Ok?
    ensures |ProjectChat(f).value.messages| == |items|
    ensures forall j :: 0 <= j < |items| ==>
              items[j].Obj? && ProjectChat(f).value.messages[j] == Project(items[j].fields, MessageRecords)
  {
  }
}
