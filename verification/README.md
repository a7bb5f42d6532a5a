# tg-takeout-parser, modelled in Dafny

`tg-takeout-parser.py` reads a Telegram takeout archive (`result.json`), keeps
the chats of the wanted types, flattens their messages into one table with the
chat's id, name and type attached, and computes monthly statistics: distinct
chats, message count, character count and media seconds. A final view splits
the statistics into messages the owner sent and messages the owner received,
and joins the two on the month.

This project models that pipeline as pure functions over immutable values and
proves what each stage promises:

| module | file | models |
|---|---|---|
| `Results` | results.dfy | `Option`, `Result` and the exceptions the script raises (`KeyError`, `TypeError`, cast errors) |
| `Seqs` | seqs.dfy | order-preserving row masks (`Filter`) and column sums (`Sum`), with their append, partition and commutation lemmas |
| `Json` | json.dfy | parsed JSON values; a table cell (null and absent both "missing"); the allow-list dictionary comprehension |
| `Normalizer` | normalizer.dfy | `normalize_text_value`: a text is `Plain(s)` or `Spans(elems)`, each element a bare string or a `{type, text}` span |
| `Sender` | sender.dfy | the `from_id` derivation: delete every `"user"`, cast the rest to `uint64` |
| `Extractor` | extractor.dfy | the selection/projection of `load_needed_chats_data` over the items of `chats.list` |
| `Table` | table.dfy | `gen_messages_dataframe`: explode, mask by chat type and message kind, convert the columns |
| `Stats` | stats.dfy | `gen_stats_dataframe` with `STAT_FUNCTIONS`, monthly periods, optional exclusion of forwarded rows |
| `SentReceived` | sent_received.dfy | `gen_sent_received_dataframe`: owner / others split and inner join on the period |

The archive is an already-parsed `seq<Json.Value>` (the items of `chats.list`);
the owner's id and the date parser are parameters. Errors are `Result.Err`
values: as in the script, one failing item or row aborts the whole call.

Two behaviours of the script are worth spelling out, and the model follows the script:

- A sender token without the `user` prefix is not rejected: `"12345"` gives
  12345 (`Sender.UntaggedTokenAccepted`), because the code deletes the tag rather
  than requiring it.
- A row whose cast fails is not skipped and counted: the whole table build
  fails (`Table.TableBuilt`), because the code casts whole columns.

## Model

| member | source | states |
|---|---|---|
| `Normalizer.Normalize` | tg-takeout-parser.py:78-80 | a plain string comes back unchanged; an empty list gives the empty string |
| `Normalizer.NormalizeIdempotent` | tg-takeout-parser.py:78-80 | normalizing an already normalized text returns it unchanged |
| `Normalizer.NormalizeRecoversPieces` | tg-takeout-parser.py:76-79 | when no element contributes a space, splitting a flattened list text at spaces gives back the elements' contributions, in order |
| `Normalizer.NormalizeAppend` | tg-takeout-parser.py:76-79 | for every list text: a one-element list gives that element's contribution, and each further element adds one space and its contribution |
| `Normalizer.JoinAppend` | tg-takeout-parser.py:79 | the space-join of pieces with one more piece is the previous join, one space and that piece, whatever the pieces contain |
| `Normalizer.SplitJoin` | tg-takeout-parser.py:79 | splitting a space-join at spaces recovers the joined pieces when none contains a space |
| `Normalizer.JoinLength` | tg-takeout-parser.py:79 | the joined text is as long as its pieces plus one separator per neighbouring pair |
| `Normalizer.LinkTextIgnored` | tg-takeout-parser.py:76 | with link replacement on, changing the text of link spans does not change the output |
| `Normalizer.TypesIgnoredWithoutReplacement` | tg-takeout-parser.py:76 | with link replacement off, every span contributes exactly its text whatever its type |
| `Normalizer.LinkReplacedExample` | tg-takeout-parser.py:76 | a lone link span with replacement on yields the `<<link>>` placeholder, not the URL |
| `Normalizer.MixedListExample` | tg-takeout-parser.py:76-79 | `["a", {"type": "bold", "text": "b"}]` yields `"a b"` |
| `Normalizer.DecodeElem` | tg-takeout-parser.py:76-79 | a list element is read as a bare string, or, when it is an object with string `type` and `text`, as the span of that type and text; anything else raises |
| `Normalizer.DecodeElems` | tg-takeout-parser.py:79 | a list is read exactly when every element is, element by element and in order |
| `Normalizer.Decode` | tg-takeout-parser.py:78-80 | a text value is read exactly when it is a string or a list of readable elements; a list keeps its length and element `i` is the reading of item `i` |
| `Sender.RemoveAll` | tg-takeout-parser.py:119 | deleting occurrences never lengthens the string |
| `Sender.RemoveAllKeepsPrefix` | tg-takeout-parser.py:119 | text before the first occurrence is copied unchanged and the scan goes on with the rest |
| `Sender.RemoveAllLeading` | tg-takeout-parser.py:119 | an occurrence at the front is deleted |
| `Sender.RemoveAllFirst` | tg-takeout-parser.py:119 | the first occurrence is deleted, the text before it kept, and the scan resumes after it |
| `Sender.RemoveAllAbsent` | tg-takeout-parser.py:119 | a string in which the tag does not occur is left unchanged |
| `Sender.SinglePassDeletion` | tg-takeout-parser.py:119 | deletion is one left-to-right pass: `"uuserser1"` becomes `"user1"`, which then fails the cast |
| `Sender.ParseUnsigned` | tg-takeout-parser.py:120 | the `uint64` cast accepts only a non-empty run of decimal digits whose value is below 2^64 |
| `Sender.ParseDecimal` | tg-takeout-parser.py:120 | the cast reads back every decimal spelling below 2^64 as its number |
| `Sender.FromId` | tg-takeout-parser.py:119-120 | a derived sender id always fits in 64 bits |
| `Sender.FromTaggedId` | tg-takeout-parser.py:119-120 | the token `"user" + decimal(n)` yields the id `n` for every `n` below 2^64 |
| `Sender.FromIdExample` | tg-takeout-parser.py:119-120 | `"user12345"` yields 12345 |
| `Sender.UntaggedTokenAccepted` | tg-takeout-parser.py:119-120 | a token without the `user` tag is accepted: `decimal(n)` yields `n` |
| `Json.Project` | tg-takeout-parser.py:53 | the allow-list comprehension keeps exactly the allowed keys present, with their values |
| `Extractor.ProjectMessages` | tg-takeout-parser.py:54 | every message must be an object; the list keeps its length and order, each message keeps exactly its `MESSAGE_RECORDS` keys with their values |
| `Extractor.MessageItems` | tg-takeout-parser.py:54 | the message loop runs over a list's items, and over nothing for an empty string or object; any other value raises |
| `Extractor.ProjectChat` | tg-takeout-parser.py:53-54 | a kept chat is read exactly when it has a `messages` value the loop can visit and every visited message is an object; it keeps exactly its `CHAT_RECORDS` keys with their values and, per message, that message's `MESSAGE_RECORDS` fields |
| `Extractor.Extract` | tg-takeout-parser.py:50-55 | extraction succeeds exactly when every item can be read; it returns one chat per item whose type is in `CHAT_TYPES`, each of an accepted type, with chat and message keys inside the allow-lists |
| `Extractor.ExtractOne` | tg-takeout-parser.py:50-55 | a single item is dropped when its type is not accepted and otherwise becomes exactly its projection |
| `Extractor.ExtractAppend` | tg-takeout-parser.py:50-55 | extraction of a concatenation is the concatenation of the extractions, so kept chats keep archive order |
| `Extractor.MessagesPreserved` | tg-takeout-parser.py:54 | a kept chat's messages keep their number and order, each reduced to its allowed fields |
| `Table.ChatRows` | tg-takeout-parser.py:100-104 | a chat explodes into one row per message, in message order, each beside the chat's fields |
| `Table.ExplodeMembers` | tg-takeout-parser.py:100-104 | a raw row is in the exploded table exactly when it pairs some chat's fields with one of that chat's own messages |
| `Table.Field` | tg-takeout-parser.py:100-109 | a message field holding an object is flattened into dotted columns that the reindex drops, so it reads as missing, as an absent or null field does |
| `Table.CategoryColumn` | tg-takeout-parser.py:124 | a categorical cast fails exactly on a list or an object and otherwise keeps the cell |
| `Table.TextColumn` | tg-takeout-parser.py:116 | a missing text stays missing; otherwise the text converts exactly when it can be read, and the cell holds its flattened form with links replaced |
| `Table.SenderColumn` | tg-takeout-parser.py:119-120 | the sender cell converts exactly when it is a string whose tag-stripped rest casts to `uint64`, and the row holds that number |
| `Table.IdColumn` | tg-takeout-parser.py:124 | the message id converts exactly when it is an integer, and the row holds that integer |
| `Table.DateColumn` | tg-takeout-parser.py:124 | a missing date becomes the missing timestamp; otherwise the date converts exactly when it is a string the date parser accepts, to the parsed timestamp |
| `Table.DurationColumn` | tg-takeout-parser.py:124 | the duration converts exactly when it is missing or an integer; the cell is missing exactly when the field is, and otherwise holds that integer |
| `Table.Convert` | tg-takeout-parser.py:116-124 | a message converts exactly when each of its columns does; the row carries its chat's id, name and type, and its own id, date, derived sender, flattened text, forwarded marker, media type, duration and file |
| `Table.FlattenedAndUnhashableCells` | tg-takeout-parser.py:100-124 | an object in a message field reads as missing (an object `forwarded_from` leaves the row original, an object date leaves it undated); a list in a categorical column or an object chat id or name fails the row |
| `Table.ConvertAll` | tg-takeout-parser.py:116-124 | all rows convert or the build fails; on success row `k` is the conversion of message `k` |
| `Table.BuildTable` | tg-takeout-parser.py:97-124 | every row's chat type is one of the requested types (default `CHAT_TYPES`) |
| `Table.KeptRowsCount` | tg-takeout-parser.py:111-114 | the masks keep, chat by chat, the messages of kind `message` in chats of an accepted type |
| `Table.TableSize` | tg-takeout-parser.py:100-114 | the table has exactly one row per message of kind `message` in a chat of an accepted type |
| `Table.TableBuilt` | tg-takeout-parser.py:111-124 | the table is built exactly when every kept message converts |
| `Table.RowsComeFromTheirChat` | tg-takeout-parser.py:100-114 | every row is the conversion of a kept message of kind `message` and carries the id, name and type of that message's own chat |
| `Table.KeptInFilter` | tg-takeout-parser.py:111-114 | a message of kind "message" in a chat of an accepted type survives the row mask |
| `Table.EveryKeptMessageHasRow` | tg-takeout-parser.py:100-114 | every kept message appears as a row |
| `Table.ExplodeAppend` | tg-takeout-parser.py:100-104 | exploding a concatenation of chats concatenates their rows |
| `Table.ConvertAllAppend` | tg-takeout-parser.py:116-124 | converting a concatenation concatenates the converted rows |
| `Table.BuildTableAppend` | tg-takeout-parser.py:100-124 | the table of a concatenation of chats is the concatenation of their tables, so rows keep archive order |
| `Table.ExtractedChatsAccepted` | tg-takeout-parser.py:97-111 | after extraction the default chat-type mask drops no chat |
| `Stats.ChatIdsMembers` | tg-takeout-parser.py:32 | a value is among a bucket's distinct chat ids exactly when some row of the bucket carries it; missing ids are never counted |
| `Stats.PeriodsMembers` | tg-takeout-parser.py:144 | a period is a group key exactly when some row has a date in that month |
| `Stats.GenStats` | tg-takeout-parser.py:134-146 | one bucket per period present in the (optionally forward-filtered) rows and no other; each holds its period's distinct chat ids, row count, text length total and duration total, missing values counting 0 |
| `Stats.OriginalsOfBucket` | tg-takeout-parser.py:141-144 | excluding forwarded rows and then grouping equals grouping and then excluding |
| `Stats.ExcludedForwardedCount` | tg-takeout-parser.py:141-142 | with exclusion, a period loses exactly its forwarded rows |
| `Stats.ExcludeForwardedShrinks` | tg-takeout-parser.py:141-144 | with exclusion no period appears that was absent without it, and no bucket's message, chat or character count grows |
| `Stats.RowInOneBucket` | tg-takeout-parser.py:144 | every dated aggregated row lies in the bucket of its own period and in no other; an undated row in none |
| `Stats.UndatedInNoBucket` | tg-takeout-parser.py:144 | a row with a missing date is dropped by the grouping: it lies in no period's bucket |
| `SentReceived.GenSentReceived` | tg-takeout-parser.py:149-158 | a period is in the joined table exactly when it has an original row sent by the owner and a row received from someone else; the sent side aggregates the owner's non-forwarded rows, the received side all other rows |
| `SentReceived.SidesPartition` | tg-takeout-parser.py:156-157 | every row goes to exactly one side, by comparing its sender with the owner's id |
| `SentReceived.SidesPartitionBucket` | tg-takeout-parser.py:156-157 | before exclusion, a period's sent and received rows add up to all its rows |
| `SentReceived.ForwardedStillReceived` | tg-takeout-parser.py:156-157 | a forwarded row from someone else is still counted as received, and never on the sent side |
| `SentReceived.ScenarioOneMonth` | tg-takeout-parser.py:149-158 | owner 1 with two messages (one forwarded) and one from user 2 in one month: one sent and one received message |

## Left out

- Reading the archive file, `ijson` streaming and `load_my_id` (lines 48-49, 58-61) are I/O: the items of `chats.list` and the owner's id are parameters.
- `gen_stat_plotly_fig` (lines 161-189) renders through a plotting library; `main` and the argument check (lines 192-208) are the entry point.
- The console dump and memory report (lines 126-129) print diagnostics only.
- Column dtypes (line 124) are reflected as the Dafny types of the row fields; of the categorical casts only their failure on unhashable values is modelled (`Table.CategoryColumn`), not the memory layout. The `chat_` prefix is the `chat` in the row field names.
- The `freq` parameter is modelled only at its default, monthly periods; a period is the year and month of an abstract date.
- The row order of the statistics tables (sorted by period) is not modelled: a table is a map keyed by period.
- Non-integer JSON numbers: the streaming parser yields a decimal for `3.0` or `2.5`, which the integer casts of line 124 then truncate or reject; `Json.Value` holds integers only, so such archives are outside the model.
- Pandas' column-wise `.str` accessor fails on a column with no string at all; the model converts row by row and does not model that failure.
- Integer columns are unbounded: the 64-bit overflow of the `int` cast of message ids is not modelled.
- Table.ConvertAll: when several rows fail, the model reports the first failing row, while the script reports the first failing column stage (text, then sender, then the other casts); only whether the build fails is exact.
- Table.DateColumn: parsing a date string is a parameter, because pandas' date parser is foreign code; a date string that pandas reads as the missing timestamp (such as the empty string) counts as accepted or rejected as the parser says, not as missing; a number or boolean date (which pandas reads as an epoch offset) is rejected.
- Table.IdColumn: only JSON integers convert; the script would also cast booleans and numeric strings.
- Table.DurationColumn: only missing values and JSON integers convert; numeric strings are rejected.
- Table.TextColumn: a number or boolean text is rejected, where the script turns it into its string form.
- Normalizer.DecodeElem: a span must carry string `type` and `text`; the script reads `type` only when replacing links and `text` only when the span is not a replaced link, so it accepts a few spans the model rejects.
- Sender.ParseUnsigned: the Python integer parser also accepts surrounding whitespace, a leading `+`, digit-separating underscores and non-ASCII digits; the model accepts only ASCII digits. A leading `-` (as in `"user-5"`, which becomes `"-5"`) is rejected by the model, while the script's unsigned cast wraps it or raises depending on the numpy version.
