/** Flattening of a message's `text` field into one string
    (`normalize_text_value` in tg-takeout-parser.py). */
module Normalizer {
  import opened Results
  import Json
  import Seqs

  /** One element of a structured text: a bare string, or a span object with a
      `type` tag (link, bold, mention, ...) and its literal `text`. */
  datatype Elem = Str(s: string) | Span(kind: string, text: string)

  /** A message text: most are a plain string, the rest a list of elements. */
  datatype Text = Plain(s: string) | Spans(elems: seq<Elem>)

  const LinkKind: string := "link"
  const LinkToken: string := "<<link>>"
  const Separator: char := ' '

  /** What one list element contributes to the flattened text. */
  function Piece(e: Elem, replaceLinks: bool): string
  {
    match e
    case Str(s) => s
    case Span(kind, text) => if replaceLinks && kind == LinkKind then LinkToken else text
  }

  function Pieces(es: seq<Elem>, replaceLinks: bool): (r: seq<string>)
    ensures |r| == |es|
    ensures forall i :: 0 <= i < |es| ==> r[i] == Piece(es[i], replaceLinks)
  {
    seq(|es|, i requires 0 <= i < |es| => Piece(es[i], replaceLinks))
  }

  /** `sep.join(pieces)` for a one-character separator. */
  function Join(pieces: seq<string>, sep: char): string
  {
    if |pieces| == 0 then ""
    else if |pieces| == 1 then pieces[0]
    else pieces[0] + [sep] + Join(pieces[1..], sep)
  }

  /** `s.split(sep)`: the maximal separator-free runs of `s`, empty ones included. */
  function Split(s: string, sep: char): (r: seq<string>)
    ensures |r| > 0
  {
    if |s| == 0 then [""]
    else
      var rest := Split(s[1..], sep);
      if s[0] == sep then [""] + rest else [[s[0]] + rest[0]] + rest[1..]
  }

  /** The flattened text. A plain string is returned as it is; a list becomes
      its pieces joined by single spaces. */
  function Normalize(t: Text, replaceLinks: bool): (r: string)
    ensures t.Plain? ==> r == t.s
    ensures t.Spans? && |t.elems| == 0 ==> r == ""
  {
    match t
    case Plain(s) => s
    case Spans(es) => Join(Pieces(es, replaceLinks), Separator)
  }

  /** Reads one list element of a JSON text: a string, or an object whose `type`
      and `text` are both strings. */
  function DecodeElem(v: Json.Value): (r: Result<Elem>)
    ensures r.Ok? <==> v.Str? || (v.Obj? && "type" in v.fields && "text" in v.fields
                                   && v.fields["type"].Str? && v.fields["text"].Str?)
    ensures r.Ok? && v.Str? ==> r.value == Str(v.s)
    ensures r.Ok? && v.Obj? ==> r.value == Span(v.fields["type"].s, v.fields["text"].s)
  {
    match v
    case Str(s) => Ok(Str(s))
    case Obj(f) =>
      if "type" !in f then Err(KeyError("type"))
      else if "text" !in f then Err(KeyError("text"))
      else if f["type"].Str? && f["text"].Str? then Ok(Span(f["type"].s, f["text"].s))
      else Err(TypeError("text span"))
    case _ => Err(TypeError("text element"))
  }

  function DecodeElems(vs: seq<Json.Value>): (r: Result<seq<Elem>>)
    ensures r.Ok? <==> forall i :: 0 <= i < |vs| ==> DecodeElem(vs[i]).Ok?
    ensures r.Ok? ==> |r.value| == |vs|
    ensures r.Ok? ==> forall i :: 0 <= i < |vs| ==> DecodeElem(vs[i]) == Ok(r.value[i])
  {
    if |vs| == 0 then Ok([])
    else
      match DecodeElem(vs[0])
      case Err(e) => Err(e)
      case Ok(e) =>
        match DecodeElems(vs[1..])
        case Err(err) => Err(err)
        case Ok(es) => Ok([e] + es)
  }

  /** Reads a JSON text value: a string or a list of elements. */
  function Decode(v: Json.Value): (r: Result<Text>)
    ensures r.Ok? <==> v.Str? || (v.Arr? && forall i :: 0 <= i < |v.items| ==> DecodeElem(v.items[i]).Ok?)
    ensures r.Ok? && v.Str? ==> r.value == Plain(v.s)
    ensures r.Ok? && v.Arr? ==> r.value.Spans? && |r.value.elems| == |v.items|
    ensures r.Ok? && v.Arr? ==> forall i :: 0 <= i < |v.items| ==> DecodeElem(v.items[i]) == Ok(r.value.elems[i])
  {
    match v
    case Str(s) => Ok(Plain(s))
    case Arr(items) =>
      (match DecodeElems(items)
       case Ok(es) => Ok(Spans(es))
       case Err(e) => Err(e))
    case _ => Err(TypeError("text"))
  }

  // ---------------------------------------------------------------------------
  // Properties

  /** Normalizing an already normalized text changes nothing. */
  lemma NormalizeIdempotent(t: Text, replaceLinks: bool)
    ensures Normalize(Plain(Normalize(t, replaceLinks)), replaceLinks) == Normalize(t, replaceLinks)
  {
  }

  lemma {:induction false} SplitWithoutSeparator(a: string, sep: char)
    requires sep !in a
    ensures Split(a, sep) == [a]
  {
    if |a| > 0 {
      SplitWithoutSeparator(a[1..], sep);
      assert [a[0]] + a[1..] == a;
    }
  }

  lemma {:induction false} SplitAtSeparator(a: string, rest: string, sep: char)
    requires sep !in a
    ensures Split(a + [sep] + rest, sep) == [a] + Split(rest, sep)
  {
    var s := a + [sep] + rest;
    if |a| == 0 {
      assert s[1..] == rest;
    } else {
      assert s[1..] == a[1..] + [sep] + rest;
      SplitAtSeparator(a[1..], rest, sep);
      assert [a[0]] + a[1..] == a;
    }
  }

  /** Splitting a join recovers the pieces when none contains the separator. */
  lemma {:induction false} SplitJoin(pieces: seq<string>, sep: char)
    requires |pieces| > 0
    requires forall i :: 0 <= i < |pieces| ==> sep !in pieces[i]
    ensures Split(Join(pieces, sep), sep) == pieces
  {
    if |pieces| == 1 {
      SplitWithoutSeparator(pieces[0], sep);
    } else {
      SplitJoin(pieces[1..], sep);
      SplitAtSeparator(pieces[0], Join(pieces[1..], sep), sep);
      assert [pieces[0]] + pieces[1..] == pieces;
    }
  }

  /** A list text is its elements' pieces, in order, separated by exactly one
      space: splitting the result at spaces gives the pieces back. */
  lemma NormalizeRecoversPieces(es: seq<Elem>, replaceLinks: bool)
    requires |es| > 0
    requires forall i :: 0 <= i < |es| ==> Separator !in Piece(es[i], replaceLinks)
    ensures Split(Normalize(Spans(es), replaceLinks), Separator) == Pieces(es, replaceLinks)
  {
    SplitJoin(Pieces(es, replaceLinks), Separator);
  }

  /** Appending a piece appends one separator and the piece: the join is built
      left to right, whatever the pieces contain. */
  lemma {:induction false} JoinAppend(pieces: seq<string>, p: string, sep: char)
    requires |pieces| > 0
    ensures Join(pieces + [p], sep) == Join(pieces, sep) + [sep] + p
  {
    var ps := pieces + [p];
    if |pieces| == 1 {
      assert ps[1..] == [p];
    } else {
      assert ps[1..] == pieces[1..] + [p];
      JoinAppend(pieces[1..], p, sep);
    }
  }

  /** The pieces of a list with one more element are its pieces with one more piece. */
  lemma PiecesAppend(es: seq<Elem>, e: Elem, replaceLinks: bool)
    ensures Pieces(es + [e], replaceLinks) == Pieces(es, replaceLinks) + [Piece(e, replaceLinks)]
  {
  }

  /** Flattening a list builds the text element by element: a one-element list
      gives that element's piece, and each further element adds a space and its
      piece, whether or not the pieces contain spaces. */
  lemma NormalizeAppend(es: seq<Elem>, e: Elem, replaceLinks: bool)
    ensures Normalize(Spans([e]), replaceLinks) == Piece(e, replaceLinks)
    ensures |es| > 0 ==>
              Normalize(Spans(es + [e]), replaceLinks)
              == Normalize(Spans(es), replaceLinks) + [Separator] + Piece(e, replaceLinks)
  {
    if |es| > 0 {
      PiecesAppend(es, e, replaceLinks);
      JoinAppend(Pieces(es, replaceLinks), Piece(e, replaceLinks), Separator);
    }
  }

  function Length(s: string): int
  {
    |s|
  }

  /** A join is as long as its pieces plus one separator between each neighbour pair. */
  lemma {:induction false} JoinLength(pieces: seq<string>, sep: char)
    requires |pieces| > 0
    ensures |Join(pieces, sep)| == Seqs.Sum(pieces, Length) + |pieces| - 1
  {
    if |pieces| > 1 {
      JoinLength(pieces[1..], sep);
    }
  }

  /** Two elements that agree except possibly in the text of a link span. */
  predicate SameUpToLinkText(e: Elem, e': Elem)
  {
    e == e' || (e.Span? && e'.Span? && e.kind == LinkKind && e'.kind == LinkKind)
  }

  /** With link replacement on, the flattened text does not depend on link targets. */
  lemma LinkTextIgnored(es: seq<Elem>, es': seq<Elem>)
    requires |es| == |es'|
    requires forall i :: 0 <= i < |es| ==> SameUpToLinkText(es[i], es'[i])
    ensures Normalize(Spans(es), true) == Normalize(Spans(es'), true)
  {
    assert Pieces(es, true) == Pieces(es', true);
  }

  /** The span as a bare string of its own text. */
  function Unstyled(e: Elem): Elem
  {
    match e
    case Str(s) => Str(s)
    case Span(_, text) => Str(text)
  }

  /** With link replacement off, every span contributes exactly its text, whatever its type. */
  lemma TypesIgnoredWithoutReplacement(es: seq<Elem>)
    ensures Normalize(Spans(es), false) == Normalize(Spans(seq(|es|, i requires 0 <= i < |es| => Unstyled(es[i]))), false)
  {
    var plain := seq(|es|, i requires 0 <= i < |es| => Unstyled(es[i]));
    assert Pieces(es, false) == Pieces(plain, false);
  }

  /** A lone link span with replacement on becomes the placeholder, not the URL. */
  lemma LinkReplacedExample(url: string)
    ensures Normalize(Spans([Span(LinkKind, url)]), true) == LinkToken
  {
  }

  /** `["a", {"type": "bold", "text": "b"}]` becomes `"a b"`. */
  lemma MixedListExample()
    ensures Normalize(Spans([Str("a"), Span("bold", "b")]), true) == "a b"
  {
  }
}
