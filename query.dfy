/** The query endpoint (index.js): `POST /api/query` with `{query, start,
    count}` embeds the query text, asks the document index for the window
    of `count` nearest documents from rank `start`, and answers each with
    its id stripped of the document prefix and its date rebuilt. */
module Query {
  import opened Js
  import opened Paths
  import opened Services
  import opened Vectors
  import opened Redis

  /** SEMSE_DOCUMENT_PREFIX and SEMSE_DOCUMENT_INDEX of src/constants.js. */
  const DocumentPrefix: string := "documents"
  const DocumentIndexName: string := "idx:documents"

  const EmptyQuery: JsError := Error("Empty query")

  /** An HTTP answer: its status and its JSON body. */
  datatype Response = Response(status: int, body: Value)

  /** The error body `{message, name}`. */
  function ErrorBody(e: JsError): Value {
    Obj(map["message" := Str(e.message), "name" := Str(e.name)])
  }

  /** `new Date(parseInt(date, 10))`: an unparsable date gives an invalid
      Date. */
  function RebuiltDate(date: Value, s: Services): Value {
    var n := ParseInt(date, s.show);
    Date(if n.Some? then TimeClip(n.value) else Invalid)
  }

  /** One answered document: the document's fields, its id without the
      prefix and its `:`, and its date rebuilt. A returned document holds
      no `id` field of its own (RETURN names title, body, date and the
      score), so the spread keeps the document id. */
  function Answer(doc: Document, s: Services): (v: Value)
    requires "id" !in doc.value
    ensures v.Obj? && v.fields.Keys == doc.value.Keys + {"id", "date"}
    ensures v.fields["id"] == Str(DropPrefix(doc.id, |DocumentPrefix|))
    ensures v.fields["date"] == RebuiltDate(Field(doc.value, "date"), s)
    ensures forall k :: k in doc.value && k != "id" && k != "date" ==> v.fields[k] == doc.value[k]
  {
    var date := RebuiltDate(Field(doc.value, "date"), s);
    var mapped := (map["id" := Str(doc.id)] + doc.value)["date" := date];
    Obj(mapped["id" := Str(DropPrefix(doc.id, |DocumentPrefix|))])
  }

  function Answers(docs: seq<Document>, s: Services): (vs: seq<Value>)
    requires forall i :: 0 <= i < |docs| ==> "id" !in docs[i].value
    ensures |vs| == |docs| && forall i :: 0 <= i < |docs| ==> vs[i] == Answer(docs[i], s)
  {
    seq(|docs|, i requires 0 <= i < |docs| => Answer(docs[i], s))
  }

  /** A document stored under `documents:<rest>` is answered with id
      `<rest>`, and a stored date in milliseconds comes back as that
      instant. */
  lemma AnswerRoundTrip(rest: string, fields: map<string, Value>, score: string, ms: int, s: Services)
    requires -MaxTime <= ms <= MaxTime
    ensures var doc := Found(map[MintKey(DocumentPrefix, rest) := fields["date" := Num(ms)]],
                              Hit(MintKey(DocumentPrefix, rest), score));
      Answer(doc, s).fields["id"] == Str(rest) && Answer(doc, s).fields["date"] == Date(Valid(ms))
  {
    DropPrefixOfKey(DocumentPrefix, rest);
    ParseIntOfNumber(ms, s.show);
  }

  /** The body's named field, or its default when it is undefined. */
  function WithDefault(body: Value, k: string, default: int): Value
    requires !Nullish(body)
  {
    if Prop(body, k).Undefined? then Num(default) else Prop(body, k)
  }

  /** queryDb(query, count, start): the query text is embedded as float32
      bytes and the window of `count` documents from rank `start` is
      retrieved. `rank` is the index's ranking of its documents by distance
      to a query vector. Start and count are handed on as the request
      body gave them. */
  function QueryDb(store: Store, s: Services, rank: seq<byte> -> seq<Hit>, query: Value, count: Value, start: Value)
    : (r: Result<seq<Document>>)
    reads store
    ensures r.Ok? ==> forall i :: 0 <= i < |r.value| ==> "id" !in r.value[i].value
    ensures var e := s.embed(ToStr(query, s.show));
      && (e.Err? ==> r == Err(e.error))
      && (e.Ok? ==> r == store.Retrieve(DocumentIndexName, count, start, rank(Encode(e.value)), s.show))
  {
    var embedding := s.embed(ToStr(query, s.show));
    if embedding.Err? then Err(embedding.error)
    else store.Retrieve(DocumentIndexName, count, start, rank(Encode(embedding.value)), s.show)
  }

  /** A request body that writes start and count as decimal strings is
      answered as if it gave the numbers. */
  lemma NumeralStringsQueried(store: Store, s: Services, rank: seq<byte> -> seq<Hit>, query: Value, start: nat, count: nat)
    ensures QueryDb(store, s, rank, query, Str(NatToString(count)), Str(NatToString(start)))
         == QueryDb(store, s, rank, query, Num(count), Num(start))
  {
    var e := s.embed(ToStr(query, s.show));
    if e.Ok? {
      NumeralStringsServed(store, DocumentIndexName, rank(Encode(e.value)), start, count, s.show);
    }
  }

  /** A start or count that is not a numeral is refused by the server,
      and a null one fails in node-redis before it is sent. */
  lemma NonNumeralFails(store: Store, s: Services, rank: seq<byte> -> seq<Hit>, query: Value, count: Value, start: Value)
    requires s.embed(ToStr(query, s.show)).Ok?
    requires !start.Undefined? && !count.Undefined?
    ensures start.Null? || count.Null? ==> QueryDb(store, s, rank, query, count, start) == Err(NullToString)
    ensures !start.Null? && !count.Null? && !IsNumeral(ToStr(start, s.show)) ==>
      QueryDb(store, s, rank, query, count, start) == Err(SearchFailed)
  {
  }

  /** The route handler. The status stays 500 for every failure but the
      empty query, which is rejected with 400 before the embedding service
      or the store is called; `start` defaults to 0 and `count` to 5. */
  method Handle(body: Value, store: Store, s: Services, rank: seq<byte> -> seq<Hit>) returns (res: Response)
    ensures Nullish(body) ==> res.status == 500 && res.body.Obj?
    ensures !Nullish(body) && !Truthy(Prop(body, "query")) ==> res == Response(400, ErrorBody(EmptyQuery))
    ensures !Nullish(body) && Truthy(Prop(body, "query")) ==>
      var r := QueryDb(store, s, rank, Prop(body, "query"), WithDefault(body, "count", 5), WithDefault(body, "start", 0));
      res == if r.Ok? then Response(200, Arr(Answers(r.value, s))) else Response(500, ErrorBody(r.error))
  {
    var status := 500;
    if Nullish(body) {
      return Response(status, ErrorBody(TypeError("Cannot destructure 'req.body' as it is undefined.")));
    }
    var query := Prop(body, "query");
    var start := WithDefault(body, "start", 0);
    var count := WithDefault(body, "count", 5);
    if !Truthy(query) {
      status := 400;
      return Response(status, ErrorBody(EmptyQuery));
    }
    var docs := QueryDb(store, s, rank, query, count, start);
    if docs.Err? {
      return Response(status, ErrorBody(docs.error));
    }
    return Response(200, Arr(Answers(docs.value, s)));
  }

  /** The documents of a window are answered in the window's order. */
  lemma AnswersOfWindow(hashes: Hashes, ranked: seq<Hit>, start: nat, count: nat, s: Services)
    ensures var docs := Documents(hashes, Window(ranked, start, start + count));
      && |docs| <= count
      && (forall i :: 0 <= i < |docs| ==> "id" !in docs[i].value)
      && forall i :: 0 <= i < |docs| ==>
           Answers(docs, s)[i].fields["id"] == Str(DropPrefix(ranked[start + i].key, |DocumentPrefix|))
  {
    var docs := Documents(hashes, Window(ranked, start, start + count));
    forall i | 0 <= i < |docs|
      ensures "id" !in docs[i].value
    {
      assert docs[i].value.Keys <= Returned + {"vectorScore"};
    }
    forall i | 0 <= i < |docs|
      ensures Answers(docs, s)[i].fields["id"] == Str(DropPrefix(ranked[start + i].key, |DocumentPrefix|))
    {
      assert docs[i].id == ranked[start + i].key;
    }
  }

  /** The answers keep the store's ranking: numbers `start` and `count`
      retrieve the window of hits from rank `start`, and answer i is the
      hit at rank `start + i`, with at most `count` of them. */
  lemma AnswersFollowRanking(store: Store, start: nat, count: nat, ranked: seq<Hit>, s: Services)
    requires DocumentIndexName in store.indexes
    ensures var docs := Documents(store.hashes, Window(ranked, start, start + count));
      && store.Retrieve(DocumentIndexName, Num(count), Num(start), ranked, s.show) == Ok(docs)
      && (forall i :: 0 <= i < |docs| ==> "id" !in docs[i].value)
      && |Answers(docs, s)| <= count
      && forall i :: 0 <= i < |docs| ==>
           Answers(docs, s)[i].fields["id"] == Str(DropPrefix(ranked[start + i].key, |DocumentPrefix|))
  {
    RetrieveNumbers(store, DocumentIndexName, ranked, start, count, s.show);
    AnswersOfWindow(store.hashes, ranked, start, count, s);
  }

  /** Server start-up: `getIndex(SEMSE_DOCUMENT_INDEX,
      SEMSE_DOCUMENT_PREFIX, true)` makes sure the document index exists
      before requests are served; an existing index is kept as it is. */
  method Startup(store: Store) returns (index: IndexDef)
    modifies store
    ensures store.hashes == old(store.hashes)
    ensures DocumentIndexName in store.indexes && index == store.indexes[DocumentIndexName]
    ensures DocumentIndexName in old(store.indexes) ==> store.indexes == old(store.indexes)
    ensures DocumentIndexName !in old(store.indexes) ==>
      store.indexes == old(store.indexes)[DocumentIndexName := DocumentIndex(DocumentPrefix)]
  {
    var r := store.GetIndex(DocumentIndexName, DocumentPrefix, true);
    index := r.value;
  }
}
