/**
 * The query-mode server (server/server.cpp): its `predict`, which
 * exponentiates every model output, and its REST proxy, which answers with
 * one `key:value` line per score.
 */
module XlmServer {
  import opened StdMap
  import opened Text
  import opened Proxy

  const DocParam: string := "doc"
  const MissingDocMessage: string := "Missing query parameter: " + DocParam + "\n"

  /**
   * `PredictorHandler` of the query-mode server: SentencePiece encoding and the
   * model are functions of their inputs, and `exp` is the exponential.
   */
  class PredictorHandler {
    const encode: string -> seq<string>
    const forward: seq<seq<string>> -> seq<Entry>
    const exp: real -> real

    constructor (encode: string -> seq<string>, forward: seq<seq<string>> -> seq<Entry>, exp: real -> real)
      ensures this.encode == encode && this.forward == forward && this.exp == exp
    {
      this.encode := encode;
      this.forward := forward;
      this.exp := exp;
    }

    /**
     * `predict`: runs the model on a batch holding the one encoded document and
     * inserts `exp` of every output value under its key: the key set is the
     * model's, and each value is `exp` of the model's (first) value for it.
     */
    method Predict(doc: string) returns (scores: ScoreMap)
      ensures Keys(scores) == Keys(forward([encode(doc)]))
      ensures forall k :: Find(scores, k) == Apply(Find(forward([encode(doc)]), k), exp)
    {
      var tokens := encode(doc);
      var batch := [tokens];
      var output := forward(batch);
      scores := InsertAll(output, exp);
    }
  }

  /** One line of the body without its newline: `key:value`, the value written by `render`. */
  function Line(e: Entry, render: real -> string): string
  {
    e.0 + ":" + render(e.1)
  }

  /** The response body: every entry's line followed by a newline, in map order. */
  function Body(scores: seq<Entry>, render: real -> string): string
  {
    if scores == [] then []
    else Body(scores[..|scores| - 1], render) + Line(scores[|scores| - 1], render) + "\n"
  }

  /** The lines of the body, one per entry. */
  function Lines(scores: seq<Entry>, render: real -> string): (lines: seq<string>)
    ensures |lines| == |scores|
    ensures forall i :: 0 <= i < |scores| ==> lines[i] == Line(scores[i], render)
  {
    if scores == [] then []
    else Lines(scores[..|scores| - 1], render) + [Line(scores[|scores| - 1], render)]
  }

  /** The loop of `onRequest` that streams every entry's line into `out`. */
  method RenderScores(scores: ScoreMap, render: real -> string) returns (out: string)
    ensures out == Body(scores, render)
  {
    out := [];
    var i := 0;
    while i < |scores|
      invariant 0 <= i <= |scores|
      invariant out == Body(scores[..i], render)
    {
      assert scores[..i + 1][..i] == scores[..i];
      out := out + Line(scores[i], render) + "\n";
      i := i + 1;
    }
    assert scores[..i] == scores;
  }

  predicate NoNewline(scores: seq<Entry>, render: real -> string)
  {
    forall i :: 0 <= i < |scores| ==> '\n' !in scores[i].0 && '\n' !in render(scores[i].1)
  }

  /**
   * When neither a key nor a rendered value holds a newline, splitting the body
   * followed by `tail` at newlines gives exactly the entries' lines, in map
   * order, and then `tail`.
   */
  lemma {:induction false} BodyThenSplit(scores: seq<Entry>, render: real -> string, tail: string)
    requires NoNewline(scores, render) && '\n' !in tail
    ensures Split(Body(scores, render) + tail, '\n') == Lines(scores, render) + [tail]
  {
    if scores == [] {
      SplitWhole(tail, '\n');
      assert Body(scores, render) + tail == tail;
    } else {
      var init, last := scores[..|scores| - 1], scores[|scores| - 1];
      var line := Line(last, render);
      assert NoNewline(init, render);
      BodyThenSplit(init, render, line);
      assert Body(scores, render) + tail == Body(init, render) + line + ['\n'] + tail;
      SplitAround(Body(init, render) + line, '\n', tail);
      SplitWhole(tail, '\n');
    }
  }

  /** The body splits into the entries' lines and the empty piece after the final newline. */
  lemma BodyLines(scores: seq<Entry>, render: real -> string)
    requires NoNewline(scores, render)
    ensures Split(Body(scores, render), '\n') == Lines(scores, render) + [[]]
  {
    BodyThenSplit(scores, render, []);
    assert Body(scores, render) + [] == Body(scores, render);
  }

  /** `RestProxyHandler` of the query-mode server. */
  class RestProxyHandler {
    const client: PredictorClient
    /** curl's percent-decoding of a query value. */
    const urlDecode: string -> string
    /** How `operator<<` writes a double. */
    const render: real -> string

    constructor (client: PredictorClient, urlDecode: string -> string, render: real -> string)
      ensures this.client == client && this.urlDecode == urlDecode && this.render == render
    {
      this.client := client;
      this.urlDecode := urlDecode;
      this.render := render;
    }

    /**
     * `onRequest`: opens the transport if needed; without a `doc` query
     * parameter answers Bad_Request and sends nothing; otherwise sends the
     * decoded document once and answers Ok with one line per returned score.
     */
    method OnRequest(query: map<string, string>) returns (code: Code, body: string)
      modifies client.transport
      ensures client.transport.isOpen
      ensures DocParam !in query ==>
        && code == BadRequest && body == MissingDocMessage
        && client.transport.sent == old(client.transport.sent)
      ensures DocParam in query ==>
        var doc := urlDecode(query[DocParam]);
        && client.transport.sent == old(client.transport.sent) + [doc]
        && code == Ok && body == Body(client.service(doc), render)
    {
      if !client.transport.isOpen {
        client.transport.Open();
      }
      if DocParam in query {
        var doc := urlDecode(query[DocParam]);
        var scores := client.Predict(doc);
        body := RenderScores(scores, render);
        code := Ok;
      } else {
        body := MissingDocMessage;
        code := BadRequest;
      }
    }
  }
}
