/**
 * The JSON-mode server (server_docnn/server.cpp): the whitespace tokenizer and
 * batch construction of `PredictorHandler`, and the request validation of its
 * REST proxy, which answers with the `Formatter` envelope.
 */
module DocnnServer {
  import opened Wrappers
  import opened StdMap
  import opened Formatter
  import opened Proxy
  import opened Seqs

  const PadToken: string := "<pad>"

  /** `isspace` in the C locale: space, tab, newline, vertical tab, form feed, carriage return. */
  predicate IsSpace(c: char)
  {
    c == ' ' || '\t' <= c <= '\r'
  }

  /** `::tolower` in the C locale: only 'A'..'Z' change. */
  function ToLower(c: char): char
  {
    if 'A' <= c <= 'Z' then (c as int + 32) as char else c
  }

  function Lower(s: string): string
  {
    seq(|s|, i requires 0 <= i < |s| => ToLower(s[i]))
  }

  predicate NoSpace(s: string)
  {
    forall i :: 0 <= i < |s| ==> !IsSpace(s[i])
  }

  predicate AllSpace(s: string)
  {
    forall i :: 0 <= i < |s| ==> IsSpace(s[i])
  }

  /** The run of non-space characters at the end of `s` (what `doc.substr(start, i - start)` holds). */
  function Pending(s: string): string
  {
    if s == [] then []
    else if IsSpace(s[|s| - 1]) then []
    else Pending(s[..|s| - 1]) + [s[|s| - 1]]
  }

  function Flush(t: string): seq<string>
  {
    if t == [] then [] else [t]
  }

  /** The tokens of `s` already closed by a whitespace character. */
  function Finished(s: string): seq<string>
  {
    if s == [] then []
    else if IsSpace(s[|s| - 1]) then Finished(s[..|s| - 1]) + Flush(Pending(s[..|s| - 1]))
    else Finished(s[..|s| - 1])
  }

  /** The maximal runs of non-whitespace characters of `s`, in order. */
  function Words(s: string): seq<string>
  {
    Finished(s) + Flush(Pending(s))
  }

  /** What `tokenize` leaves in an initially empty token vector. */
  function Tokens(doc: string): seq<string>
  {
    var words := Words(Lower(doc));
    if words == [] then [PadToken] else words
  }

  /** The characters of `s` that are not whitespace. */
  function RemoveSpaces(s: string): string
  {
    if s == [] then []
    else RemoveSpaces(s[..|s| - 1]) + (if IsSpace(s[|s| - 1]) then [] else [s[|s| - 1]])
  }

  /** The tokens written one after the other. */
  function Concat(ws: seq<string>): string
  {
    if ws == [] then [] else Concat(ws[..|ws| - 1]) + ws[|ws| - 1]
  }

  lemma {:induction false} PendingFacts(s: string)
    ensures NoSpace(Pending(s))
    ensures |Pending(s)| <= |s| && Pending(s) == s[|s| - |Pending(s)|..]
  {
    if s != [] {
      PendingFacts(s[..|s| - 1]);
    }
  }

  lemma {:induction false} FinishedWellFormed(s: string)
    ensures forall t :: t in Finished(s) ==> t != [] && NoSpace(t)
  {
    if s != [] {
      FinishedWellFormed(s[..|s| - 1]);
      PendingFacts(s[..|s| - 1]);
    }
  }

  /** Every token is non-empty and free of whitespace. */
  lemma WordsWellFormed(s: string)
    ensures forall t :: t in Words(s) ==> t != [] && NoSpace(t)
  {
    FinishedWellFormed(s);
    PendingFacts(s);
  }

  lemma {:induction false} ConcatFinished(s: string)
    ensures Concat(Finished(s)) + Pending(s) == RemoveSpaces(s)
  {
    if s != [] {
      var p, c := s[..|s| - 1], s[|s| - 1];
      ConcatFinished(p);
      if IsSpace(c) {
        if Pending(p) != [] {
          assert Finished(p) + Flush(Pending(p)) == Finished(p) + [Pending(p)];
        } else {
          assert Finished(p) + Flush(Pending(p)) == Finished(p);
        }
      } else {
        assert Concat(Finished(p)) + (Pending(p) + [c]) == Concat(Finished(p)) + Pending(p) + [c];
      }
    }
  }

  /** The tokens, written one after the other, are the document without its whitespace. */
  lemma WordsConcat(s: string)
    ensures Concat(Words(s)) == RemoveSpaces(s)
  {
    ConcatFinished(s);
    if Pending(s) != [] {
      assert Words(s) == Finished(s) + [Pending(s)];
    } else {
      assert Words(s) == Finished(s);
    }
  }

  lemma {:induction false} RemoveSpacesEmpty(s: string)
    ensures RemoveSpaces(s) == [] <==> AllSpace(s)
  {
    if s != [] {
      RemoveSpacesEmpty(s[..|s| - 1]);
      if AllSpace(s) {
        assert AllSpace(s[..|s| - 1]);
      }
    }
  }

  lemma {:induction false} ConcatEmpty(ws: seq<string>)
    requires forall t :: t in ws ==> t != []
    ensures Concat(ws) == [] <==> ws == []
  {
    if ws != [] {
      assert ws[|ws| - 1] in ws;
    }
  }

  /** A document yields no token exactly when it is empty or all whitespace. */
  lemma WordsEmpty(s: string)
    ensures Words(s) == [] <==> AllSpace(s)
  {
    WordsWellFormed(s);
    WordsConcat(s);
    ConcatEmpty(Words(s));
    RemoveSpacesEmpty(s);
  }

  /** How one more character moves the closed tokens and the pending run. */
  lemma Step(p: string, c: char)
    ensures Finished(p + [c]) == if IsSpace(c) then Words(p) else Finished(p)
    ensures Pending(p + [c]) == if IsSpace(c) then [] else Pending(p) + [c]
  {
    Snoc(p, c);
  }

  lemma {:induction false} PendingAfterSpace(a: string, c: char, b: string)
    requires IsSpace(c)
    ensures Pending(a + [c] + b) == Pending(b)
  {
    if b == [] {
      AppendEmpty(a + [c]);
      Step(a, c);
    } else {
      var b', d := b[..|b| - 1], b[|b| - 1];
      PendingAfterSpace(a, c, b');
      LastSplit(a + [c], b);
      LastSplit([], b);
      Step(a + [c] + b', d);
      Step(b', d);
    }
  }

  lemma {:induction false} FinishedAfterSpace(a: string, c: char, b: string)
    requires IsSpace(c)
    ensures Finished(a + [c] + b) == Words(a) + Finished(b)
  {
    if b == [] {
      AppendEmpty(a + [c]);
      Step(a, c);
    } else {
      var b', d := b[..|b| - 1], b[|b| - 1];
      var ab := a + [c] + b';
      FinishedAfterSpace(a, c, b');
      PendingAfterSpace(a, c, b');
      LastSplit(a + [c], b);
      LastSplit([], b);
      Step(ab, d);
      Step(b', d);
      Assoc(Words(a), Finished(b'), Flush(Pending(b')));
    }
  }

  /** A whitespace character separates the tokens on its left from those on its right. */
  lemma WordsSplit(a: string, c: char, b: string)
    requires IsSpace(c)
    ensures Words(a + [c] + b) == Words(a) + Words(b)
  {
    FinishedAfterSpace(a, c, b);
    PendingAfterSpace(a, c, b);
    Assoc(Words(a), Finished(b), Flush(Pending(b)));
  }

  lemma {:induction false} RunFacts(w: string)
    requires NoSpace(w)
    ensures Finished(w) == [] && Pending(w) == w
  {
    if w != [] {
      RunFacts(w[..|w| - 1]);
    }
  }

  /** A run without whitespace is one token, or none when it is empty. */
  lemma WordsOfRun(w: string)
    requires NoSpace(w)
    ensures Words(w) == if w == [] then [] else [w]
  {
    RunFacts(w);
  }

  /** Lower-casing keeps exactly the whitespace positions. */
  lemma LowerKeepsSpaces(s: string)
    ensures forall i :: 0 <= i < |s| ==> (IsSpace(Lower(s)[i]) <==> IsSpace(s[i]))
    ensures AllSpace(Lower(s)) <==> AllSpace(s)
  {
    assert forall i :: 0 <= i < |s| ==> (IsSpace(Lower(s)[i]) <==> IsSpace(s[i]));
  }

  /**
   * The pad token is used exactly for an empty or all-whitespace document;
   * otherwise the tokens are the words of the lower-cased document.
   */
  lemma TokensPadding(doc: string)
    ensures AllSpace(doc) ==> Tokens(doc) == [PadToken]
    ensures !AllSpace(doc) ==> Tokens(doc) == Words(Lower(doc)) != []
  {
    WordsEmpty(Lower(doc));
    LowerKeepsSpaces(doc);
  }

  /**
   * The state of the scanning loop after `i` characters: the closed tokens are
   * appended to `tokens`, and the open run starts at `start`.
   */
  predicate Scanned(s: string, i: nat, start: nat, tokens: seq<string>, result: seq<string>)
    requires start <= i <= |s|
  {
    result == tokens + Finished(s[..i]) && s[start..i] == Pending(s[..i])
  }

  lemma ScanSpace(s: string, start: nat, i: nat, tokens: seq<string>, result: seq<string>)
    requires start <= i < |s| && IsSpace(s[i])
    requires Scanned(s, i, start, tokens, result)
    ensures Scanned(s, i + 1, i + 1, tokens, result + Flush(s[start..i]))
  {
    TakeSnoc(s, start, i);
    Step(s[..i], s[i]);
    Assoc(tokens, Finished(s[..i]), Flush(s[start..i]));
  }

  lemma ScanOther(s: string, start: nat, i: nat, tokens: seq<string>, result: seq<string>)
    requires start <= i < |s| && !IsSpace(s[i])
    requires Scanned(s, i, start, tokens, result)
    ensures Scanned(s, i + 1, start, tokens, result)
  {
    TakeSnoc(s, start, i);
    Step(s[..i], s[i]);
  }

  /** `PredictorHandler`: the model is a function from a token batch to its output dictionary. */
  class PredictorHandler {
    const forward: seq<seq<string>> -> seq<Entry>

    constructor (forward: seq<seq<string>> -> seq<Entry>)
      ensures this.forward == forward
    {
      this.forward := forward;
    }

    /**
     * `tokenize`: lower-cases `doc` in place, appends its whitespace-separated
     * tokens to `tokens`, and appends the pad token if `tokens` is still empty.
     */
    static method Tokenize(tokens: seq<string>, doc: array<char>) returns (result: seq<string>)
      modifies doc
      ensures doc[..] == Lower(old(doc[..]))
      ensures result == if tokens + Words(doc[..]) == [] then [PadToken] else tokens + Words(doc[..])
    {
      LowerInPlace(doc);
      result := AppendWords(tokens, doc);
      if |result| == 0 {
        result := [PadToken];
      }
    }

    /** `transform(doc.begin(), doc.end(), doc.begin(), ::tolower)`. */
    static method LowerInPlace(doc: array<char>)
      modifies doc
      ensures doc[..] == Lower(old(doc[..]))
    {
      var i := 0;
      while i < doc.Length
        invariant 0 <= i <= doc.Length
        invariant forall k :: 0 <= k < i ==> doc[k] == ToLower(old(doc[k]))
        invariant forall k :: i <= k < doc.Length ==> doc[k] == old(doc[k])
      {
        doc[i] := ToLower(doc[i]);
        i := i + 1;
      }
    }

    /**
     * The scanning loop of `tokenize`: `start` marks the beginning of the
     * current run, and each whitespace character closes a non-empty run.
     */
    static method AppendWords(tokens: seq<string>, doc: array<char>) returns (result: seq<string>)
      ensures result == tokens + Words(doc[..])
    {
      ghost var s := doc[..];
      result := tokens;
      var start := 0;
      var i := 0;
      while i < doc.Length
        invariant 0 <= start <= i <= doc.Length
        invariant Scanned(s, i, start, tokens, result)
      {
        if IsSpace(doc[i]) {
          var end := i;
          ScanSpace(s, start, i, tokens, result);
          if end != start {
            result := result + [doc[start..end]];
          }
          start := i + 1;
        } else {
          ScanOther(s, start, i, tokens, result);
        }
        i := i + 1;
      }
      assert s[..i] == s;
      if start < doc.Length {
        result := result + [doc[start..doc.Length]];
      }
    }

    /**
     * `predict`: tokenizes a copy of the document, runs the model on a batch
     * holding exactly that one token list, and inserts every output entry into
     * the result map unchanged.
     */
    method Predict(doc: string) returns (scores: ScoreMap)
      ensures forall k :: Find(scores, k) == Find(forward([Tokens(doc)]), k)
      ensures Keys(scores) == Keys(forward([Tokens(doc)]))
    {
      var docCopy := new char[|doc|](i requires 0 <= i < |doc| => doc[i]);
      assert docCopy[..] == doc;
      var tokens := Tokenize([], docCopy);
      assert [] + Words(Lower(doc)) == Words(Lower(doc));
      var batch := [tokens];
      var output := forward(batch);
      scores := InsertAll(output, x => x);
      forall k ensures Find(scores, k) == Find(output, k) {
        match Find(output, k)
        case None =>
        case Some(v) =>
      }
    }
  }

  const MissingContentTypeMessage: string := "Expected HTTP header Content-Type: application/json\n"
  const MissingTextMessage: string := "Missing json parameter: " + TextParam + "\n"

  /** A media type, `top/sub`; parameters and suffixes are not modelled. */
  datatype MediaType = MediaType(top: string, sub: string)
  {
    function ToString(): string
    {
      top + "/" + sub
    }
  }

  const ApplicationJson: MediaType := MediaType("application", "json")

  function WrongMediaTypeMessage(found: MediaType): string
  {
    "Expected HTTP header Content-Type: application/json, found " + found.ToString() + "\n"
  }

  /** The parts of an HTTP request the handler reads: the Content-Type header and the parsed body object. */
  datatype Request = Request(contentType: Option<MediaType>, body: map<string, Value>)

  /**
   * Where the checks of `onRequest` lead: a Bad_Request with a message, the
   * document to forward, or an exception the handler does not catch (a "text"
   * field that is not a string).
   */
  datatype Decision = Reject(message: string) | Forward(text: string) | Throw(error: Error)

  function Validate(req: Request): (d: Decision)
    ensures req.contentType.None? ==> d == Reject(MissingContentTypeMessage)
    ensures req.contentType.Some? && req.contentType.value != ApplicationJson ==> d == Reject(WrongMediaTypeMessage(req.contentType.value))
    ensures req.contentType == Some(ApplicationJson) && TextParam !in req.body ==> d == Reject(MissingTextMessage)
    ensures req.contentType == Some(ApplicationJson) && TextParam in req.body && req.body[TextParam].NonString? ==> d == Throw(TypeError)
    ensures d.Forward? <==> req.contentType == Some(ApplicationJson) && TextParam in req.body && req.body[TextParam].Str?
    ensures d.Forward? ==> d.text == req.body[TextParam].s
  {
    match req.contentType
    case None => Reject(MissingContentTypeMessage)
    case Some(mediaType) =>
      if mediaType != ApplicationJson then Reject(WrongMediaTypeMessage(mediaType))
      else match FormatRequest(req.body)
        case Success(text) => Forward(text)
        case Failure(OutOfRange) => Reject(MissingTextMessage)
        case Failure(TypeError) => Throw(TypeError)
  }

  datatype Body = Message(text: string) | Json(envelope: Envelope)

  /** What the handler does with the response: sends a status and a body, or lets an exception escape. */
  datatype Response = Send(code: Code, body: Body) | Escape(error: Error)

  /** `RestProxyHandler` of the JSON-mode server. */
  class RestProxyHandler {
    const client: PredictorClient
    const exp: real -> real

    constructor (client: PredictorClient, exp: real -> real)
      ensures this.client == client && this.exp == exp
    {
      this.client := client;
      this.exp := exp;
    }

    /**
     * `onRequest`: opens the transport if needed; a request that fails a check
     * gets Bad_Request and sends nothing to the service; otherwise the text is
     * forwarded once and the service's scores are formatted into an Ok envelope.
     */
    method OnRequest(req: Request) returns (resp: Response)
      requires Positive(exp)
      modifies client.transport
      ensures client.transport.isOpen
      ensures !Validate(req).Forward? ==> client.transport.sent == old(client.transport.sent)
      ensures Validate(req).Reject? ==> resp == Send(BadRequest, Message(Validate(req).message))
      ensures Validate(req).Throw? ==> resp == Escape(Validate(req).error)
      ensures Validate(req).Forward? ==>
        var text := Validate(req).text;
        && client.transport.sent == old(client.transport.sent) + [text]
        && resp.Send? && resp.code == Ok && resp.body.Json?
        && IsResponse(resp.body.envelope, client.service(text), text, exp)
    {
      if !client.transport.isOpen {
        client.transport.Open();
      }
      match Validate(req)
      case Reject(message) =>
        resp := Send(BadRequest, Message(message));
      case Throw(error) =>
        resp := Escape(error);
      case Forward(text) =>
        var scores := client.Predict(text);
        var envelope := FormatResponse(scores, text, exp);
        resp := Send(Ok, Json(envelope));
    }
  }
}
