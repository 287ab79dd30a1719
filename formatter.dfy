/**
 * The response formatter of the JSON-mode server: turns a request body into
 * the document text, and a raw `label -> logit` score map into the response
 * envelope (softmax, descending ranking, "intent:" prefix stripped).
 * `Formatter` in server_docnn/formatter.hpp and `ResponseFormatter` in
 * server_docnn/server.cpp are the same code and share this model.
 */
module Formatter {
  import opened Wrappers
  import opened StdMap
  import opened Seqs

  const TextParam: string := "text"
  const NameKey: string := "name"
  const ConfidenceKey: string := "confidence"
  const IntentPrefix: string := "intent:"
  const TextKey: string := "text"
  const IntentRankingKey: string := "intent_ranking"
  const IntentKey: string := "intent"
  const EntitiesKey: string := "entities"

  /** A field of the request's JSON object, as far as reading it into a string cares. */
  datatype Value = Str(s: string) | NonString

  /** The library exceptions: a missing key, or a value that is not a string. */
  datatype Error = OutOfRange | TypeError

  /** `formatRequest`: the string stored under "text". */
  function FormatRequest(body: map<string, Value>): (r: Result<string, Error>)
    ensures r.Success? <==> TextParam in body && body[TextParam].Str?
    ensures r.Success? ==> r.value == body[TextParam].s
    ensures TextParam !in body ==> r == Failure(OutOfRange)
    ensures TextParam in body && body[TextParam].NonString? ==> r == Failure(TypeError)
  {
    if TextParam !in body then Failure(OutOfRange)
    else match body[TextParam]
      case Str(s) => Success(s)
      case NonString => Failure(TypeError)
  }

  /** `std::mismatch(prefix.begin(), prefix.end(), doc.begin())`: the first position where they differ. */
  function Mismatch(prefix: string, doc: string): (i: nat)
    requires |prefix| <= |doc|
    ensures i <= |prefix|
    ensures prefix[..i] == doc[..i]
    ensures i < |prefix| ==> prefix[i] != doc[i]
  {
    if prefix == [] || prefix[0] != doc[0] then 0
    else 1 + Mismatch(prefix[1..], doc[1..])
  }

  /** `stripPrefix`: removes `prefix` when `doc` starts with it, byte for byte. */
  function StripPrefix(doc: string, prefix: string): (r: string)
    ensures prefix <= doc ==> r == doc[|prefix|..]
    ensures !(prefix <= doc) ==> r == doc
    ensures |r| == |doc| || |r| == |doc| - |prefix|
    ensures r == doc[|doc| - |r|..]
  {
    if |doc| >= |prefix| && Mismatch(prefix, doc) == |prefix| then
      assert prefix == doc[..|prefix|];
      doc[|prefix|..]
    else
      doc
  }

  ghost predicate Positive(exp: real -> real)
  {
    forall x :: exp(x) > 0.0
  }

  /** `accumulate` over the map in key order. */
  function Sum(m: seq<Entry>): real
  {
    if m == [] then 0.0 else Sum(m[..|m| - 1]) + m[|m| - 1].1
  }

  /** Every value divided by `total`; no division happens for an empty map. */
  function Normalize(m: seq<Entry>, total: real): seq<Entry>
    requires m == [] || total != 0.0
  {
    if m == [] then [] else MapValues(m, x => x / total)
  }

  lemma {:induction false} SumPositive(m: seq<Entry>)
    requires forall i :: 0 <= i < |m| ==> m[i].1 > 0.0
    ensures m != [] ==> Sum(m) > 0.0
    ensures forall i :: 0 <= i < |m| ==> m[i].1 <= Sum(m)
  {
    if m != [] {
      SumPositive(m[..|m| - 1]);
    }
  }

  lemma PositiveValues(scores: seq<Entry>, exp: real -> real)
    requires Positive(exp)
    ensures forall i :: 0 <= i < |scores| ==> MapValues(scores, exp)[i].1 > 0.0
  {
    forall i | 0 <= i < |scores| ensures MapValues(scores, exp)[i].1 > 0.0 {
      var x := scores[i].1;
      assert exp(x) > 0.0;
      assert MapValues(scores, exp)[i].1 == exp(x);
    }
  }

  lemma DivideBounds(a: real, t: real)
    requires 0.0 < a <= t
    ensures 0.0 < a / t <= 1.0
  {
    assert a / t * t == a;
  }

  /** The exponentiate, sum and normalise steps of `formatResponse`. */
  function Softmax(scores: seq<Entry>, exp: real -> real): (r: seq<Entry>)
    requires Positive(exp)
    ensures |r| == |scores|
  {
    var expScores := MapValues(scores, exp);
    PositiveValues(scores, exp);
    SumPositive(expScores);
    Normalize(expScores, Sum(expScores))
  }

  /** Both transforms keep exactly the keys of the input, in the same order. */
  lemma SoftmaxKeys(scores: seq<Entry>, exp: real -> real)
    requires Positive(exp)
    ensures Keys(Softmax(scores, exp)) == Keys(scores)
    ensures forall i :: 0 <= i < |scores| ==> Softmax(scores, exp)[i].0 == scores[i].0
    ensures Ordered(scores) ==> Ordered(Softmax(scores, exp))
  {
    var e := MapValues(scores, exp);
    MapValuesKeys(scores, exp);
    PositiveValues(scores, exp);
    SumPositive(e);
    if scores != [] {
      var total := Sum(e);
      MapValuesKeys(e, x => x / total);
    }
  }

  lemma {:induction false} SumNormalize(m: seq<Entry>, total: real)
    requires total != 0.0
    ensures Sum(Normalize(m, total)) == Sum(m) / total
  {
    if m != [] {
      var n := |m|;
      if n > 1 {
        assert Normalize(m, total)[..n - 1] == Normalize(m[..n - 1], total);
      }
      SumNormalize(m[..n - 1], total);
      assert Sum(m) / total == Sum(m[..n - 1]) / total + m[n - 1].1 / total;
    }
  }

  /** One softmax confidence: the entry's exponential over the sum of all of them. */
  lemma SoftmaxAt(scores: seq<Entry>, exp: real -> real, i: nat)
    requires Positive(exp) && i < |scores|
    ensures 0.0 < MapValues(scores, exp)[i].1 <= Sum(MapValues(scores, exp))
    ensures Softmax(scores, exp)[i].1 == MapValues(scores, exp)[i].1 / Sum(MapValues(scores, exp))
  {
    var e := MapValues(scores, exp);
    PositiveValues(scores, exp);
    SumPositive(e);
    var total := Sum(e);
    assert Softmax(scores, exp)[i] == Normalize(e, total)[i];
  }

  lemma SoftmaxSumsToOne(scores: seq<Entry>, exp: real -> real)
    requires Positive(exp) && scores != []
    ensures Sum(Softmax(scores, exp)) == 1.0
  {
    var e := MapValues(scores, exp);
    PositiveValues(scores, exp);
    SumPositive(e);
    var total := Sum(e);
    SumNormalize(e, total);
    assert Sum(Softmax(scores, exp)) == Sum(Normalize(e, total));
    assert total / total == 1.0;
  }

  /** Softmax confidences of a non-empty score map add up to one, each in (0, 1]. */
  lemma SoftmaxIsDistribution(scores: seq<Entry>, exp: real -> real)
    requires Positive(exp)
    ensures scores != [] ==> Sum(Softmax(scores, exp)) == 1.0
    ensures forall i :: 0 <= i < |scores| ==> 0.0 < Softmax(scores, exp)[i].1 <= 1.0
  {
    if scores != [] {
      SoftmaxSumsToOne(scores, exp);
    }
    forall i | 0 <= i < |scores| ensures 0.0 < Softmax(scores, exp)[i].1 <= 1.0 {
      SoftmaxAt(scores, exp, i);
      DivideBounds(MapValues(scores, exp)[i].1, Sum(MapValues(scores, exp)));
    }
  }

  /**
   * `sortMapByValue`: copies the entries into a vector and sorts it in place,
   * descending by value. `std::sort` is not stable, so only the permutation and
   * the order of values are promised; the order among equal values is not.
   */
  method SortMapByValue(src: seq<Entry>) returns (v: seq<Entry>)
    ensures multiset(v) == multiset(src)
    ensures ValuesDescending(v)
  {
    var a := new Entry[|src|](i requires 0 <= i < |src| => src[i]);
    assert a[..] == src;
    var i := 0;
    while i < a.Length
      invariant 0 <= i <= a.Length
      invariant multiset(a[..]) == multiset(src)
      invariant ValuesDescending(a[..i])
    {
      SinkInto(a, i);
      i := i + 1;
    }
    assert a[..] == a[..i];
    v := a[..];
  }

  /** One insertion step of the sort: moves `a[i]` left past the smaller values before it. */
  method SinkInto(a: array<Entry>, i: nat)
    requires i < a.Length
    requires ValuesDescending(a[..i])
    modifies a
    ensures multiset(a[..]) == multiset(old(a[..]))
    ensures ValuesDescending(a[..i + 1])
  {
    var j := i;
    while j > 0 && a[j - 1].1 < a[j].1
      invariant 0 <= j <= i
      invariant multiset(a[..]) == multiset(old(a[..]))
      invariant forall p, q :: 0 <= p < q <= i && q != j ==> a[p].1 >= a[q].1
    {
      Swap(a, j - 1, j);
      j := j - 1;
    }
  }

  method Swap(a: array<Entry>, p: nat, q: nat)
    requires p < q < a.Length
    modifies a
    ensures a[..] == old(a[..])[p := old(a[q])][q := old(a[p])]
    ensures multiset(a[..]) == multiset(old(a[..]))
  {
    a[p], a[q] := a[q], a[p];
  }

  datatype Intent = Intent(name: string, confidence: real)

  /** The JSON document the servers send, before `dump`. */
  datatype Json = Null | JString(s: string) | JNumber(n: real) | JArray(items: seq<Json>) | JObject(fields: map<string, Json>)

  datatype Envelope = Envelope(text: string, intentRanking: seq<Intent>, intent: Option<Intent>, entities: seq<Json>)

  /** One `{name, confidence}` entry: the label without "intent:", and its confidence. */
  function Rank(e: Entry): Intent
  {
    Intent(StripPrefix(e.0, IntentPrefix), e.1)
  }

  /** The `intent_ranking` array: one entry per score, in the given order. */
  function Ranking(s: seq<Entry>): (r: seq<Intent>)
    ensures |r| == |s|
  {
    MapSeq(s, Rank)
  }

  predicate ConfidencesDescending(ir: seq<Intent>)
  {
    forall i, j :: 0 <= i < j < |ir| ==> ir[i].confidence >= ir[j].confidence
  }

  /**
   * What `formatResponse` promises: the text verbatim, no entities, one ranking
   * entry per score (a permutation of the stripped softmax entries) in
   * non-increasing confidence, and `intent` the first entry, or null when there is none.
   */
  ghost predicate IsResponse(env: Envelope, scores: seq<Entry>, text: string, exp: real -> real)
    requires Positive(exp)
  {
    && env.text == text
    && env.entities == []
    && multiset(env.intentRanking) == multiset(Ranking(Softmax(scores, exp)))
    && ConfidencesDescending(env.intentRanking)
    && env.intent == (if env.intentRanking == [] then None else Some(env.intentRanking[0]))
  }

  /** `formatResponse` / `ResponseFormatter::format`, up to the final `dump`. */
  method FormatResponse(scores: ScoreMap, text: string, exp: real -> real) returns (env: Envelope)
    requires Positive(exp)
    ensures IsResponse(env, scores, text, exp)
  {
    var normScores := Softmax(scores, exp);
    var sortedScores := SortMapByValue(normScores);
    var ir: seq<Intent> := [];
    var i := 0;
    while i < |sortedScores|
      invariant 0 <= i <= |sortedScores|
      invariant ir == Ranking(sortedScores[..i])
    {
      RankingSnoc(sortedScores, i);
      ir := ir + [Rank(sortedScores[i])];
      i := i + 1;
    }
    assert sortedScores[..i] == sortedScores;
    MapPermutation(sortedScores, normScores, Rank);
    RankingOrder(sortedScores);
    env := Envelope(text, ir, if ir != [] then Some(ir[0]) else None, []);
  }

  lemma RankingSnoc(s: seq<Entry>, i: nat)
    requires i < |s|
    ensures Ranking(s[..i + 1]) == Ranking(s[..i]) + [Rank(s[i])]
  {
    TakeSnoc(s, 0, i);
    MapAppend(s[..i], [s[i]], Rank);
  }

  /** Ranking keeps the order of the values as confidences. */
  lemma RankingOrder(v: seq<Entry>)
    requires ValuesDescending(v)
    ensures ConfidencesDescending(Ranking(v))
  {
    var ir := Ranking(v);
    forall k | 0 <= k < |ir| ensures ir[k].confidence == v[k].1 {
      MapAt(v, Rank, k);
    }
  }

  /** `intent` is null exactly for an empty score map, otherwise the most confident entry. */
  lemma ResponseIntent(env: Envelope, scores: seq<Entry>, text: string, exp: real -> real)
    requires Positive(exp)
    requires IsResponse(env, scores, text, exp)
    ensures |env.intentRanking| == |scores|
    ensures env.intent.None? <==> scores == []
    ensures env.intent.Some? ==> env.intent.value == env.intentRanking[0]
    ensures env.intent.Some? ==> forall e :: e in env.intentRanking ==> env.intent.value.confidence >= e.confidence
  {
    assert |multiset(env.intentRanking)| == |Ranking(Softmax(scores, exp))|;
  }

  lemma RankingMembers(ir: seq<Intent>, norm: seq<Entry>)
    requires multiset(ir) == multiset(Ranking(norm))
    ensures forall i :: 0 <= i < |norm| ==> Rank(norm[i]) in ir
    ensures forall e :: e in ir ==> exists i :: 0 <= i < |norm| && e == Rank(norm[i])
  {
    var ranked := Ranking(norm);
    forall i | 0 <= i < |norm| ensures Rank(norm[i]) in ir {
      MapAt(norm, Rank, i);
      assert ranked[i] in multiset(ir);
    }
    forall e | e in ir ensures exists i :: 0 <= i < |norm| && e == Rank(norm[i]) {
      assert e in multiset(ranked);
      var i :| 0 <= i < |ranked| && ranked[i] == e;
      MapAt(norm, Rank, i);
    }
  }

  /**
   * Every ranking entry is `Rank` of a softmax entry (its label stripped of "intent:",
   * its confidence), and every softmax entry has one; the labels are the input's (`SoftmaxKeys`).
   */
  lemma ResponseEntries(env: Envelope, scores: seq<Entry>, text: string, exp: real -> real)
    requires Positive(exp)
    requires IsResponse(env, scores, text, exp)
    ensures forall i :: 0 <= i < |scores| ==> Rank(Softmax(scores, exp)[i]) in env.intentRanking
    ensures forall e :: e in env.intentRanking ==> exists i :: 0 <= i < |scores| && e == Rank(Softmax(scores, exp)[i])
  {
    RankingMembers(env.intentRanking, Softmax(scores, exp));
  }

  /** One `{"name": ..., "confidence": ...}` object of the ranking. */
  function IntentJson(i: Intent): (j: Json)
    ensures j.JObject? && j.fields.Keys == {NameKey, ConfidenceKey}
    ensures j.fields[NameKey] == JString(i.name) && j.fields[ConfidenceKey] == JNumber(i.confidence)
  {
    JObject(map[NameKey := JString(i.name), ConfidenceKey := JNumber(i.confidence)])
  }

  /** The JSON object built with the key-name constants. */
  function ToJson(env: Envelope): (j: Json)
    ensures j.JObject? && j.fields.Keys == {TextKey, IntentRankingKey, IntentKey, EntitiesKey}
    ensures j.fields[TextKey] == JString(env.text)
    ensures j.fields[IntentKey] == Null <==> env.intent.None?
    ensures j.fields[IntentRankingKey].JArray? && |j.fields[IntentRankingKey].items| == |env.intentRanking|
    ensures forall i :: 0 <= i < |env.intentRanking| ==> j.fields[IntentRankingKey].items[i] == IntentJson(env.intentRanking[i])
    ensures env.intentRanking != [] && env.intent == Some(env.intentRanking[0]) ==>
      j.fields[IntentKey] == j.fields[IntentRankingKey].items[0]
    ensures env.entities == [] ==> j.fields[EntitiesKey] == JArray([])
  {
    JObject(map[
      TextKey := JString(env.text),
      IntentRankingKey := JArray(seq(|env.intentRanking|, i requires 0 <= i < |env.intentRanking| => IntentJson(env.intentRanking[i]))),
      IntentKey := (match env.intent case None => Null case Some(i) => IntentJson(i)),
      EntitiesKey := JArray(env.entities)])
  }
}
