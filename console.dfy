/**
 * The Flask front end (console/server.py): reading request arguments, parsing
 * the model server's `key:value` lines into a ranked prediction, and splitting
 * an uploaded data point. A Python tuple `(intent_name, intent_score)` is an
 * `Entry`, the same pair the C++ maps hold.
 */
module Console {
  import opened Wrappers
  import opened StdMap
  import opened Text

  /** The Python exceptions the handlers can raise. */
  datatype Error = IndexError | ValueError | AttributeError

  const QueryKey: string := "query"
  const DataPointKey: string := "data_point"
  /** `str(None)`. */
  const NoneText: string := "None"

  /** `get_key_from_data`: the argument's value when present, `None` otherwise. */
  function GetKeyFromData(data: map<string, string>, key: string): (r: Option<string>)
    ensures r.Some? <==> key in data
    ensures r.Some? ==> r.value == data[key]
  {
    if key in data then Some(data[key]) else None
  }

  /** The `doc` sent to the model server: `str(query)`, which is "None" for a missing query. */
  function DocPayload(query: Option<string>): (doc: string)
    ensures query.Some? ==> doc == query.value
    ensures query.None? ==> doc == NoneText
  {
    match query
    case Some(q) => q
    case None => NoneText
  }

  /** `filter(lambda inp: inp, parts)`: the non-empty pieces, in order. */
  function NonEmpty(parts: seq<string>): (r: seq<string>)
    ensures forall i :: 0 <= i < |r| ==> r[i] != [] && r[i] in parts
  {
    if parts == [] then []
    else (if parts[0] == [] then [] else [parts[0]]) + NonEmpty(parts[1..])
  }

  lemma {:induction false} NonEmptyAppend(a: seq<string>, b: seq<string>)
    ensures NonEmpty(a + b) == NonEmpty(a) + NonEmpty(b)
  {
    if a == [] {
      assert a + b == b;
    } else {
      assert (a + b)[0] == a[0];
      assert (a + b)[1..] == a[1..] + b;
      NonEmptyAppend(a[1..], b);
    }
  }

  /** Only empty pieces are dropped: a list without them is kept whole. */
  lemma {:induction false} NonEmptyKeeps(parts: seq<string>)
    requires forall i :: 0 <= i < |parts| ==> parts[i] != []
    ensures NonEmpty(parts) == parts
  {
    if parts != [] {
      NonEmptyKeeps(parts[1..]);
    }
  }

  /** A list of empty pieces filters to nothing. */
  lemma {:induction false} NonEmptyDrops(parts: seq<string>)
    requires forall i :: 0 <= i < |parts| ==> parts[i] == []
    ensures NonEmpty(parts) == []
  {
    if parts != [] {
      NonEmptyDrops(parts[1..]);
    }
  }

  /** `":".join(components[:2])` for a list with at least two components. */
  lemma JoinTwo(parts: seq<string>)
    requires |parts| >= 2
    ensures Join(parts[..2], ':') == parts[0] + ":" + parts[1]
  {
    assert parts[..2][1..] == [parts[1]];
  }

  /**
   * `convert_score_string`: the label is the first two `:`-separated fields
   * joined by ":", the score is the third field read by `parse` (Python's
   * `float`), and further fields are ignored.
   */
  function ConvertScoreString(line: string, parse: string -> Option<real>): (r: Result<Entry, Error>)
    ensures r == Failure(IndexError) <==> Count(line, ':') < 2
    ensures r == Failure(ValueError) <==> Count(line, ':') >= 2 && parse(Split(line, ':')[2]).None?
    ensures r.Success? ==> Some(r.value.1) == parse(Split(line, ':')[2])
    ensures r.Success? ==> r.value.0 + ":" <= line && Count(r.value.0, ':') == 1
  {
    var components := Split(line, ':');
    if |components| < 3 then Failure(IndexError)
    else
      var name := Join(components[..2], ':');
      LabelFacts(line);
      match parse(components[2])
      case None => Failure(ValueError)
      case Some(score) => Success((name, score))
  }

  /** The label of a line with two or more colons is the text before its second colon. */
  lemma LabelFacts(line: string)
    requires Count(line, ':') >= 2
    ensures var parts := Split(line, ':');
      Join(parts[..2], ':') + ":" <= line && Count(Join(parts[..2], ':'), ':') == 1
  {
    var parts := Split(line, ':');
    SplitJoin(line, ':');
    JoinTwo(parts);
    assert Join(parts, ':') == parts[0] + [':'] + Join(parts[1..], ':');
    assert Join(parts[1..], ':') == parts[1] + [':'] + Join(parts[2..], ':');
    assert line == (parts[0] + ":" + parts[1] + ":") + Join(parts[2..], ':');
    assert parts[0] + [':'] + parts[1] == parts[0] + ":" + parts[1];
    CountAppend(parts[0] + [':'], parts[1], ':');
    CountAppend(parts[0], [':'], ':');
    CountAbsent(parts[0], ':');
    CountAbsent(parts[1], ':');
  }

  /** A label with exactly one colon is two colon-free fields joined by ":". */
  lemma OneColon(name: string)
    requires Count(name, ':') == 1
    ensures |Split(name, ':')| == 2
    ensures name == Split(name, ':')[0] + ":" + Split(name, ':')[1]
  {
    var parts := Split(name, ':');
    SplitJoin(name, ':');
    assert Join(parts, ':') == parts[0] + [':'] + Join(parts[1..], ':');
  }

  /** The field after the label is the score text, whatever colon-led tail follows it. */
  lemma ScoreField(scoreText: string, tail: string)
    requires ':' !in scoreText
    requires tail == [] || tail[0] == ':'
    ensures Split(scoreText + tail, ':')[0] == scoreText
  {
    if tail == [] {
      assert scoreText + tail == scoreText;
      SplitWhole(scoreText, ':');
    } else {
      assert scoreText + tail == scoreText + [':'] + tail[1..];
      SplitAround(scoreText, ':', tail[1..]);
      SplitWhole(scoreText, ':');
    }
  }

  /**
   * A line written as `label:scoreText`, where the label holds exactly one
   * colon and the score text none, parses back to the label and the score
   * text's value, whatever colon-led tail follows.
   */
  lemma LineRoundTrip(name: string, scoreText: string, tail: string, parse: string -> Option<real>)
    requires Count(name, ':') == 1 && ':' !in scoreText
    requires tail == [] || tail[0] == ':'
    ensures ConvertScoreString(name + ":" + scoreText + tail, parse) ==
      if parse(scoreText).Some? then Success((name, parse(scoreText).value)) else Failure(ValueError)
  {
    var line := name + ":" + scoreText + tail;
    OneColon(name);
    ScoreField(scoreText, tail);
    assert line == name + [':'] + (scoreText + tail);
    SplitAround(name, ':', scoreText + tail);
    var parts := Split(line, ':');
    assert parts == Split(name, ':') + Split(scoreText + tail, ':');
    assert |parts| >= 3 && parts[2] == scoreText;
    assert parts[..2] == Split(name, ':');
    JoinTwo(parts);
  }

  /** Line `i` is the first that fails to convert, and it fails with `e`. */
  predicate FirstFailure(lines: seq<string>, parse: string -> Option<real>, i: int, e: Error)
  {
    && 0 <= i < |lines|
    && ConvertScoreString(lines[i], parse) == Failure(e)
    && forall j :: 0 <= j < i ==> ConvertScoreString(lines[j], parse).Success?
  }

  /**
   * `list(map(convert_score_string, lines))`: every line converted in order,
   * or the exception of the first line that fails.
   */
  function ConvertAll(lines: seq<string>, parse: string -> Option<real>): (r: Result<seq<Entry>, Error>)
    ensures r.Success? <==> forall i :: 0 <= i < |lines| ==> ConvertScoreString(lines[i], parse).Success?
    ensures r.Success? ==> |r.value| == |lines|
    ensures r.Success? ==> forall i :: 0 <= i < |lines| ==> r.value[i] == ConvertScoreString(lines[i], parse).value
    ensures r.Failure? ==> exists i :: FirstFailure(lines, parse, i, r.error)
  {
    if lines == [] then Success([])
    else
      match ConvertScoreString(lines[0], parse)
      case Failure(e) =>
        assert FirstFailure(lines, parse, 0, e);
        Failure(e)
      case Success(p) =>
        match ConvertAll(lines[1..], parse)
        case Failure(e) =>
          ghost var i :| FirstFailure(lines[1..], parse, i, e);
          assert FirstFailure(lines, parse, i + 1, e);
          Failure(e)
        case Success(ps) => Success([p] + ps)
  }

  /** Inserts `x` before the first entry whose score is not larger, keeping equal scores in arrival order. */
  function InsertDesc(x: Entry, t: seq<Entry>): (r: seq<Entry>)
    ensures |r| == |t| + 1
  {
    if t == [] || t[0].1 <= x.1 then [x] + t else [t[0]] + InsertDesc(x, t[1..])
  }

  /** `sorted(s, reverse=True, key=lambda tup: tup[1])`. */
  function SortDesc(s: seq<Entry>): (r: seq<Entry>)
    ensures |r| == |s|
  {
    if s == [] then [] else InsertDesc(s[0], SortDesc(s[1..]))
  }

  /** The entries of `s` whose score is `v`, in order. */
  function WithScore(s: seq<Entry>, v: real): seq<Entry>
  {
    if s == [] then [] else (if s[0].1 == v then [s[0]] else []) + WithScore(s[1..], v)
  }

  /** A list stays non-increasing when its head is at least the old head. */
  lemma ConsDescending(h: Entry, s: seq<Entry>)
    requires ValuesDescending(s)
    requires s != [] ==> h.1 >= s[0].1
    ensures ValuesDescending([h] + s)
  {
    var r := [h] + s;
    forall i, j | 0 <= i < j < |r| ensures r[i].1 >= r[j].1 {
      if i == 0 {
        assert r[j] == s[j - 1];
      } else {
        assert r[i] == s[i - 1] && r[j] == s[j - 1];
      }
    }
  }

  lemma {:induction false} InsertDescSorted(x: Entry, t: seq<Entry>)
    requires ValuesDescending(t)
    ensures ValuesDescending(InsertDesc(x, t))
  {
    if t == [] || t[0].1 <= x.1 {
      ConsDescending(x, t);
    } else {
      var rest := t[1..];
      assert ValuesDescending(rest);
      InsertDescSorted(x, rest);
      var ins := InsertDesc(x, rest);
      assert ins[0] == x || ins[0] == rest[0];
      assert t[0].1 >= ins[0].1;
      ConsDescending(t[0], ins);
    }
  }

  lemma {:induction false} InsertDescMultiset(x: Entry, t: seq<Entry>)
    ensures multiset(InsertDesc(x, t)) == multiset(t) + multiset{x}
  {
    if !(t == [] || t[0].1 <= x.1) {
      var rest := t[1..];
      InsertDescMultiset(x, rest);
      assert t == [t[0]] + rest;
      assert InsertDesc(x, t) == [t[0]] + InsertDesc(x, rest);
    }
  }

  lemma {:induction false} InsertDescMembers(x: Entry, t: seq<Entry>)
    ensures forall y :: y in InsertDesc(x, t) <==> y == x || y in t
  {
    if !(t == [] || t[0].1 <= x.1) {
      var rest := t[1..];
      InsertDescMembers(x, rest);
      assert t == [t[0]] + rest;
      assert InsertDesc(x, t) == [t[0]] + InsertDesc(x, rest);
    }
  }

  lemma {:induction false} SortDescMultiset(s: seq<Entry>)
    ensures multiset(SortDesc(s)) == multiset(s)
  {
    if s != [] {
      SortDescMultiset(s[1..]);
      InsertDescMultiset(s[0], SortDesc(s[1..]));
      assert s == [s[0]] + s[1..];
    }
  }

  lemma {:induction false} SortDescDescending(s: seq<Entry>)
    ensures ValuesDescending(SortDesc(s))
  {
    if s != [] {
      SortDescDescending(s[1..]);
      InsertDescSorted(s[0], SortDesc(s[1..]));
    }
  }

  /** The sort's result is non-increasing and holds exactly the input entries. */
  lemma SortDescSorted(s: seq<Entry>)
    ensures ValuesDescending(SortDesc(s))
    ensures multiset(SortDesc(s)) == multiset(s)
  {
    SortDescDescending(s);
    SortDescMultiset(s);
  }

  lemma WithScoreCons(y: Entry, s: seq<Entry>, v: real)
    ensures WithScore([y] + s, v) == (if y.1 == v then [y] else []) + WithScore(s, v)
  {
    assert ([y] + s)[1..] == s;
  }

  lemma {:induction false} InsertDescStable(x: Entry, t: seq<Entry>, v: real)
    ensures WithScore(InsertDesc(x, t), v) == (if x.1 == v then [x] else []) + WithScore(t, v)
  {
    if t == [] || t[0].1 <= x.1 {
      assert InsertDesc(x, t) == [x] + t;
      WithScoreCons(x, t, v);
    } else {
      var rest := t[1..];
      var ins := InsertDesc(x, rest);
      InsertDescStable(x, rest, v);
      assert InsertDesc(x, t) == [t[0]] + ins;
      WithScoreCons(t[0], ins, v);
      if x.1 == v {
        assert t[0].1 != v;
        assert WithScore(ins, v) == [x] + WithScore(rest, v);
        assert WithScore(t, v) == WithScore(rest, v);
        assert WithScore(InsertDesc(x, t), v) == WithScore(ins, v);
      } else if t[0].1 == v {
        assert WithScore(ins, v) == WithScore(rest, v);
        assert WithScore(t, v) == [t[0]] + WithScore(rest, v);
        assert WithScore(InsertDesc(x, t), v) == [t[0]] + WithScore(ins, v);
      } else {
        assert WithScore(ins, v) == WithScore(rest, v);
        assert WithScore(t, v) == WithScore(rest, v);
        assert WithScore(InsertDesc(x, t), v) == WithScore(ins, v);
      }
    }
  }

  /** The sort is stable: entries with the same score keep their input order. */
  lemma {:induction false} SortDescStable(s: seq<Entry>, v: real)
    ensures WithScore(SortDesc(s), v) == WithScore(s, v)
  {
    if s != [] {
      SortDescStable(s[1..], v);
      InsertDescStable(s[0], SortDesc(s[1..]), v);
    }
  }

  /** `r.text.split("\n")`, blank pieces dropped, each converted, then sorted by descending score. */
  function ParseScores(text: string, parse: string -> Option<real>): (r: Result<seq<Entry>, Error>)
    ensures r.Success? ==> ValuesDescending(r.value)
    ensures r.Success? <==> ConvertAll(NonEmpty(Split(text, '\n')), parse).Success?
    ensures r.Success? ==> multiset(r.value) == multiset(ConvertAll(NonEmpty(Split(text, '\n')), parse).value)
    ensures r.Failure? ==> r.error == ConvertAll(NonEmpty(Split(text, '\n')), parse).error
  {
    var lines := NonEmpty(Split(text, '\n'));
    match ConvertAll(lines, parse)
    case Failure(e) => Failure(e)
    case Success(scores) =>
      SortDescSorted(scores);
      Success(SortDesc(scores))
  }

  /** The JSON answer of `get_predictions`. */
  datatype Prediction = Prediction(query: Option<string>, prediction: Entry, rawScores: seq<Entry>)

  /**
   * `get_predictions`: fetches the model server's answer for `str(query)`,
   * parses it, and takes the first (highest-scoring) entry as the prediction;
   * an answer without any line raises IndexError.
   */
  function GetPredictions(args: map<string, string>, fetch: string -> string, parse: string -> Option<real>): (r: Result<Prediction, Error>)
    ensures NonEmpty(Split(fetch(DocPayload(GetKeyFromData(args, QueryKey))), '\n')) == [] ==> r == Failure(IndexError)
    ensures ParseScores(fetch(DocPayload(GetKeyFromData(args, QueryKey))), parse).Failure? ==>
      r == Failure(ParseScores(fetch(DocPayload(GetKeyFromData(args, QueryKey))), parse).error)
    ensures r.Success? <==>
      && ParseScores(fetch(DocPayload(GetKeyFromData(args, QueryKey))), parse).Success?
      && ParseScores(fetch(DocPayload(GetKeyFromData(args, QueryKey))), parse).value != []
    ensures r.Success? ==> r.value.query == GetKeyFromData(args, QueryKey)
    ensures r.Success? ==>
      && ParseScores(fetch(DocPayload(GetKeyFromData(args, QueryKey))), parse) == Success(r.value.rawScores)
      && r.value.rawScores != []
      && r.value.prediction == r.value.rawScores[0]
    ensures r.Success? ==> forall i :: 0 <= i < |r.value.rawScores| ==> r.value.rawScores[i].1 <= r.value.prediction.1
  {
    var query := GetKeyFromData(args, QueryKey);
    var parsed := ParseScores(fetch(DocPayload(query)), parse);
    if parsed.Failure? then Failure(parsed.error)
    else if parsed.value == [] then Failure(IndexError)
    else Success(Prediction(query, parsed.value[0], parsed.value))
  }

  /** The JSON answer of `upload_data`. */
  datatype Upload = Upload(query: string, intentLabel: string)

  /**
   * `upload_data`: the data point must split at "," into exactly two parts,
   * the query and the label; a missing data point raises AttributeError
   * (`None.split`), any other number of parts ValueError.
   */
  function UploadData(args: map<string, string>): (r: Result<Upload, Error>)
    ensures DataPointKey !in args ==> r == Failure(AttributeError)
    ensures DataPointKey in args ==>
      (r.Success? <==> Count(args[DataPointKey], ',') == 1) &&
      (r.Failure? ==> r.error == ValueError)
    ensures r.Success? ==>
      && args[DataPointKey] == r.value.query + "," + r.value.intentLabel
      && ',' !in r.value.query && ',' !in r.value.intentLabel
  {
    match GetKeyFromData(args, DataPointKey)
    case None => Failure(AttributeError)
    case Some(dataPoint) =>
      var parts := Split(dataPoint, ',');
      if |parts| != 2 then Failure(ValueError)
      else
        SplitJoin(dataPoint, ',');
        assert Join(parts, ',') == parts[0] + [','] + Join(parts[1..], ',');
        Success(Upload(parts[0], parts[1]))
  }

  /** A query and a label without commas come back unchanged from the data point `query,label`. */
  lemma UploadRoundTrip(args: map<string, string>, query: string, name: string)
    requires ',' !in query && ',' !in name
    requires DataPointKey in args && args[DataPointKey] == query + "," + name
    ensures UploadData(args) == Success(Upload(query, name))
  {
    assert query + "," + name == query + [','] + name;
    SplitAround(query, ',', name);
    SplitWhole(query, ',');
    SplitWhole(name, ',');
  }
}
