/**
 * The query-mode server's body (server/server.cpp) read back by the console's
 * parser (console/server.py): under which conditions the parser recovers the
 * server's scores, and in which order it lists them.
 */
module RoundTrip {
  import opened Wrappers
  import opened StdMap
  import opened Text
  import XlmServer
  import opened Console

  /**
   * Every line can be read back: its key holds exactly one colon and no
   * newline, and its rendered value holds neither and parses as a number.
   */
  predicate Readable(scores: seq<Entry>, render: real -> string, parse: string -> Option<real>)
  {
    forall i :: 0 <= i < |scores| ==>
      && Count(scores[i].0, ':') == 1 && '\n' !in scores[i].0
      && ':' !in render(scores[i].1) && '\n' !in render(scores[i].1)
      && parse(render(scores[i].1)).Some?
  }

  /** The entries as the parser sees them: same labels, each value rendered and parsed again. */
  function Reread(scores: seq<Entry>, render: real -> string, parse: string -> Option<real>): (r: seq<Entry>)
    requires Readable(scores, render, parse)
    ensures |r| == |scores|
    ensures forall i :: 0 <= i < |scores| ==> r[i] == (scores[i].0, parse(render(scores[i].1)).value)
  {
    seq(|scores|, i requires 0 <= i < |scores| => (scores[i].0, parse(render(scores[i].1)).value))
  }

  /** The body's non-blank lines are exactly the entries' lines. */
  lemma BodyNonBlankLines(scores: seq<Entry>, render: real -> string, parse: string -> Option<real>)
    requires Readable(scores, render, parse)
    ensures NonEmpty(Split(XlmServer.Body(scores, render), '\n')) == XlmServer.Lines(scores, render)
  {
    XlmServer.BodyLines(scores, render);
    var lines := XlmServer.Lines(scores, render);
    NonEmptyAppend(lines, [[]]);
    NonEmptyKeeps(lines);
    NonEmptyDrops([[]]);
  }

  /** Every line of the body converts back to its label and its re-read value. */
  lemma ConvertBody(scores: seq<Entry>, render: real -> string, parse: string -> Option<real>)
    requires Readable(scores, render, parse)
    ensures ConvertAll(NonEmpty(Split(XlmServer.Body(scores, render), '\n')), parse) == Success(Reread(scores, render, parse))
  {
    BodyNonBlankLines(scores, render, parse);
    var lines := XlmServer.Lines(scores, render);
    forall i | 0 <= i < |lines|
      ensures ConvertScoreString(lines[i], parse) == Success(Reread(scores, render, parse)[i])
    {
      assert lines[i] == scores[i].0 + ":" + render(scores[i].1) + [];
      LineRoundTrip(scores[i].0, render(scores[i].1), [], parse);
    }
    var converted := ConvertAll(lines, parse);
    assert converted.Success?;
    assert converted.value == Reread(scores, render, parse);
  }

  /**
   * Parsing the server's body gives the server's entries, each value rendered
   * and parsed again, in the stable descending order of their scores.
   */
  lemma ParseBody(scores: seq<Entry>, render: real -> string, parse: string -> Option<real>)
    requires Readable(scores, render, parse)
    ensures ParseScores(XlmServer.Body(scores, render), parse) == Success(SortDesc(Reread(scores, render, parse)))
  {
    ConvertBody(scores, render, parse);
  }

  /** Equal scores are listed in ascending label order. */
  predicate TiesByLabel(s: seq<Entry>)
  {
    forall i, j :: 0 <= i < j < |s| && s[i].1 == s[j].1 ==> StrLess(s[i].0, s[j].0)
  }

  /** Prepending keeps ties in label order when the new head's label is below every tie of it. */
  lemma ConsTies(h: Entry, s: seq<Entry>)
    requires TiesByLabel(s)
    requires forall y :: y in s && y.1 == h.1 ==> StrLess(h.0, y.0)
    ensures TiesByLabel([h] + s)
  {
    var r := [h] + s;
    forall i, j | 0 <= i < j < |r| && r[i].1 == r[j].1 ensures StrLess(r[i].0, r[j].0) {
      if i == 0 {
        assert r[j] == s[j - 1] && r[j] in s;
      } else {
        assert r[i] == s[i - 1] && r[j] == s[j - 1];
      }
    }
  }

  /** The head of a list whose ties are in label order is below every later tie of it. */
  lemma HeadTies(t: seq<Entry>)
    requires TiesByLabel(t) && t != []
    ensures TiesByLabel(t[1..])
    ensures forall y :: y in t[1..] && y.1 == t[0].1 ==> StrLess(t[0].0, y.0)
  {
    var rest := t[1..];
    forall y | y in rest && y.1 == t[0].1 ensures StrLess(t[0].0, y.0) {
      var k :| 0 <= k < |rest| && rest[k] == y;
      assert t[k + 1] == y;
    }
  }

  lemma {:induction false} InsertKeepsTies(x: Entry, t: seq<Entry>)
    requires ValuesDescending(t) && TiesByLabel(t)
    requires forall y :: y in t ==> StrLess(x.0, y.0)
    ensures TiesByLabel(InsertDesc(x, t))
  {
    if t == [] || t[0].1 <= x.1 {
      ConsTies(x, t);
    } else {
      var rest := t[1..];
      assert ValuesDescending(rest);
      HeadTies(t);
      InsertKeepsTies(x, rest);
      var ins := InsertDesc(x, rest);
      InsertDescMembers(x, rest);
      ConsTies(t[0], ins);
    }
  }

  lemma {:induction false} SortDescMembers(s: seq<Entry>)
    ensures forall y :: y in SortDesc(s) <==> y in s
  {
    if s != [] {
      SortDescMembers(s[1..]);
      InsertDescMembers(s[0], SortDesc(s[1..]));
      assert s == [s[0]] + s[1..];
    }
  }

  lemma {:induction false} SortTiesByLabel(s: seq<Entry>)
    requires Ordered(s)
    ensures TiesByLabel(SortDesc(s))
  {
    if s != [] {
      var rest := s[1..];
      assert Ordered(rest);
      SortTiesByLabel(rest);
      SortDescDescending(rest);
      SortDescMembers(rest);
      forall y | y in SortDesc(rest) ensures StrLess(s[0].0, y.0) {
        var k :| 0 <= k < |rest| && rest[k] == y;
        assert s[k + 1] == y;
      }
      InsertKeepsTies(s[0], SortDesc(rest));
    }
  }

  /**
   * `get_predictions` against the query-mode server: with no scores it raises
   * IndexError; otherwise `raw_scores` are the server's entries re-read and
   * stably sorted by descending score, ties in ascending label order, and
   * `prediction` is the first of them.
   */
  lemma PredictionRoundTrip(args: map<string, string>, fetch: string -> string, scores: ScoreMap,
                            render: real -> string, parse: string -> Option<real>)
    requires fetch(DocPayload(GetKeyFromData(args, QueryKey))) == XlmServer.Body(scores, render)
    requires Readable(scores, render, parse)
    ensures scores == [] ==> GetPredictions(args, fetch, parse) == Failure(IndexError)
    ensures scores != [] ==>
      var raw := SortDesc(Reread(scores, render, parse));
      && GetPredictions(args, fetch, parse) == Success(Prediction(GetKeyFromData(args, QueryKey), raw[0], raw))
      && ValuesDescending(raw) && TiesByLabel(raw)
      && multiset(raw) == multiset(Reread(scores, render, parse))
  {
    ParseBody(scores, render, parse);
    var reread := Reread(scores, render, parse);
    SortDescSorted(reread);
    assert Ordered(reread);
    SortTiesByLabel(reread);
  }
}
