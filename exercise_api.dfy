/**
 * `exerciseApi.getAll` (src/services/api.ts): walks the entries of its
 * argument in order, drops those whose value is null or undefined, appends
 * every other one as `key=String(value)` to a fresh `URLSearchParams`, and
 * requests `/exercise?` followed by its serialization.
 */
module ExerciseApi {
  import opened Wrappers
  import opened Js
  import opened FormUrlEncoded

  const ExercisePath: string := "/exercise"

  /**
   * The argument of getAll: a record, given by its own enumerable entries in
   * property order (a value None is `undefined`), or a number, which has no
   * own entries.
   */
  datatype QueryArg = Record(entries: seq<(string, Option<Json>)>) | Number(n: int)

  /** `Object.entries(arg)`. */
  function Entries(arg: QueryArg): (es: seq<(string, Option<Json>)>)
    ensures arg.Number? ==> es == []
    ensures arg.Record? ==> es == arg.entries
  {
    match arg
    case Record(entries) => entries
    case Number(_) => []
  }

  /** `value !== null && value !== undefined`: only these two are dropped; 0, false and "" are kept. */
  predicate Kept(v: Option<Json>) {
    v.Some? && v.value != JNull
  }

  /** The pair an entry contributes when it is kept. */
  function PairOf(e: (string, Option<Json>)): (string, string)
    requires Kept(e.1)
  {
    (e.0, ToJsString(e.1.value))
  }

  /** The pairs the forEach appends for the entries `es`, in order. */
  function KeptPairs(es: seq<(string, Option<Json>)>): (ps: seq<(string, string)>)
    ensures |ps| <= |es|
  {
    if |es| == 0 then []
    else
      var last := es[|es| - 1];
      KeptPairs(es[..|es| - 1]) + (if Kept(last.1) then [PairOf(last)] else [])
  }

  /** The pairs of consecutive runs of entries follow one another: order is preserved. */
  lemma {:induction false} KeptPairsConcat(a: seq<(string, Option<Json>)>, b: seq<(string, Option<Json>)>)
    ensures KeptPairs(a + b) == KeptPairs(a) + KeptPairs(b)
    decreases |b|
  {
    if |b| > 0 {
      var ab := a + b;
      assert ab[..|ab| - 1] == a + b[..|b| - 1];
      assert ab[|ab| - 1] == b[|b| - 1];
      KeptPairsConcat(a, b[..|b| - 1]);
    } else {
      assert a + b == a;
    }
  }

  /** A pair is in the query exactly when some entry with that key and a non-nullish value produced it. */
  lemma {:induction false} KeptPairsMembership(es: seq<(string, Option<Json>)>, p: (string, string))
    ensures p in KeptPairs(es) <==>
              exists i :: 0 <= i < |es| && Kept(es[i].1) && PairOf(es[i]) == p
    decreases |es|
  {
    if |es| > 0 {
      var init := es[..|es| - 1];
      KeptPairsMembership(init, p);
      assert forall i :: 0 <= i < |init| ==> init[i] == es[i];
    }
  }

  /** When no entry is nullish, every entry is appended, in order, repeats included. */
  lemma {:induction false} KeptPairsAllKept(es: seq<(string, Option<Json>)>)
    requires forall i :: 0 <= i < |es| ==> Kept(es[i].1)
    ensures |KeptPairs(es)| == |es|
    ensures forall i :: 0 <= i < |es| ==> KeptPairs(es)[i] == PairOf(es[i])
    decreases |es|
  {
    if |es| > 0 {
      var init := es[..|es| - 1];
      assert forall i :: 0 <= i < |init| ==> init[i] == es[i];
      KeptPairsAllKept(init);
    }
  }

  /** When every entry is null or undefined, nothing is appended. */
  lemma {:induction false} KeptPairsNoneKept(es: seq<(string, Option<Json>)>)
    requires forall i :: 0 <= i < |es| ==> !Kept(es[i].1)
    ensures KeptPairs(es) == []
    decreases |es|
  {
    if |es| > 0 {
      var init := es[..|es| - 1];
      assert forall i :: 0 <= i < |init| ==> init[i] == es[i];
      KeptPairsNoneKept(init);
    }
  }

  /** Falsy values other than null and undefined are still sent: `0`, `false` and `""` all appear. */
  lemma FalsyValuesKept()
    ensures KeptPairs([("page", Some(JNum(0))), ("archived", Some(JBool(false))), ("search", Some(JStr(""))),
                       ("typeId", Some(JNull)), ("limit", None)])
            == [("page", "0"), ("archived", "false"), ("search", "")]
  {
    var kept := [("page", Some(JNum(0))), ("archived", Some(JBool(false))), ("search", Some(JStr("")))];
    var dropped := [("typeId", Some(JNull)), ("limit", None)];
    KeptPairsAllKept(kept);
    KeptPairsNoneKept(dropped);
    KeptPairsConcat(kept, dropped);
    assert kept + dropped == [("page", Some(JNum(0))), ("archived", Some(JBool(false))), ("search", Some(JStr(""))),
                              ("typeId", Some(JNull)), ("limit", None)];
  }

  /** The path getAll requests for `arg`. */
  function GetAllUrl(arg: QueryArg): (url: string)
    ensures |url| > |ExercisePath| && url[..|ExercisePath| + 1] == ExercisePath + "?"
  {
    var url := ExercisePath + "?" + Serialize(KeptPairs(Entries(arg)));
    assert url[..|ExercisePath| + 1] == ExercisePath + "?";
    url
  }

  /** The query of that path parses back to exactly the kept pairs of the entries. */
  lemma GetAllUrlParses(arg: QueryArg)
    ensures Parse(GetAllUrl(arg)[|ExercisePath| + 1..]) == Some(KeptPairs(Entries(arg)))
  {
    var q := Serialize(KeptPairs(Entries(arg)));
    assert GetAllUrl(arg)[|ExercisePath| + 1..] == q;
    SerializeRoundTrip(KeptPairs(Entries(arg)));
  }

  /** A number has no entries, so the refetch after a mutation requests a query without parameters. */
  lemma NumberHasEmptyQuery(n: int)
    ensures GetAllUrl(Number(n)) == "/exercise?"
  {
  }

  /**
   * getAll: the forEach over the entries, appending to a fresh URLSearchParams.
   * Returns the path of the GET request it issues.
   */
  method GetAll(arg: QueryArg) returns (url: string)
    ensures url == GetAllUrl(arg)
  {
    var queryParams := new SearchParams();
    var es := Entries(arg);
    var i := 0;
    while i < |es|
      invariant 0 <= i <= |es|
      invariant queryParams.list == KeptPairs(es[..i])
    {
      var key, value := es[i].0, es[i].1;
      KeptPairsStep(es, i);
      if value != None && value != Some(JNull) {
        queryParams.Append(key, ToJsString(value.value));
      }
      i := i + 1;
    }
    assert es[..|es|] == es;
    var query := queryParams.ToString();
    url := ExercisePath + "?" + query;
  }

  /** One more entry adds at most its own pair. */
  lemma KeptPairsStep(es: seq<(string, Option<Json>)>, i: nat)
    requires i < |es|
    ensures KeptPairs(es[..i + 1]) == KeptPairs(es[..i]) + (if Kept(es[i].1) then [PairOf(es[i])] else [])
  {
    assert es[..i + 1][..i] == es[..i];
  }
}
