/**
 * The exercise store (src/stores/exercise.ts): a list, a current exercise,
 * a total, a loading flag and an error message, updated around awaited API
 * calls.  Each awaited call is a parameter holding what it settles to.
 */
module ExerciseStore {
  import opened Wrappers
  import opened Js
  import opened Http
  import opened ExerciseApi

  const LoadError: string := "Ошибка при загрузке упражнения"
  const CreateError: string := "Ошибка при создании упражнения"
  const UpdateError: string := "Ошибка при обновлении упражнения"
  const DeleteError: string := "Ошибка при удалении упражнения"

  /** The list and the total as fetchExercises sets them. */
  datatype Listing = Listing(exercises: Json, total: Json)

  /**
   * The normalisation of a list response body: `body.data || body` for the
   * list and `body.pagination?.totalElements || body.total || 0` for the
   * total.  Reading `.data` of a null body throws, which the store catches.
   */
  function Normalise(body: Json): (r: Result<Listing, TypeError>)
    ensures r.Err? <==> body == JNull
    ensures r.Ok? ==> r.value.exercises == body || (body.JObj? && Truthy(r.value.exercises))
    ensures r.Ok? ==> Truthy(r.value.total) || r.value.total == JNum(0)
    ensures r.Ok? && !body.JObj? ==> r.value == Listing(body, JNum(0))
    ensures r.Ok? && body.JObj? ==>
              var data := Field(body.fields, "data");
              && (TruthyOpt(data) ==> r.value.exercises == data.value)
              && (!TruthyOpt(data) ==> r.value.exercises == body)
    ensures r.Ok? && body.JObj? ==>
              var totalElements := OptProp(Field(body.fields, "pagination"), "totalElements");
              var total := Field(body.fields, "total");
              && (TruthyOpt(totalElements) ==> r.value.total == totalElements.value)
              && (!TruthyOpt(totalElements) && TruthyOpt(total) ==> r.value.total == total.value)
              && (!TruthyOpt(totalElements) && !TruthyOpt(total) ==> r.value.total == JNum(0))
  {
    match Prop(body, "data")
    case Err(e) => Err(e)
    case Ok(data) =>
      var exercises := Or(data, Some(body)).value;
      var pagination := Prop(body, "pagination").value;
      var total := Or(Or(OptProp(pagination, "totalElements"), Prop(body, "total").value), Some(JNum(0))).value;
      Ok(Listing(exercises, total))
  }

  /** A body of the documented shape `{data: [...], pagination: {totalElements: n, ...}}`. */
  function PageBody(items: seq<Json>, totalElements: int, perPage: int, page: int): (r: Json) {
    JObj([("data", JArr(items)),
          ("pagination", JObj([("totalElements", JNum(totalElements)), ("perPage", JNum(perPage)), ("page", JNum(page))]))])
  }

  /** For the documented shape the list is `data` and the total is `totalElements` (0 giving 0). */
  lemma DocumentedShape(items: seq<Json>, totalElements: int, perPage: int, page: int)
    ensures Normalise(PageBody(items, totalElements, perPage, page)) == Ok(Listing(JArr(items), JNum(totalElements)))
  {
    var pagination := JObj([("totalElements", JNum(totalElements)), ("perPage", JNum(perPage)), ("page", JNum(page))]);
    var body := PageBody(items, totalElements, perPage, page);
    FieldAt(body.fields, "data", 0);
    FieldAt(body.fields, "pagination", 1);
    FieldAt(pagination.fields, "totalElements", 0);
  }

  /** A `totalElements` of 0 is falsy, so a `total` beside it wins. */
  lemma ZeroTotalElementsFallsThrough(items: seq<Json>, total: int)
    requires total != 0
    ensures Normalise(JObj([("data", JArr(items)),
                            ("pagination", JObj([("totalElements", JNum(0))])),
                            ("total", JNum(total))]))
            == Ok(Listing(JArr(items), JNum(total)))
  {
    var pagination := JObj([("totalElements", JNum(0))]);
    var body := JObj([("data", JArr(items)), ("pagination", pagination), ("total", JNum(total))]);
    FieldAt(body.fields, "data", 0);
    FieldAt(body.fields, "pagination", 1);
    FieldAt(body.fields, "total", 2);
  }

  /** A bare array as the body is itself the list, with total 0. */
  lemma BareArrayBody(items: seq<Json>)
    ensures Normalise(JArr(items)) == Ok(Listing(JArr(items), JNum(0)))
  {
  }

  /** What fetchExercises leaves in the list and total: the normalised body, or the old ones after any failure. */
  function AfterFetch(before: Listing, response: Result<Json, Failure>): (after: Listing)
    ensures response.Err? ==> after == before
    ensures response.Ok? && response.value == JNull ==> after == before
    ensures response.Ok? && response.value != JNull ==> Normalise(response.value) == Ok(after)
  {
    if response.Ok? && Normalise(response.value).Ok? then Normalise(response.value).value else before
  }

  class Store {
    var exercises: Json
    var currentExercise: Json
    var total: Json
    var page: int
    var limit: int
    var loading: bool
    var error: Option<string>

    function Listed(): (r: Listing)
      reads this
    {
      Listing(exercises, total)
    }

    constructor ()
      ensures exercises == JArr([]) && currentExercise == JNull && total == JNum(0)
      ensures page == 1 && limit == 10 && !loading && error.None?
    {
      exercises := JArr([]);
      currentExercise := JNull;
      total := JNum(0);
      page := 1;
      limit := 10;
      loading := false;
      error := None;
    }

    /**
     * `fetchExercises`: requests the list (returning the path it requested),
     * normalises the body when the call succeeds, swallows every failure, and
     * always ends with `loading` false.  `error` is never touched.
     */
    method FetchExercises(params: QueryArg, response: Result<Json, Failure>) returns (url: string)
      modifies this
      ensures url == GetAllUrl(params)
      ensures Listed() == AfterFetch(old(Listed()), response)
      ensures !loading
      ensures error == old(error) && currentExercise == old(currentExercise)
      ensures page == old(page) && limit == old(limit)
    {
      loading := true;
      url := GetAll(params);
      if response.Ok? {
        var body := response.value;
        var data := Prop(body, "data");
        if data.Ok? {
          exercises := Or(data.value, Some(body)).value;
          var pagination := Prop(body, "pagination").value;
          total := Or(Or(OptProp(pagination, "totalElements"), Prop(body, "total").value), Some(JNum(0))).value;
        }
        // a TypeError from reading `.data` of null is caught and only logged
      }
      loading := false;
    }

    /**
     * `fetchExerciseById`: clears the error, then stores the body as the
     * current exercise, or on failure sets the load message and keeps the
     * current exercise; `loading` ends false.
     */
    method FetchExerciseById(id: int, response: Result<Json, Failure>)
      modifies this
      ensures !loading
      ensures response.Ok? ==> currentExercise == response.value && error.None?
      ensures response.Err? ==> currentExercise == old(currentExercise) && error == Some(LoadError)
      ensures Listed() == old(Listed()) && page == old(page) && limit == old(limit)
    {
      loading := true;
      error := None;
      if response.Ok? {
        currentExercise := response.value;
      } else {
        error := Some(LoadError);
      }
      loading := false;
    }

    /**
     * The shape shared by create, update and delete: clear the error, await the
     * mutation, then refetch page `page` (a number, so with no query
     * parameters); on a failed mutation set `message` and do not refetch.
     * Returns the path of the refetch, if one was made.
     */
    method Mutate(mutation: Result<Json, Failure>, message: string, refetched: Result<Json, Failure>)
      returns (refetch: Option<string>)
      modifies this
      ensures !loading
      ensures mutation.Err? ==> error == Some(message) && refetch.None? && Listed() == old(Listed())
      ensures mutation.Ok? ==> error.None? && refetch == Some("/exercise?")
                               && Listed() == AfterFetch(old(Listed()), refetched)
      ensures currentExercise == old(currentExercise) && page == old(page) && limit == old(limit)
    {
      loading := true;
      error := None;
      if mutation.Ok? {
        var url := FetchExercises(Number(page), refetched);
        NumberHasEmptyQuery(page);
        refetch := Some(url);
      } else {
        error := Some(message);
        refetch := None;
      }
      loading := false;
    }

    /** `createExercise`: posts `data`; `created` is what the post settles to. */
    method CreateExercise(data: Json, created: Result<Json, Failure>, refetched: Result<Json, Failure>)
      returns (refetch: Option<string>)
      modifies this
      ensures !loading
      ensures created.Err? ==> error == Some(CreateError) && refetch.None? && Listed() == old(Listed())
      ensures created.Ok? ==> error.None? && refetch == Some("/exercise?")
                              && Listed() == AfterFetch(old(Listed()), refetched)
      ensures currentExercise == old(currentExercise) && page == old(page) && limit == old(limit)
    {
      refetch := Mutate(created, CreateError, refetched);
    }

    /** `updateExercise`: patches exercise `id`; `updated` is what the patch settles to. */
    method UpdateExercise(id: int, data: Json, updated: Result<Json, Failure>, refetched: Result<Json, Failure>)
      returns (refetch: Option<string>)
      modifies this
      ensures !loading
      ensures updated.Err? ==> error == Some(UpdateError) && refetch.None? && Listed() == old(Listed())
      ensures updated.Ok? ==> error.None? && refetch == Some("/exercise?")
                              && Listed() == AfterFetch(old(Listed()), refetched)
      ensures currentExercise == old(currentExercise) && page == old(page) && limit == old(limit)
    {
      refetch := Mutate(updated, UpdateError, refetched);
    }

    /** `deleteExercise`: deletes exercise `id`; `deleted` is what the delete settles to. */
    method DeleteExercise(id: int, deleted: Result<Json, Failure>, refetched: Result<Json, Failure>)
      returns (refetch: Option<string>)
      modifies this
      ensures !loading
      ensures deleted.Err? ==> error == Some(DeleteError) && refetch.None? && Listed() == old(Listed())
      ensures deleted.Ok? ==> error.None? && refetch == Some("/exercise?")
                              && Listed() == AfterFetch(old(Listed()), refetched)
      ensures currentExercise == old(currentExercise) && page == old(page) && limit == old(limit)
    {
      refetch := Mutate(deleted, DeleteError, refetched);
    }
  }
}
