/** The VR360 link service: the query it sends for a listing, and the error every one of
    its requests turns a failed call into. */
module Vr360Service {
  import opened JsStrings
  import opened Seqs

  /** The body of an error response. `detail` and `message` are "" when absent; `errors`
      is the validation object as its entries, in insertion order, or `None` when absent. */
  datatype ApiErrorBody = ApiErrorBody(detail: string, message: string, errors: Option<seq<(string, seq<string>)>>)

  datatype Response = Response(status: int, data: ApiErrorBody)

  /** What `handleAPIError` throws: a new `Error` with a message, or the caught error itself
      when the call never got a response. It has no other outcome. */
  datatype Thrown = NewError(message: string) | Rethrown

  const ValidationPrefix: string := "Validation Error: "
  const FallbackMessage: string := "API request failed"

  /** One validation entry, "field: m1, m2". */
  function Entry(e: (string, seq<string>)): (r: string)
    ensures StartsWith(r, e.0 + ": ")
  {
    e.0 + ": " + Join(e.1, ", ")
  }

  /** The message thrown for a 422 response with validation errors. */
  function ValidationMessage(errors: seq<(string, seq<string>)>): (r: string)
    ensures StartsWith(r, ValidationPrefix)
    ensures errors == [] ==> r == ValidationPrefix
  {
    ValidationPrefix + Join(Map(errors, Entry), "; ")
  }

  /** `handleAPIError(error)`, with `error.response` as `response`. */
  function HandleApiError(response: Option<Response>): (r: Thrown)
    ensures response.None? <==> r.Rethrown?
    ensures r.NewError? ==> r.message != ""
    ensures response.Some? && response.value.status == 422 && response.value.data.errors.Some?
            ==> r == NewError(ValidationMessage(response.value.data.errors.value))
    ensures response.Some? && !(response.value.status == 422 && response.value.data.errors.Some?)
            ==> r.NewError? && (r.message == response.value.data.detail
                                || r.message == response.value.data.message
                                || r.message == FallbackMessage)
  {
    match response
    case None => Rethrown
    case Some(resp) =>
      if resp.status == 422 && resp.data.errors.Some? then
        NewError(ValidationMessage(resp.data.errors.value))
      else
        NewError(Or(resp.data.detail, Or(resp.data.message, FallbackMessage)))
  }

  /** Outside the validation case the message prefers `detail`, then `message`. */
  lemma ErrorMessagePreference(resp: Response)
    requires !(resp.status == 422 && resp.data.errors.Some?)
    ensures resp.data.detail != "" ==> HandleApiError(Some(resp)) == NewError(resp.data.detail)
    ensures resp.data.detail == "" && resp.data.message != ""
            ==> HandleApiError(Some(resp)) == NewError(resp.data.message)
    ensures resp.data.detail == "" && resp.data.message == ""
            ==> HandleApiError(Some(resp)) == NewError(FallbackMessage)
  {
  }

  /** The validation errors are only reported for status 422: any other status reports
      `detail`, `message` or the fallback even when `errors` is present. */
  lemma ValidationOnlyFor422(resp: Response)
    requires resp.status != 422
    ensures HandleApiError(Some(resp)).NewError?
    ensures !StartsWith(resp.data.detail, ValidationPrefix) && !StartsWith(resp.data.message, ValidationPrefix)
            ==> !StartsWith(HandleApiError(Some(resp)).message, ValidationPrefix)
  {
    assert FallbackMessage[0] != ValidationPrefix[0];
  }

  /** An entry whose field and messages hold no ':' nor ';' and whose messages hold no ','. */
  predicate Plain(e: (string, seq<string>)) {
    |e.1| >= 1 && Excludes(e.0, ':') && Excludes(e.0, ';')
    && forall k :: 0 <= k < |e.1| ==> Excludes(e.1[k], ':') && Excludes(e.1[k], ';') && Excludes(e.1[k], ',')
  }

  /** Reads one "field: m1, m2" entry back. */
  function ParseEntry(s: string): (r: (string, seq<string>))
    ensures |r.1| >= 1
  {
    var parts := Split(s, ": ");
    (parts[0], Split(Join(parts[1..], ": "), ", "))
  }

  /** Reads the entries back from a validation message. */
  function ParseValidation(message: string): (r: seq<(string, seq<string>)>)
    requires StartsWith(message, ValidationPrefix)
  {
    Map(Split(message[|ValidationPrefix|..], "; "), ParseEntry)
  }

  lemma {:induction false} JoinExcludes(parts: seq<string>, sep: string, c: char)
    requires Excludes(sep, c) && forall k :: 0 <= k < |parts| ==> Excludes(parts[k], c)
    ensures Excludes(Join(parts, sep), c)
    decreases |parts|
  {
    if |parts| > 1 {
      JoinExcludes(parts[1..], sep, c);
    }
  }

  lemma ParseEntryRoundTrip(e: (string, seq<string>))
    requires Plain(e)
    ensures ParseEntry(Entry(e)) == e
    ensures Excludes(Entry(e), ';')
  {
    var msgs := Join(e.1, ", ");
    JoinExcludes(e.1, ", ", ':');
    JoinExcludes(e.1, ", ", ';');
    ExcludesClear(e.0, ": ");
    ExcludesClear(msgs, ": ");
    assert Entry(e) == e.0 + ": " + msgs;
    SplitAfterPiece(e.0, ": ", msgs);
    SplitWithoutSeparator(msgs, ": ");
    assert Split(Entry(e), ": ") == [e.0, msgs];
    forall k | 0 <= k < |e.1| ensures Clear(e.1[k], ", ") {
      ExcludesClear(e.1[k], ", ");
    }
    SplitJoin(e.1, ", ");
    assert Excludes(": ", ';');
    JoinExcludes([e.0, msgs], ": ", ';');
    assert Join([e.0, msgs], ": ") == Entry(e);
  }

  /** The validation message lists every field with its messages: for plain entries it
      reads back as exactly the errors it was made from, in order. */
  lemma ValidationMessageRoundTrip(errors: seq<(string, seq<string>)>)
    requires |errors| >= 1 && forall i :: 0 <= i < |errors| ==> Plain(errors[i])
    ensures ParseValidation(ValidationMessage(errors)) == errors
  {
    var entries := Map(errors, Entry);
    forall i | 0 <= i < |entries| ensures Clear(entries[i], "; ") && ParseEntry(entries[i]) == errors[i] {
      ParseEntryRoundTrip(errors[i]);
      ExcludesClear(entries[i], "; ");
    }
    SplitJoin(entries, "; ");
    var m := ValidationMessage(errors);
    assert m[|ValidationPrefix|..] == Join(entries, "; ");
  }

  /** The caller's listing parameters; `None` where a parameter is not given. The
      `offset` parameter is accepted but never sent. */
  datatype ListParams = ListParams(
    category: Option<string>, roomId: Option<string>, facilityId: Option<string>,
    isActive: Option<bool>, page: Option<int>, limit: Option<int>, offset: Option<int>)

  /** The query parameters of `getVR360Links`. */
  datatype ListQuery = ListQuery(
    category: Option<string>, roomId: Option<string>, facilityId: Option<string>,
    isActive: Option<bool>, page: int, limit: int)

  /** The query sent for `getVR360Links(params)`: the filters as given, page 1 and limit
      20 unless a non-zero value is given. */
  function VR360Query(params: Option<ListParams>): (r: ListQuery)
    ensures r.page != 0 && r.limit != 0
    ensures params.None? ==> r == ListQuery(None, None, None, None, 1, 20)
    ensures params.Some? ==> r.category == params.value.category && r.roomId == params.value.roomId
                             && r.facilityId == params.value.facilityId && r.isActive == params.value.isActive
    ensures params.Some? ==> r.page == OrElse(params.value.page, 1) && r.limit == OrElse(params.value.limit, 20)
  {
    match params
    case None => ListQuery(None, None, None, None, 1, 20)
    case Some(p) => ListQuery(p.category, p.roomId, p.facilityId, p.isActive, OrElse(p.page, 1), OrElse(p.limit, 20))
  }

  /** Sending the query's own values back as parameters yields the same query: the
      defaults are already what the service would choose. */
  lemma VR360QueryStable(params: Option<ListParams>, offset: Option<int>)
    ensures var q := VR360Query(params);
            VR360Query(Some(ListParams(q.category, q.roomId, q.facilityId, q.isActive, Some(q.page), Some(q.limit), offset)))
            == q
  {
  }

  /** The offset never reaches the query. */
  lemma OffsetIgnored(p: ListParams, offset: Option<int>)
    ensures VR360Query(Some(p.(offset := offset))) == VR360Query(Some(p))
  {
  }
}
