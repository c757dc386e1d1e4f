/** The request and response surface the views see, reduced to values. */
module Http {
  import opened Wrappers

  /** A Django `QueryDict` (`request.GET`, `request.POST`, `parse_qs`' result): every key holds
      the non-empty list of its values, in the order they were sent. */
  type QueryDict = m: map<string, seq<string>> | NonEmptyValues(m)
    witness map[]

  predicate NonEmptyValues(m: map<string, seq<string>>) {
    forall k :: k in m ==> |m[k]| > 0
  }

  /** `q.get(key)`: the last value sent for `key`, `None` when the key is absent. */
  function Get(q: QueryDict, key: string): (r: Option<string>)
    ensures r.Some? <==> key in q
    ensures r.Some? ==> r.value in q[key]
    ensures r.Some? ==> r.value == q[key][|q[key]| - 1]
  {
    if key in q then Some(q[key][|q[key]| - 1]) else None
  }

  /** `q.getlist(key)`: every value sent for `key`, the empty list when the key is absent. */
  function GetList(q: QueryDict, key: string): (r: seq<string>)
    ensures key in q ==> r == q[key]
    ensures |r| > 0 <==> key in q
    ensures |r| > 0 ==> Get(q, key) == Some(r[|r| - 1])
  {
    if key in q then q[key] else []
  }

  /** A row of the model's store; `pk` is the primary key as it appears in a URL. */
  datatype Record = Record(pk: string, fields: map<string, string>)

  datatype Request = Request(path: string, query: QueryDict, form: QueryDict)

  /** What a view returns: a redirect to a path with an optional query, or any other page. */
  datatype Response = Redirect(path: string, query: QueryDict) | Page(status: int, body: string)

  /** What an action handler returns: an object that has `status_code` (a response) or not. */
  datatype Value = Reply(response: Response) | Plain(repr: string)
}
