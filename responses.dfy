/**
 * How every service reads the answer of the record API. The API client itself
 * is not modelled: what it answered (or that it threw) is an input value.
 */
module Responses {
  import opened Wrappers
  import opened Seqs

  /** One entry of `response.results` after a create, update or delete call. */
  datatype ResultItem<R> = ResultItem(success: bool, data: R)

  /** A create/update/delete call: an exception was caught, or a response arrived. */
  datatype MutationResponse<R> =
    | MutationThrew
    | Mutation(success: bool, results: Option<seq<ResultItem<R>>>)

  /** A fetch call: an exception was caught, or a response arrived. */
  datatype FetchResponse<R> =
    | FetchThrew
    | Fetched(success: bool, data: Option<seq<R>>)

  predicate Succeeded<R>(item: ResultItem<R>) { item.success }

  /**
   * The record a create or update hands back: the data of the first successful
   * result, or nothing when the call threw, reported failure, carried no
   * results, or no result succeeded.
   */
  function FirstSuccess<R(!new)>(resp: MutationResponse<R>): (r: Option<R>)
    ensures r.Some? <==>
      resp.Mutation? && resp.success && resp.results.Some?
      && exists i :: 0 <= i < |resp.results.value| && resp.results.value[i].success
    ensures r.Some? ==>
      exists i :: 0 <= i < |resp.results.value| && resp.results.value[i].success
        && r.value == resp.results.value[i].data
        && forall j :: 0 <= j < i ==> !resp.results.value[j].success
  {
    if resp.MutationThrew? || !resp.success || resp.results.None? then None
    else
      var successful := Filter(resp.results.value, Succeeded);
      if |successful| > 0 then
        FilterFirst(resp.results.value, Succeeded);
        Some(successful[0].data)
      else
        FilterEmpty(resp.results.value, Succeeded);
        None
  }

  /**
   * The answer of a delete: true exactly when the response reported success,
   * carried results, and exactly one of them succeeded.
   */
  function DeleteSucceeded<R(!new)>(resp: MutationResponse<R>): (ok: bool)
    ensures ok <==>
      && resp.Mutation? && resp.success && resp.results.Some?
      && exists i :: OnlyIndex(resp.results.value, Succeeded, i)
  {
    if resp.MutationThrew? || !resp.success || resp.results.None? then false
    else
      CountIsOne(resp.results.value, Succeeded);
      |Filter(resp.results.value, Succeeded)| == 1
  }

  /**
   * The rows a fetch hands back, each passed through the service's read mapping:
   * `[]` when the call threw, reported failure, or carried no data.
   */
  function FetchedRows<R, U>(resp: FetchResponse<R>, read: R -> U): (rows: seq<U>)
    ensures resp.Fetched? && resp.success && resp.data.Some? ==>
      |rows| == |resp.data.value| && forall i :: 0 <= i < |rows| ==> rows[i] == read(resp.data.value[i])
    ensures !(resp.Fetched? && resp.success && resp.data.Some?) ==> rows == []
  {
    if resp.FetchThrew? || !resp.success then []
    else if resp.data.None? || |resp.data.value| == 0 then []
    else
      var data := resp.data.value;
      seq(|data|, i requires 0 <= i < |data| => read(data[i]))
  }
}
