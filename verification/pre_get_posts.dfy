/** `on_pre_get_posts`: translate the `tribe-orm` / `tribe-where` request
    variables into an events lookup and narrow the query's `post__in` to the ids
    it returns. The events ORM is an abstract `Lookup` parameter. */
module PreGetPosts {
  import opened PhpValues
  import opened Clauses
  import opened PostIn
  import opened Hooks

  /** The query variables the handler reads and writes. An unset or empty
      `post__in` is the empty sequence. */
  datatype Query = Query(tribeOrm: Param, tribeWhere: Param, postStatus: Param, postIn: seq<int>)

  /** What one run of the handler leaves behind: the query, the argument map
      it passed to the lookup (`None` when it returned early), whether it
      hooked the void-query filter, and whether the handler is registered. */
  datatype Outcome = Outcome(
    query: Query,
    lookupArgs: Option<map<string, Value>>,
    voidFilter: bool,
    registered: bool)

  /** `tribe_events()->by_args( $args )->per_page( -1 )->get_ids()`, given
      whether the `pre_get_posts` handler is hooked while it runs. */
  type Lookup = (map<string, Value>, bool) -> seq<nat>

  /** `$wp_query->get( 'post_status', 'any' ) ?: 'any'`. */
  function Status(postStatus: Param): (v: Value)
    ensures Empty(postStatus) ==> v == Str("any")
    ensures postStatus.Scalar? && !Empty(postStatus) ==> v == Str(postStatus.s)
    ensures postStatus.List? && !Empty(postStatus) ==> v == StrList(postStatus.items)
  {
    if Empty(postStatus) then Str("any")
    else match postStatus
      case Scalar(s) => Str(s)
      case List(items) => StrList(items)
      case Unset => Str("any")
  }

  /** The argument map handed to the lookup: the merged clauses, then `status`. */
  function LookupArgs(q: Query): (args: map<string, Value>)
    ensures args.Keys == BuildArgs(Merge(q.tribeOrm, q.tribeWhere)).Keys + {"status"}
    ensures args["status"] == Status(q.postStatus)
    ensures forall k :: k in BuildArgs(Merge(q.tribeOrm, q.tribeWhere)) && k != "status" ==>
              args[k] == BuildArgs(Merge(q.tribeOrm, q.tribeWhere))[k]
  {
    BuildArgs(Merge(q.tribeOrm, q.tribeWhere))["status" := Status(q.postStatus)]
  }

  /** The lookup sees every key the clauses name plus `status`; a clause key
      other than `status` keeps the value of its last clause, and `status` is
      the query's post status, or "any" when that is empty, whatever the
      clauses say. */
  lemma LookupArgsContents(q: Query, k: string)
    ensures LookupArgs(q).Keys == KeysOf(Merge(q.tribeOrm, q.tribeWhere)) + {"status"}
    ensures k != "status" && k in BuildArgs(Merge(q.tribeOrm, q.tribeWhere)) ==>
              LookupArgs(q)[k] == BuildArgs(Merge(q.tribeOrm, q.tribeWhere))[k]
    ensures Empty(q.postStatus) ==> LookupArgs(q)["status"] == Str("any")
    ensures q.postStatus.Scalar? && !Empty(q.postStatus) ==>
              LookupArgs(q)["status"] == Str(q.postStatus.s)
    ensures q.postStatus.List? && !Empty(q.postStatus) ==>
              LookupArgs(q)["status"] == StrList(q.postStatus.items)
  {
    BuildArgsKeys(Merge(q.tribeOrm, q.tribeWhere));
  }

  /** An unset clause variable is still cast to `[false]`, which parses as a
      clause with key `""`: when only the other variable is given, the lookup
      arguments carry a `""` entry. */
  lemma UnsetVariableAddsEmptyKey(q: Query)
    requires q.tribeOrm == Unset || q.tribeWhere == Unset
    ensures "" in LookupArgs(q)
  {
    var texts := Merge(q.tribeOrm, q.tribeWhere);
    BuildArgsKeys(texts);
    assert ParseClause("").key == "";
    if q.tribeOrm == Unset {
      assert texts[0] == "";
    } else {
      assert texts[|texts| - 1] == "";
    }
  }

  /** The handler. With neither request variable set it does nothing. Otherwise
      it runs the lookup with itself unhooked, reconciles the ids with
      `post__in`, and either sets `post__in` to the non-empty result or, when
      the result is empty, leaves `post__in` alone and hooks the void-query
      filter instead. */
  function OnPreGetPosts(q: Query, registered: bool, lookup: Lookup): (r: Outcome)
    ensures r.lookupArgs.None? <==> Empty(q.tribeOrm) && Empty(q.tribeWhere)
    ensures r.lookupArgs.None? ==> r == Outcome(q, None, false, registered)
    ensures r.lookupArgs.Some? ==> r.lookupArgs.value == LookupArgs(q) && r.registered
    ensures r.query.(postIn := q.postIn) == q
    ensures r.voidFilter ==> r.query == q
    ensures r.lookupArgs.Some? ==>
              var ids := lookup(r.lookupArgs.value, false);
              (r.voidFilter <==> |Reconcile(q.postIn, ids)| == 0)
              && (!r.voidFilter ==> r.query.postIn == Reconcile(q.postIn, ids))
  {
    if Empty(q.tribeOrm) && Empty(q.tribeWhere) then Outcome(q, None, false, registered)
    else
      var args := BuildArgs(Merge(q.tribeOrm, q.tribeWhere));
      var withStatus := args["status" := Status(q.postStatus)];
      var call := SuspendingPreGetPosts((hooked: bool) => lookup(withStatus, hooked));
      var postIn := Reconcile(q.postIn, call.value);
      if |postIn| == 0 then Outcome(q, Some(withStatus), true, call.registered)
      else Outcome(q.(postIn := postIn), Some(withStatus), false, call.registered)
  }

  /** `post__in` is never set to an empty list: a changed `post__in` is
      non-empty, and an empty result always hooks the void-query filter. */
  lemma NeverSetsEmptyPostIn(q: Query, registered: bool, lookup: Lookup)
    ensures OnPreGetPosts(q, registered, lookup).query.postIn != q.postIn ==>
              |OnPreGetPosts(q, registered, lookup).query.postIn| > 0
    ensures OnPreGetPosts(q, registered, lookup).lookupArgs.Some?
            && !OnPreGetPosts(q, registered, lookup).voidFilter ==>
              |OnPreGetPosts(q, registered, lookup).query.postIn| > 0
  {
  }

  /** Without an existing `post__in`, the looked-up ids become it unchanged. */
  lemma FillsFromLookup(q: Query, registered: bool, lookup: Lookup)
    requires !(Empty(q.tribeOrm) && Empty(q.tribeWhere))
    requires |q.postIn| == 0
    requires |lookup(LookupArgs(q), false)| > 0
    ensures OnPreGetPosts(q, registered, lookup).query.postIn == lookup(LookupArgs(q), false)
    ensures !OnPreGetPosts(q, registered, lookup).voidFilter
  {
  }

  /** With an existing `post__in`, the new one is the existing ids (through
      `absint`), in their order, that the lookup also returned. */
  lemma IntersectsExisting(q: Query, registered: bool, lookup: Lookup, x: nat)
    requires !(Empty(q.tribeOrm) && Empty(q.tribeWhere))
    requires |q.postIn| > 0
    requires !OnPreGetPosts(q, registered, lookup).voidFilter
    ensures var p: seq<nat> := OnPreGetPosts(q, registered, lookup).query.postIn;
            && (x in p <==> x in Absints(q.postIn) && x in lookup(LookupArgs(q), false))
            && Subsequence(p, Absints(q.postIn))
  {
    var ids := lookup(LookupArgs(q), false);
    ReconcileKeepsOrder(q.postIn, ids, x);
    assert OnPreGetPosts(q, registered, lookup).query.postIn == Reconcile(q.postIn, ids);
  }

  /** On a clause key both variables name, the lookup sees the `tribe-where`
      value. */
  lemma LookupSeesWhereValue(q: Query, k: string)
    requires k != "status"
    requires k in BuildArgs(Items(q.tribeWhere))
    ensures k in LookupArgs(q)
    ensures LookupArgs(q)[k] == BuildArgs(Items(q.tribeWhere))[k]
  {
    WhereWins(q.tribeOrm, q.tribeWhere, k);
  }

  /** Running the handler again on the query it produced, with the same
      lookup, leaves that query as it is. */
  lemma HandlerStable(q: Query, registered: bool, lookup: Lookup)
    ensures var r := OnPreGetPosts(q, registered, lookup);
            OnPreGetPosts(r.query, r.registered, lookup).query == r.query
  {
    var r := OnPreGetPosts(q, registered, lookup);
    if r.lookupArgs.Some? && !r.voidFilter {
      assert LookupArgs(r.query) == LookupArgs(q);
      ReconcileStable(q.postIn, lookup(LookupArgs(q), false));
    }
  }
}
