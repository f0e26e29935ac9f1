/** The two admin filters: `filter_views_edit`, which adds the "Recurring" and
    "Recurring (master)" links to the events list screen, and
    `filter_query_vars`, which makes WordPress accept the two clause request
    variables. Link markup is not rendered: a link is the data it is built
    from. */
module Views {
  import opened PhpValues
  import opened Clauses
  import opened Counts
  import opened PreGetPosts

  /** An entry of the views map: markup some other code produced, or one of the
      links this extension builds (caption, the URL's `post_status`, `post_type`
      and `tribe-where`, and the count shown beside it). */
  datatype View =
    | Markup(html: string)
    | FilterLink(caption: string, postStatus: string, postType: string, tribeWhere: Param, count: Value)

  const AllKey := "tribe-recurring-all"
  const FirstKey := "tribe-recurring-first"

  /** The `tribe-where` value of each link. */
  const AllWhere := Scalar("in_series,true")
  const FirstWhere := List(["in_series,true", "parent,0"])

  /** The views map and the cache after the counts were read. */
  datatype Filtered = Filtered(views: map<string, View>, cache: Cache)

  /** Adds (or replaces) the two recurring-event links, with the counts from
      `GetCounts` in order, and leaves every other entry as it was. */
  function FilterViewsEdit(views: map<string, View>, cache: Cache, found: Found, setResult: SetResult)
    : (r: Filtered)
    ensures r.views.Keys == views.Keys + {AllKey, FirstKey}
    ensures forall k :: k in views && k != AllKey && k != FirstKey ==> r.views[k] == views[k]
    ensures r.views[AllKey].FilterLink? && r.views[AllKey].tribeWhere == AllWhere
    ensures r.views[FirstKey].FilterLink? && r.views[FirstKey].tribeWhere == FirstWhere
    ensures r.views[AllKey].postStatus == "any" && r.views[FirstKey].postStatus == "any"
    ensures r.views[AllKey].postType == "tribe_events" && r.views[FirstKey].postType == "tribe_events"
    ensures r.views[AllKey].count == GetCounts(cache, found, setResult).values[0]
    ensures r.views[FirstKey].count == GetCounts(cache, found, setResult).values[1]
    ensures r.cache == GetCounts(cache, found, setResult).cache
  {
    var counts := GetCounts(cache, found, setResult);
    var all := FilterLink("Recurring", "any", "tribe_events", AllWhere, counts.values[0]);
    var first := FilterLink("Recurring (master)", "any", "tribe_events", FirstWhere, counts.values[1]);
    Filtered(views[AllKey := all][FirstKey := first], counts.cache)
  }

  /** The query a click on a link produces: only `tribe-where` and
      `post_status` come from the URL, so `tribe-orm` is unset. */
  function LinkQuery(link: View): Query
    requires link.FilterLink?
  {
    Query(Unset, link.tribeWhere, Scalar(link.postStatus), [])
  }

  /** A URL clause value is cast but never typed as an integer. */
  lemma ParseParentZero()
    ensures ParseClause("parent,0") == Clause("parent", Str("0"))
  {
    assert "parent,0" == "parent" + "," + "0";
    ParseKeyValue("parent", "0");
  }

  /** Folding two clauses is the first clause's entry overwritten by the
      second's. */
  lemma BuildArgsOfTwo(a: string, b: string)
    ensures BuildArgs([a, b]) == map[Key(a) := ParseClause(a).value][Key(b) := ParseClause(b).value]
  {
    assert [a][..0] == [];
    assert BuildArgs([a]) == map[Key(a) := ParseClause(a).value];
    assert [a, b][..1] == [a];
  }

  /** The clauses of the "Recurring" link, after the `""` clause of the unset
      `tribe-orm`. */
  lemma {:induction false} AllLinkClauses(texts: seq<string>)
    requires texts == Merge(Unset, AllWhere)
    ensures BuildArgs(texts) == map["" := Null, "in_series" := Bool(true)]
  {
    assert texts == [texts[0], texts[1]] && texts[0] == "" && texts[1] == "in_series,true" by {
      assert Items(Unset) == [""];
      assert Items(AllWhere) == ["in_series,true"];
    }
    assert ParseClause(texts[1]) == Clause("in_series", Bool(true)) by {
      assert texts[1] == "in_series" + "," + "true";
      ParseKeyValue("in_series", "true");
    }
    assert ParseClause(texts[0]) == Clause("", Null);
    BuildArgsOfTwo(texts[0], texts[1]);
  }

  /** The clauses of the "Recurring (master)" link. */
  lemma {:induction false} FirstLinkClauses(texts: seq<string>)
    requires texts == Merge(Unset, FirstWhere)
    ensures BuildArgs(texts) == map["" := Null, "in_series" := Bool(true), "parent" := Str("0")]
  {
    assert texts == ["", "in_series,true", "parent,0"];
    assert texts[..2] == Merge(Unset, AllWhere);
    AllLinkClauses(texts[..2]);
    ParseParentZero();
  }

  /** The handler's lookup arguments for a click on the "Recurring" link. */
  lemma AllLinkLookupArgs(q: Query, texts: seq<string>)
    requires texts == Merge(q.tribeOrm, q.tribeWhere)
    requires BuildArgs(texts) == map["" := Null, "in_series" := Bool(true)]
    requires q.postStatus == Scalar("any")
    ensures LookupArgs(q) == CountArgs["" := Null]
  {
    var m := BuildArgs(texts);
    assert LookupArgs(q) == m["status" := Str("any")] by {
      assert Status(q.postStatus) == Str("any");
    }
    assert m["status" := Str("any")] == CountArgs["" := Null];
  }

  /** The handler's lookup arguments for a click on the "Recurring (master)" link. */
  lemma FirstLinkLookupArgs(q: Query, texts: seq<string>)
    requires texts == Merge(q.tribeOrm, q.tribeWhere)
    requires BuildArgs(texts) == map["" := Null, "in_series" := Bool(true), "parent" := Str("0")]
    requires q.postStatus == Scalar("any")
    ensures LookupArgs(q) == CountArgs["parent" := Str("0")]["" := Null]
  {
    var m := BuildArgs(texts);
    assert LookupArgs(q) == m["status" := Str("any")] by {
      assert Status(q.postStatus) == Str("any");
    }
    FirstArgsWithStatus(m);
  }

  /** The master link's clause map with the handler's `status` added. */
  lemma FirstArgsWithStatus(m: map<string, Value>)
    requires m == map["" := Null, "in_series" := Bool(true), "parent" := Str("0")]
    ensures m["status" := Str("any")] == CountArgs["parent" := Str("0")]["" := Null]
  {
  }

  /** Following a link makes the handler look up the same events the link's
      count counts: apart from the `""` key that the unset `tribe-orm`
      contributes, the lookup arguments are the counting query's clauses, with
      `parent` the string "0" where the count uses the integer 0. */
  lemma LinksMatchCountedQueries(views: map<string, View>, cache: Cache, found: Found, setResult: SetResult)
    ensures var r := FilterViewsEdit(views, cache, found, setResult);
            && LookupArgs(LinkQuery(r.views[AllKey])) == CountArgs["" := Null]
            && LookupArgs(LinkQuery(r.views[FirstKey])) == CountArgs["parent" := Str("0")]["" := Null]
  {
    var r := FilterViewsEdit(views, cache, found, setResult);
    var all := LinkQuery(r.views[AllKey]);
    var first := LinkQuery(r.views[FirstKey]);
    assert all.tribeOrm == Unset && all.tribeWhere == AllWhere && all.postStatus == Scalar("any");
    assert first.tribeOrm == Unset && first.tribeWhere == FirstWhere && first.postStatus == Scalar("any");
    AllLinkClauses(Merge(all.tribeOrm, all.tribeWhere));
    AllLinkLookupArgs(all, Merge(all.tribeOrm, all.tribeWhere));
    FirstLinkClauses(Merge(first.tribeOrm, first.tribeWhere));
    FirstLinkLookupArgs(first, Merge(first.tribeOrm, first.tribeWhere));
  }

  /** `filter_query_vars`: the public query variables with `tribe-orm` and
      `tribe-where` appended, in that order. */
  function FilterQueryVars(publicQueryVars: seq<string>): (r: seq<string>)
    ensures |r| == |publicQueryVars| + 2
    ensures r[..|publicQueryVars|] == publicQueryVars
    ensures r[|publicQueryVars|] == "tribe-orm" && r[|publicQueryVars| + 1] == "tribe-where"
  {
    publicQueryVars + ["tribe-orm", "tribe-where"]
  }

  /** WordPress copies a request variable into the query only when it is
      public; otherwise the query sees it unset. */
  function RequestVar(publicQueryVars: seq<string>, name: string, sent: Param): Param {
    if name in publicQueryVars then sent else Unset
  }

  /** Once filtered, both clause variables reach the query as sent, and every
      variable that was public before still is. */
  lemma FilterQueryVarsExposesClauses(publicQueryVars: seq<string>, name: string, sent: Param)
    ensures RequestVar(FilterQueryVars(publicQueryVars), "tribe-orm", sent) == sent
    ensures RequestVar(FilterQueryVars(publicQueryVars), "tribe-where", sent) == sent
    ensures name in publicQueryVars ==> RequestVar(FilterQueryVars(publicQueryVars), name, sent) == sent
  {
    var r := FilterQueryVars(publicQueryVars);
    assert r[|publicQueryVars|] == "tribe-orm";
    assert r[|publicQueryVars| + 1] == "tribe-where";
    if name in publicQueryVars {
      var i :| 0 <= i < |publicQueryVars| && publicQueryVars[i] == name;
      assert r[i] == name;
    }
  }
}
