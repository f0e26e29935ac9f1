# Recurring Event Tools: query translation model

A Dafny model of the logic in the WordPress extension "The Events Calendar Pro
Extension: Recurring Event Tools". The extension adds two links ("Recurring"
and "Recurring (master)") to the admin events list, each with a cached count,
and makes the `tribe-orm` and `tribe-where` request variables usable on that
list. On `pre_get_posts` it reads those variables as `"key,value"` clauses and
turns them into an argument map. It runs an events lookup with that map, and
then narrows the query's `post__in` to the ids the lookup returned.

Modules, one per concern of the single source class:

- `PhpValues`: the PHP values involved, `empty()`, `cast_bool` and `absint`.
- `Explode`: `explode( ',', … )` and its inverse.
- `Clauses`: clause parsing, the merge of the two request variables, and the
  fold into the argument map.
- `PostIn`: reconciling the looked-up ids with an existing `post__in`.
- `Hooks`: `suspending_pre_get_posts`.
- `PreGetPosts`: the `on_pre_get_posts` handler.
- `Counts`: `get_counts` and its cache.
- `Views`: `filter_views_edit` and `filter_query_vars`.

The host platform is passed in as parameters:

- the events ORM lookup (`Lookup`), a function from an argument map and the
  hook flag to a list of ids;
- the ORM count (`Found`), a function from a `where` map to a number;
- the cache, a map from cache id to stored value;
- the value that `$cache->set` returns (`SetResult`), a function of the id and
  the value written;
- the hook registry, reduced to the one flag "is the handler registered".

Behaviour of the code that the model keeps, and that a reader might not
expect:

- An unset request variable is read as `false`, and `(array) false` is
  `[false]`. So an unset `tribe-orm` or `tribe-where` still adds one clause to
  the merged list: `explode` reads `false` as `""`, giving key `""` with a null
  value. See `PreGetPosts.UnsetVariableAddsEmptyKey` and
  `Views.LinksMatchCountedQueries`.
- A clause without a comma is not an error. `list()` leaves the value
  unassigned, which PHP reads as null, and the model gives it the value `Null`.
- The docblock of `get_counts` (tribe-ext-recurring-event-tools.php:238-240)
  says it returns the counts of recurring events. On a cache miss the code
  reports what `$cache->set` returns instead of the count it just computed.
  The model keeps the code's behaviour, and
  `Counts.MissReportsFreshWhenSetEchoes` shows the two agree only when `set`
  returns the value it stored.

## Model

| member | source | states |
|---|---|---|
| PhpValues.Empty | tribe-ext-recurring-event-tools.php:188 | a request variable is empty exactly when it is unset, `""`, `"0"` or the empty list, the values PHP's `empty()` and `?:` treat as false |
| PhpValues.CastBool | tribe-ext-recurring-event-tools.php:104-110 | "true" becomes true, "false" becomes false, and any other value is returned unchanged |
| PhpValues.CastBoolRoundTrip | tribe-ext-recurring-event-tools.php:104-110 | casting a URL string loses nothing: writing the result back as URL text gives the original string |
| PhpValues.CastBoolYieldsBool | tribe-ext-recurring-event-tools.php:104-110 | a string comes out as a boolean exactly when it is "true" or "false", and as true exactly when it is "true" |
| PhpValues.CastBoolIdempotent | tribe-ext-recurring-event-tools.php:104-110 | casting an already cast value changes nothing |
| PhpValues.Absint | tribe-ext-recurring-event-tools.php:216 | `absint` gives a non-negative integer equal to the input or its negation |
| Explode.Split | tribe-ext-recurring-event-tools.php:199 | `explode` on a comma always yields at least one piece |
| Explode.SplitPartsCommaFree | tribe-ext-recurring-event-tools.php:199 | no piece contains the separator |
| Explode.JoinSplit | tribe-ext-recurring-event-tools.php:199 | joining the pieces with commas gives back the clause string |
| Explode.SplitCommaFree | tribe-ext-recurring-event-tools.php:199 | a string without a comma is a single piece |
| Explode.SplitAtFirstComma | tribe-ext-recurring-event-tools.php:199 | the text before the first comma is the first piece and the rest is split independently |
| Explode.SplitJoin | tribe-ext-recurring-event-tools.php:199 | splitting comma-free pieces joined with commas gives back the pieces |
| Clauses.ParseClause | tribe-ext-recurring-event-tools.php:198-200 | the key is a comma-free prefix of the clause; the value is null exactly when the clause has no comma, and then the key is the whole clause |
| Clauses.ParseKeyValue | tribe-ext-recurring-event-tools.php:199-200 | `"k,v"` with comma-free k and v parses to key k and value `cast_bool(v)` |
| Clauses.ParseIgnoresExtraSegments | tribe-ext-recurring-event-tools.php:199-200 | segments after the second comma are dropped |
| Clauses.Items | tribe-ext-recurring-event-tools.php:195 | a list variable contributes its strings as they are; a single string contributes itself alone; an unset variable contributes the one string `""`; a non-empty variable always contributes at least one clause |
| Clauses.Merge | tribe-ext-recurring-event-tools.php:195 | the merged list is the `tribe-orm` strings followed by the `tribe-where` strings |
| Clauses.BuildArgs | tribe-ext-recurring-event-tools.php:197-202 | no clauses give the empty map; otherwise the last clause's key is present and holds that clause's value |
| Clauses.BuildArgsKeys | tribe-ext-recurring-event-tools.php:197-202 | the argument map has an entry for exactly the keys the clauses name |
| Clauses.BuildArgsLastWins | tribe-ext-recurring-event-tools.php:197-202 | each key holds the value of the last clause that names it |
| Clauses.BuildArgsAppend | tribe-ext-recurring-event-tools.php:195-202 | folding two concatenated lists is the union of their folds, the second winning on shared keys |
| Clauses.WhereWins | tribe-ext-recurring-event-tools.php:195-201 | on a key both variables name the `tribe-where` value wins; other `tribe-orm` keys keep their values |
| PostIn.Absints | tribe-ext-recurring-event-tools.php:216 | `array_map( 'absint', … )` keeps the length and applies `absint` to each element |
| PostIn.Intersect | tribe-ext-recurring-event-tools.php:216 | an id is in the intersection exactly when it is in both lists |
| PostIn.IntersectIsSubsequence | tribe-ext-recurring-event-tools.php:216 | the intersection keeps the first list's order |
| PostIn.IntersectCounts | tribe-ext-recurring-event-tools.php:216 | an element of the first list that occurs in the ids keeps all its repetitions; other elements are dropped |
| PostIn.IntersectWithin | tribe-ext-recurring-event-tools.php:216 | intersecting a list whose elements all occur in the ids returns the list unchanged |
| PostIn.Reconcile | tribe-ext-recurring-event-tools.php:212-217 | with no existing `post__in` the result is the looked-up ids; otherwise an id is in it exactly when it is in `absint(post__in)` and in the ids; it is always within the ids |
| PostIn.ReconcileKeepsOrder | tribe-ext-recurring-event-tools.php:212-217 | with an existing `post__in` the result is an order-preserving subsequence of `absint(post__in)` with each surviving id's multiplicity |
| PostIn.ReconcileStable | tribe-ext-recurring-event-tools.php:212-217 | reconciling a non-empty result again with the same ids changes nothing |
| Hooks.SuspendingPreGetPosts | tribe-ext-recurring-event-tools.php:119-125 | the callback runs with the handler unregistered; the callback's result is returned and the handler is registered afterwards |
| PreGetPosts.Status | tribe-ext-recurring-event-tools.php:206 | the lookup status is the query's `post_status` when that is not empty (string or list), and "any" otherwise |
| PreGetPosts.LookupArgs | tribe-ext-recurring-event-tools.php:197-208 | the lookup map has the clause keys plus `status`; `status` holds the lookup status; every other clause key keeps the value the clauses gave it |
| PreGetPosts.LookupArgsContents | tribe-ext-recurring-event-tools.php:192-208 | the lookup gets every clause key plus `status`; clause keys keep their last value; `status` is `post_status`, or "any" when that is empty, overriding any `status` clause |
| PreGetPosts.UnsetVariableAddsEmptyKey | tribe-ext-recurring-event-tools.php:185-200 | when either clause variable is unset, the lookup arguments contain the key `""` |
| PreGetPosts.OnPreGetPosts | tribe-ext-recurring-event-tools.php:184-235 | with both variables empty there is no lookup and nothing changes; otherwise the lookup runs unhooked and the handler is rehooked; only `post__in` can change; an empty reconciled result hooks the void filter and leaves the query as it was; otherwise `post__in` becomes that result |
| PreGetPosts.NeverSetsEmptyPostIn | tribe-ext-recurring-event-tools.php:228-234 | `post__in` is never set to an empty list |
| PreGetPosts.FillsFromLookup | tribe-ext-recurring-event-tools.php:212-214 | without an existing `post__in`, non-empty looked-up ids become `post__in` unchanged |
| PreGetPosts.IntersectsExisting | tribe-ext-recurring-event-tools.php:215-217 | with an existing `post__in`, the new one holds exactly the ids in both `absint(post__in)` and the lookup, in the original order |
| PreGetPosts.LookupSeesWhereValue | tribe-ext-recurring-event-tools.php:195-201 | the lookup sees the `tribe-where` value of a key both variables name |
| PreGetPosts.HandlerStable | tribe-ext-recurring-event-tools.php:212-234 | running the handler again on its own result with the same lookup leaves the query as it is |
| Counts.CacheGet | tribe-ext-recurring-event-tools.php:261 | a read gives the stored value when the id is cached and `false` otherwise |
| Counts.Miss | tribe-ext-recurring-event-tools.php:261-265 | a read is a miss exactly when the id is absent or holds `false` |
| Counts.CountEntry | tribe-ext-recurring-event-tools.php:258-270 | on a hit the cached value is reported and the cache is untouched; on a miss the computed count is stored and `set`'s return is reported |
| Counts.GetCounts | tribe-ext-recurring-event-tools.php:242-274 | two values, count then master count; a hit reports the cached value and leaves that entry as it was; a miss stores the computed count and reports `set`'s return; no other cache entry changes |
| Counts.MissReportsFreshWhenSetEchoes | tribe-ext-recurring-event-tools.php:265-267 | if `set` returns the value it stored, a miss reports the count just computed |
| Counts.WarmCacheServesStoredCounts | tribe-ext-recurring-event-tools.php:258-270 | a second call reports the stored counts whatever the events now are, and leaves the cache unchanged |
| Views.FilterViewsEdit | tribe-ext-recurring-event-tools.php:134-161 | the result has the original keys plus `tribe-recurring-all` and `tribe-recurring-first`; other entries are unchanged; the two links carry their `tribe-where` clauses and the two counts in order |
| Views.ParseParentZero | tribe-ext-recurring-event-tools.php:154 | the master link's `parent,0` clause gives the string "0", not an integer |
| Views.AllLinkClauses | tribe-ext-recurring-event-tools.php:142 | the "Recurring" link's clauses give `{"": null, in_series: true}` |
| Views.FirstLinkClauses | tribe-ext-recurring-event-tools.php:154 | the "Recurring (master)" link's clauses give `{"": null, in_series: true, parent: "0"}` |
| Views.LinksMatchCountedQueries | tribe-ext-recurring-event-tools.php:134-158 | following either link makes the lookup use the clauses its count was computed with, plus the `""` key, and with `parent` as a string |
| Views.FilterQueryVars | tribe-ext-recurring-event-tools.php:170-175 | the input list is kept as a prefix, followed by `tribe-orm` and then `tribe-where` |
| Views.FilterQueryVarsExposesClauses | tribe-ext-recurring-event-tools.php:170-175 | after the filter both clause variables reach the query as sent, and every variable that was public before still does |

## Left out

- `construct`, `init`, `php_version_check` and `load_plugin_textdomain`: plugin registration, the PHP version check and translation loading are environment set-up with no logic of their own.
- Link markup: `sprintf`, `esc_url` and `add_query_arg`. A link is modelled by the data it is built from, not by its HTML.
- The events ORM (`tribe_events()->by_args(…)->per_page(-1)->get_ids()` and `->where(…)->found()`): abstract function parameters.
- The cache internals (`tribe_cache()`, the save-post invalidation trigger, expiration): the cache is a map from cache id, and `set`'s return value is an abstract parameter.
- The `$void_query` closure: only the fact that it is hooked is modelled. Not modelled: its identity check, its self-removal, and that it returns null for other queries.
- The WordPress hook registry beyond the one flag. Exceptions thrown by the lookup are not modelled; the code has no `try`/`finally`, so nothing is claimed about re-registration after an exception.
- PHP array key order and keys: the argument map is a Dafny `map`, so insertion order is not kept. Numeric-string keys are not turned into integers, which does not change which clause wins. `array_intersect` keeps the first array's keys, which may leave gaps; the model keeps only the values, in order.
- PostIn.Absints: `post__in` entries are integers; PHP's `(int)` cast of strings and the `PHP_INT_MIN` edge of `absint` are not modelled.
- `post_status` nested arrays and request variables holding nested arrays: a request variable is unset, one string, or a flat list of strings.
- Clauses.Merge: a request variable is unset, one string, or a list with keys 0, 1, 2, …. A string-keyed array (`tribe-where[k]=…` in the URL) is not modelled. For such arrays `array_merge` replaces an earlier entry with the same string key instead of appending, so a `tribe-orm` clause can vanish before the fold and the `tribe-where` list need not come last. `Clauses.WhereWins` and `PreGetPosts.LookupSeesWhereValue` therefore hold only for list-shaped variables.
- Counts.GetCounts: the code runs both counting queries on every call, including on a cache hit, where the count is discarded. In this pure model a discarded `found()` call cannot be observed, so the contract says nothing about which queries ran.
