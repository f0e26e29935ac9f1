/** The `tribe-orm` / `tribe-where` clause language: each clause is a
    `"key,value"` string, the two request variables are merged into one list, and
    the list is folded into the ORM argument map, later keys overwriting earlier
    ones. */
module Clauses {
  import opened PhpValues
  import opened Explode

  /** One parsed clause: what `list( $key, $value ) = explode( ',', $clause )`
      leaves in the two variables, the value already through `cast_bool`. */
  datatype Clause = Clause(key: string, value: Value)

  /** The key is the text before the first comma; the value is the next
      comma-separated segment, through `CastBool`, and any further segments are
      dropped. A clause with no comma leaves `$value` unassigned, which PHP reads
      as null. */
  function ParseClause(text: string): (c: Clause)
    ensures CommaFree(c.key)
    ensures c.key <= text
    ensures ',' in text <==> c.value != Null
    ensures ',' !in text ==> c.key == text
  {
    var parts := Split(text);
    SplitPartsCommaFree(text);
    JoinSplit(text);
    Clause(parts[0], if |parts| > 1 then CastBool(Str(parts[1])) else Null)
  }

  /** A well-formed clause parses to its key and its cast value. */
  lemma ParseKeyValue(k: string, v: string)
    requires CommaFree(k) && CommaFree(v)
    ensures ParseClause(k + "," + v) == Clause(k, CastBool(Str(v)))
  {
    SplitAtFirstComma(k, v);
    SplitCommaFree(v);
  }

  /** Segments after the second comma are ignored. */
  lemma ParseIgnoresExtraSegments(k: string, v: string, rest: string)
    requires CommaFree(k) && CommaFree(v)
    ensures ParseClause(k + "," + v + "," + rest) == Clause(k, CastBool(Str(v)))
  {
    assert k + "," + v + "," + rest == k + "," + (v + "," + rest);
    SplitAtFirstComma(k, v + "," + rest);
    SplitAtFirstComma(v, rest);
  }

  /** The strings the `foreach` sees for one request variable after the
      `(array)` cast: a lone string is a one-element list, and an unset variable
      (`false`) becomes `[false]`, which `explode` reads as the empty string. */
  function Items(p: Param): (texts: seq<string>)
    ensures p.List? ==> texts == p.items
    ensures !p.List? ==> |texts| == 1
    ensures p.Scalar? ==> texts[0] == p.s
    ensures p.Unset? ==> texts[0] == ""
    ensures !Empty(p) ==> |texts| > 0
  {
    match p
    case Unset => [""]
    case Scalar(s) => [s]
    case List(items) => items
  }

  /** `array_merge( (array) $orm_clauses, (array) $orm_where_clauses )`. */
  function Merge(orm: Param, where: Param): (texts: seq<string>)
    ensures |texts| == |Items(orm)| + |Items(where)|
    ensures texts[..|Items(orm)|] == Items(orm)
    ensures texts[|Items(orm)|..] == Items(where)
  {
    Items(orm) + Items(where)
  }

  function Key(text: string): string {
    ParseClause(text).key
  }

  /** The argument map the `foreach` builds: `$orm_args[ $key ] = $value` for
      every clause in turn. */
  function BuildArgs(texts: seq<string>): (args: map<string, Value>)
    ensures |texts| == 0 ==> args == map[]
    ensures |texts| > 0 ==>
              Key(texts[|texts| - 1]) in args
              && args[Key(texts[|texts| - 1])] == ParseClause(texts[|texts| - 1]).value
    decreases |texts|
  {
    if |texts| == 0 then map[]
    else
      var c := ParseClause(texts[|texts| - 1]);
      BuildArgs(texts[..|texts| - 1])[c.key := c.value]
  }

  /** The keys named by some clause of the list. */
  ghost function KeysOf(texts: seq<string>): set<string> {
    set i | 0 <= i < |texts| :: Key(texts[i])
  }

  /** The keys of a list are those of all but its last clause plus the last
      clause's key. */
  lemma KeysOfSnoc(texts: seq<string>)
    requires |texts| > 0
    ensures KeysOf(texts) == KeysOf(texts[..|texts| - 1]) + {Key(texts[|texts| - 1])}
  {
    var n := |texts| - 1;
    var init := texts[..n];
    forall k | k in KeysOf(texts) ensures k in KeysOf(init) + {Key(texts[n])} {
      var i :| 0 <= i < |texts| && Key(texts[i]) == k;
      if i < n {
        assert init[i] == texts[i];
      }
    }
    forall k | k in KeysOf(init) ensures k in KeysOf(texts) {
      var i :| 0 <= i < |init| && Key(init[i]) == k;
      assert texts[i] == init[i];
    }
  }

  /** The map has an entry for exactly the keys the clauses name. */
  lemma {:induction false} BuildArgsKeys(texts: seq<string>)
    ensures BuildArgs(texts).Keys == KeysOf(texts)
    decreases |texts|
  {
    if |texts| > 0 {
      var n := |texts| - 1;
      BuildArgsKeys(texts[..n]);
      KeysOfSnoc(texts);
      assert BuildArgs(texts).Keys == BuildArgs(texts[..n]).Keys + {Key(texts[n])};
    }
  }

  /** A key's entry holds the value of the last clause that names it. */
  lemma {:induction false} BuildArgsLastWins(texts: seq<string>, i: int)
    requires 0 <= i < |texts|
    requires forall j :: i < j < |texts| ==> Key(texts[j]) != Key(texts[i])
    ensures Key(texts[i]) in BuildArgs(texts)
    ensures BuildArgs(texts)[Key(texts[i])] == ParseClause(texts[i]).value
    decreases |texts|
  {
    var n := |texts| - 1;
    if i < n {
      var init := texts[..n];
      assert init[i] == texts[i];
      forall j | i < j < |init| ensures Key(init[j]) != Key(init[i]) {
        assert init[j] == texts[j];
      }
      BuildArgsLastWins(init, i);
    }
  }

  /** Folding a concatenation is the union of the two folds, the second one
      winning on shared keys. */
  lemma {:induction false} BuildArgsAppend(a: seq<string>, b: seq<string>)
    ensures BuildArgs(a + b) == BuildArgs(a) + BuildArgs(b)
    decreases |b|
  {
    if |b| == 0 {
      assert a + b == a;
    } else {
      var m := |b| - 1;
      assert (a + b)[..|a + b| - 1] == a + b[..m];
      assert (a + b)[|a + b| - 1] == b[m];
      BuildArgsAppend(a, b[..m]);
    }
  }

  /** On a key both variables name, the `tribe-where` value wins; a key only
      `tribe-orm` names keeps its `tribe-orm` value. */
  lemma WhereWins(orm: Param, where: Param, k: string)
    ensures k in BuildArgs(Items(where)) ==>
              k in BuildArgs(Merge(orm, where))
              && BuildArgs(Merge(orm, where))[k] == BuildArgs(Items(where))[k]
    ensures k !in BuildArgs(Items(where)) && k in BuildArgs(Items(orm)) ==>
              k in BuildArgs(Merge(orm, where))
              && BuildArgs(Merge(orm, where))[k] == BuildArgs(Items(orm))[k]
  {
    BuildArgsAppend(Items(orm), Items(where));
  }
}
