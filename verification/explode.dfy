/** PHP `explode( ',', $s )` on a clause string, and its inverse `implode`. */
module Explode {

  /** Splits `s` at every comma; the pieces contain no comma and there is always
      at least one (an empty string gives `[""]`). */
  function Split(s: string): (parts: seq<string>)
    ensures |parts| >= 1
    decreases |s|
  {
    if |s| == 0 then [""]
    else
      var rest := Split(s[1..]);
      if s[0] == ',' then [""] + rest
      else [[s[0]] + rest[0]] + rest[1..]
  }

  /** `implode( ',', $parts )`. */
  function Join(parts: seq<string>): string
    requires |parts| >= 1
  {
    if |parts| == 1 then parts[0] else parts[0] + "," + Join(parts[1..])
  }

  ghost predicate CommaFree(s: string) {
    ',' !in s
  }

  /** No piece that `Split` returns contains the separator. */
  lemma {:induction false} SplitPartsCommaFree(s: string)
    ensures forall i :: 0 <= i < |Split(s)| ==> CommaFree(Split(s)[i])
    decreases |s|
  {
    if |s| > 0 {
      SplitPartsCommaFree(s[1..]);
      var rest := Split(s[1..]);
      if s[0] != ',' {
        assert CommaFree(rest[0]);
        assert CommaFree([s[0]] + rest[0]);
      }
    }
  }

  /** Joining the pieces gives back the original string. */
  lemma {:induction false} JoinSplit(s: string)
    ensures Join(Split(s)) == s
    decreases |s|
  {
    if |s| > 0 {
      JoinSplit(s[1..]);
      var rest := Split(s[1..]);
      if s[0] == ',' {
        assert Join([""] + rest) == "" + "," + Join(rest);
      } else {
        var parts := [[s[0]] + rest[0]] + rest[1..];
        assert parts[1..] == rest[1..];
        if |rest| == 1 {
          assert Join(parts) == [s[0]] + Join(rest);
        } else {
          assert Join(rest) == rest[0] + "," + Join(rest[1..]);
          assert Join(parts) == ([s[0]] + rest[0]) + "," + Join(rest[1..]);
        }
        assert s == [s[0]] + s[1..];
      }
    }
  }

  /** A comma-free string is one piece. */
  lemma {:induction false} SplitCommaFree(t: string)
    requires CommaFree(t)
    ensures Split(t) == [t]
    decreases |t|
  {
    if |t| > 0 {
      assert CommaFree(t[1..]) by {
        forall i | 0 <= i < |t[1..]| ensures t[1..][i] != ',' {
          assert t[1..][i] == t[i + 1];
        }
      }
      SplitCommaFree(t[1..]);
      assert t == [t[0]] + t[1..];
    }
  }

  /** Text before the first comma becomes the first piece; the rest is split on
      its own. */
  lemma {:induction false} SplitAtFirstComma(k: string, t: string)
    requires CommaFree(k)
    ensures Split(k + "," + t) == [k] + Split(t)
    decreases |k|
  {
    var s := k + "," + t;
    if |k| == 0 {
      assert s == "," + t;
      assert s[1..] == t;
    } else {
      assert CommaFree(k[1..]) by {
        forall i | 0 <= i < |k[1..]| ensures k[1..][i] != ',' {
          assert k[1..][i] == k[i + 1];
        }
      }
      SplitAtFirstComma(k[1..], t);
      assert s[1..] == k[1..] + "," + t;
      assert s[0] == k[0];
      assert [k[0]] + k[1..] == k;
    }
  }

  /** Splitting comma-free pieces joined with commas gives back the pieces. */
  lemma {:induction false} SplitJoin(parts: seq<string>)
    requires |parts| >= 1
    requires forall i :: 0 <= i < |parts| ==> CommaFree(parts[i])
    ensures Split(Join(parts)) == parts
    decreases |parts|
  {
    if |parts| == 1 {
      SplitCommaFree(parts[0]);
    } else {
      SplitJoin(parts[1..]);
      SplitAtFirstComma(parts[0], Join(parts[1..]));
      assert [parts[0]] + parts[1..] == parts;
    }
  }
}
