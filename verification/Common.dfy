/** Small shared vocabulary: optional values, results, lists without repeats, and counting over maps. */
module Common {
  datatype Option<+T> = None | Some(value: T)

  datatype Result<+T, +E> = Ok(value: T) | Err(error: E)

  ghost predicate Distinct<T>(s: seq<T>) { forall i, j | 0 <= i < j < |s| :: s[i] != s[j] }

  lemma Regroup<T>(a: seq<T>, b: seq<T>, c: seq<T>)
    ensures a + b + c == a + (b + c)
  {}

  lemma SplitLast<T>(s: seq<T>)
    requires s != []
    ensures s[..|s| - 1] + [s[|s| - 1]] == s
  {}

  lemma TakeNext<T>(s: seq<T>, i: nat)
    requires i < |s|
    ensures s[..i + 1] == s[..i] + [s[i]] && s[..i + 1][..i] == s[..i]
  {}

  function Mapped<S, T>(f: S -> T, xs: seq<S>): (ys: seq<T>)
    ensures |ys| == |xs| && forall i | 0 <= i < |xs| :: ys[i] == f(xs[i])
  {
    seq(|xs|, i requires 0 <= i < |xs| => f(xs[i]))
  }

  /** The keys of m whose value satisfies p. */
  ghost function Where<K, V>(m: map<K, V>, p: V -> bool): set<K> {
    set k | k in m && p(m[k])
  }

  /** Writing one key changes the selected set by that key only. */
  lemma WhereUpdate<K, V>(m: map<K, V>, k: K, v: V, p: V -> bool)
    ensures Where(m[k := v], p) == if p(v) then Where(m, p) + {k} else Where(m, p) - {k}
    ensures |Where(m[k := v], p)| ==
            |Where(m, p)| - (if k in m && p(m[k]) then 1 else 0) + (if p(v) then 1 else 0)
  {
    var before, after := Where(m, p), Where(m[k := v], p);
    assert after == if p(v) then before + {k} else before - {k};
    if p(v) {
      if k !in before {
        assert |before + {k}| == |before| + 1;
      } else {
        assert before + {k} == before;
      }
    } else if k in before {
      assert |before - {k}| == |before| - 1;
    } else {
      assert before - {k} == before;
    }
  }
}
