/**
 * MySQL's `LIKE` operator as the user search uses it: `%` matches any run of
 * characters, `_` one character, and `\` makes the next character literal.
 * Characters are compared exactly (the column collation is not modelled).
 */
module SqlLike {

  predicate IsWildcard(c: char) {
    c == '%' || c == '_' || c == '\\'
  }

  predicate NoWildcards(q: string) {
    forall i :: 0 <= i < |q| ==> !IsWildcard(q[i])
  }

  /** `s LIKE p`. */
  predicate Like(s: string, p: string)
    decreases |s| + |p|
  {
    if p == [] then s == []
    else if p[0] == '%' then Like(s, p[1..]) || (s != [] && Like(s[1..], p))
    else if p[0] == '_' then s != [] && Like(s[1..], p[1..])
    else if p[0] == '\\' && |p| >= 2 then s != [] && s[0] == p[1] && Like(s[1..], p[2..])
    else s != [] && s[0] == p[0] && Like(s[1..], p[1..])
  }

  /** `fmt.Sprintf("%%%s%%", q)`: the pattern for "contains q". */
  function ContainsPattern(q: string): string {
    "%" + q + "%"
  }

  /** `q` occurs in `s` starting at index `k`. */
  predicate OccursAt(s: string, q: string, k: int) {
    0 <= k <= |s| - |q| && s[k..k + |q|] == q
  }

  /** `q` occurs in `s` as a contiguous substring. */
  predicate Contains(s: string, q: string) {
    exists k :: 0 <= k <= |s| && OccursAt(s, q, k)
  }

  /** A lone `%` matches everything. */
  lemma {:induction false} LikeAnything(s: string)
    ensures Like(s, "%")
  {
    if s != [] {
      LikeAnything(s[1..]);
    }
  }

  /** The pattern `%%` that an empty search builds matches every string. */
  lemma EmptyQueryMatchesAll(s: string)
    ensures Like(s, ContainsPattern(""))
  {
    assert ContainsPattern("") == "%%";
    assert ("%%")[1..] == "%";
    LikeAnything(s);
  }

  /** Without wildcards, `s LIKE q%` says that `q` is a prefix of `s`. */
  lemma {:induction false} LikePrefix(s: string, q: string)
    requires NoWildcards(q)
    ensures Like(s, q + "%") <==> |q| <= |s| && s[..|q|] == q
  {
    if q == [] {
      assert q + "%" == "%";
      LikeAnything(s);
    } else {
      var p := q + "%";
      assert p[0] == q[0] && p[1..] == q[1..] + "%";
      assert NoWildcards(q[1..]);
      if s != [] {
        LikePrefix(s[1..], q[1..]);
        if |q| <= |s| && s[..|q|] == q {
          assert s[1..][..|q| - 1] == s[..|q|][1..];
        }
        if s[0] == q[0] && |q| - 1 <= |s| - 1 && s[1..][..|q| - 1] == q[1..] {
          assert s[..|q|] == [s[0]] + s[1..][..|q| - 1];
          assert q == [q[0]] + q[1..];
        }
      }
    }
  }

  /** A leading `%` lets the rest of the pattern match any suffix. */
  lemma {:induction false} LikeLeadingPercent(s: string, r: string)
    ensures Like(s, "%" + r) <==> exists k :: 0 <= k <= |s| && Like(s[k..], r)
  {
    var p := "%" + r;
    assert p[0] == '%' && p[1..] == r;
    if s == [] {
      if Like(s, p) {
        assert Like(s[0..], r);
      }
    } else {
      LikeLeadingPercent(s[1..], r);
      if Like(s, p) {
        if Like(s, r) {
          assert s[0..] == s;
        } else {
          var k :| 0 <= k <= |s| - 1 && Like(s[1..][k..], r);
          assert s[1..][k..] == s[k + 1..];
        }
      }
      if exists k :: 0 <= k <= |s| && Like(s[k..], r) {
        var k :| 0 <= k <= |s| && Like(s[k..], r);
        if k == 0 {
          assert s[0..] == s;
        } else {
          assert s[1..][k - 1..] == s[k..];
        }
      }
    }
  }

  /**
   * The search pattern `%q%` matches exactly the strings that contain `q`,
   * provided `q` itself holds no wildcard character.
   */
  lemma {:induction false} LikeContains(s: string, q: string)
    requires NoWildcards(q)
    ensures Like(s, ContainsPattern(q)) <==> Contains(s, q)
  {
    assert ContainsPattern(q) == "%" + (q + "%");
    LikeLeadingPercent(s, q + "%");
    if Like(s, ContainsPattern(q)) {
      var k :| 0 <= k <= |s| && Like(s[k..], q + "%");
      LikePrefix(s[k..], q);
      assert s[k..][..|q|] == s[k..k + |q|];
      assert OccursAt(s, q, k);
    }
    if Contains(s, q) {
      var k :| 0 <= k <= |s| && OccursAt(s, q, k);
      LikePrefix(s[k..], q);
      assert s[k..][..|q|] == s[k..k + |q|];
    }
  }
}
