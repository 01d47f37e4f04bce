/** SQLite's default `LIKE` operator, as used by every filter conjunct
    `column LIKE ?`, and the substring-containment meaning that a pattern
    of the form `%v%` has when `v` holds no wildcard of its own.

    Modelled: `%` matches any run of characters (possibly empty), `_`
    matches exactly one character, and letters compare without regard to
    ASCII case (SQLite folds only 'A'..'Z'). No ESCAPE clause is used by
    the queries, so no escape character is modelled. */
module Pattern {

  /** ASCII lower-casing, the only case folding SQLite's LIKE applies by default. */
  function Lower(c: char): (d: char)
    ensures 'A' <= c <= 'Z' ==> d as int == c as int + 32
    ensures !('A' <= c <= 'Z') ==> d == c
  {
    if 'A' <= c <= 'Z' then (c as int + 32) as char else c
  }

  predicate SameLetter(a: char, b: char) {
    Lower(a) == Lower(b)
  }

  /** `s LIKE p` */
  function Like(s: string, p: string): bool
    decreases |s| + |p|
  {
    if |p| == 0 then |s| == 0
    else if p[0] == '%' then Like(s, p[1..]) || (|s| > 0 && Like(s[1..], p))
    else |s| > 0 && (p[0] == '_' || SameLetter(s[0], p[0])) && Like(s[1..], p[1..])
  }

  /** The pattern bound to the second `?` of every filter conjunct. */
  function Wrap(v: string): (p: string)
    ensures |p| == |v| + 2 && p[0] == '%' && p[|p| - 1] == '%'
    ensures p[1..|p| - 1] == v
  {
    "%" + v + "%"
  }

  /** A filter value that LIKE reads literally: it holds neither `%` nor `_`. */
  predicate NoWildcards(v: string) {
    forall i :: 0 <= i < |v| ==> v[i] != '%' && v[i] != '_'
  }

  /** `v` is a prefix of `t`, letters compared case-insensitively. */
  predicate PrefixFolded(v: string, t: string) {
    |v| <= |t| && forall k :: 0 <= k < |v| ==> SameLetter(t[k], v[k])
  }

  /** `s` contains `v` as a substring, letters compared case-insensitively. */
  predicate ContainsFolded(s: string, v: string) {
    exists i :: 0 <= i <= |s| && PrefixFolded(v, s[i..])
  }

  /** A lone `%` matches every string. */
  lemma {:induction false} PercentMatchesAll(s: string)
    ensures Like(s, "%")
    decreases |s|
  {
    assert "%"[1..] == "";
    if |s| > 0 {
      PercentMatchesAll(s[1..]);
    }
  }

  /** A literal followed by `%` matches exactly the strings it is a prefix of. */
  lemma {:induction false} LiteralThenPercent(t: string, v: string)
    requires NoWildcards(v)
    ensures Like(t, v + "%") <==> PrefixFolded(v, t)
    decreases |v|
  {
    if |v| == 0 {
      assert v + "%" == "%";
      PercentMatchesAll(t);
    } else {
      var p := v + "%";
      assert p[0] == v[0] && p[0] != '%' && p[0] != '_';
      assert p[1..] == v[1..] + "%";
      assert NoWildcards(v[1..]) by {
        forall i | 0 <= i < |v[1..]| ensures v[1..][i] != '%' && v[1..][i] != '_' {
          assert v[1..][i] == v[i + 1];
        }
      }
      if |t| > 0 {
        LiteralThenPercent(t[1..], v[1..]);
        if PrefixFolded(v, t) {
          assert PrefixFolded(v[1..], t[1..]) by {
            forall k | 0 <= k < |v[1..]| ensures SameLetter(t[1..][k], v[1..][k]) {
              assert t[1..][k] == t[k + 1] && v[1..][k] == v[k + 1];
            }
          }
        }
        if SameLetter(t[0], v[0]) && PrefixFolded(v[1..], t[1..]) {
          forall k | 0 <= k < |v| ensures SameLetter(t[k], v[k]) {
            if k > 0 {
              assert t[1..][k - 1] == t[k] && v[1..][k - 1] == v[k];
            }
          }
        }
      }
    }
  }

  /** A leading `%` lets the rest of the pattern match any suffix. */
  lemma {:induction false} LeadingPercent(s: string, q: string)
    ensures Like(s, "%" + q) <==> exists i :: 0 <= i <= |s| && Like(s[i..], q)
    decreases |s|
  {
    var p := "%" + q;
    assert p[0] == '%' && p[1..] == q;
    assert s[0..] == s;
    if |s| > 0 {
      LeadingPercent(s[1..], q);
      if Like(s[1..], p) {
        var j :| 0 <= j <= |s[1..]| && Like(s[1..][j..], q);
        assert s[1..][j..] == s[j + 1..];
      }
      if i :| 0 <= i <= |s| && Like(s[i..], q) {
        if i > 0 {
          assert s[1..][i - 1..] == s[i..];
        }
      }
    } else {
      if i :| 0 <= i <= |s| && Like(s[i..], q) {
        assert i == 0;
      }
    }
  }

  /** For a filter value without wildcards, `column LIKE '%v%'` holds exactly
      when the column contains `v`, ignoring ASCII case. */
  lemma WrappedLiteralIsContainment(s: string, v: string)
    requires NoWildcards(v)
    ensures Like(s, Wrap(v)) <==> ContainsFolded(s, v)
  {
    assert Wrap(v) == "%" + (v + "%");
    LeadingPercent(s, v + "%");
    if Like(s, Wrap(v)) {
      var i :| 0 <= i <= |s| && Like(s[i..], v + "%");
      LiteralThenPercent(s[i..], v);
    }
    if ContainsFolded(s, v) {
      var i :| 0 <= i <= |s| && PrefixFolded(v, s[i..]);
      LiteralThenPercent(s[i..], v);
    }
  }

  /** The unescaped-wildcard edge case: the filter value `_` does not mean
      "contains an underscore" but "is non-empty". */
  lemma UnderscoreFilterMatchesAnyNonEmpty(s: string)
    ensures Like(s, Wrap("_")) <==> |s| > 0
  {
    assert Wrap("_") == "%" + "_%";
    LeadingPercent(s, "_%");
    assert "_%"[1..] == "%";
    if |s| > 0 {
      PercentMatchesAll(s[1..]);
      assert s[0..] == s;
    }
    if i :| 0 <= i <= |s| && Like(s[i..], "_%") {
      assert |s[i..]| > 0;
    }
  }
}
