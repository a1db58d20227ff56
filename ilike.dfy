/** PostgreSQL's `ILIKE` as the email search uses it: the pattern is
    `%` + search + `%` built from the raw search text, so `%`, `_` and the
    default escape character `\` inside the search text keep their pattern
    meaning. Case folding is ASCII only. */
module Ilike {
  import opened Text

  /** `LIKE` with escape character `\`: `%` matches any run of characters,
      `_` any single character, `\c` the character c itself, and any other
      character itself. (A pattern ending in a lone `\` is an error in
      PostgreSQL; the search pattern always ends in `%`, so it cannot arise
      there, and the model treats it as no match.) */
  predicate LikeMatch(p: string, s: string)
    decreases |p| + |s|
  {
    if |p| == 0 then |s| == 0
    else if p[0] == '%' then LikeMatch(p[1..], s) || (|s| > 0 && LikeMatch(p, s[1..]))
    else if p[0] == '_' then |s| > 0 && LikeMatch(p[1..], s[1..])
    else if p[0] == '\\' then |p| >= 2 && |s| > 0 && s[0] == p[1] && LikeMatch(p[2..], s[1..])
    else |s| > 0 && s[0] == p[0] && LikeMatch(p[1..], s[1..])
  }

  /** `s ILIKE p`. */
  predicate IlikeMatch(s: string, p: string) {
    LikeMatch(Lower(p), Lower(s))
  }

  /** The characters that are not literal in a LIKE pattern. */
  predicate IsWildcard(c: char) {
    c == '%' || c == '_' || c == '\\'
  }

  /** A search text with no pattern characters in it. */
  predicate Plain(q: string) {
    forall i :: 0 <= i < |q| ==> !IsWildcard(q[i])
  }

  /** The condition `subject ILIKE '%' || search || '%'` as written. */
  predicate SubjectMatchesAsWritten(subject: string, search: string) {
    IlikeMatch(subject, "%" + search + "%")
  }

  /** A trailing `%` matches the rest of any string. */
  lemma {:induction false} PercentMatchesAll(t: string)
    ensures LikeMatch("%", t)
    decreases |t|
  {
    if |t| > 0 {
      PercentMatchesAll(t[1..]);
    }
  }

  /** A plain text followed by `%` matches exactly the strings it prefixes. */
  lemma {:induction false} PlainPrefixMatch(q: string, t: string)
    requires Plain(q)
    ensures LikeMatch(q + "%", t) <==> |q| <= |t| && t[..|q|] == q
    decreases |q|
  {
    if |q| == 0 {
      PercentMatchesAll(t);
      assert q + "%" == "%";
    } else {
      assert (q + "%")[1..] == q[1..] + "%";
      if |t| > 0 {
        PlainPrefixMatch(q[1..], t[1..]);
        if |q| <= |t| && t[..|q|] == q {
          assert t[1..][..|q| - 1] == q[1..];
        }
        if |q[1..]| <= |t[1..]| && t[1..][..|q[1..]|] == q[1..] && t[0] == q[0] {
          assert t[..|q|] == [t[0]] + t[1..][..|q| - 1];
        }
      }
    }
  }

  /** A leading `%` lets the rest of the pattern match any suffix. */
  lemma {:induction false} LeadingPercent(r: string, s: string)
    ensures LikeMatch("%" + r, s) <==> exists i :: 0 <= i <= |s| && LikeMatch(r, s[i..])
    decreases |s|
  {
    assert ("%" + r)[1..] == r;
    if |s| == 0 {
      if LikeMatch(r, s[0..]) { assert s[0..] == s; }
    } else {
      LeadingPercent(r, s[1..]);
      if exists i :: 0 <= i <= |s| && LikeMatch(r, s[i..]) {
        var i :| 0 <= i <= |s| && LikeMatch(r, s[i..]);
        if i > 0 {
          assert s[1..][i - 1..] == s[i..];
        } else {
          assert s[0..] == s;
        }
      }
      if LikeMatch("%" + r, s[1..]) {
        var i :| 0 <= i <= |s[1..]| && LikeMatch(r, s[1..][i..]);
        assert s[1..][i..] == s[i + 1..];
      }
      if LikeMatch(r, s) {
        assert s[0..] == s;
      }
    }
  }

  /** For a search text without pattern characters the condition as written
      is exactly case-insensitive substring search. */
  lemma PlainSearchIsSubstring(subject: string, search: string)
    requires Plain(search)
    ensures SubjectMatchesAsWritten(subject, search) <==> Contains(Lower(subject), Lower(search))
  {
    var q := Lower(search);
    var s := Lower(subject);
    assert Plain(q);
    LowerAppend("%" + search, "%");
    LowerAppend("%", search);
    assert Lower("%" + search + "%") == "%" + (q + "%");
    LeadingPercent(q + "%", s);
    if SubjectMatchesAsWritten(subject, search) {
      var i :| 0 <= i <= |s| && LikeMatch(q + "%", s[i..]);
      MatchAtIsOccurrence(q, s, i);
    }
    if Contains(s, q) {
      var i :| 0 <= i <= |s| - |q| && OccursAt(s, q, i);
      MatchAtIsOccurrence(q, s, i);
    }
  }

  /** A plain pattern followed by `%` matches the text from `i` on exactly
      when the pattern occurs at `i`. */
  lemma MatchAtIsOccurrence(q: string, s: string, i: int)
    requires Plain(q) && 0 <= i <= |s|
    ensures LikeMatch(q + "%", s[i..]) <==> OccursAt(s, q, i)
  {
    PlainPrefixMatch(q, s[i..]);
    if i + |q| <= |s| {
      assert s[i..][..|q|] == s[i..i + |q|];
    }
  }

  /** As written, `_` in the search text matches any character: searching
      for "a_c" finds the subject "abc", which does not contain "a_c". */
  lemma UnderscoreIsWildcard()
    ensures SubjectMatchesAsWritten("abc", "a_c")
    ensures !Contains(Lower("abc"), Lower("a_c"))
  {
    assert "%" + "a_c" + "%" == "%a_c%";
    assert Lower("abc") == "abc";
    assert Lower("%a_c%") == "%a_c%";
    assert "%a_c%"[1..] == "a_c%" && "a_c%"[1..] == "_c%" && "_c%"[1..] == "c%" && "c%"[1..] == "%";
    assert "abc"[1..] == "bc" && "bc"[1..] == "c" && "c"[1..] == "";
    assert LikeMatch("%", "");
    assert LikeMatch("c%", "c");
    assert LikeMatch("_c%", "bc");
    assert LikeMatch("a_c%", "abc");
    assert LikeMatch("%a_c%", "abc");
    assert Lower("a_c") == "a_c";
  }
}
