/**
 * The quota-tier LDAP filter builder of tests/quota.py. The directory-naming
 * collaborator `ual_grouper_base` is the parameter `g`: a deterministic map
 * from a group short name to the group reference placed inside the filter.
 */
module Quota {
  import opened Wrappers
  import opened StrFormat
  import opened Parens

  /** The allow-list of classification tags, in the source's order. */
  const UalClasses: seq<string> := ["faculty", "grad", "ugrad"]

  /** The group short names the filter for `ualClass` is built from, in the
      order they appear in it. */
  function GroupKeys(ualClass: string): seq<string> {
    if ualClass == "faculty" then ["ual-faculty", "ual-staff", "ual-dcc"]
    else if ualClass == "grad" then ["ual-grads"]
    else if ualClass == "ugrad" then ["ual-ugrads"]
    else []
  }

  /** `ual_ldap_quota_query`: the one-element list holding the filter for
      `ualClass`, or `None` for a tag outside the allow-list. */
  function QuotaQuery(g: string -> string, ualClass: string): (r: Option<seq<string>>)
    ensures r.None? <==> ualClass !in UalClasses
    ensures r.Some? ==> |r.value| == 1
  {
    if ualClass !in UalClasses then None
    else if ualClass == "faculty" then
      Some([Format("( | ({}) ", g("ual-faculty"))
            + Format("({}) ", g("ual-staff"))
            + Format("({}) )", g("ual-dcc"))])
    else if ualClass == "grad" then
      Some([Format("({})", g("ual-grads"))])
    else
      // the allow-list leaves "ugrad" as the only tag here
      Some([Format("({})", g("ual-ugrads"))])
  }

  /** One group reference in its own parentheses. */
  function Paren(fragment: string): string {
    "(" + fragment + ")"
  }

  /** The filter string the source builds for the faculty tag out of the
      three references `a`, `b` and `c`. */
  function FacultyString(a: string, b: string, c: string): string {
    "( | (" + a + ") (" + b + ") (" + c + ") )"
  }

  /** The faculty filter is the OR of the faculty, staff and dcc references,
      spaces included. */
  lemma FacultyFilter(g: string -> string)
    ensures QuotaQuery(g, "faculty")
      == Some([FacultyString(g("ual-faculty"), g("ual-staff"), g("ual-dcc"))])
  {
    var a, b, c := g("ual-faculty"), g("ual-staff"), g("ual-dcc");
    // the three formatted pieces, joined, are the faculty string
    assert ("( | (" + a + ") ") + ("(" + b + ") ") + ("(" + c + ") )") == FacultyString(a, b, c);
    assert "faculty" in UalClasses;
    FormatOrHead(a);
    FormatSpaced(b);
    FormatOrTail(c);
  }

  lemma FormatOrHead(a: string)
    ensures Format("( | ({}) ", a) == "( | (" + a + ") "
  {
    assert "( | ({}) " == "( | (" + "{}" + ") ";
    FormatSplice("( | (", ") ", a);
  }

  lemma FormatSpaced(b: string)
    ensures Format("({}) ", b) == "(" + b + ") "
  {
    assert "({}) " == "(" + "{}" + ") ";
    FormatSplice("(", ") ", b);
  }

  lemma FormatOrTail(c: string)
    ensures Format("({}) )", c) == "(" + c + ") )"
  {
    assert "({}) )" == "(" + "{}" + ") )";
    FormatSplice("(", ") )", c);
  }

  lemma FormatParen(f: string)
    ensures Format("({})", f) == "(" + f + ")"
  {
    assert "({})" == "(" + "{}" + ")";
    FormatSplice("(", ")", f);
  }

  /** The grad filter is the graduate-students reference in parentheses. */
  lemma GradFilter(g: string -> string)
    ensures QuotaQuery(g, "grad") == Some(["(" + g("ual-grads") + ")"])
  {
    assert "grad" in UalClasses;
    FormatParen(g("ual-grads"));
  }

  /** The ugrad filter is the undergraduate-students reference in parentheses. */
  lemma UgradFilter(g: string -> string)
    ensures QuotaQuery(g, "ugrad") == Some(["(" + g("ual-ugrads") + ")"])
  {
    assert "ugrad" in UalClasses;
    FormatParen(g("ual-ugrads"));
  }

  /** `pattern` occurs in `s` starting at index `i`. */
  predicate OccursAt(s: string, pattern: string, i: nat) {
    i + |pattern| <= |s| && s[i..i + |pattern|] == pattern
  }

  lemma OccursAfter(before: string, pattern: string, after: string)
    ensures OccursAt(before + pattern + after, pattern, |before|)
  {
    var s := before + pattern + after;
    assert s[|before|..|before| + |pattern|] == pattern;
  }

  /** `s` is `( | `, then `x`, `y` and `z` in that order, each followed by
      one space, then `)`. */
  predicate SpacedOr(s: string, x: string, y: string, z: string) {
    var i := 4;
    var j := i + |x| + 1;
    var k := j + |y| + 1;
    && |s| == k + |z| + 2
    && s[..i] == "( | "
    && OccursAt(s, x, i) && s[j - 1] == ' '
    && OccursAt(s, y, j) && s[k - 1] == ' '
    && OccursAt(s, z, k)
    && s[k + |z|..] == " )"
  }

  /** The faculty layout: the OR operator over the parenthesised references
      `a`, `b` and `c`. */
  predicate OrLayout(s: string, a: string, b: string, c: string) {
    SpacedOr(s, Paren(a), Paren(b), Paren(c))
  }

  lemma SpacedOrLayout(x: string, y: string, z: string)
    ensures SpacedOr("( | " + x + " " + y + " " + z + " )", x, y, z)
  {
    var s := "( | " + x + " " + y + " " + z + " )";
    var i := 4;
    var j := i + |x| + 1;
    var k := j + |y| + 1;
    var head := "( | ";
    var tail := " " + y + " " + z + " )";
    assert s == head + x + tail;
    OccursAfter(head, x, tail);
    assert s[..i] == head;
    var head2 := head + x + " ";
    var tail2 := " " + z + " )";
    assert s == head2 + y + tail2;
    OccursAfter(head2, y, tail2);
    assert s[j - 1] == head2[j - 1] == ' ';
    var head3 := head2 + y + " ";
    assert s == head3 + z + " )";
    OccursAfter(head3, z, " )");
    assert s[k - 1] == head3[k - 1] == ' ';
    assert s[k + |z|..] == " )";
  }

  /** `FacultyString` read as `( | `, the three parenthesised references
      separated by spaces, and ` )`. */
  lemma FacultyStringSpaced(a: string, b: string, c: string)
    ensures FacultyString(a, b, c) == "( | " + Paren(a) + " " + Paren(b) + " " + Paren(c) + " )"
  {
  }

  lemma FacultyLayout(a: string, b: string, c: string)
    ensures OrLayout(FacultyString(a, b, c), a, b, c)
  {
    FacultyStringSpaced(a, b, c);
    SpacedOrLayout(Paren(a), Paren(b), Paren(c));
  }

  /** In the faculty filter the faculty, staff and dcc references follow the
      leading `( | `, each in its own parentheses, one after the other and
      separated by one space, before the closing ` )`. */
  lemma FacultyReferencesInOrder(g: string -> string)
    ensures QuotaQuery(g, "faculty").Some?
    ensures OrLayout(QuotaQuery(g, "faculty").value[0], g("ual-faculty"), g("ual-staff"), g("ual-dcc"))
  {
    var a, b, c := g("ual-faculty"), g("ual-staff"), g("ual-dcc");
    FacultyFilter(g);
    assert QuotaQuery(g, "faculty").value[0] == FacultyString(a, b, c);
    FacultyLayout(a, b, c);
  }

  /** Three balanced references make a balanced faculty filter. */
  lemma FacultyBalanced(a: string, b: string, c: string)
    requires Balanced(a) && Balanced(b) && Balanced(c)
    ensures Balanced(FacultyString(a, b, c))
  {
    // scanned left to right, the depth is 2 around each reference
    RunShift(a, 0, 2);
    RunShift(b, 0, 2);
    RunShift(c, 0, 2);
    assert Run("( | (", 0) == Some(2);
    assert Run(") (", 2) == Some(2);
    assert Run(") )", 2) == Some(0);
    var s1 := "( | (" + a;
    RunConcat("( | (", a, 0);
    var s2 := s1 + ") (";
    RunConcat(s1, ") (", 0);
    var s3 := s2 + b;
    RunConcat(s2, b, 0);
    var s4 := s3 + ") (";
    RunConcat(s3, ") (", 0);
    var s5 := s4 + c;
    RunConcat(s4, c, 0);
    RunConcat(s5, ") )", 0);
  }

  /** Every filter the query builds opens with `(` and closes with `)`. */
  lemma QuotaQueryParenthesized(g: string -> string, ualClass: string)
    ensures QuotaQuery(g, ualClass).Some? ==>
      var s := QuotaQuery(g, ualClass).value[0];
      |s| >= 2 && s[0] == '(' && s[|s| - 1] == ')'
  {
    if ualClass == "faculty" {
      FacultyFilter(g);
    } else if ualClass == "grad" {
      GradFilter(g);
    } else if ualClass == "ugrad" {
      UgradFilter(g);
    }
  }

  /** If every group reference the tag uses has balanced parentheses, so
      does the filter built from them. */
  lemma QuotaQueryBalanced(g: string -> string, ualClass: string)
    requires forall key :: key in GroupKeys(ualClass) ==> Balanced(g(key))
    ensures QuotaQuery(g, ualClass).Some? ==> Balanced(QuotaQuery(g, ualClass).value[0])
  {
    if ualClass == "faculty" {
      var a, b, c := g("ual-faculty"), g("ual-staff"), g("ual-dcc");
      assert Balanced(a) && Balanced(b) && Balanced(c) by {
        assert GroupKeys(ualClass)[0] == "ual-faculty";
        assert GroupKeys(ualClass)[1] == "ual-staff";
        assert GroupKeys(ualClass)[2] == "ual-dcc";
      }
      FacultyFilter(g);
      assert QuotaQuery(g, ualClass).value[0] == FacultyString(a, b, c);
      FacultyBalanced(a, b, c);
    } else if ualClass == "grad" {
      GradFilter(g);
      assert GroupKeys(ualClass)[0] == "ual-grads";
      BalancedWrap(g("ual-grads"));
    } else if ualClass == "ugrad" {
      UgradFilter(g);
      assert GroupKeys(ualClass)[0] == "ual-ugrads";
      BalancedWrap(g("ual-ugrads"));
    }
  }

  /** The converse of QuotaQueryBalanced fails: unbalanced references can
      still make a balanced faculty filter. */
  lemma BalancedFilterFromUnbalancedReferences()
    ensures !Balanced("a)") && !Balanced("(b")
    ensures Balanced(FacultyString("a)", "(b", "c"))
  {
    assert Run("a)", 0) == None;
    assert Run("(b", 0) == Some(1);
    // the depth after each piece of the faculty string: 2, 1, 1, 2, 2, 2, 0
    var s1 := "( | (" + "a)";
    RunConcat("( | (", "a)", 0);
    var s2 := s1 + ") (";
    RunConcat(s1, ") (", 0);
    var s3 := s2 + "(b";
    RunConcat(s2, "(b", 0);
    var s4 := s3 + ") (";
    RunConcat(s3, ") (", 0);
    var s5 := s4 + "c";
    RunConcat(s4, "c", 0);
    RunConcat(s5, ") )", 0);
  }

  /** The query looks at the collaborator only on the tag's own group keys:
      two collaborators that agree there give the same result. */
  lemma QuotaQueryDependsOnlyOnKeys(g1: string -> string, g2: string -> string, ualClass: string)
    requires forall key :: key in GroupKeys(ualClass) ==> g1(key) == g2(key)
    ensures QuotaQuery(g1, ualClass) == QuotaQuery(g2, ualClass)
  {
    var keys := GroupKeys(ualClass);
    if ualClass == "faculty" {
      assert keys[0] == "ual-faculty" && keys[1] == "ual-staff" && keys[2] == "ual-dcc";
    } else if ualClass == "grad" || ualClass == "ugrad" {
      assert keys[0] in keys;
    }
  }
}
