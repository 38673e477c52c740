/**
 * Balanced parentheses, the shape every LDAP filter has: each `(` is closed
 * by a later `)` and no `)` closes nothing.
 */
module Parens {
  import opened Wrappers

  /** How a character changes the nesting depth. */
  function Delta(c: char): int {
    if c == '(' then 1 else if c == ')' then -1 else 0
  }

  /** Number of `(` minus number of `)` in `s`. */
  function Net(s: string): int {
    if s == [] then 0 else Delta(s[0]) + Net(s[1..])
  }

  /** Scans `s` left to right starting at depth `d`: the depth reached at
      the end, or `None` as soon as a `)` closes nothing. */
  function Run(s: string, d: nat): (r: Option<nat>)
    ensures r.Some? ==> r.value == d + Net(s)
  {
    if s == [] then Some(d)
    else if s[0] == '(' then Run(s[1..], d + 1)
    else if s[0] == ')' then (if d == 0 then None else Run(s[1..], d - 1))
    else Run(s[1..], d)
  }

  predicate Balanced(s: string) {
    Run(s, 0) == Some(0)
  }

  lemma NetPrefixStep(s: string, k: nat)
    requires 1 <= k <= |s|
    ensures Net(s[..k]) == Delta(s[0]) + Net(s[1..][..k - 1])
  {
    assert s[..k][0] == s[0];
    assert s[..k][1..] == s[1..][..k - 1];
  }

  /** The scan succeeds exactly when no prefix of `s` closes more than the
      `d` parentheses already open. */
  lemma {:induction false} RunDefinedIff(s: string, d: nat)
    ensures Run(s, d).Some? <==> forall k :: 0 <= k <= |s| ==> d + Net(s[..k]) >= 0
    decreases |s|
  {
    if s == [] {
      assert forall k :: 0 <= k <= |s| ==> s[..k] == [];
    } else {
      var t := s[1..];
      assert s[..0] == [];
      forall k | 1 <= k <= |s|
        ensures Net(s[..k]) == Delta(s[0]) + Net(t[..k - 1])
      {
        NetPrefixStep(s, k);
      }
      if d + Delta(s[0]) < 0 {
        assert t[..0] == [];
        assert d + Net(s[..1]) < 0;
      } else {
        var d': nat := d + Delta(s[0]);
        assert Run(s, d) == Run(t, d');
        RunDefinedIff(t, d');
        if forall j :: 0 <= j <= |t| ==> d' + Net(t[..j]) >= 0 {
          forall k | 0 <= k <= |s| ensures d + Net(s[..k]) >= 0 {
            if k >= 1 {
              assert d' + Net(t[..k - 1]) >= 0;
            }
          }
        } else {
          var j :| 0 <= j <= |t| && d' + Net(t[..j]) < 0;
          assert d + Net(s[..j + 1]) < 0;
        }
      }
    }
  }

  /** Balanced means: equally many `(` and `)`, and no prefix with more `)`
      than `(`. */
  lemma BalancedIff(s: string)
    ensures Balanced(s) <==> Net(s) == 0 && forall k :: 0 <= k <= |s| ==> Net(s[..k]) >= 0
  {
    RunDefinedIff(s, 0);
  }

  /** Scanning a concatenation scans the first part, then the second from
      the depth the first part left. */
  lemma {:induction false} RunConcat(a: string, b: string, d: nat)
    ensures Run(a + b, d) == match Run(a, d) case None => None case Some(e) => Run(b, e)
    decreases |a|
  {
    if a == [] {
      assert a + b == b;
    } else {
      assert (a + b)[0] == a[0];
      assert (a + b)[1..] == a[1..] + b;
      if a[0] == '(' {
        RunConcat(a[1..], b, d + 1);
      } else if a[0] == ')' {
        if d > 0 {
          RunConcat(a[1..], b, d - 1);
        }
      } else {
        RunConcat(a[1..], b, d);
      }
    }
  }

  /** A scan that succeeds from depth `d` succeeds the same way from any
      deeper start. */
  lemma {:induction false} RunShift(s: string, d: nat, k: nat)
    requires Run(s, d).Some?
    ensures Run(s, d + k) == Some(Run(s, d).value + k)
    decreases |s|
  {
    if s != [] {
      if s[0] == '(' {
        RunShift(s[1..], d + 1, k);
      } else if s[0] == ')' {
        RunShift(s[1..], d - 1, k);
      } else {
        RunShift(s[1..], d, k);
      }
    }
  }

  /** Text without parentheses leaves the depth where it was. */
  lemma {:induction false} RunNeutral(s: string, d: nat)
    requires '(' !in s && ')' !in s
    ensures Run(s, d) == Some(d)
    decreases |s|
  {
    if s != [] {
      assert s[0] in s;
      assert forall c :: c in s[1..] ==> c in s;
      RunNeutral(s[1..], d);
    }
  }

  lemma BalancedConcat(a: string, b: string)
    requires Balanced(a) && Balanced(b)
    ensures Balanced(a + b)
  {
    RunConcat(a, b, 0);
  }

  /** Wrapping a balanced string in one pair of parentheses keeps it balanced. */
  lemma BalancedWrap(a: string)
    requires Balanced(a)
    ensures Balanced("(" + a + ")")
  {
    var s := "(" + a + ")";
    assert s[0] == '(';
    assert s[1..] == a + ")";
    RunShift(a, 0, 1);
    RunConcat(a, ")", 1);
  }

  lemma BalancedNeutral(s: string)
    requires '(' !in s && ')' !in s
    ensures Balanced(s)
  {
    RunNeutral(s, 0);
  }
}
