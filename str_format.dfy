/**
 * Python's `str.format` as the quota query uses it: a template holding one
 * positional placeholder `{}` and a single string argument.
 */
module StrFormat {

  /** Replaces the first `{}` of `template` by `arg`. */
  function Format(template: string, arg: string): string
    decreases |template|
  {
    if |template| < 2 then template
    else if template[0] == '{' && template[1] == '}' then arg + template[2..]
    else [template[0]] + Format(template[1..], arg)
  }

  /** A template that starts with the placeholder. */
  lemma FormatAtPlaceholder(suffix: string, arg: string)
    ensures Format("{}" + suffix, arg) == arg + suffix
  {
    var t := "{}" + suffix;
    assert t[0] == '{' && t[1] == '}';
    assert t[2..] == suffix;
  }

  /** A leading character other than `{` is copied. */
  lemma FormatCopies(c: char, rest: string, arg: string)
    requires c != '{'
    ensures Format([c] + rest, arg) == [c] + Format(rest, arg)
  {
    var t := [c] + rest;
    assert t[0] == c;
    assert t[1..] == rest;
  }

  /** `Format` of `prefix + "{}" + suffix` splices the argument in place of
      the placeholder and copies the suffix as it is. */
  lemma {:induction false} FormatSplice(prefix: string, suffix: string, arg: string)
    requires '{' !in prefix
    ensures Format(prefix + "{}" + suffix, arg) == prefix + arg + suffix
    decreases |prefix|
  {
    if prefix == [] {
      assert prefix + "{}" + suffix == "{}" + suffix;
      FormatAtPlaceholder(suffix, arg);
    } else {
      var c, rest := prefix[0], prefix[1..];
      assert prefix == [c] + rest;
      assert prefix + "{}" + suffix == [c] + (rest + "{}" + suffix);
      FormatCopies(c, rest + "{}" + suffix, arg);
      FormatSplice(rest, suffix, arg);
      assert [c] + (rest + arg + suffix) == prefix + arg + suffix;
    }
  }
}
