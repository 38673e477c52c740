# Quota-tier LDAP filter builder

A Dafny model of `ual_ldap_quota_query` from the UAL patron data repository.
Given a classification tag, the function builds the LDAP search filter that
selects the patrons of one default quota tier:

- `faculty`: the OR of the faculty, staff and dcc groups,
  `( | (<faculty>) (<staff>) (<dcc>) )`;
- `grad`: the graduate-students group, `(<grads>)`;
- `ugrad`: the undergraduate-students group, `(<ugrads>)`.

The filter comes back as a one-element list. Any other tag gets no filter:
the function returns Python's `None`.

The group references come from the collaborator `ual_grouper_base`, whose
code is not part of this model. It is the parameter `g: string -> string` of
`QuotaQuery` and of every lemma about it, so each property holds for every
deterministic collaborator.
Because `g` is a Dafny function, repeated calls with the same tag and the
same `g` agree by construction. `QuotaQueryDependsOnlyOnKeys` states the
stronger fact that only `g`'s values on the tag's own group keys matter.

Modules:

- `Wrappers`: `Option`, with `None` standing for the bare `return`.
- `StrFormat`: Python's `str.format` for a template with one `{}`
  placeholder, which is how the source splices each reference in.
- `Parens`: balanced parentheses. `Run` scans a string and tracks the
  nesting depth, and `RunDefinedIff` and `BalancedIff` tie it to prefix
  counts of `(` and `)`.
- `Quota`: the query and its properties.

The source checks the allow-list first and then runs three separate `if`
statements. Once a tag passes the allow-list, exactly one of them applies,
so the model writes them as one `if`/`else` chain.

An invalid tag is not an error: the function prints two lines and returns
`None`. The model takes the tag as any string and returns `None` for one
outside the allow-list.

## Model

| member | source | states |
|---|---|---|
| `Quota.QuotaQuery` | tests/quota.py:26-42 | The result is `None` exactly when the tag is not one of `faculty`, `grad`, `ugrad`. Otherwise it is a list of exactly one filter. |
| `Quota.FacultyFilter` | tests/quota.py:31-34 | The faculty filter is exactly `FacultyString` of the faculty, staff and dcc references, that is `"( \| (" + g("ual-faculty") + ") (" + g("ual-staff") + ") (" + g("ual-dcc") + ") )"`, spaces included. |
| `Quota.GradFilter` | tests/quota.py:36-37 | The grad filter is exactly `"(" + g("ual-grads") + ")"`. |
| `Quota.UgradFilter` | tests/quota.py:39-40 | The ugrad filter is exactly `"(" + g("ual-ugrads") + ")"`. |
| `Quota.FacultyReferencesInOrder` | tests/quota.py:32-34 | The faculty filter is `( \| `, then the faculty, staff and dcc references, each in its own parentheses and at a stated index, in that order and separated by single spaces, then ` )`. |
| `Quota.FacultyLayout` | tests/quota.py:32-34 | The same layout, stated for any three references. |
| `Quota.QuotaQueryParenthesized` | tests/quota.py:31-40 | Every filter the query builds has length at least 2, starts with `(` and ends with `)`. |
| `Quota.QuotaQueryBalanced` | tests/quota.py:31-40 | If every group reference the tag uses has balanced parentheses, the filter has balanced parentheses. |
| `Quota.FacultyBalanced` | tests/quota.py:32-34 | Three balanced references give a balanced faculty filter. |
| `Quota.BalancedFilterFromUnbalancedReferences` | tests/quota.py:32-34 | The converse of `QuotaQueryBalanced` fails. The references `a)` and `(b` are unbalanced, yet the faculty filter built from them is balanced. |
| `Quota.QuotaQueryDependsOnlyOnKeys` | tests/quota.py:31-40 | Two collaborators that agree on the tag's group keys give the same result. Each tag uses only its own keys. |
| `StrFormat.FormatSplice` | tests/quota.py:32-40 | Formatting `prefix + "{}" + suffix` puts the argument where the placeholder was, when the prefix holds no `{`. |
| `Parens.Run` | tests/quota.py:7-8 | A successful scan ends at the start depth plus the number of `(` minus the number of `)`. |
| `Parens.RunDefinedIff` | tests/quota.py:7-8 | A scan from depth `d` succeeds exactly when no prefix closes more than `d` parentheses beyond those it opens. |
| `Parens.BalancedIff` | tests/quota.py:7-8 | A string is balanced exactly when it has as many `(` as `)` and no prefix has more `)` than `(`. |
| `Parens.RunConcat` | tests/quota.py:7-8 | Scanning `a + b` means scanning `a`, then scanning `b` from the depth `a` ends at. |
| `Parens.RunShift` | tests/quota.py:7-8 | A scan that succeeds from depth `d` succeeds from any deeper start, ending that much deeper. |
| `Parens.RunNeutral` | tests/quota.py:7-8 | Text without parentheses leaves the depth unchanged. |
| `Parens.BalancedConcat` | tests/quota.py:7-8 | Joining two balanced strings gives a balanced string. |
| `Parens.BalancedWrap` | tests/quota.py:7-8 | Wrapping a balanced string in one pair of parentheses keeps it balanced. |

## Left out

- The two `print` diagnostics for an invalid tag (tests/quota.py:27-28) are console output. Only the `None` result is modelled.
- The body of `ual_grouper_base`, imported from `ldap_connection`, is not part of this model. It is the parameter `g`, assumed deterministic and free of side effects.
- The LDAP connection and `ldap_connection.ldap_search`, named in the docstring, are network I/O and are not modelled.
- Conformance to the LDAP filter grammar of section 3 of RFC 4515 is not modelled or claimed. The faculty filter puts spaces between its parenthesised parts, which that grammar does not allow. The shape properties proved are exact string equality and balanced parentheses.
- `QuotaQueryBalanced` is an implication only. `BalancedFilterFromUnbalancedReferences` shows the converse does not hold.
- `StrFormat.Format` covers only templates with a single positional `{}`, which is all the source uses. It does not model brace escapes (`{{`, `}}`), indexed or named fields, format specs, or the errors Python raises for a stray brace. On a template outside that form, `Format` can differ from Python: it copies a `}` or a second `{}` after the first placeholder as they are.
- Only string tags are modelled. In Python, a value of another type also fails the allow-list test and yields `None`.
